/** How the pieces of the portal fit together, or fail to: the two status rules, the picture
    checks on the intake page and on the server, where the intake page posts to, and whether a
    photo stored by an add is the one a delete removes. */
module Consistency {
  import opened Wrappers
  import opened Text
  import opened Backend
  import opened SupabaseService
  import opened ExcelExport
  import HrDashboard
  import IntakeForm
  import Server

  // ---------------------------------------------------------------------------
  // Status

  /** The dashboard's rule and the export's rule disagree on exactly one exit date: the
      "Still Working" sentinel. */
  lemma StatusRulesDiverge(exitDate: Option<string>)
    ensures HrDashboard.IsExited(exitDate) != HasExited(exitDate) <==> exitDate == Some(StillWorking)
    ensures exitDate != Some(StillWorking) ==> (HrDashboard.IsExited(exitDate) <==> HasExited(exitDate))
  {
  }

  /** A record whose exit date is the sentinel shows as Active, with the exit button, on the
      dashboard, and as "Exited" with the sentinel in its Exit Date cell in the export. */
  lemma SentinelRecordShownTwoWays(r: StaffRecord, localize: nat -> string)
    requires r.exitDate == Some(StillWorking)
    ensures HrDashboard.RenderRow(r).status == HrDashboard.Active && HrDashboard.RenderRow(r).offersExit
    ensures ExportRow(r, localize)[ExcelExport.StatusColumn] == "Exited"
    ensures ExportRow(r, localize)[ExcelExport.ExitDateColumn] == StillWorking
  {
    assert StillWorking != "";
  }

  // ---------------------------------------------------------------------------
  // Pictures

  /** The intake page accepts a picture exactly when the server's upload step would: same three
      types, same 5 MiB bound. */
  lemma PictureChecksAgree(f: IntakeForm.PictureFile, content: Bytes)
    requires |content| == f.size
    ensures IntakeForm.PictureAcceptable(f) <==>
      Server.MulterError(Server.FilePart(f.name, f.mimeType, content)).None?
  {
    assert IntakeForm.PictureTypes == Server.AllowedMimeTypes;
  }

  /** A picture of a refused type is answered 500 with the filter's message, not 400. */
  lemma RefusedTypeIsServerError(part: Server.FilePart)
    requires part.mimetype !in Server.AllowedMimeTypes
    ensures var r := Server.ErrorHandler(Server.MulterError(part).value);
      r.status == 500 && r.body == Server.Json(Server.ErrorJson(Server.InvalidFileType))
  {
  }

  // ---------------------------------------------------------------------------
  // Where the intake page posts

  /** What the intake page's `fetch` sees of a server response: `ok` for a 2xx status, and a
      JSON body or one that `response.json()` cannot parse. */
  function SeenByPage(r: Server.HttpResponse): (seen: IntakeForm.Response)
    ensures seen.ok <==> 200 <= r.status < 300
    ensures seen.body.NotJson? <==> !r.body.Json?
  {
    var body :=
      if !r.body.Json? then IntakeForm.NotJson
      else if r.body.value.ErrorJson? then IntakeForm.JsonObject(None, Some(r.body.value.error))
      else if r.body.value.MessageJson? then IntakeForm.JsonObject(Some(r.body.value.message), None)
      else IntakeForm.JsonObject(None, None);
    IntakeForm.Response(200 <= r.status < 300, body)
  }

  /** A path of two segments without separators in them splits into those two segments. */
  lemma TwoSegments(a: string, b: string)
    requires '/' !in a && '/' !in b && b != ""
    ensures Server.RouteSegments(['/'] + a + ['/'] + b) == Some([a, b])
  {
    assert ['/'] + a + ['/'] + b == [] + ['/'] + (a + ['/'] + b);
    SplitConcat([], a + ['/'] + b, '/');
    SplitConcat(a, b, '/');
    assert Split(['/'] + a + ['/'] + b, '/') == ["", a, b];
  }

  lemma SubmitPathSegments()
    ensures Server.RouteSegments(IntakeForm.SubmitPath) == Some(["api", "submit-staff"])
  {
    var a, b := "api", "submit-staff";
    assert '/' !in a;
    assert '/' !in b && b != "";
    assert IntakeForm.SubmitPath == ['/'] + a + ['/'] + b;
    TwoSegments(a, b);
  }

  /** A POST to a two-segment path whose second segment is not `staff` in any case reaches no
      handler. */
  lemma PostUnrouted(path: string, second: string, staticFiles: set<string>)
    requires Server.RouteSegments(path) == Some(["api", second])
    requires Lower(second) != "staff"
    ensures Server.Dispatch("POST", path, staticFiles) == Server.NoRoute
  {
    assert !Server.PathIs(path, Server.AddStaffPath) by {
      assert Server.AddStaffPath[1] == "staff";
    }
    assert Server.StaffIdOf(path).None?;
  }

  /** The intake page posts to `/api/submit-staff`, which no route handles: the server answers
      with its HTML "not found" page, the page's `response.json()` throws, and the page shows its
      connection error although the server is up. */
  lemma SubmitPathUnrouted(staticFiles: set<string>)
    ensures Server.Dispatch("POST", IntakeForm.SubmitPath, staticFiles) == Server.NoRoute
    ensures var seen := SeenByPage(Server.NotFound("POST", IntakeForm.SubmitPath));
      IntakeForm.Outcome(Some(seen)).title == "Connection Error"
  {
    SubmitPathSegments();
    var second := "submit-staff";
    assert Lower(second) != "staff" by {
      assert |Lower(second)| == |second| != 5;
    }
    PostUnrouted(IntakeForm.SubmitPath, second, staticFiles);
  }

  // ---------------------------------------------------------------------------
  // Photos found again

  /** A key built from a name token of letters, digits and `_`, and an extension of URL-safe
      characters without `/`, is a single URL-safe path segment. */
  lemma StorageKeyIsObjectPath(token: string, timestamp: nat, ext: string)
    requires forall k :: 0 <= k < |token| ==> IsAsciiAlnum(token[k]) || token[k] == '_'
    requires forall k :: 0 <= k < |ext| ==> IsUrlPathChar(ext[k]) && ext[k] != '/'
    ensures var key := StorageKey(token, timestamp, ext);
      key != "" && IsObjectPath(key) && '/' !in key
  {
    var digits := NatToString(timestamp);
    var key := StorageKey(token, timestamp, ext);
    assert key == token + "_" + digits + "." + ext;
    forall k | 0 <= k < |key| ensures IsUrlPathChar(key[k]) && key[k] != '/' {
      if k < |token| {
        assert key[k] == token[k];
      } else if k == |token| {
      } else if k < |token| + 1 + |digits| {
        assert key[k] == digits[k - |token| - 1];
      } else if k == |token| + 1 + |digits| {
      } else {
        assert key[k] == ext[k - |token| - 2 - |digits|];
      }
    }
    assert Split(key, '/') == [key];
  }

  /** The photo an add stores is the one a later delete of that record removes: the public URL
      saved with the row parses back to the photo bucket and the upload key. */
  lemma UploadedPhotoIsDeleted(base: string, fullName: string, timestamp: nat, originalName: string)
    requires IsOrigin(base)
    requires var ext := FileExtension(originalName);
      forall k :: 0 <= k < |ext| ==> IsUrlPathChar(ext[k]) && ext[k] != '/'
    ensures var key := UploadKey(fullName, timestamp, originalName);
      CleanupTarget(Some(PublicUrl(base, PhotoBucket, key))) == Some((PhotoBucket, key))
  {
    var san := Sanitize(fullName);
    assert forall k :: 0 <= k < |san| ==> IsAsciiAlnum(san[k]) || san[k] == '_' by {
      forall k | 0 <= k < |san| ensures IsAsciiAlnum(san[k]) || san[k] == '_' {
        assert IsKeyChar(san[k]);
      }
    }
    var key := UploadKey(fullName, timestamp, originalName);
    StorageKeyIsObjectPath(san, timestamp, FileExtension(originalName));
    BucketIsSegment();
    PictureUrlRoundTrip(base, PhotoBucket, key);
  }

  /** The replacement photo an edit stores is found again the same way. */
  lemma EditedPhotoIsDeleted(base: string, name: string, timestamp: nat, fileName: string)
    requires IsOrigin(base)
    requires var ext := FileExtension(fileName);
      forall k :: 0 <= k < |ext| ==> IsUrlPathChar(ext[k]) && ext[k] != '/'
    ensures var key := HrDashboard.EditKey(name, timestamp, fileName);
      CleanupTarget(Some(PublicUrl(base, PhotoBucket, key))) == Some((PhotoBucket, key))
  {
    var token := "updated_" + Underscored(name);
    forall k | 0 <= k < |token| ensures IsAsciiAlnum(token[k]) || token[k] == '_' {
      if k >= 8 {
        assert token[k] == Underscored(name)[k - 8];
      }
    }
    var key := HrDashboard.EditKey(name, timestamp, fileName);
    StorageKeyIsObjectPath(token, timestamp, FileExtension(fileName));
    BucketIsSegment();
    PictureUrlRoundTrip(base, PhotoBucket, key);
  }

  lemma BucketIsSegment()
    ensures IsSegment(PhotoBucket)
  {
    var b := PhotoBucket;
    assert b == ['s', 't', 'a', 'f', 'f', '-', 'p', 'h', 'o', 't', 'o', 's'];
  }
}
