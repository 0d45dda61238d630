/** The Express server (server.js): which handler a request reaches, the multer upload step
    (type filter, 5 MiB limit, staging the file in the uploads directory), the add-staff handler
    that uploads, saves and removes the staged file, the update stub, the configuration route and
    the Excel export route. The uploads directory is a map from file path to contents. */
module Server {
  import opened Wrappers
  import opened Text
  import opened Backend
  import opened SupabaseService
  import opened ExcelExport

  // ---------------------------------------------------------------------------
  // Routing

  /** Where a request ends up. Middleware runs in registration order: `cors()` answers every
      preflight, `express.static` serves existing files for GET and HEAD, then the routes. */
  datatype Route =
    | Preflight
    | StaticFile(path: string)
    | ConfigRoute
    | AddStaffRoute
    | UpdateStaffRoute(id: string)
    | ExportRoute
    | NoRoute

  /** The segments of a path after its leading `/`, with one trailing `/` ignored (Express routes
      are not strict about it); `None` when the path does not start with `/`. */
  function RouteSegments(path: string): (r: Option<seq<string>>)
    ensures r.Some? ==> |path| >= 1 && path[0] == '/'
  {
    var parts := Split(path, '/');
    if parts[0] != "" || |parts| < 2 then None
    else if parts[|parts| - 1] == "" && |parts| > 2 then Some(parts[1..|parts| - 1])
    else Some(parts[1..])
  }

  /** A route pattern without parameters matches when the segments agree, ignoring ASCII case
      (Express routes are case-insensitive by default). */
  predicate PathIs(path: string, pattern: seq<string>)
  {
    var segs := RouteSegments(path);
    && segs.Some? && |segs.value| == |pattern|
    && forall k :: 0 <= k < |pattern| ==> Lower(segs.value[k]) == pattern[k]
  }

  /** `/api/staff/:id`: the third segment is the id. */
  function StaffIdOf(path: string): Option<string>
  {
    var segs := RouteSegments(path);
    if segs.Some? && |segs.value| == 3 && Lower(segs.value[0]) == "api" && Lower(segs.value[1]) == "staff"
       && segs.value[2] != ""
    then Some(segs.value[2])
    else None
  }

  const AddStaffPath: seq<string> := ["api", "staff"]
  const ConfigPath: seq<string> := ["api", "config"]
  const ExportPath: seq<string> := ["api", "admin", "export-excel"]

  predicate IsRead(verb: string)
  {
    verb == "GET" || verb == "HEAD"
  }

  /** The handler a request reaches; `staticFiles` are the paths `express.static` can serve. */
  function Dispatch(verb: string, path: string, staticFiles: set<string>): (r: Route)
    ensures r == AddStaffRoute <==> verb == "POST" && PathIs(path, AddStaffPath)
    ensures r.UpdateStaffRoute? <==> verb == "PUT" && StaffIdOf(path).Some?
    ensures r.UpdateStaffRoute? ==> r.id == StaffIdOf(path).value
    ensures r.StaticFile? <==> IsRead(verb) && path in staticFiles
    ensures r.StaticFile? ==> r.path == path
    ensures r == ConfigRoute <==> IsRead(verb) && path !in staticFiles && PathIs(path, ConfigPath)
    ensures r == ExportRoute <==> IsRead(verb) && path !in staticFiles && PathIs(path, ExportPath)
    ensures r == Preflight <==> verb == "OPTIONS"
  {
    if verb == "OPTIONS" then Preflight
    else if IsRead(verb) && path in staticFiles then StaticFile(path)
    else if IsRead(verb) && PathIs(path, ConfigPath) then ConfigRoute
    else if verb == "POST" && PathIs(path, AddStaffPath) then AddStaffRoute
    else if verb == "PUT" && StaffIdOf(path).Some? then UpdateStaffRoute(StaffIdOf(path).value)
    else if IsRead(verb) && PathIs(path, ExportPath) then ExportRoute
    else NoRoute
  }

  // ---------------------------------------------------------------------------
  // Responses

  datatype JsonValue =
    | ErrorJson(error: string)
    | AddedJson(success: bool, data: StaffRecord)
    | ConfigJson(supabaseUrl: Option<string>, supabaseKey: Option<string>)
    | MessageJson(message: string)

  datatype Body =
    | Json(value: JsonValue)
    | PlainText(text: string)
    /** An xlsx attachment: its content type, its disposition and the workbook inside it. */
    | Attachment(contentType: string, disposition: string, workbook: Workbook)
    /** The HTML page Express's final handler sends when nothing answered. */
    | HtmlPage(text: string)

  datatype HttpResponse = HttpResponse(status: nat, body: Body)

  const PictureRequired := "Picture required"
  const InvalidFileType := "Invalid file type. Only JPG and PNG allowed."
  /** The message of multer's `LIMIT_FILE_SIZE` error. */
  const FileTooLarge := "File too large"
  const UpdateNotImplemented := "Update via client-side Supabase recommended"
  const ReportFailed := "Failed to generate report"
  const XlsxContentType := "application/vnd.openxmlformats-officedocument.spreadsheetml.sheet"
  const ExportDisposition := "attachment; filename=Staff_Records.xlsx"

  /** The catch-all error middleware: 500 with the error's message. */
  function ErrorHandler(message: string): HttpResponse
  {
    HttpResponse(500, Json(ErrorJson(message)))
  }

  /** Express's answer when no handler matched: a 404 HTML page, not JSON. */
  function NotFound(verb: string, path: string): (r: HttpResponse)
    ensures r.status == 404 && r.body.HtmlPage?
  {
    HttpResponse(404, HtmlPage("Cannot " + verb + " " + path))
  }

  /** `GET /api/config`: the project URL and the anonymous key. A missing variable is left out of
      the JSON (`None`). */
  function ConfigResponse(env: Env): (r: HttpResponse)
    ensures r.status == 200
    ensures r.body == Json(ConfigJson(env.supabaseUrl, env.supabaseKey))
  {
    HttpResponse(200, Json(ConfigJson(env.supabaseUrl, env.supabaseKey)))
  }

  /** The service-role key never reaches the browser: the configuration answer is the same
      whatever it is, and holds it only where it equals the anonymous key or the URL. */
  lemma ConfigHidesServiceKey(env: Env, otherServiceKey: Option<string>)
    ensures ConfigResponse(env) == ConfigResponse(env.(serviceKey := otherServiceKey))
    ensures var c := ConfigResponse(env).body.value;
      env.serviceKey.Some? && env.serviceKey != env.supabaseKey && env.serviceKey != env.supabaseUrl ==>
        c.supabaseKey != env.serviceKey && c.supabaseUrl != env.serviceKey
  {
  }

  /** `PUT /api/staff/:id`: always 501, whatever the id and body. */
  function UpdateStaffResponse(id: string): (r: HttpResponse)
    ensures r.status == 501 && r.body == Json(MessageJson(UpdateNotImplemented))
  {
    HttpResponse(501, Json(MessageJson(UpdateNotImplemented)))
  }

  // ---------------------------------------------------------------------------
  // The multer upload step

  const MaxUploadBytes := 5 * 1024 * 1024
  const AllowedMimeTypes: set<string> := {"image/jpeg", "image/jpg", "image/png"}

  /** The `staffPicture` part of a multipart request. */
  datatype FilePart = FilePart(originalName: string, mimetype: string, content: Bytes)

  /** Why multer refuses a part: the file filter runs first, then the size limit. */
  function MulterError(part: FilePart): (r: Option<string>)
    ensures r.None? <==> part.mimetype in AllowedMimeTypes && |part.content| <= MaxUploadBytes
    ensures part.mimetype !in AllowedMimeTypes ==> r == Some(InvalidFileType)
    ensures part.mimetype in AllowedMimeTypes && |part.content| > MaxUploadBytes ==> r == Some(FileTooLarge)
  {
    if part.mimetype !in AllowedMimeTypes then Some(InvalidFileType)
    else if |part.content| > MaxUploadBytes then Some(FileTooLarge)
    else None
  }

  /** `path.extname(name)`: from the last `.` of the last path segment, or empty when that
      segment has no `.`, has its last `.` as its first character, or is `..`. */
  function ExtName(name: string): (ext: string)
    ensures ext != "" ==> ext[0] == '.' && '.' !in ext[1..]
  {
    var base := LastPiece(name, '/');
    var after := FileExtension(base);
    if '.' !in base || |base| - |after| - 1 == 0 || base == ".." then "" else "." + after
  }

  /** `'staff-' + Date.now() + '-' + Math.round(Math.random() * 1E9) + path.extname(originalname)`. */
  function TempName(stagedAt: nat, random: nat, originalName: string): string
  {
    "staff-" + NatToString(stagedAt) + "-" + NatToString(random) + ExtName(originalName)
  }

  /** The file multer stages for an accepted part. */
  function Staged(dirPath: string, part: FilePart, stagedAt: nat, random: nat): (f: StagedFile)
    ensures f.originalName == part.originalName && f.mimetype == part.mimetype
    ensures f.size == |part.content|
  {
    StagedFile(part.originalName, part.mimetype, dirPath + "/" + TempName(stagedAt, random, part.originalName),
               |part.content|)
  }

  lemma DigitsAvoid(n: nat, c: char)
    requires !IsDigit(c)
    ensures c !in NatToString(n)
  {
  }

  /** The staged file keeps the extension of the uploaded file's name. */
  lemma TempNameKeepsExtension(stagedAt: nat, random: nat, originalName: string)
    ensures ExtName(TempName(stagedAt, random, originalName)) == ExtName(originalName)
  {
    var e := ExtName(originalName);
    assert '/' !in e by {
      var base := LastPiece(originalName, '/');
      LastPieceIsSuffix(originalName, '/');
      var after := FileExtension(base);
      assert '/' !in after;
    }
    var head := "staff-" + NatToString(stagedAt) + "-" + NatToString(random);
    assert '/' !in head && '.' !in head by {
      DigitsAvoid(stagedAt, '/');
      DigitsAvoid(stagedAt, '.');
      DigitsAvoid(random, '/');
      DigitsAvoid(random, '.');
    }
    ExtNameAfterPlainHead(head, e);
  }

  /** A name with no `/` and whose first dot starts its extension: `path.extname` gives that
      extension back. */
  lemma ExtNameAfterPlainHead(head: string, e: string)
    requires head != "" && '/' !in head && '.' !in head
    requires '/' !in e && (e != "" ==> e[0] == '.' && '.' !in e[1..])
    ensures ExtName(head + e) == e
  {
    if e == "" {
      assert head + e == head;
      ExtNameOfPlain(head);
    } else {
      assert e == "." + e[1..];
      ExtNameOfDotted(head, e[1..]);
    }
  }

  lemma ExtNameOfPlain(name: string)
    requires '/' !in name && '.' !in name
    ensures ExtName(name) == ""
  {
    LastPieceIsSuffix(name, '/');
    assert LastPiece(name, '/') == name;
  }

  lemma ExtNameOfDotted(head: string, after: string)
    requires head != "" && '/' !in head && '.' !in head
    requires '/' !in after && '.' !in after
    ensures ExtName(head + ("." + after)) == "." + after
  {
    var t := head + "." + after;
    assert head + ("." + after) == t;
    assert '/' !in t;
    LastPieceIsSuffix(t, '/');
    assert LastPiece(t, '/') == t;
    ExtensionAfterLastDot(head, after);
    assert '.' in t by { assert t[|head|] == '.'; }
    assert t != ".." by { assert t[0] == head[0]; }
  }

  /** The uploads directory: temp file path -> contents. */
  class UploadsDir {
    const path: string
    var files: map<string, Bytes>

    constructor (path: string)
      ensures this.path == path && files == map[]
    {
      this.path := path;
      files := map[];
    }

    /** Multer's disk storage writes the part under its temp name. */
    method Stage(file: StagedFile, content: Bytes)
      modifies this
      ensures files == old(files)[file.path := content]
    {
      files := files[file.path := content];
    }

    /** `fs.unlinkSync(path)`. */
    method Unlink(file: string)
      requires file in files
      modifies this
      ensures files == old(files) - {file}
    {
      files := files - {file};
    }
  }

  /** The form fields of an add request (`req.body`). */
  datatype StaffForm = StaffForm(
    fullName: string,
    resumptionDate: string,
    location: string,
    designation: string,
    hiringOfficer: string)

  /** The object the handler saves: no exit date, and the uploaded photo's link. */
  function SavedData(form: StaffForm, link: string): (d: StaffData)
    ensures d.exitDate == "" && d.pictureUrl == link
  {
    StaffData(form.fullName, form.resumptionDate, "", form.location, form.designation, form.hiringOfficer, link)
  }

  /** `POST /api/staff` after multer: the picture is required; upload it, save the row with the
      photo's link, then remove the staged file. Any failure is answered 500 with its message,
      after removing the staged file. `stagedAt`/`random` name the temp file, `keyTime` is the
      upload's timestamp and `createdAt` the row's. */
  method PostStaff(dir: UploadsDir, service: Service, remote: Remote, form: StaffForm, part: Option<FilePart>,
                   stagedAt: nat, random: nat, keyTime: nat, createdAt: nat,
                   uploadFault: Option<string>, saveFault: Option<string>) returns (res: HttpResponse)
    requires service.Valid() && remote.Valid()
    modifies dir, service, remote
    ensures service.Valid() && remote.Valid()
    ensures remote.nextId == old(remote.nextId) + (if res.status == 200 then 1 else 0)
    ensures part.None? ==>
      res == HttpResponse(400, Json(ErrorJson(PictureRequired))) && unchanged(remote) && dir.files == old(dir.files)
    ensures part.Some? && MulterError(part.value).Some? ==>
      res == ErrorHandler(MulterError(part.value).value) && unchanged(remote) && dir.files == old(dir.files)
    ensures part.Some? && MulterError(part.value).None? ==>
      && dir.files == old(dir.files) - {Staged(dir.path, part.value, stagedAt, random).path}
      && (!service.CredentialsPresent() ==> res == ErrorHandler(MissingCredentials) && unchanged(remote))
    ensures part.Some? && MulterError(part.value).None? && service.CredentialsPresent() ==>
      var key := UploadKey(form.fullName, keyTime, part.value.originalName);
      var uploaded := uploadFault.None? && !HasObject(old(remote.objects), PhotoBucket, key);
      var row := RowOf(SavedData(form, PublicUrl(service.url.value, PhotoBucket, key)));
      && (!uploaded ==>
            && res == ErrorHandler(UploadFailedPrefix + (if uploadFault.Some? then uploadFault.value else DuplicateMessage))
            && remote.calls == old(remote.calls) + [UploadCall(PhotoBucket, key)]
            && remote.objects == old(remote.objects) && remote.rows == old(remote.rows))
      && (uploaded ==>
            && remote.calls == old(remote.calls) + [UploadCall(PhotoBucket, key), InsertCall(row)]
            && remote.objects == Put(old(remote.objects), PhotoBucket, key, part.value.content)
            && (saveFault.Some? ==> res == ErrorHandler(SaveFailedPrefix + saveFault.value)
                                    && remote.rows == old(remote.rows))
            && (saveFault.None? ==>
                  && res == HttpResponse(200, Json(AddedJson(true, Created(row, old(remote.nextId), createdAt))))
                  && remote.rows == old(remote.rows) + [Created(row, old(remote.nextId), createdAt)]))
  {
    if part.None? {
      return HttpResponse(400, Json(ErrorJson(PictureRequired)));
    }
    var rejected := MulterError(part.value);
    if rejected.Some? {
      return ErrorHandler(rejected.value);
    }
    var file := Staged(dir.path, part.value, stagedAt, random);
    dir.Stage(file, part.value.content);
    var content := dir.files[file.path];
    var saved := UploadThenSave(service, remote, form, file, content, keyTime, createdAt, uploadFault, saveFault);
    dir.Unlink(file.path);
    if saved.Failure? {
      return ErrorHandler(saved.error);
    }
    res := HttpResponse(200, Json(AddedJson(true, saved.value)));
  }

  /** The body of the add handler's `try`: upload the staged photo, then save the row carrying
      its link; the first failure is the handler's error. */
  method UploadThenSave(service: Service, remote: Remote, form: StaffForm, file: StagedFile, content: Bytes,
                        keyTime: nat, createdAt: nat, uploadFault: Option<string>, saveFault: Option<string>)
    returns (r: Result<StaffRecord>)
    requires service.Valid() && remote.Valid()
    modifies service, remote
    ensures service.Valid() && remote.Valid()
    ensures !service.CredentialsPresent() ==> r == Failure(MissingCredentials) && unchanged(remote)
    ensures remote.nextId == old(remote.nextId) + (if r.Success? then 1 else 0)
    ensures service.CredentialsPresent() ==>
      var key := UploadKey(form.fullName, keyTime, file.originalName);
      var uploaded := uploadFault.None? && !HasObject(old(remote.objects), PhotoBucket, key);
      var row := RowOf(SavedData(form, PublicUrl(service.url.value, PhotoBucket, key)));
      && (!uploaded ==>
            && r == Failure(UploadFailedPrefix + (if uploadFault.Some? then uploadFault.value else DuplicateMessage))
            && remote.calls == old(remote.calls) + [UploadCall(PhotoBucket, key)]
            && remote.objects == old(remote.objects) && remote.rows == old(remote.rows))
      && (uploaded ==>
            && remote.calls == old(remote.calls) + [UploadCall(PhotoBucket, key), InsertCall(row)]
            && remote.objects == Put(old(remote.objects), PhotoBucket, key, content)
            && (saveFault.Some? ==> r == Failure(SaveFailedPrefix + saveFault.value)
                                    && remote.rows == old(remote.rows))
            && (saveFault.None? ==>
                  && r == Success(Created(row, old(remote.nextId), createdAt))
                  && remote.rows == old(remote.rows) + [r.value]))
  {
    var uploadResult := service.UploadImage(remote, file, content, form.fullName, keyTime, uploadFault);
    if uploadResult.Failure? {
      return Failure(uploadResult.error);
    }
    r := service.SaveStaffData(remote, SavedData(form, uploadResult.value.shareableLink), createdAt, saveFault);
  }

  /** `GET /api/admin/export-excel`: every record, newest first, as an xlsx attachment; a failure
      to fetch or to build the workbook answers 500 with a fixed text. `exported` is the list the
      workbook was built from. */
  method ExportExcel(service: Service, remote: Remote, localize: nat -> string,
                     fetchFault: Option<string>, generateFault: Option<string>)
    returns (res: HttpResponse, ghost exported: seq<StaffRecord>)
    requires service.Valid()
    modifies service, remote
    ensures service.Valid()
    ensures remote.objects == old(remote.objects) && remote.rows == old(remote.rows)
    ensures remote.nextId == old(remote.nextId)
    ensures remote.calls == old(remote.calls) + (if service.CredentialsPresent() then [SelectCall] else [])
    ensures res.status == 200 <==> service.CredentialsPresent() && fetchFault.None? && generateFault.None?
    ensures res.status != 200 ==> res == HttpResponse(500, PlainText(ReportFailed))
    ensures res.status == 200 ==>
      && SortedByCreatedDesc(exported) && multiset(exported) == multiset(remote.rows)
      && res.body == Attachment(XlsxContentType, ExportDisposition, GenerateExcel(exported, localize, None).value)
  {
    exported := [];
    var staff := service.GetAllStaff(remote, fetchFault);
    if staff.Failure? {
      return HttpResponse(500, PlainText(ReportFailed)), exported;
    }
    exported := staff.value;
    var workbook := GenerateExcel(staff.value, localize, generateFault);
    if workbook.Failure? {
      return HttpResponse(500, PlainText(ReportFailed)), exported;
    }
    res := HttpResponse(200, Attachment(XlsxContentType, ExportDisposition, workbook.value));
  }
}
