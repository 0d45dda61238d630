/** The HR dashboard page (hr_dashboard.js): the staff table with its status rule, the search
    filter over the rendered rows, and the add, edit and mark-exited workflows run with the
    browser's own client. The page-level variables `capturedPhotoBlob` and
    `currentStaffIdForExit` are fields of `Dashboard`. */
module HrDashboard {
  import opened Wrappers
  import opened Text
  import opened Backend
  import opened SupabaseService
  import opened BrowserIntake

  const NoPhotoMessage := "Please upload a picture or take a photo."
  const AddSucceeded := "Success!"
  const UpdateFailedPrefix := "Update failed: "
  const SelectDateMessage := "Please select a date"

  // ---------------------------------------------------------------------------
  // The staff table

  /** The dashboard's rule: exited when the exit date is present, non-empty and not the
      "Still Working" sentinel. */
  predicate IsExited(exitDate: Option<string>)
  {
    exitDate.Some? && exitDate.value != "" && exitDate.value != StillWorking
  }

  datatype Status = Active | Exited

  /** One rendered table row: the record, its status badge, and whether the mark-as-exited button
      is shown. */
  datatype TableRow = TableRow(staff: StaffRecord, status: Status, offersExit: bool)

  /** The table body: the "Loading data..." placeholder, the "Error: …" line of a failed fetch,
      the "No staff records found." message, or one row per record. */
  datatype Table = Loading | LoadFailed(text: string) | NoRecords | Rows(rows: seq<TableRow>)

  const LoadErrorPrefix := "Error: "

  function RenderRow(staff: StaffRecord): TableRow
  {
    var exited := IsExited(staff.exitDate);
    TableRow(staff, if exited then Exited else Active, !exited)
  }

  /** `renderTable(data)`: rows in the order given; the exit action only for rows not exited. */
  function RenderTable(data: seq<StaffRecord>): (t: Table)
    ensures t.NoRecords? <==> data == []
    ensures t.Rows? ==> |t.rows| == |data|
    ensures t.Rows? ==> forall k :: 0 <= k < |data| ==>
      && t.rows[k].staff == data[k]
      && (t.rows[k].status == Exited <==> IsExited(data[k].exitDate))
      && (t.rows[k].offersExit <==> t.rows[k].status == Active)
  {
    if |data| == 0 then NoRecords
    else Rows(seq(|data|, k requires 0 <= k < |data| => RenderRow(data[k])))
  }

  /** What `loadStaffList` leaves in the table body: the fetched rows, newest first, rendered,
      or the fetch's error. */
  function Listed(rows: seq<StaffRecord>, fault: Option<string>): (t: Table)
    ensures fault.Some? <==> t.LoadFailed?
    ensures fault.Some? ==> t.text == LoadErrorPrefix + fault.value
    ensures fault.None? ==> t == RenderTable(SortByCreatedDesc(rows))
  {
    if fault.Some? then LoadFailed(LoadErrorPrefix + fault.value) else RenderTable(SortByCreatedDesc(rows))
  }

  /** The calls an update makes after its own: the list reload, which follows only a success. */
  function Reload(updateFault: Option<string>): seq<Call>
  {
    if updateFault.None? then [SelectCall] else []
  }

  // ---------------------------------------------------------------------------
  // Search

  /** `handleSearch`: each row is shown iff its lower-cased text contains the lower-cased term.
      `texts` are the rows' `textContent`s; `shown[i]` is whether row `i` is displayed. */
  method HandleSearch(texts: seq<string>, term: string, shown: array<bool>)
    requires shown.Length == |texts|
    modifies shown
    ensures forall i :: 0 <= i < |texts| ==> shown[i] == Contains(Lower(texts[i]), Lower(term))
  {
    var needle := Lower(term);
    var i := 0;
    while i < |texts|
      invariant 0 <= i <= |texts|
      invariant forall k :: 0 <= k < i ==> shown[k] == Contains(Lower(texts[k]), needle)
    {
      shown[i] := Contains(Lower(texts[i]), needle);
      i := i + 1;
    }
  }

  /** An empty search term shows every row. */
  lemma EmptyTermShowsAll(text: string)
    ensures Contains(Lower(text), Lower(""))
  {
    assert OccursAt(Lower(text), "", 0);
  }

  /** Search ignores case: a row whose text contains the term, as typed, is shown. */
  lemma MatchingRowIsShown(text: string, term: string, at: nat)
    requires OccursAt(text, term, at)
    ensures Contains(Lower(text), Lower(term))
  {
    var lt := Lower(text);
    assert lt[at..at + |term|] == Lower(text[at..at + |term|]);
    assert OccursAt(lt, Lower(term), at);
  }

  // ---------------------------------------------------------------------------
  // Photo choice and keys

  /** A file picked in the file input. */
  datatype ChosenFile = ChosenFile(name: string, content: Bytes)

  /** The photo an add uploads, with the file name its extension is taken from: a camera capture
      (named "webcam_capture.jpg") wins over a picked file; with neither there is nothing. */
  function PhotoChoice(captured: Option<Bytes>, fileInput: Option<ChosenFile>): (r: Option<(Bytes, string)>)
    ensures r.None? <==> captured.None? && fileInput.None?
    ensures captured.Some? ==> r == Some((captured.value, WebcamFileName))
    ensures captured.None? && fileInput.Some? ==> r == Some((fileInput.value.content, fileInput.value.name))
  {
    if captured.Some? then Some((captured.value, WebcamFileName))
    else if fileInput.Some? then Some((fileInput.value.content, fileInput.value.name))
    else None
  }

  /** The key of a replacement photo: `updated_` + the name with non-alphanumerics replaced, but not
      lower-cased, + `_` + timestamp + `.` + extension. */
  function EditKey(name: string, now: nat, fileName: string): string
  {
    StorageKey("updated_" + Underscored(name), now, FileExtension(fileName))
  }

  /** The edit key differs from the add rule only by its prefix and by keeping upper case:
      lower-casing its name part gives the add rule's sanitised name; its extension is the file's. */
  lemma EditKeyShape(name: string, now: nat, fileName: string)
    ensures var key := EditKey(name, now, fileName);
      && key[..8] == "updated_"
      && Lower(key[8..8 + |name|]) == Sanitize(name)
      && FileExtension(key) == FileExtension(fileName)
  {
    var token := "updated_" + Underscored(name);
    var key := EditKey(name, now, fileName);
    StorageKeyPrefix(token, now, FileExtension(fileName));
    assert key[..8] == token[..8];
    assert key[8..8 + |name|] == token[8..];
    StorageKeyExtension(token, now, FileExtension(fileName));
  }

  // ---------------------------------------------------------------------------
  // Edit and mark-exited patches

  /** The update an edit sends: name, designation and location always; the photo URL only when a
      new photo was uploaded. */
  function EditPatch(name: string, designation: string, location: string, pictureUrl: Option<string>)
    : (p: Patch)
    ensures FullNameColumn in p && p[FullNameColumn] == name
    ensures DesignationColumn in p && p[DesignationColumn] == designation
    ensures LocationColumn in p && p[LocationColumn] == location
    ensures PictureUrlColumn in p <==> pictureUrl.Some?
    ensures pictureUrl.Some? ==> p[PictureUrlColumn] == pictureUrl.value
    ensures p.Keys <= {FullNameColumn, DesignationColumn, LocationColumn, PictureUrlColumn}
  {
    var p := map[FullNameColumn := name, DesignationColumn := designation, LocationColumn := location];
    if pictureUrl.Some? then p[PictureUrlColumn := pictureUrl.value] else p
  }

  /** An edit leaves the resumption date, exit date and hiring officer alone, and keeps the old
      photo URL unless a new photo was uploaded. */
  lemma EditKeepsOtherColumns(r: StaffRecord, name: string, designation: string, location: string,
                              pictureUrl: Option<string>)
    ensures var r' := ApplyPatch(r, EditPatch(name, designation, location, pictureUrl));
      && r'.fullName == name && r'.designation == designation && r'.location == location
      && r'.resumptionDate == r.resumptionDate && r'.exitDate == r.exitDate
      && r'.hiringOfficer == r.hiringOfficer
      && r'.pictureUrl == (if pictureUrl.Some? then pictureUrl.value else r.pictureUrl)
      && r'.id == r.id && r'.createdAt == r.createdAt
  {
    var p := EditPatch(name, designation, location, pictureUrl);
    assert ResumptionDateColumn !in p && ExitDateColumn !in p && HiringOfficerColumn !in p;
  }

  /** Marking a row exited changes its exit date and nothing else; the row then shows as exited
      unless the date typed is the "Still Working" sentinel. */
  lemma MarkExitedRow(r: StaffRecord, date: string)
    requires date != ""
    ensures var r' := ApplyPatch(r, map[ExitDateColumn := date]);
      && r' == r.(exitDate := Some(date))
      && (IsExited(r'.exitDate) <==> date != StillWorking)
  {
    var p := map[ExitDateColumn := date];
    assert FullNameColumn !in p && ResumptionDateColumn !in p && LocationColumn !in p;
    assert DesignationColumn !in p && HiringOfficerColumn !in p && PictureUrlColumn !in p;
  }

  // ---------------------------------------------------------------------------
  // The page state and its handlers

  class Dashboard {
    /** The project URL from `/api/config` the browser client was created with. */
    const base: string
    var capturedPhoto: Option<Bytes>
    var exitTarget: Option<nat>
    /** The text of `#submitStatus`. */
    var statusText: string
    /** The last `alert` shown. */
    var alerted: Option<string>
    /** The body of `#staffTableBody`. */
    var table: Table

    constructor (base: string)
      ensures this.base == base
      ensures capturedPhoto == None && exitTarget == None && statusText == "" && alerted == None
      ensures table == Loading
    {
      this.base := base;
      table := Loading;
      capturedPhoto := None;
      exitTarget := None;
      statusText := "";
      alerted := None;
    }

    /** The capture callback stores the camera's JPEG blob. */
    method CapturePhoto(blob: Bytes)
      modifies this
      ensures capturedPhoto == Some(blob)
      ensures exitTarget == old(exitTarget) && statusText == old(statusText) && alerted == old(alerted) && table == old(table)
    {
      capturedPhoto := Some(blob);
    }

    /** `retakePhoto` drops the capture. */
    method RetakePhoto()
      modifies this
      ensures capturedPhoto == None
      ensures exitTarget == old(exitTarget) && statusText == old(statusText) && alerted == old(alerted) && table == old(table)
    {
      capturedPhoto := None;
    }

    /** `handleAddStaff`: choose the photo, then upload it and insert the row. Without a photo
        nothing remote happens; after a success the capture is cleared. */
    method HandleAddStaff(remote: Remote, fields: FormFields, stillWorking: bool,
                          fileInput: Option<ChosenFile>, now: nat, createdAt: nat,
                          uploadFault: Option<string>, insertFault: Option<string>)
      returns (err: Option<string>)
      requires remote.Valid()
      modifies this, remote
      ensures remote.Valid()
      ensures exitTarget == old(exitTarget) && alerted == old(alerted) && table == old(table)
      ensures statusText == if err.None? then AddSucceeded else err.value
      ensures capturedPhoto == if err.None? then None else old(capturedPhoto)
      ensures PhotoChoice(old(capturedPhoto), fileInput).None? ==>
        err == Some(NoPhotoMessage) && unchanged(remote)
      ensures PhotoChoice(old(capturedPhoto), fileInput).Some? ==>
        var (photo, fileName) := PhotoChoice(old(capturedPhoto), fileInput).value;
        var key := AddKey(fields.fullName, now, Some(fileName));
        var row := AddedRow(fields, stillWorking, PublicUrl(base, PhotoBucket, key));
        var uploaded := uploadFault.None? && !HasObject(old(remote.objects), PhotoBucket, key);
        && (!uploaded ==>
              && err == Some(ImageUploadFailedPrefix + (if uploadFault.Some? then uploadFault.value else DuplicateMessage))
              && remote.calls == old(remote.calls) + [UploadCall(PhotoBucket, key)]
              && remote.objects == old(remote.objects)
              && remote.rows == old(remote.rows) && remote.nextId == old(remote.nextId))
        && (uploaded ==>
              && remote.calls == old(remote.calls) + [UploadCall(PhotoBucket, key), InsertCall(row)]
              && remote.objects == Put(old(remote.objects), PhotoBucket, key, photo)
              && (err.None? <==> insertFault.None?)
              && (err.None? ==> remote.rows == old(remote.rows) + [Created(row, old(remote.nextId), createdAt)]
                                && remote.nextId == old(remote.nextId) + 1)
              && (err.Some? ==> err == Some(DatabaseSaveFailedPrefix + insertFault.value)
                                && remote.rows == old(remote.rows) && remote.nextId == old(remote.nextId)))
    {
      var choice := PhotoChoice(capturedPhoto, fileInput);
      if choice.None? {
        err := Some(NoPhotoMessage);
        statusText := err.value;
        return;
      }
      var (photo, fileName) := choice.value;
      err := UploadThenInsert(remote, base, fields, stillWorking, photo, Some(fileName), now, createdAt,
                              uploadFault, insertFault);
      if err.Some? {
        statusText := err.value;
      } else {
        statusText := AddSucceeded;
        capturedPhoto := None;
      }
    }

    /** `handleEditStaff`: upload a new photo if one was picked, then send the partial update.
        Any error is alerted as "Update failed: …"; a failed upload sends no update. */
    method HandleEditStaff(remote: Remote, id: nat, name: string, designation: string, location: string,
                           newFile: Option<ChosenFile>, now: nat,
                           uploadFault: Option<string>, updateFault: Option<string>, reloadFault: Option<string>)
      requires remote.Valid()
      modifies this, remote
      ensures remote.Valid()
      ensures capturedPhoto == old(capturedPhoto) && exitTarget == old(exitTarget)
      ensures statusText == old(statusText)
      ensures remote.nextId == old(remote.nextId)
      ensures newFile.None? ==>
        var patch := EditPatch(name, designation, location, None);
        && remote.calls == old(remote.calls) + [UpdateCall(Some(id), patch)] + Reload(updateFault)
        && remote.objects == old(remote.objects)
        && remote.rows == (if updateFault.None? then UpdateRows(old(remote.rows), Some(id), patch) else old(remote.rows))
        && table == (if updateFault.None? then Listed(remote.rows, reloadFault) else old(table))
        && alerted == (if updateFault.None? then old(alerted) else Some(UpdateFailedPrefix + updateFault.value))
      ensures newFile.Some? ==>
        var key := EditKey(name, now, newFile.value.name);
        var uploaded := uploadFault.None? && !HasObject(old(remote.objects), PhotoBucket, key);
        var patch := EditPatch(name, designation, location, Some(PublicUrl(base, PhotoBucket, key)));
        && (!uploaded ==>
              && remote.calls == old(remote.calls) + [UploadCall(PhotoBucket, key)]
              && remote.objects == old(remote.objects) && remote.rows == old(remote.rows)
              && table == old(table)
              && alerted == Some(UpdateFailedPrefix + ImageUploadFailedPrefix +
                                 (if uploadFault.Some? then uploadFault.value else DuplicateMessage)))
        && (uploaded ==>
              && remote.calls == old(remote.calls) + [UploadCall(PhotoBucket, key), UpdateCall(Some(id), patch)]
                                 + Reload(updateFault)
              && remote.objects == Put(old(remote.objects), PhotoBucket, key, newFile.value.content)
              && remote.rows == (if updateFault.None? then UpdateRows(old(remote.rows), Some(id), patch) else old(remote.rows))
              && table == (if updateFault.None? then Listed(remote.rows, reloadFault) else old(table))
              && alerted == (if updateFault.None? then old(alerted) else Some(UpdateFailedPrefix + updateFault.value)))
    {
      var pictureUrl: Option<string> := None;
      if newFile.Some? {
        pictureUrl := UploadEditPhoto(remote, name, newFile.value, now, uploadFault);
        if pictureUrl.None? {
          return;
        }
      }
      SendUpdate(remote, Some(id), EditPatch(name, designation, location, pictureUrl), updateFault, reloadFault);
    }

    /** The photo step of `handleEditStaff`: the file goes under the edit key, and its public URL
        is what the update will carry; a failed upload raises the "Update failed: Image upload
        failed: " alert instead. */
    method UploadEditPhoto(remote: Remote, name: string, file: ChosenFile, now: nat, fault: Option<string>)
      returns (pictureUrl: Option<string>)
      modifies this, remote
      ensures capturedPhoto == old(capturedPhoto) && exitTarget == old(exitTarget) && table == old(table)
      ensures statusText == old(statusText)
      ensures remote.rows == old(remote.rows) && remote.nextId == old(remote.nextId)
      ensures remote.calls == old(remote.calls) + [UploadCall(PhotoBucket, EditKey(name, now, file.name))]
      ensures var key := EditKey(name, now, file.name);
        fault.None? && !HasObject(old(remote.objects), PhotoBucket, key) ==>
          && pictureUrl == Some(PublicUrl(base, PhotoBucket, key))
          && remote.objects == Put(old(remote.objects), PhotoBucket, key, file.content)
          && alerted == old(alerted)
      ensures var key := EditKey(name, now, file.name);
        !(fault.None? && !HasObject(old(remote.objects), PhotoBucket, key)) ==>
          && pictureUrl == None
          && remote.objects == old(remote.objects)
          && alerted == Some(UpdateFailedPrefix + ImageUploadFailedPrefix +
                             (if fault.Some? then fault.value else DuplicateMessage))
    {
      var fileName := EditKey(name, now, file.name);
      ghost var uploaded := fault.None? && !HasObject(remote.objects, PhotoBucket, fileName);
      var uploadError := remote.Upload(PhotoBucket, fileName, file.content, fault);
      assert uploadError.None? <==> uploaded;
      if uploadError.Some? {
        alerted := Some(UpdateFailedPrefix + ImageUploadFailedPrefix + uploadError.value);
        pictureUrl := None;
      } else {
        pictureUrl := Some(PublicUrl(base, PhotoBucket, fileName));
      }
    }

    /** The update both edit handlers end with: one `update(patch).eq('id', target)`, then the
        list reload after a success, or an "Update failed: " alert carrying the error. */
    method SendUpdate(remote: Remote, target: Option<nat>, patch: Patch, fault: Option<string>,
                      reloadFault: Option<string>)
      requires remote.Valid()
      modifies this, remote
      ensures remote.Valid()
      ensures capturedPhoto == old(capturedPhoto) && exitTarget == old(exitTarget)
      ensures statusText == old(statusText)
      ensures remote.calls == old(remote.calls) + [UpdateCall(target, patch)] + Reload(fault)
      ensures remote.objects == old(remote.objects) && remote.nextId == old(remote.nextId)
      ensures remote.rows == if fault.None? then UpdateRows(old(remote.rows), target, patch) else old(remote.rows)
      ensures table == if fault.None? then Listed(remote.rows, reloadFault) else old(table)
      ensures alerted == if fault.None? then old(alerted) else Some(UpdateFailedPrefix + fault.value)
    {
      var error := remote.Update(target, patch, fault);
      if error.Some? {
        alerted := Some(UpdateFailedPrefix + error.value);
      } else {
        LoadStaffList(remote, reloadFault);
      }
    }

    /** `loadStaffList`: fetch every record newest first and render it, or show the fetch's
        error in the table body. Nothing in the store changes. */
    method LoadStaffList(remote: Remote, fault: Option<string>)
      modifies this, remote
      ensures capturedPhoto == old(capturedPhoto) && exitTarget == old(exitTarget)
      ensures statusText == old(statusText) && alerted == old(alerted)
      ensures remote.calls == old(remote.calls) + [SelectCall]
      ensures remote.objects == old(remote.objects) && remote.rows == old(remote.rows)
      ensures remote.nextId == old(remote.nextId)
      ensures table == Listed(remote.rows, fault)
    {
      table := Loading;
      var data := remote.SelectAll(fault);
      if data.Failure? {
        table := LoadFailed(LoadErrorPrefix + data.error);
      } else {
        table := RenderTable(data.value);
      }
    }

    /** `openExitModal(id, name)` remembers which record the exit is for. */
    method OpenExitModal(id: nat)
      modifies this
      ensures exitTarget == Some(id)
      ensures capturedPhoto == old(capturedPhoto) && statusText == old(statusText) && alerted == old(alerted) && table == old(table)
    {
      exitTarget := Some(id);
    }

    /** `confirmExit`: with no date, an alert and no update; otherwise only `exit_date` of the
        remembered record is set. */
    method ConfirmExit(remote: Remote, date: string, fault: Option<string>, reloadFault: Option<string>)
      requires remote.Valid()
      modifies this, remote
      ensures remote.Valid()
      ensures capturedPhoto == old(capturedPhoto) && exitTarget == old(exitTarget)
      ensures statusText == old(statusText)
      ensures date == "" ==> alerted == Some(SelectDateMessage) && table == old(table) && unchanged(remote)
      ensures date != "" ==>
        && remote.calls == old(remote.calls) + [UpdateCall(exitTarget, map[ExitDateColumn := date])] + Reload(fault)
        && remote.objects == old(remote.objects) && remote.nextId == old(remote.nextId)
        && remote.rows == (if fault.None? then UpdateRows(old(remote.rows), exitTarget, map[ExitDateColumn := date])
                           else old(remote.rows))
        && table == (if fault.None? then Listed(remote.rows, reloadFault) else old(table))
        && alerted == (if fault.None? then old(alerted) else Some(UpdateFailedPrefix + fault.value))
    {
      if date == "" {
        alerted := Some(SelectDateMessage);
        return;
      }
      SendUpdate(remote, exitTarget, map[ExitDateColumn := date], fault, reloadFault);
    }
  }
}
