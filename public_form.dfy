/** The public intake page (public_form.js): a camera-only variant of the dashboard's add form.
    The page-level `capturedPhotoBlob` is a field of `PublicPage`. */
module PublicForm {
  import opened Wrappers
  import opened Backend
  import opened SupabaseService
  import opened BrowserIntake

  const NoCaptureMessage := "Please take a photo using the camera."
  const AddSucceeded := "Success! Staff record added."

  class PublicPage {
    /** The project URL from `/api/config` the browser client was created with. */
    const base: string
    var capturedPhoto: Option<Bytes>
    /** The text of `#submitStatus`. */
    var statusText: string

    constructor (base: string)
      ensures this.base == base && capturedPhoto == None && statusText == ""
    {
      this.base := base;
      capturedPhoto := None;
      statusText := "";
    }

    /** The capture callback stores the camera's JPEG blob. */
    method CapturePhoto(blob: Bytes)
      modifies this
      ensures capturedPhoto == Some(blob) && statusText == old(statusText)
    {
      capturedPhoto := Some(blob);
    }

    /** `retakePhoto` drops the capture. */
    method RetakePhoto()
      modifies this
      ensures capturedPhoto == None && statusText == old(statusText)
    {
      capturedPhoto := None;
    }

    /** `handleAddStaff`: only a camera capture is accepted; it is uploaded as
        "webcam_capture.jpg" and the row inserted after the upload succeeds. A success clears the
        capture, so the next submission needs a new photo. */
    method HandleAddStaff(remote: Remote, fields: FormFields, stillWorking: bool, now: nat, createdAt: nat,
                          uploadFault: Option<string>, insertFault: Option<string>)
      returns (err: Option<string>)
      requires remote.Valid()
      modifies this, remote
      ensures remote.Valid()
      ensures statusText == if err.None? then AddSucceeded else err.value
      ensures capturedPhoto == if err.None? then None else old(capturedPhoto)
      ensures old(capturedPhoto).None? ==> err == Some(NoCaptureMessage) && unchanged(remote)
      ensures old(capturedPhoto).Some? ==>
        var key := AddKey(fields.fullName, now, Some(WebcamFileName));
        var row := AddedRow(fields, stillWorking, PublicUrl(base, PhotoBucket, key));
        var uploaded := uploadFault.None? && !HasObject(old(remote.objects), PhotoBucket, key);
        && (!uploaded ==>
              && err == Some(ImageUploadFailedPrefix + (if uploadFault.Some? then uploadFault.value else DuplicateMessage))
              && remote.calls == old(remote.calls) + [UploadCall(PhotoBucket, key)]
              && remote.objects == old(remote.objects)
              && remote.rows == old(remote.rows) && remote.nextId == old(remote.nextId))
        && (uploaded ==>
              && remote.calls == old(remote.calls) + [UploadCall(PhotoBucket, key), InsertCall(row)]
              && remote.objects == Put(old(remote.objects), PhotoBucket, key, old(capturedPhoto).value)
              && (err.None? <==> insertFault.None?)
              && (err.None? ==> remote.rows == old(remote.rows) + [Created(row, old(remote.nextId), createdAt)]
                                && remote.nextId == old(remote.nextId) + 1)
              && (err.Some? ==> err == Some(DatabaseSaveFailedPrefix + insertFault.value)
                                && remote.rows == old(remote.rows) && remote.nextId == old(remote.nextId)))
    {
      if capturedPhoto.None? {
        err := Some(NoCaptureMessage);
        statusText := err.value;
        return;
      }
      var photo := capturedPhoto.value;
      err := UploadThenInsert(remote, base, fields, stillWorking, photo, Some(WebcamFileName), now, createdAt,
                              uploadFault, insertFault);
      if err.Some? {
        statusText := err.value;
      } else {
        statusText := AddSucceeded;
        capturedPhoto := None;
      }
    }
  }
}
