/** The add-staff step both browser pages run after choosing a photo (hr_dashboard.js:232-260 and
    public_form.js:102-128, which repeat the same code): derive the storage key, upload the photo
    with the browser's client, resolve its public URL and insert the row, stopping at the first
    error. */
module BrowserIntake {
  import opened Wrappers
  import opened Text
  import opened Backend
  import opened SupabaseService

  const ImageUploadFailedPrefix := "Image upload failed: "
  const DatabaseSaveFailedPrefix := "Database save failed: "

  /** The name given to a camera capture, "webcam_capture.jpg". It is spelt as a concatenation
      so that the verifier does not evaluate the extension split over the literal characters. */
  const WebcamFileName := "webcam_capture" + "." + "jpg"

  /** The text fields of the add form. */
  datatype FormFields = FormFields(
    fullName: string,
    resumptionDate: string,
    exitDate: string,
    location: string,
    designation: string,
    hiringOfficer: string)

  /** `stillWorking ? '' : formData.get('exitDate')`. */
  function StoredExitDate(stillWorking: bool, entered: string): (r: string)
    ensures stillWorking ==> r == ""
    ensures !stillWorking ==> r == entered
  {
    if stillWorking then "" else entered
  }

  /** `fileToUpload.name ? fileToUpload.name.split('.').pop() : 'jpg'`. */
  function PhotoExtension(fileName: Option<string>): (ext: string)
    ensures Truthy(fileName) ==> ext == FileExtension(fileName.value)
    ensures !Truthy(fileName) ==> ext == "jpg"
  {
    if Truthy(fileName) then FileExtension(fileName.value) else "jpg"
  }

  /** The key a browser add stores the photo under: the same rule as the server's upload. */
  function AddKey(name: string, now: nat, fileName: Option<string>): string
  {
    StorageKey(Sanitize(name), now, PhotoExtension(fileName))
  }

  /** The row the add inserts: the form fields, the photo's public URL and the resolved exit date. */
  function AddedRow(fields: FormFields, stillWorking: bool, publicUrl: string): (row: NewRow)
    ensures row.fullName == fields.fullName && row.resumptionDate == fields.resumptionDate
    ensures row.location == fields.location && row.designation == fields.designation
    ensures row.hiringOfficer == fields.hiringOfficer && row.pictureUrl == publicUrl
    ensures row.exitDate == StoredExitDate(stillWorking, fields.exitDate)
  {
    NewRow(fields.fullName, fields.resumptionDate, StoredExitDate(stillWorking, fields.exitDate),
           fields.location, fields.designation, fields.hiringOfficer, publicUrl)
  }

  /** A browser add key has the server's key shape: a file name with an extension keeps it, and a
      nameless photo gets `jpg`. */
  lemma AddKeyExtension(name: string, now: nat, fileName: Option<string>)
    ensures Truthy(fileName) ==> AddKey(name, now, fileName) == UploadKey(name, now, fileName.value)
    ensures FileExtension(AddKey(name, now, fileName)) == PhotoExtension(fileName)
    ensures !Truthy(fileName) ==> FileExtension(AddKey(name, now, fileName)) == "jpg"
  {
    StorageKeyExtension(Sanitize(name), now, PhotoExtension(fileName));
  }

  /** The capture's file name has the extension `jpg`. */
  lemma WebcamExtension()
    ensures FileExtension(WebcamFileName) == "jpg"
    ensures PhotoExtension(Some(WebcamFileName)) == "jpg"
  {
    var head, ext := "webcam_capture", "jpg";
    assert WebcamFileName == head + "." + ext;
    ExtensionAfterLastDot(head, ext);
  }

  /** A camera capture is always stored under a key ending in `.jpg`. */
  lemma CaptureKeyIsJpg(name: string, now: nat)
    ensures var key := AddKey(name, now, Some(WebcamFileName));
      && FileExtension(key) == "jpg"
      && |key| > 4 && key[|key| - 4..] == ".jpg"
  {
    WebcamExtension();
    JpgKeyShape(name, now, Some(WebcamFileName));
  }

  /** Any photo whose extension resolves to `jpg` gets a key ending in `.jpg`. */
  lemma JpgKeyShape(name: string, now: nat, fileName: Option<string>)
    requires PhotoExtension(fileName) == "jpg"
    ensures var key := AddKey(name, now, fileName);
      && FileExtension(key) == "jpg"
      && |key| > 4 && key[|key| - 4..] == ".jpg"
  {
    var key := AddKey(name, now, fileName);
    var head := Sanitize(name) + "_" + NatToString(now);
    assert key == head + ".jpg";
    ExtensionAfterLastDot(head, "jpg");
  }

  /** Upload the photo, then insert the row carrying its public URL. The insert happens only
      after a successful upload; any error stops the step and becomes its message. */
  method UploadThenInsert(remote: Remote, base: string, fields: FormFields, stillWorking: bool,
                          photo: Bytes, fileName: Option<string>, now: nat, createdAt: nat,
                          uploadFault: Option<string>, insertFault: Option<string>)
    returns (err: Option<string>)
    requires remote.Valid()
    modifies remote
    ensures remote.Valid()
    ensures var key := AddKey(fields.fullName, now, fileName);
      var row := AddedRow(fields, stillWorking, PublicUrl(base, PhotoBucket, key));
      var uploaded := uploadFault.None? && !HasObject(old(remote.objects), PhotoBucket, key);
      && (!uploaded ==>
            && err == Some(ImageUploadFailedPrefix + (if uploadFault.Some? then uploadFault.value else DuplicateMessage))
            && remote.calls == old(remote.calls) + [UploadCall(PhotoBucket, key)]
            && remote.objects == old(remote.objects)
            && remote.rows == old(remote.rows) && remote.nextId == old(remote.nextId))
      && (uploaded ==>
            && remote.calls == old(remote.calls) + [UploadCall(PhotoBucket, key), InsertCall(row)]
            && remote.objects == Put(old(remote.objects), PhotoBucket, key, photo)
            && (err.None? <==> insertFault.None?)
            && (err.Some? ==> err == Some(DatabaseSaveFailedPrefix + insertFault.value)
                              && remote.rows == old(remote.rows) && remote.nextId == old(remote.nextId))
            && (err.None? ==> remote.rows == old(remote.rows) + [Created(row, old(remote.nextId), createdAt)]
                              && remote.nextId == old(remote.nextId) + 1))
  {
    var key := StorageKey(Sanitize(fields.fullName), now, PhotoExtension(fileName));
    var uploadError := remote.Upload(PhotoBucket, key, photo, uploadFault);
    if uploadError.Some? {
      return Some(ImageUploadFailedPrefix + uploadError.value);
    }
    var publicUrl := PublicUrl(base, PhotoBucket, key);
    var exitDate := StoredExitDate(stillWorking, fields.exitDate);
    var inserted := remote.Insert(NewRow(fields.fullName, fields.resumptionDate, exitDate, fields.location,
                                         fields.designation, fields.hiringOfficer, publicUrl),
                                  createdAt, insertFault);
    if inserted.Failure? {
      return Some(DatabaseSaveFailedPrefix + inserted.error);
    }
    err := None;
  }
}
