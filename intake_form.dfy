/** The stand-alone intake page (script.js): the still-working toggle, the picture check on file
    selection, `validateForm`, and the submission that posts the form to the server. Dates are the
    values of `<input type="date">`: the empty string or `YYYY-MM-DD`. */
module IntakeForm {
  import opened Wrappers
  import opened Text
  import opened Backend

  // ---------------------------------------------------------------------------
  // Pictures

  const MaxPictureBytes := 5 * 1024 * 1024
  const PictureTypes: set<string> := {"image/jpeg", "image/jpg", "image/png"}

  datatype PictureFile = PictureFile(name: string, mimeType: string, size: nat)

  /** The picture check: a JPG or PNG type and at most 5 MiB. */
  predicate PictureAcceptable(f: PictureFile)
  {
    f.mimeType in PictureTypes && f.size <= MaxPictureBytes
  }

  // ---------------------------------------------------------------------------
  // Dates

  predicate IsIsoDate(s: string)
  {
    && |s| == 10 && s[4] == '-' && s[7] == '-'
    && forall k :: 0 <= k < 10 && k != 4 && k != 7 ==> IsDigit(s[k])
  }

  /** Lexicographic order on strings; on `YYYY-MM-DD` values it is the calendar order. */
  predicate LexLess(a: string, b: string)
    decreases |a|
  {
    if a == [] then b != []
    else if b == [] then false
    else a[0] < b[0] || (a[0] == b[0] && LexLess(a[1..], b[1..]))
  }

  lemma {:induction false} LexLessIrreflexive(a: string)
    ensures !LexLess(a, a)
    decreases |a|
  {
    if a != [] {
      LexLessIrreflexive(a[1..]);
    }
  }

  lemma {:induction false} LexLessAsymmetric(a: string, b: string)
    requires LexLess(a, b)
    ensures !LexLess(b, a)
    decreases |a|
  {
    if a != [] && b != [] && a[0] == b[0] {
      LexLessAsymmetric(a[1..], b[1..]);
    }
  }

  /** `new Date(a) < new Date(b)`: false when either value is not a date (an invalid date
      compares false). */
  predicate DateBefore(a: string, b: string)
  {
    IsIsoDate(a) && IsIsoDate(b) && LexLess(a, b)
  }

  // ---------------------------------------------------------------------------
  // Form state

  /** The text of each field's error element (`fullNameError`, ..., `staffPictureError`,
      `hiringOfficerError`); an empty text is a hidden error. */
  datatype ErrorTexts = ErrorTexts(
    fullName: string,
    resumptionDate: string,
    exitDate: string,
    location: string,
    designation: string,
    picture: string,
    hiringOfficer: string)

  const FullNameRequired := "Full name is required"
  const ResumptionDateRequired := "Resumption date is required"
  const ExitBeforeResumption := "Exit date cannot be before resumption date"
  const LocationRequired := "Please select a location"
  const DesignationRequired := "Designation is required"
  const PictureRequired := "Please upload a staff picture"
  const HiringOfficerRequired := "Hiring officer name is required"
  const PictureTypeRejected := "Please upload a JPG or PNG image"
  const PictureTooLarge := "Image size must be less than 5MB"

  /** What `clearAllErrors` leaves: every error element empty. */
  const NoErrors := ErrorTexts("", "", "", "", "", "", "")

  /** The values of the form's inputs. */
  datatype Inputs = Inputs(
    fullName: string,
    resumptionDate: string,
    exitDate: string,
    stillWorking: bool,
    location: string,
    designation: string,
    hiringOfficer: string,
    picture: Option<PictureFile>)

  const EmptyInputs := Inputs("", "", "", false, "", "", "", None)

  /** The exit-date rule: checked only when "still working" is unticked and a date is given; an
      exit on the resumption day is allowed. */
  predicate ExitDateOk(stillWorking: bool, resumptionDate: string, exitDate: string)
  {
    stillWorking || exitDate == "" || !DateBefore(exitDate, resumptionDate)
  }

  /** When the form is accepted. */
  predicate Acceptable(i: Inputs)
  {
    && !IsBlank(i.fullName)
    && i.resumptionDate != ""
    && ExitDateOk(i.stillWorking, i.resumptionDate, i.exitDate)
    && i.location != ""
    && !IsBlank(i.designation)
    && i.picture.Some?
    && !IsBlank(i.hiringOfficer)
  }

  /** The error text `validateForm` gives each field: its message when its check fails, and
      otherwise nothing. */
  function FieldErrors(i: Inputs): ErrorTexts
  {
    ErrorTexts(
      if IsBlank(i.fullName) then FullNameRequired else "",
      if i.resumptionDate == "" then ResumptionDateRequired else "",
      if ExitDateOk(i.stillWorking, i.resumptionDate, i.exitDate) then "" else ExitBeforeResumption,
      if i.location == "" then LocationRequired else "",
      if IsBlank(i.designation) then DesignationRequired else "",
      if i.picture.None? then PictureRequired else "",
      if IsBlank(i.hiringOfficer) then HiringOfficerRequired else "")
  }

  /** Leaving on the day one started is accepted, and ticking "still working" accepts any typed
      exit date. */
  lemma ExitDateBoundary(day: string, exit: string)
    ensures ExitDateOk(false, day, day)
    ensures ExitDateOk(true, day, exit)
  {
    LexLessIrreflexive(day);
  }

  /** Of two different dates exactly one order is accepted. */
  lemma ExitBeforeResumptionRejected(resumption: string, exit: string)
    requires IsIsoDate(resumption) && IsIsoDate(exit)
    requires LexLess(exit, resumption)
    ensures !ExitDateOk(false, resumption, exit)
    ensures ExitDateOk(false, exit, resumption)
  {
    LexLessAsymmetric(exit, resumption);
  }

  // ---------------------------------------------------------------------------
  // The submission

  const SubmitPath := "/api/submit-staff"
  const SubmitUrl := "http://localhost:3000" + SubmitPath

  datatype FormEntry = TextEntry(name: string, value: string) | FileEntry(name: string, file: PictureFile)

  datatype Request = Request(verb: string, url: string, body: seq<FormEntry>)

  /** The seven multipart entries of a submission, in the order they are appended: name,
      designation and hiring officer trimmed, and "Still Working" as the exit date when the box is
      ticked. */
  function FormData(i: Inputs): seq<FormEntry>
    requires i.picture.Some?
  {
    [ TextEntry("fullName", Trim(i.fullName)),
      TextEntry("resumptionDate", i.resumptionDate),
      TextEntry("exitDate", if i.stillWorking then StillWorking else i.exitDate),
      TextEntry("location", i.location),
      TextEntry("designation", Trim(i.designation)),
      FileEntry("staffPicture", i.picture.value),
      TextEntry("hiringOfficer", Trim(i.hiringOfficer)) ]
  }

  /** What `response.json()` makes of the body: an object with optional `message`/`error`
      strings, or a body that is not JSON (the parse throws). */
  datatype JsonBody = JsonObject(message: Option<string>, error: Option<string>) | NotJson

  datatype Response = Response(ok: bool, body: JsonBody)

  datatype MessageKind = SuccessKind | ErrorKind

  /** The message box: hidden, or shown with its kind (the `success`/`error` class), title and
      text. */
  datatype MessageBox = Hidden | Shown(kind: MessageKind, title: string, text: string)

  const DefaultSuccessText := "Staff data submitted successfully. Email sent with updated records."
  const DefaultErrorText := "Failed to submit staff data. Please try again."
  const ConnectionErrorText := "Unable to connect to the server. Please check if the server is running and try again."

  /** The message shown for the outcome of the request: `None` is a network failure. A body that
      is not JSON lands in the same catch as a network failure. */
  function Outcome(response: Option<Response>): (m: MessageBox)
    ensures m.Shown?
    ensures m.title == "Connection Error" <==> response.None? || response.value.body.NotJson?
    ensures m.kind == SuccessKind <==> response.Some? && response.value.ok && response.value.body.JsonObject?
  {
    match response
    case None => Shown(ErrorKind, "Connection Error", ConnectionErrorText)
    case Some(r) =>
      match r.body
      case NotJson => Shown(ErrorKind, "Connection Error", ConnectionErrorText)
      case JsonObject(message, error) =>
        if r.ok then Shown(SuccessKind, "Success!", if Truthy(message) then message.value else DefaultSuccessText)
        else Shown(ErrorKind, "Error", if Truthy(error) then error.value else DefaultErrorText)
  }

  class IntakePage {
    var inputs: Inputs
    var exitDateDisabled: bool
    /** The text of each field's error element. */
    var errors: ErrorTexts
    var message: MessageBox

    constructor ()
      ensures inputs == EmptyInputs && !exitDateDisabled && errors == NoErrors && message == Hidden
    {
      inputs := EmptyInputs;
      exitDateDisabled := false;
      errors := NoErrors;
      message := Hidden;
    }

    /** The "still working" checkbox: ticking it empties and disables the exit date; unticking
        re-enables it and keeps its (empty) value. */
    method ToggleStillWorking(checked: bool)
      modifies this
      ensures inputs == old(inputs).(stillWorking := checked,
                                      exitDate := if checked then "" else old(inputs).exitDate)
      ensures exitDateDisabled == checked
      ensures errors == old(errors) && message == old(message)
    {
      inputs := inputs.(stillWorking := checked);
      if checked {
        inputs := inputs.(exitDate := "");
        exitDateDisabled := true;
      } else {
        exitDateDisabled := false;
      }
    }

    /** The file input's change handler: a picture of the wrong type or over 5 MiB is refused and
        the input cleared, with the matching error message. */
    method ChoosePicture(file: Option<PictureFile>)
      modifies this
      ensures inputs == old(inputs).(picture := inputs.picture)
      ensures exitDateDisabled == old(exitDateDisabled) && message == old(message)
      ensures inputs.picture.Some? <==> file.Some? && PictureAcceptable(file.value)
      ensures inputs.picture.Some? ==> inputs.picture == file
      ensures file.None? ==> errors == old(errors)
      ensures file.Some? ==>
        errors == old(errors).(picture := if file.value.mimeType !in PictureTypes then PictureTypeRejected
                                           else if file.value.size > MaxPictureBytes then PictureTooLarge
                                           else "")
    {
      if file.None? {
        inputs := inputs.(picture := None);
        return;
      }
      var f := file.value;
      if f.mimeType !in PictureTypes {
        errors := errors.(picture := PictureTypeRejected);
        inputs := inputs.(picture := None);
        return;
      }
      if f.size > MaxPictureBytes {
        errors := errors.(picture := PictureTooLarge);
        inputs := inputs.(picture := None);
        return;
      }
      errors := errors.(picture := "");
      inputs := inputs.(picture := file);
    }

    /** The remove-image button: the file input is cleared and nothing else changes; a later
        validation then reports the missing picture. */
    method RemoveImage()
      modifies this
      ensures inputs == old(inputs).(picture := None)
      ensures exitDateDisabled == old(exitDateDisabled) && errors == old(errors) && message == old(message)
      ensures !Acceptable(inputs)
    {
      inputs := inputs.(picture := None);
    }

    /** `!value.trim()`. */
    static method TrimmedIsEmpty(value: string) returns (empty: bool)
      ensures empty <==> IsBlank(value)
    {
      TrimProperties(value);
      empty := Trim(value) == "";
    }

    /** `validateForm`: clears every error, runs every check without stopping at the first
        failure, and gives each failing field its own message. */
    method ValidateForm() returns (isValid: bool)
      modifies this
      ensures inputs == old(inputs) && exitDateDisabled == old(exitDateDisabled) && message == old(message)
      ensures isValid <==> Acceptable(inputs)
      ensures isValid <==> errors == NoErrors
      ensures errors.fullName == if IsBlank(inputs.fullName) then FullNameRequired else ""
      ensures errors.resumptionDate == if inputs.resumptionDate == "" then ResumptionDateRequired else ""
      ensures errors.exitDate ==
        if ExitDateOk(inputs.stillWorking, inputs.resumptionDate, inputs.exitDate) then "" else ExitBeforeResumption
      ensures errors.location == if inputs.location == "" then LocationRequired else ""
      ensures errors.designation == if IsBlank(inputs.designation) then DesignationRequired else ""
      ensures errors.picture == if inputs.picture.None? then PictureRequired else ""
      ensures errors.hiringOfficer == if IsBlank(inputs.hiringOfficer) then HiringOfficerRequired else ""
      ensures errors == FieldErrors(inputs)
    {
      var i := inputs;
      var nameEmpty := TrimmedIsEmpty(i.fullName);
      var designationEmpty := TrimmedIsEmpty(i.designation);
      var officerEmpty := TrimmedIsEmpty(i.hiringOfficer);
      var fullNameError, resumptionDateError, exitDateError, locationError := "", "", "", "";
      var designationError, pictureError, hiringOfficerError := "", "", "";
      isValid := true;
      if nameEmpty {
        fullNameError := FullNameRequired;
        isValid := false;
      }
      if i.resumptionDate == "" {
        resumptionDateError := ResumptionDateRequired;
        isValid := false;
      }
      if !i.stillWorking && i.exitDate != "" && DateBefore(i.exitDate, i.resumptionDate) {
        exitDateError := ExitBeforeResumption;
        isValid := false;
      }
      if i.location == "" {
        locationError := LocationRequired;
        isValid := false;
      }
      if designationEmpty {
        designationError := DesignationRequired;
        isValid := false;
      }
      if i.picture.None? {
        pictureError := PictureRequired;
        isValid := false;
      }
      if officerEmpty {
        hiringOfficerError := HiringOfficerRequired;
        isValid := false;
      }
      errors := ErrorTexts(fullNameError, resumptionDateError, exitDateError, locationError,
                           designationError, pictureError, hiringOfficerError);
    }

    /** The multipart body, built by successive appends: the exit date becomes "Still Working"
        when the box is ticked; name, designation and hiring officer are trimmed. */
    method BuildFormData() returns (data: seq<FormEntry>)
      requires inputs.picture.Some?
      ensures data == FormData(inputs)
    {
      var i := inputs;
      var name := TextEntry("fullName", Trim(i.fullName));
      var resumption := TextEntry("resumptionDate", i.resumptionDate);
      var exit := TextEntry("exitDate", if i.stillWorking then StillWorking else i.exitDate);
      var location := TextEntry("location", i.location);
      var designation := TextEntry("designation", Trim(i.designation));
      var picture := FileEntry("staffPicture", i.picture.value);
      var officer := TextEntry("hiringOfficer", Trim(i.hiringOfficer));
      data := [];
      data := data + [name];
      data := data + [resumption];
      data := data + [exit];
      data := data + [location];
      data := data + [designation];
      data := data + [picture];
      data := data + [officer];
      SevenAppends(name, resumption, exit, location, designation, picture, officer);
    }

    /** The submit handler: nothing is sent unless the form validates; otherwise the form is posted
        and the outcome shown, and a success resets the form. `response` is what the server
        answered, `None` when the request itself failed. */
    method Submit(response: Option<Response>) returns (request: Option<Request>)
      modifies this
      ensures !Acceptable(old(inputs)) ==>
        && request.None? && inputs == old(inputs) && message == old(message)
        && exitDateDisabled == old(exitDateDisabled)
        && errors == FieldErrors(old(inputs)) && errors != NoErrors
      ensures Acceptable(old(inputs)) ==>
        && request.Some? && request.value.verb == "POST" && request.value.url == SubmitUrl
        && request.value.body == FormData(old(inputs))
        && errors == NoErrors
        && message == Outcome(response)
        && (message.kind == SuccessKind ==> inputs == EmptyInputs && !exitDateDisabled && errors == NoErrors)
        && (message.kind != SuccessKind ==> inputs == old(inputs))
    {
      ghost var before := inputs;
      var ok := ValidateForm();
      if !ok {
        return None;
      }
      message := Hidden;
      var data := BuildFormData();
      assert data == FormData(before);
      request := Some(Request("POST", SubmitUrl, data));
      ShowOutcome(response);
    }

    /** The end of the submit handler: show what the server answered, and reset the form only on
        success. */
    method ShowOutcome(response: Option<Response>)
      requires errors == NoErrors
      modifies this
      ensures errors == NoErrors && message == Outcome(response)
      ensures message.kind == SuccessKind ==> inputs == EmptyInputs && !exitDateDisabled
      ensures message.kind != SuccessKind ==> inputs == old(inputs) && exitDateDisabled == old(exitDateDisabled)
    {
      var outcome := Outcome(response);
      message := outcome;
      if outcome.kind == SuccessKind {
        inputs := EmptyInputs;
        exitDateDisabled := false;
        errors := NoErrors;
      }
    }
  }
}
