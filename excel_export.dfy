/** The Excel report (services/excelExport.js): each staff row becomes one spreadsheet row of nine
    labelled cells, on the single sheet "Staff Records". The xlsx byte encoding is not modelled:
    the result is the workbook's content, sheet by sheet. */
module ExcelExport {
  import opened Wrappers
  import opened Backend

  const SheetName := "Staff Records"
  const GenerationFailed := "Failed to generate Excel file"

  /** The column labels, in the order the exported objects list their keys. */
  const Headers: seq<string> := ["Full Name", "Designation", "Location", "Resumption Date", "Status",
                                 "Exit Date", "Hiring Officer", "Photo URL", "Created At"]

  const StatusColumn := 4
  const ExitDateColumn := 5

  datatype Sheet = Sheet(name: string, header: seq<string>, rows: seq<seq<string>>)

  datatype Workbook = Workbook(sheets: seq<Sheet>)

  /** `item.exit_date ? 'Exited' : 'Active'`: a present, non-empty exit date means exited. */
  predicate HasExited(exitDate: Option<string>)
  {
    exitDate.Some? && exitDate.value != ""
  }

  /** The spreadsheet row for one staff record. `localize` stands for
      `new Date(created_at).toLocaleString()`, whose output depends on the host's locale. */
  function ExportRow(item: StaffRecord, localize: nat -> string): (row: seq<string>)
    ensures |row| == |Headers|
    ensures row[0] == item.fullName && row[1] == item.designation && row[2] == item.location
    ensures row[3] == item.resumptionDate
    ensures row[StatusColumn] == (if HasExited(item.exitDate) then "Exited" else "Active")
    ensures row[ExitDateColumn] == (if HasExited(item.exitDate) then item.exitDate.value else "")
    ensures row[6] == item.hiringOfficer && row[7] == item.pictureUrl
    ensures row[8] == localize(item.createdAt)
  {
    [ item.fullName,
      item.designation,
      item.location,
      item.resumptionDate,
      if HasExited(item.exitDate) then "Exited" else "Active",
      if HasExited(item.exitDate) then item.exitDate.value else "",
      item.hiringOfficer,
      item.pictureUrl,
      localize(item.createdAt) ]
  }

  /** `generateExcel(staffList)`: one sheet with a header row and one row per record, in the order
      given. `json_to_sheet` takes the header from the keys of the row objects, so an empty list
      gives a sheet with no header row at all. `fault` stands for an exception inside the xlsx library, which is replaced by a
      generic error. */
  function GenerateExcel(staffList: seq<StaffRecord>, localize: nat -> string, fault: Option<string>)
    : (r: Result<Workbook>)
    ensures r.Failure? <==> fault.Some?
    ensures r.Failure? ==> r.error == GenerationFailed
    ensures r.Success? ==>
      && |r.value.sheets| == 1
      && r.value.sheets[0].name == SheetName
      && r.value.sheets[0].header == (if staffList == [] then [] else Headers)
      && |r.value.sheets[0].rows| == |staffList|
      && forall k :: 0 <= k < |staffList| ==> r.value.sheets[0].rows[k] == ExportRow(staffList[k], localize)
  {
    if fault.Some? then Failure(GenerationFailed)
    else
      var rows := seq(|staffList|, k requires 0 <= k < |staffList| => ExportRow(staffList[k], localize));
      Success(Workbook([Sheet(SheetName, if staffList == [] then [] else Headers, rows)]))
  }

  /** In every exported row the Status cell says "Exited" exactly when the Exit Date cell is
      filled, and "Active" exactly when it is blank. */
  lemma StatusMatchesExitCell(staffList: seq<StaffRecord>, localize: nat -> string)
    ensures var r := GenerateExcel(staffList, localize, None);
      forall k :: 0 <= k < |r.value.sheets[0].rows| ==>
        var row := r.value.sheets[0].rows[k];
        && (row[StatusColumn] == "Exited" <==> row[ExitDateColumn] != "")
        && (row[StatusColumn] == "Active" <==> row[ExitDateColumn] == "")
  {
    var r := GenerateExcel(staffList, localize, None);
    forall k | 0 <= k < |r.value.sheets[0].rows|
      ensures var row := r.value.sheets[0].rows[k];
        && (row[StatusColumn] == "Exited" <==> row[ExitDateColumn] != "")
        && (row[StatusColumn] == "Active" <==> row[ExitDateColumn] == "")
    {
      var row := ExportRow(staffList[k], localize);
      assert r.value.sheets[0].rows[k] == row;
    }
  }
}
