/** The desktop variant (main.py): the path lives in a tkinter `StringVar` the upload
    updates in place, the upload reports through message boxes and returns a bool, and
    `start_upload_thread` starts it on a thread nobody joins. */
module DesktopApp {
  import opened Paths
  import opened Tables
  import opened Pipeline
  import opened Environment
  import opened XlsConversion

  /** A tkinter `StringVar`. */
  class StringVar {
    var value: string

    constructor (value: string)
      ensures this.value == value
    {
      this.value := value;
    }

    function Get(): string
      reads this
    {
      value
    }

    method Set(value: string)
      modifies this
      ensures this.value == value
    {
      this.value := value;
    }
  }

  /** `upload_to_google_sheets` (main.py:88-121): `true` when the data was uploaded.
      The conversion block is `ConvertIfXls`; the steps after it are `WriteToSheet`. */
  method UploadToGoogleSheets(fs: FileSystem, gc: SheetsClient, selectedSheet: StringVar, selectedTab: StringVar,
                              excelFile: StringVar, faults: Faults) returns (uploaded: bool)
    requires excelFile != selectedSheet && excelFile != selectedTab
    modifies fs, gc, excelFile
    ensures var run := Upload(old(fs.files), old(gc.books), selectedSheet.value, selectedTab.value,
                              old(excelFile.value), faults);
            && uploaded == (run.outcome == Uploaded)
            && excelFile.value == run.excelFile
            && fs.files == run.files
            && gc.books == run.books
            && gc.calls == old(gc.calls) + run.calls
  {
    var proceed := ConvertIfXls(fs, excelFile, faults);
    if !proceed {
      assert old(gc.calls) + [] == gc.calls;
      return false;
    }
    uploaded := WriteToSheet(fs, gc, selectedSheet, selectedTab, excelFile, faults);
  }

  /** The conversion block of `upload_to_google_sheets` (main.py:90-96): an `.xls`
      path is converted and `excel_file` set to the converted path; `false` when the
      conversion failed and the upload stops. */
  method ConvertIfXls(fs: FileSystem, excelFile: StringVar, faults: Faults) returns (proceed: bool)
    modifies fs, excelFile
    ensures (proceed, fs.files, excelFile.value) == ConversionStage(old(fs.files), old(excelFile.value), faults)
  {
    proceed := true;
    if EndsWith(excelFile.Get(), XlsExt) {
      var convertedFile := ConvertXlsToXlsx(fs, excelFile.Get(), faults.convertWorks, faults.closeWorks);
      if convertedFile.Some? {
        excelFile.Set(convertedFile.value);
      } else {
        proceed := false;
      }
    }
  }

  /** The `try` block of `upload_to_google_sheets` (main.py:98-121): open the
      spreadsheet and the tab, check and read the file, clear the tab, write the
      bounded table at A1, and delete an `.xlsx` source and empty `excel_file`. Each
      exception (shown in a message box) ends the steps with `false`. */
  method WriteToSheet(fs: FileSystem, gc: SheetsClient, selectedSheet: StringVar, selectedTab: StringVar,
                      excelFile: StringVar, faults: Faults) returns (uploaded: bool)
    requires excelFile != selectedSheet && excelFile != selectedTab
    modifies fs, gc, excelFile
    ensures var run := SendToSheet(old(fs.files), old(gc.books), selectedSheet.value, selectedTab.value,
                                   old(excelFile.value), faults);
            && uploaded == (run.outcome == Uploaded)
            && excelFile.value == run.excelFile
            && fs.files == run.files
            && gc.books == run.books
            && gc.calls == old(gc.calls) + run.calls
  {
    // Nothing sets the two selections during the upload, so each is read once.
    var sheet, tab := selectedSheet.Get(), selectedTab.Get();
    ghost var run := SendToSheet(fs.files, gc.books, sheet, tab, excelFile.value, faults);
    var sheetOpened := gc.Open(sheet, faults.openWorks);
    if !sheetOpened {
      return false;
    }
    var found := gc.WorksheetByTitle(sheet, tab);
    assert gc.calls == old(gc.calls) + [Call.Open(sheet), Call.WorksheetByTitle(sheet, tab)];
    if !found {
      return false;
    }
    if !fs.Exists(excelFile.Get()) {
      return false;
    }
    var df := fs.LoadWorkbook(excelFile.Get());
    if df.None? {
      return false;
    }
    var dfSelected := Bound(df.value);
    var cleared := gc.Clear(sheet, tab, faults.clearWorks);
    assert gc.calls == old(gc.calls) + [Call.Open(sheet), Call.WorksheetByTitle(sheet, tab), Call.Clear(sheet, tab)];
    if !cleared {
      return false;
    }
    var updated := gc.UpdateValues(sheet, tab, dfSelected, faults.updateWorks);
    assert gc.calls == old(gc.calls) + run.calls;
    if !updated {
      return false;
    }
    WithTabTwice(old(gc.books), sheet, tab, Blank, WriteAtOrigin(Blank, dfSelected));
    if EndsWith(excelFile.Get(), XlsxExt) {
      var _ := fs.Remove(excelFile.Get());
      excelFile.Set("");
    }
    return true;
  }

  /** `start_upload_thread` (main.py:124-130): with an empty `excel_file` the error
      box is shown and no upload starts; otherwise the upload runs, and its result is
      not looked at. `started` says which happened. */
  method StartUploadThread(fs: FileSystem, gc: SheetsClient, selectedSheet: StringVar, selectedTab: StringVar,
                           excelFile: StringVar, faults: Faults) returns (started: bool)
    requires excelFile != selectedSheet && excelFile != selectedTab
    modifies fs, gc, excelFile
    ensures started == (old(excelFile.value) != "")
    ensures !started ==>
              && excelFile.value == old(excelFile.value)
              && fs.files == old(fs.files) && gc.books == old(gc.books) && gc.calls == old(gc.calls)
    ensures started ==>
              var run := Upload(old(fs.files), old(gc.books), selectedSheet.value, selectedTab.value,
                                old(excelFile.value), faults);
              && excelFile.value == run.excelFile
              && fs.files == run.files
              && gc.books == run.books
              && gc.calls == old(gc.calls) + run.calls
  {
    started := excelFile.Get() != "";
    if started {
      var _ := UploadToGoogleSheets(fs, gc, selectedSheet, selectedTab, excelFile, faults);
    }
  }
}
