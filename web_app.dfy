/** The web variant (app.py): the upload returns a `{status, message}` result, and
    `start_upload_thread` runs it on a thread it joins at once, so it is modelled as a
    plain call. */
module WebApp {
  import opened Paths
  import opened Tables
  import opened Pipeline
  import opened Environment
  import opened XlsConversion

  datatype Status = Success | Error

  /** The dictionary `{"status": ..., "message": ...}` returned to the Flask route. */
  datatype UploadResult = UploadResult(status: Status, message: string)

  const UploadedMessage := "Данные успешно загружены в Google Sheets."
  const ConversionFailedMessage := "Ошибка при конвертации файла. Загрузка отменена."
  const FileNotFoundMessage := "Файл Excel не найден."
  /** The message of a caught exception starts with this; the exception's own text,
      which follows it, is not modelled. */
  const UploadErrorMessage := "Ошибка при загрузке данных: "
  const NotSelectedMessage := "Файл Excel не выбран."

  /** The result `upload_to_google_sheets` returns for each way an upload can end
      (app.py:46, 62, 64, 67). */
  function ResultOf(outcome: Outcome): (r: UploadResult)
    ensures r.status == Success <==> outcome == Uploaded
    ensures outcome == ConversionFailed ==> r.message == ConversionFailedMessage
    ensures outcome == FileMissing ==> r.message == FileNotFoundMessage
    ensures outcome.Raised? || outcome == LoadFailed ==> r.message == UploadErrorMessage
  {
    match outcome
    case Uploaded => UploadResult(Success, UploadedMessage)
    case ConversionFailed => UploadResult(Error, ConversionFailedMessage)
    case FileMissing => UploadResult(Error, FileNotFoundMessage)
    case LoadFailed => UploadResult(Error, UploadErrorMessage)
    case Raised(_) => UploadResult(Error, UploadErrorMessage)
  }

  /** The result of the upload distinguishes the failed conversion and the missing file
      from the exceptions, and success from every failure. */
  lemma ResultMessagesDiffer(a: Outcome, b: Outcome)
    requires ResultOf(a) == ResultOf(b)
    ensures a == Uploaded <==> b == Uploaded
    ensures a == ConversionFailed <==> b == ConversionFailed
    ensures a == FileMissing <==> b == FileMissing
  {
  }

  /** `upload_to_google_sheets` (app.py:39-67). The conversion block is
      `ConvertIfXls`; the steps after it are `WriteToSheet`. */
  method UploadToGoogleSheets(fs: FileSystem, gc: SheetsClient, selectedSheet: string, selectedTab: string,
                              excelFile: string, faults: Faults) returns (result: UploadResult)
    modifies fs, gc
    ensures var run := Upload(old(fs.files), old(gc.books), selectedSheet, selectedTab, excelFile, faults);
            && result == ResultOf(run.outcome)
            && fs.files == run.files
            && gc.books == run.books
            && gc.calls == old(gc.calls) + run.calls
  {
    var proceed, convertedFile := ConvertIfXls(fs, excelFile, faults);
    if !proceed {
      assert old(gc.calls) + [] == gc.calls;
      return ResultOf(ConversionFailed);
    }
    var outcome := WriteToSheet(fs, gc, selectedSheet, selectedTab, convertedFile, faults);
    return ResultOf(outcome);
  }

  /** The conversion block of `upload_to_google_sheets` (app.py:41-46): an `.xls`
      path is converted and the upload goes on with the converted path; `proceed` is
      false when the conversion failed and the upload stops. */
  method ConvertIfXls(fs: FileSystem, excelFile: string, faults: Faults) returns (proceed: bool, path: string)
    modifies fs
    ensures (proceed, fs.files, path) == ConversionStage(old(fs.files), excelFile, faults)
  {
    proceed, path := true, excelFile;
    if EndsWith(excelFile, XlsExt) {
      var convertedFile := ConvertXlsToXlsx(fs, excelFile, faults.convertWorks, faults.closeWorks);
      if convertedFile.Some? {
        path := convertedFile.value;
      } else {
        proceed := false;
      }
    }
  }

  /** The `try` block of `upload_to_google_sheets` (app.py:48-67): open the
      spreadsheet and the tab, check and read the file, clear the tab, write the
      bounded table at A1 and delete an `.xlsx` source. Each exception ends the steps;
      the outcome says where. */
  method WriteToSheet(fs: FileSystem, gc: SheetsClient, selectedSheet: string, selectedTab: string,
                      excelFile: string, faults: Faults) returns (outcome: Outcome)
    modifies fs, gc
    ensures var run := SendToSheet(old(fs.files), old(gc.books), selectedSheet, selectedTab, excelFile, faults);
            && outcome == run.outcome
            && fs.files == run.files
            && gc.books == run.books
            && gc.calls == old(gc.calls) + run.calls
  {
    ghost var run := SendToSheet(fs.files, gc.books, selectedSheet, selectedTab, excelFile, faults);
    var sheetOpened := gc.Open(selectedSheet, faults.openWorks);
    if !sheetOpened {
      return Raised(Call.Open(selectedSheet));
    }
    var found := gc.WorksheetByTitle(selectedSheet, selectedTab);
    assert gc.calls == old(gc.calls) + [Call.Open(selectedSheet), Call.WorksheetByTitle(selectedSheet, selectedTab)];
    if !found {
      return Raised(Call.WorksheetByTitle(selectedSheet, selectedTab));
    }
    if !fs.Exists(excelFile) {
      return FileMissing;
    }
    var df := fs.LoadWorkbook(excelFile);
    if df.None? {
      return LoadFailed;
    }
    var dfSelected := Bound(df.value);
    var cleared := gc.Clear(selectedSheet, selectedTab, faults.clearWorks);
    assert gc.calls == old(gc.calls) + [Call.Open(selectedSheet), Call.WorksheetByTitle(selectedSheet, selectedTab),
                                        Call.Clear(selectedSheet, selectedTab)];
    if !cleared {
      return Raised(Call.Clear(selectedSheet, selectedTab));
    }
    var updated := gc.UpdateValues(selectedSheet, selectedTab, dfSelected, faults.updateWorks);
    assert gc.calls == old(gc.calls) + run.calls;
    if !updated {
      return Raised(Call.UpdateValues(selectedSheet, selectedTab, Origin, dfSelected));
    }
    WithTabTwice(old(gc.books), selectedSheet, selectedTab, Blank, WriteAtOrigin(Blank, dfSelected));
    if EndsWith(excelFile, XlsxExt) {
      var _ := fs.Remove(excelFile);
    }
    return Uploaded;
  }

  /** `start_upload_thread` (app.py:70-81): an empty path gives the "not selected"
      error and runs nothing; otherwise the result is exactly the upload's. */
  method StartUploadThread(fs: FileSystem, gc: SheetsClient, selectedSheet: string, selectedTab: string,
                           excelFile: string, faults: Faults) returns (result: UploadResult)
    modifies fs, gc
    ensures excelFile == "" ==>
              && result == UploadResult(Error, NotSelectedMessage)
              && fs.files == old(fs.files) && gc.books == old(gc.books) && gc.calls == old(gc.calls)
    ensures excelFile != "" ==>
              var run := Upload(old(fs.files), old(gc.books), selectedSheet, selectedTab, excelFile, faults);
              && result == ResultOf(run.outcome)
              && fs.files == run.files
              && gc.books == run.books
              && gc.calls == old(gc.calls) + run.calls
  {
    result := UploadResult(Error, NotSelectedMessage);
    if excelFile != "" {
      result := UploadToGoogleSheets(fs, gc, selectedSheet, selectedTab, excelFile, faults);
    }
  }

  /** The "not selected" result cannot be mistaken for the result of an upload that ran. */
  lemma NotSelectedIsNoUploadResult(outcome: Outcome)
    ensures ResultOf(outcome) != UploadResult(Error, NotSelectedMessage)
  {
  }
}
