/** One upload of an Excel file into a Google Sheets tab (`upload_to_google_sheets`,
    app.py:39-67 and main.py:88-121), as a function of the state it starts from: the
    local files, the spreadsheets the client can reach, and how each external call
    turns out. The imperative models of both variants are proved to do what `Upload`
    says; the lemmas below state what the code promises about it. */
module Pipeline {
  import opened Paths
  import opened Tables

  datatype Option<T> = None | Some(value: T)

  /** What a local file holds: the table pandas builds from the active sheet of the
      workbook, or contents that neither Excel nor openpyxl can open. */
  datatype FileData = Workbook(table: Table) | Unreadable

  type Files = map<string, FileData>

  /** Spreadsheet title -> tab title -> contents of the tab. */
  type Books = map<string, map<string, Table>>

  /** A call made on the Google Sheets client, whether it succeeded or raised. */
  datatype Call =
    | Open(title: string)
    | WorksheetByTitle(sheet: string, tab: string)
    | Clear(sheet: string, tab: string)
    | UpdateValues(sheet: string, tab: string, crange: string, values: Table)

  /** Whether each external call works when it is reached: Excel's opening and
      saving of the source, Excel's `wb.Close()` and `excel.Quit()` after the save,
      `gc.open`, `worksheet.clear` and `worksheet.update_values`. A missing file,
      spreadsheet or tab is decided by the state, not by these flags. */
  datatype Faults = Faults(convertWorks: bool, closeWorks: bool, openWorks: bool, clearWorks: bool, updateWorks: bool)

  /** `books` with the tab `tab` of the spreadsheet `sheet` holding `contents`. */
  function WithTab(books: Books, sheet: string, tab: string, contents: Table): Books
    requires sheet in books
  {
    var tabs: map<string, Table> := books[sheet][tab := contents];
    books[sheet := tabs]
  }

  /** Writing a tab twice leaves what the second write put there. */
  lemma WithTabTwice(books: Books, sheet: string, tab: string, first: Table, second: Table)
    requires sheet in books
    ensures WithTab(WithTab(books, sheet, tab, first), sheet, tab, second) == WithTab(books, sheet, tab, second)
  {
    assert books[sheet][tab := first][tab := second] == books[sheet][tab := second];
  }

  /** How an upload ends. */
  datatype Outcome =
    | Uploaded
    | ConversionFailed    // convert_xls_to_xlsx returned None
    | FileMissing         // os.path.exists was false after the destination was opened
    | LoadFailed          // load_workbook raised
    | Raised(call: Call)  // a call on the Google Sheets client raised

  /** The outcome, the new local files and remote tabs, the path the upload ended
      with (the `excel_file` variable), and the client calls made, in order. */
  datatype Run = Run(outcome: Outcome, files: Files, books: Books, excelFile: string, calls: seq<Call>)

  const XlsExt := ".xls"
  const XlsxExt := ".xlsx"
  /** The cell the block is written at. */
  const Origin := "A1"

  /** `convert_xls_to_xlsx` (app.py:14-36, main.py:66-85): any file at the target path
      is removed first; then Excel opens the source and saves it at the target, which
      works only when Excel works and can open the source. Closing the workbook and
      quitting Excel come after the save: when either raises, the conversion reports
      failure although the target has been written. */
  function Conversion(files: Files, xls: string, convertWorks: bool, closeWorks: bool): (r: (Option<string>, Files))
    ensures r.0.Some? ==> r.0.value == XlsxPath(xls) && r.0.value in r.1
    ensures r.1 - {XlsxPath(xls)} == files - {XlsxPath(xls)}
  {
    var target := XlsxPath(xls);
    var cleared := files - {target};
    RemoveTwice(files, target);
    if convertWorks && xls in cleared && cleared[xls].Workbook? then
      var saved := cleared[target := cleared[xls]];
      StoreThenRemove(files, target, cleared[xls]);
      if closeWorks then (Some(target), saved) else (None, saved)
    else (None, cleared)
  }

  /** The steps after the conversion (app.py:48-64, main.py:98-117): open the
      spreadsheet and the tab, check that the file exists, read it, clear the tab,
      write the bounded table at A1, and delete the file when it is an `.xlsx`. */
  function SendToSheet(files: Files, books: Books, sheet: string, tab: string, path: string, faults: Faults): (r: Run)
    ensures r.calls != [] && r.calls[0] == Open(sheet)
    ensures r.files == files || r.files == files - {path}
  {
    var opening := [Open(sheet)];
    if !faults.openWorks || sheet !in books then Run(Raised(Open(sheet)), files, books, path, opening)
    else
      var selecting := opening + [WorksheetByTitle(sheet, tab)];
      if tab !in books[sheet] then Run(Raised(WorksheetByTitle(sheet, tab)), files, books, path, selecting)
      else if path !in files then Run(FileMissing, files, books, path, selecting)
      else if files[path].Unreadable? then Run(LoadFailed, files, books, path, selecting)
      else
        var block := Bound(files[path].table);
        var clearing := selecting + [Clear(sheet, tab)];
        if !faults.clearWorks then Run(Raised(Clear(sheet, tab)), files, books, path, clearing)
        else
          var cleared := WithTab(books, sheet, tab, Blank);
          var update := UpdateValues(sheet, tab, Origin, block);
          var updating := clearing + [update];
          if !faults.updateWorks then Run(Raised(update), files, cleared, path, updating)
          else
            var written := WithTab(books, sheet, tab, WriteAtOrigin(Blank, block));
            if EndsWith(path, XlsxExt) then Run(Uploaded, files - {path}, written, "", updating)
            else Run(Uploaded, files, written, path, updating)
  }

  /** The conversion block of `upload_to_google_sheets` (app.py:41-46, main.py:90-96):
      whether the upload goes on, the files afterwards, and the path it goes on
      with. A path ending with `.xls` is converted, and the upload stops when the
      conversion fails; any other path goes on unchanged. */
  function ConversionStage(files: Files, excelFile: string, faults: Faults): (r: (bool, Files, string))
    ensures r.0 ==> !EndsWith(r.2, XlsExt)
    ensures !r.0 ==> EndsWith(excelFile, XlsExt) && r.2 == excelFile
  {
    if EndsWith(excelFile, XlsExt) then
      var (converted, files') := Conversion(files, excelFile, faults.convertWorks, faults.closeWorks);
      if converted.None? then (false, files', excelFile)
      else
        XlsxPathIsNotXls(excelFile);
        (true, files', converted.value)
    else (true, files, excelFile)
  }

  /** `upload_to_google_sheets`: the conversion block, then, unless it stopped the
      upload, the destination steps on the path it produced. */
  function Upload(files: Files, books: Books, sheet: string, tab: string, excelFile: string, faults: Faults): (r: Run)
    ensures r.outcome == ConversionFailed <==> r.calls == []
    ensures r.outcome == ConversionFailed ==> EndsWith(excelFile, XlsExt) && r.books == books
  {
    var (proceed, files', path) := ConversionStage(files, excelFile, faults);
    if proceed then SendToSheet(files', books, sheet, tab, path, faults)
    else Run(ConversionFailed, files', books, excelFile, [])
  }

  /** Every tab other than `tab` of `sheet` holds what it held, and no spreadsheet or
      tab appears or disappears. */
  ghost predicate OnlyTabChanged(before: Books, after: Books, sheet: string, tab: string) {
    && after.Keys == before.Keys
    && (forall s :: s in before && s != sheet ==> after[s] == before[s])
    && (sheet in before ==>
          && after[sheet].Keys == before[sheet].Keys
          && forall t :: t in before[sheet] && t != tab ==> after[sheet][t] == before[sheet][t])
  }

  /** The conditions under which every step of the upload works, stated without
      following the steps: the source is a readable workbook, Excel works if it is an
      `.xls`, the spreadsheet and the tab exist and the service accepts every call. */
  ghost predicate AllStepsWork(files: Files, books: Books, sheet: string, tab: string, excelFile: string, faults: Faults) {
    && excelFile in files && files[excelFile].Workbook?
    && (EndsWith(excelFile, XlsExt) ==> faults.convertWorks && faults.closeWorks)
    && faults.openWorks && sheet in books && tab in books[sheet]
    && faults.clearWorks && faults.updateWorks
  }

  /** Removing a key twice is removing it once. */
  lemma RemoveTwice<K, V>(m: map<K, V>, k: K)
    ensures (m - {k}) - {k} == m - {k}
  {
  }

  /** Storing a key and then removing it is removing it. */
  lemma StoreThenRemove<K, V>(m: map<K, V>, k: K, v: V)
    ensures (m - {k})[k := v] - {k} == m - {k}
  {
  }

  /** Removing a key and then storing it is storing it. */
  lemma RemoveThenStore<K, V>(m: map<K, V>, k: K, v: V)
    ensures (m - {k})[k := v] == m[k := v]
  {
  }

  /** The conversion removes a stale target before Excel saves, so afterwards the
      target holds the source's contents when Excel saved it and does not exist
      otherwise; the source and every other file are untouched. The conversion
      succeeds only when closing and quitting Excel work as well
      (app.py:22-31, main.py:73-82). */
  lemma ConversionReplacesTarget(files: Files, xls: string, convertWorks: bool, closeWorks: bool)
    requires EndsWith(xls, XlsExt)
    ensures var (converted, files') := Conversion(files, xls, convertWorks, closeWorks);
            var saved := convertWorks && xls in files && files[xls].Workbook?;
            && (converted.Some? <==> saved && closeWorks)
            && (converted.Some? ==> converted.value == XlsxPath(xls))
            && files' == if saved then files[XlsxPath(xls) := files[xls]] else files - {XlsxPath(xls)}
  {
    var target := XlsxPath(xls);
    XlsxPathIsNotXls(xls);
    var cleared := files - {target};
    assert xls in cleared <==> xls in files;
    if xls in files {
      assert cleared[xls] == files[xls];
      RemoveThenStore(files, target, files[xls]);
    }
  }

  /** The client calls of the destination steps come in the source's order: open
      the spreadsheet, open the tab, clear it, write the bounded table at A1; the
      steps stop at the first failure, which is the last call made. */
  lemma SendCallOrder(files: Files, books: Books, sheet: string, tab: string, path: string, faults: Faults)
    ensures var r := SendToSheet(files, books, sheet, tab, path, faults);
            && 1 <= |r.calls| <= 4
            && (|r.calls| < 4 ==> r.calls <= [Open(sheet), WorksheetByTitle(sheet, tab), Clear(sheet, tab)])
            && (|r.calls| == 4 ==>
                  && path in files && files[path].Workbook?
                  && r.calls == [Open(sheet), WorksheetByTitle(sheet, tab), Clear(sheet, tab),
                                 UpdateValues(sheet, tab, Origin, Bound(files[path].table))])
            && (r.outcome.Raised? ==> r.calls[|r.calls| - 1] == r.outcome.call)
  {
  }

  /** What the destination steps do to the tabs and the files, outcome by outcome. */
  lemma SendEffects(files: Files, books: Books, sheet: string, tab: string, path: string, faults: Faults)
    ensures var r := SendToSheet(files, books, sheet, tab, path, faults);
            && OnlyTabChanged(books, r.books, sheet, tab)
            && (r.outcome == Uploaded <==>
                  && faults.openWorks && sheet in books && tab in books[sheet]
                  && path in files && files[path].Workbook?
                  && faults.clearWorks && faults.updateWorks)
            && (r.outcome == Uploaded ==>
                  && r.books == WithTab(books, sheet, tab, Bound(files[path].table))
                  && r.files == (if EndsWith(path, XlsxExt) then files - {path} else files)
                  && r.excelFile == (if EndsWith(path, XlsxExt) then "" else path))
            && (r.outcome != Uploaded ==> r.files == files && r.excelFile == path)
            && (r.outcome.Raised? && r.outcome.call.UpdateValues? ==>
                  sheet in books && r.books == WithTab(books, sheet, tab, Blank))
            && (r.outcome == Uploaded || (r.outcome.Raised? && r.outcome.call.UpdateValues?) ==> |r.calls| == 4)
            && (r.outcome != Uploaded && !(r.outcome.Raised? && r.outcome.call.UpdateValues?) ==> r.books == books)
            && (r.outcome == FileMissing ==> path !in files)
  {
    var r := SendToSheet(files, books, sheet, tab, path, faults);
    if r.outcome == Uploaded {
      WriteOnClearedTab(Bound(files[path].table));
    }
  }

  /** A path that does not end with `.xls`, an `.xlsx` included, goes straight to the
      destination steps without any conversion (app.py:41, main.py:90). */
  lemma NoConversionUnlessXls(files: Files, books: Books, sheet: string, tab: string, excelFile: string, faults: Faults)
    requires !EndsWith(excelFile, XlsExt)
    ensures Upload(files, books, sheet, tab, excelFile, faults) == SendToSheet(files, books, sheet, tab, excelFile, faults)
  {
  }

  /** After a conversion that succeeds, the upload is the destination steps on the
      converted file (app.py:42-44, main.py:91-93). */
  lemma ConvertedUploadSends(files: Files, books: Books, sheet: string, tab: string, excelFile: string, faults: Faults)
    requires EndsWith(excelFile, XlsExt)
    requires Conversion(files, excelFile, faults.convertWorks, faults.closeWorks).0.Some?
    ensures var (converted, files') := Conversion(files, excelFile, faults.convertWorks, faults.closeWorks);
            Upload(files, books, sheet, tab, excelFile, faults) == SendToSheet(files', books, sheet, tab, converted.value, faults)
  {
  }

  /** After a conversion that fails, the upload ends there (app.py:45-46,
      main.py:94-96). */
  lemma FailedConversionEndsUpload(files: Files, books: Books, sheet: string, tab: string, excelFile: string, faults: Faults)
    requires EndsWith(excelFile, XlsExt)
    requires Conversion(files, excelFile, faults.convertWorks, faults.closeWorks).0.None?
    ensures Upload(files, books, sheet, tab, excelFile, faults)
         == Run(ConversionFailed, Conversion(files, excelFile, faults.convertWorks, faults.closeWorks).1, books, excelFile, [])
  {
  }

  /** When the conversion fails, the upload ends with an error before any call on the
      Google Sheets client, so no tab changes. The stale target is gone, unless Excel
      saved the new one before closing or quitting raised: then the new `.xlsx` stays
      on disk (app.py:27-34, 42-46; main.py:78-83, 91-96). */
  lemma ConversionFailureStopsUpload(files: Files, books: Books, sheet: string, tab: string, excelFile: string, faults: Faults)
    requires EndsWith(excelFile, XlsExt)
    requires !(faults.convertWorks && faults.closeWorks && excelFile in files && files[excelFile].Workbook?)
    ensures var r := Upload(files, books, sheet, tab, excelFile, faults);
            var saved := faults.convertWorks && excelFile in files && files[excelFile].Workbook?;
            && r.outcome == ConversionFailed
            && r.calls == [] && r.books == books
            && r.files == (if saved then files[XlsxPath(excelFile) := files[excelFile]] else files - {XlsxPath(excelFile)})
            && r.excelFile == excelFile
  {
    ConversionReplacesTarget(files, excelFile, faults.convertWorks, faults.closeWorks);
  }

  /** The client calls are made in the source's order: open the spreadsheet, open the
      tab, clear it, then write the bounded source table at A1; a run stops at its
      first failure, which is its last call (app.py:48-58, main.py:98-108). */
  lemma CallsFollowSourceOrder(files: Files, books: Books, sheet: string, tab: string, excelFile: string, faults: Faults)
    ensures var r := Upload(files, books, sheet, tab, excelFile, faults);
            && |r.calls| <= 4
            && (|r.calls| < 4 ==> r.calls <= [Open(sheet), WorksheetByTitle(sheet, tab), Clear(sheet, tab)])
            && (|r.calls| == 4 ==>
                  && excelFile in files && files[excelFile].Workbook?
                  && r.calls == [Open(sheet), WorksheetByTitle(sheet, tab), Clear(sheet, tab),
                                 UpdateValues(sheet, tab, Origin, Bound(files[excelFile].table))])
            && (r.outcome.Raised? ==> r.calls != [] && r.calls[|r.calls| - 1] == r.outcome.call)
  {
    if EndsWith(excelFile, XlsExt) {
      ConversionReplacesTarget(files, excelFile, faults.convertWorks, faults.closeWorks);
      var (converted, files') := Conversion(files, excelFile, faults.convertWorks, faults.closeWorks);
      if converted.Some? {
        ConvertedUploadSends(files, books, sheet, tab, excelFile, faults);
        SendCallOrder(files', books, sheet, tab, converted.value, faults);
        SendEffects(files', books, sheet, tab, converted.value, faults);
      } else {
        FailedConversionEndsUpload(files, books, sheet, tab, excelFile, faults);
      }
    } else {
      SendCallOrder(files, books, sheet, tab, excelFile, faults);
      SendEffects(files, books, sheet, tab, excelFile, faults);
    }
  }

  /** No tab other than the destination ever changes, and the destination changes
      only once it has been cleared: a run that did not reach a successful clear
      leaves every tab as it was (app.py:57, main.py:107). */
  lemma OnlyDestinationChanges(files: Files, books: Books, sheet: string, tab: string, excelFile: string, faults: Faults)
    ensures var r := Upload(files, books, sheet, tab, excelFile, faults);
            && OnlyTabChanged(books, r.books, sheet, tab)
            && (Clear(sheet, tab) !in r.calls || r.outcome == Raised(Clear(sheet, tab)) ==> r.books == books)
  {
    var (proceed, files', path) := ConversionStage(files, excelFile, faults);
    if proceed {
      SendCallOrder(files', books, sheet, tab, path, faults);
      SendEffects(files', books, sheet, tab, path, faults);
    }
  }

  /** If the spreadsheet or the tab cannot be opened, nothing is cleared or written
      and every tab keeps its contents (app.py:48-49, 65-67; main.py:98-99, 118-121). */
  lemma OpenFailureLeavesTabs(files: Files, books: Books, sheet: string, tab: string, excelFile: string, faults: Faults)
    ensures var r := Upload(files, books, sheet, tab, excelFile, faults);
            r.outcome == Raised(Open(sheet)) || r.outcome == Raised(WorksheetByTitle(sheet, tab)) ==>
              && r.books == books
              && |r.calls| <= 2
              && Clear(sheet, tab) !in r.calls
  {
    var (proceed, files', path) := ConversionStage(files, excelFile, faults);
    if proceed {
      SendCallOrder(files', books, sheet, tab, path, faults);
      SendEffects(files', books, sheet, tab, path, faults);
    }
  }

  /** A file missing once the destination is open gives an error with no clear and
      no write (app.py:51, 63-64; main.py:101, 115-117). */
  lemma MissingFileStopsBeforeClear(files: Files, books: Books, sheet: string, tab: string, excelFile: string, faults: Faults)
    ensures var r := Upload(files, books, sheet, tab, excelFile, faults);
            r.outcome == FileMissing ==>
              && r.calls == [Open(sheet), WorksheetByTitle(sheet, tab)]
              && r.books == books
              && r.excelFile !in r.files
  {
    var (proceed, files', path) := ConversionStage(files, excelFile, faults);
    if proceed {
      SendEffects(files', books, sheet, tab, path, faults);
    }
  }

  /** When the write fails after a successful clear, the destination tab is left
      empty and the run ends with an error (app.py:57-58, 65-67; main.py:107-108,
      118-121). */
  lemma UpdateFailureLeavesTabEmpty(files: Files, books: Books, sheet: string, tab: string, excelFile: string, faults: Faults)
    ensures var r := Upload(files, books, sheet, tab, excelFile, faults);
            r.outcome.Raised? && r.outcome.call.UpdateValues? ==>
              && sheet in books && tab in books[sheet]
              && r.books == WithTab(books, sheet, tab, Blank)
              && Clear(sheet, tab) in r.calls
  {
    var (proceed, files', path) := ConversionStage(files, excelFile, faults);
    if proceed {
      SendEffects(files', books, sheet, tab, path, faults);
    }
  }

  /** The upload succeeds exactly when every step works, and then the destination tab
      holds the source table cut to 1086 rows and 56 columns, and nothing else
      (app.py:51-62, main.py:101-114). */
  lemma UploadSucceedsIffAllStepsWork(files: Files, books: Books, sheet: string, tab: string, excelFile: string, faults: Faults)
    ensures var r := Upload(files, books, sheet, tab, excelFile, faults);
            && (r.outcome == Uploaded <==> AllStepsWork(files, books, sheet, tab, excelFile, faults))
            && (r.outcome == Uploaded ==> r.books == WithTab(books, sheet, tab, Bound(files[excelFile].table)))
  {
    if EndsWith(excelFile, XlsExt) {
      ConversionReplacesTarget(files, excelFile, faults.convertWorks, faults.closeWorks);
      var (converted, files') := Conversion(files, excelFile, faults.convertWorks, faults.closeWorks);
      if converted.Some? {
        ConvertedUploadSends(files, books, sheet, tab, excelFile, faults);
        SendEffects(files', books, sheet, tab, converted.value, faults);
      } else {
        FailedConversionEndsUpload(files, books, sheet, tab, excelFile, faults);
      }
    } else {
      SendEffects(files, books, sheet, tab, excelFile, faults);
    }
  }

  /** After a successful upload the intermediate `.xlsx` of a converted `.xls` is gone
      and the `.xls` itself is kept; an `.xlsx` the operator supplied is deleted too;
      any other file stays. The path variable is emptied whenever the file was
      deleted (app.py:60-61, main.py:111-113). */
  lemma SuccessCleansUp(files: Files, books: Books, sheet: string, tab: string, excelFile: string, faults: Faults)
    requires Upload(files, books, sheet, tab, excelFile, faults).outcome == Uploaded
    ensures var r := Upload(files, books, sheet, tab, excelFile, faults);
            && (EndsWith(excelFile, XlsExt) ==>
                  r.files == files - {XlsxPath(excelFile)} && excelFile in r.files && r.excelFile == "")
            && (EndsWith(excelFile, XlsxExt) ==> r.files == files - {excelFile} && r.excelFile == "")
            && (!EndsWith(excelFile, XlsExt) && !EndsWith(excelFile, XlsxExt) ==>
                  r.files == files && r.excelFile == excelFile)
  {
    if EndsWith(excelFile, XlsExt) {
      XlsIsNotXlsx(excelFile);
      ConvertedSuccessCleansUp(files, books, sheet, tab, excelFile, faults);
    } else {
      SendEffects(files, books, sheet, tab, excelFile, faults);
    }
  }

  /** The `.xls` case of `SuccessCleansUp`. */
  lemma ConvertedSuccessCleansUp(files: Files, books: Books, sheet: string, tab: string, excelFile: string, faults: Faults)
    requires EndsWith(excelFile, XlsExt)
    requires Upload(files, books, sheet, tab, excelFile, faults).outcome == Uploaded
    ensures var r := Upload(files, books, sheet, tab, excelFile, faults);
            r.files == files - {XlsxPath(excelFile)} && excelFile in r.files && r.excelFile == ""
  {
    var target := XlsxPath(excelFile);
    assert target != excelFile && EndsWith(target, XlsxExt) by {
      XlsxPathIsNotXls(excelFile);
    }
    assert Conversion(files, excelFile, faults.convertWorks, faults.closeWorks).0.Some?;
    assert excelFile in files && Conversion(files, excelFile, faults.convertWorks, faults.closeWorks) == (Some(target), files[target := files[excelFile]]) by {
      ConversionReplacesTarget(files, excelFile, faults.convertWorks, faults.closeWorks);
    }
    var files' := files[target := files[excelFile]];
    assert Upload(files, books, sheet, tab, excelFile, faults) == SendToSheet(files', books, sheet, tab, target, faults) by {
      ConvertedUploadSends(files, books, sheet, tab, excelFile, faults);
    }
    var r := SendToSheet(files', books, sheet, tab, target, faults);
    assert r.files == files' - {target} && r.excelFile == "" by {
      SendEffects(files', books, sheet, tab, target, faults);
    }
    assert files' - {target} == files - {target};
  }


  /** A failed upload deletes nothing beyond the stale target the conversion
      removed and leaves a converted `.xlsx` in place, and the path variable keeps
      the converted path (app.py:42-44, main.py:92-93, 115-121). */
  lemma FailureKeepsFiles(files: Files, books: Books, sheet: string, tab: string, excelFile: string, faults: Faults)
    requires Upload(files, books, sheet, tab, excelFile, faults).outcome != Uploaded
    ensures var r := Upload(files, books, sheet, tab, excelFile, faults);
            && (!EndsWith(excelFile, XlsExt) ==> r.files == files && r.excelFile == excelFile)
            && (EndsWith(excelFile, XlsExt) ==>
                  var (converted, files') := Conversion(files, excelFile, faults.convertWorks, faults.closeWorks);
                  && r.files == files'
                  && r.excelFile == (if converted.Some? then XlsxPath(excelFile) else excelFile))
  {
    if EndsWith(excelFile, XlsExt) {
      var (converted, files') := Conversion(files, excelFile, faults.convertWorks, faults.closeWorks);
      if converted.Some? {
        ConvertedUploadSends(files, books, sheet, tab, excelFile, faults);
        SendEffects(files', books, sheet, tab, converted.value, faults);
      } else {
        FailedConversionEndsUpload(files, books, sheet, tab, excelFile, faults);
      }
    } else {
      SendEffects(files, books, sheet, tab, excelFile, faults);
    }
  }
}
