# Excel to Google Sheets upload, modelled in Dafny

The repository moves the active sheet of a local Excel workbook into one tab of a
Google Sheets spreadsheet. It does this in two variants that share the same pipeline:

- `app.py`, a Flask service whose upload returns a `{status, message}` dictionary;
- `main.py`, a tkinter form whose upload returns a bool and keeps the file path in a
  `StringVar` that it updates in place.

One upload runs these steps:

1. It converts a legacy `.xls` file into an `.xlsx` sibling through Excel's automation.
   A stale file at the target path is removed first.
2. It opens the spreadsheet and then the tab.
3. It checks that the file exists and reads its active sheet into a table.
4. It cuts the table to at most 1086 rows and 56 columns.
5. It clears the tab and writes the table from cell A1.
6. It deletes the uploaded file when its name ends with `.xlsx`.

Any exception ends the run with an error.

The model has the following modules:

- `Paths` holds the Windows `os.path` functions the conversion uses to derive its target: `split`, `splitext` and `join`.
- `Tables` holds cells, rectangular tables, the bounding slice and the effect of a write at A1.
- `Pipeline` holds `Upload`, a function from the starting state to the run: the outcome, the new files, the new tabs, the final path and the client calls made. It also holds the lemmas stating what the code promises about a run.
- `Environment` holds the local disk and the pygsheets client as classes whose methods change them step by step. Excel's save, `gc.open`, `clear` and `update_values` each take a success flag. `worksheet_by_title` and `load_workbook` fail only when the state says so: a missing tab or an unreadable file.
- `XlsConversion`, `WebApp` and `DesktopApp` hold the imperative code of the two variants. Each upload method is split into the conversion block (`ConvertIfXls`) and the steps after it (`WriteToSheet`). Each method is proved to leave exactly the state that `ConversionStage`, `SendToSheet` and `Upload` describe. `XlsConversion.ConvertXlsToXlsx` takes a second success flag for Excel's `wb.Close()` and `excel.Quit()` after the save.

## Model

| member | source | states |
|---|---|---|
| Paths.Split | app.py:17 | `os.path.split`: the tail has no separator and ends the path; the head is a prefix of the path and loses trailing separators unless it is all separators |
| Paths.SplitIsAtLastSeparator | app.py:17 | the tail is everything after the last separator; only separators lie between head and tail; the head is empty exactly when nothing precedes the tail, and is all of it when that is only separators |
| Paths.SplitExt | app.py:18 | `os.path.splitext`: root and extension concatenate back to the name, and the extension is empty or starts with a dot |
| Paths.SplitExtAtLastDot | app.py:18 | the extension lies in the file name and has no dot after its first character, so it starts at the last dot; it is empty exactly when every dot of the name has only dots before it in the name |
| Paths.Join | app.py:19 | `os.path.join` starts with the directory, then has either the file name or one separator and the file name |
| Paths.JoinEndsWithName | app.py:19 | `os.path.join` ends with the file name |
| Paths.SplitJoin | app.py:17-19 | `split` undoes `join` for a head `split` could produce and a non-empty file name |
| Paths.XlsxPath | app.py:17-20 | the conversion target of any path ends with `.xlsx` |
| Paths.XlsxPathIsNotXls | app.py:17-23 | the target never ends with `.xls`, so for an `.xls` input it differs from the input and removing a stale target never removes the source |
| Paths.XlsxPathKeepsDirAndStem | main.py:68-71 | for an `.xls` input the target has the same directory and stem as the input, and the extension `.xlsx` |
| Tables.Bound | app.py:55-56 | the bounded table has `min(rows, 1086)` rows and `min(cols, 56)` columns, and each cell equals the source cell at the same index |
| Tables.BoundIdempotent | main.py:105-106 | bounding an already bounded table changes nothing |
| Tables.BoundIsIdentityIffWithinLimits | app.py:55-56 | a table passes through bounding unchanged if and only if it is within 1086 rows and 56 columns |
| Tables.BoundKeepsBlankRows | app.py:55-56 | a row of unused cells between two other rows survives bounding |
| Tables.WriteAtOrigin | app.py:58 | after a write at A1 every non-Empty cell of the block holds its value from the top-left corner; under an Empty cell of the block, and outside the block, the tab's value is kept |
| Tables.WriteSkipsEmptyCells | app.py:58 | a `None` cell of the block leaves the tab's value under it as it was |
| Tables.WriteOnClearedTab | app.py:57-58 | after the clear, the write leaves exactly the block in the tab |
| Tables.WriteWithoutClearKeepsStaleCells | app.py:57-58 | without the clear, a write leaves cells beyond the block as they were |
| Pipeline.Conversion | app.py:14-36 | a conversion that succeeds returns the target path, which then exists; no file other than the target changes |
| Pipeline.ConversionReplacesTarget | app.py:22-31 | Excel saves if and only if it works and the source is a readable workbook; the target then holds the source's contents, and otherwise no longer exists; every other file is untouched; the conversion succeeds if and only if Excel saved and closing and quitting worked |
| Pipeline.ConversionStage | app.py:41-46 | the upload goes on only with a path that does not end with `.xls`; it stops only for an `.xls` path, which it keeps |
| Pipeline.SendToSheet | app.py:48-64 | the first client call is always `gc.open` of the selected spreadsheet; the files change at most by the removal of the uploaded path |
| Pipeline.Upload | app.py:39-67 | the run makes no client call exactly when the conversion failed; then the path ended with `.xls` and no tab changed |
| Pipeline.SendCallOrder | app.py:48-58 | the destination steps call open, then worksheet_by_title, then clear, then update_values of the bounded table at A1; they stop at the first failure, which is the last call made |
| Pipeline.SendEffects | app.py:48-64 | the destination steps succeed if and only if every step works; then the tab holds the bounded table and an `.xlsx` file is removed; failures change no file, and only a failed write changes the tab, leaving it empty |
| Pipeline.NoConversionUnlessXls | app.py:41 | a path without the `.xls` ending, `.xlsx` included, goes straight to the destination steps |
| Pipeline.ConvertedUploadSends | app.py:42-44 | after a successful conversion the upload is the destination steps on the converted path |
| Pipeline.FailedConversionEndsUpload | app.py:45-46 | after a failed conversion the upload ends with no client call |
| Pipeline.ConversionFailureStopsUpload | main.py:76-96 | when Excel fails, the source is unreadable, or closing or quitting Excel fails, the run ends with ConversionFailed, no client calls and no tab changes; the target is gone, or holds the source's contents when only closing or quitting failed |
| Pipeline.CallsFollowSourceOrder | main.py:98-108 | every run makes at most the four client calls, in source order, and the fourth writes the bounded source table at A1; an exception is always raised by the last call made |
| Pipeline.OnlyDestinationChanges | app.py:57-58 | no tab other than the destination changes, and a run that did not get past the clear leaves every tab as it was |
| Pipeline.OpenFailureLeavesTabs | app.py:48-49 | if the spreadsheet or the tab cannot be opened, no clear is made and no tab changes |
| Pipeline.MissingFileStopsBeforeClear | main.py:101-117 | a missing file gives an error after exactly the two open calls, with no clear and no write |
| Pipeline.UpdateFailureLeavesTabEmpty | app.py:57-67 | a write that fails after a successful clear leaves the destination tab empty |
| Pipeline.UploadSucceedsIffAllStepsWork | app.py:39-62 | the upload succeeds if and only if the source is a readable workbook, Excel's save, close and quit work for an `.xls` file, the spreadsheet and tab exist and clear and write work; the tab then holds the bounded source table |
| Pipeline.SuccessCleansUp | main.py:111-113 | after success, the intermediate `.xlsx` of an `.xls` is gone and the `.xls` kept, a supplied `.xlsx` is deleted, any other file stays, and the path is emptied whenever its file was deleted |
| Pipeline.FailureKeepsFiles | main.py:92-93 | a failed run deletes nothing beyond the stale conversion target, and the path keeps the converted name |
| Environment.FileSystem.Exists | app.py:51 | `os.path.exists` is true exactly for a path that holds a file |
| Environment.FileSystem.Remove | app.py:61 | `os.remove` deletes exactly the given path |
| Environment.FileSystem.LoadWorkbook | app.py:52-54 | reading gives the file's table, or nothing when the file is missing or unreadable |
| Environment.FileSystem.ExcelSaveAs | app.py:25-29 | Excel writes the source's contents at the target when it works and the source opens; otherwise no file changes |
| Environment.SheetsClient.Open | app.py:48 | `gc.open` succeeds if and only if the service works and the title exists; the call is logged |
| Environment.SheetsClient.WorksheetByTitle | app.py:49 | `worksheet_by_title` succeeds if and only if the tab exists; the call is logged |
| Environment.SheetsClient.Clear | app.py:57 | `clear` empties exactly the one tab when it works and otherwise changes nothing |
| Environment.SheetsClient.UpdateValues | app.py:58 | `update_values` at A1 overlays the block on exactly the one tab when it works and otherwise changes nothing |
| XlsConversion.ConvertXlsToXlsx | app.py:14-36 | leaves the result and the files exactly as `Conversion` says, which `ConversionReplacesTarget` characterises |
| WebApp.ResultOf | app.py:46-67 | the status is success exactly for an upload; a failed conversion and a missing file have their own messages, and every exception gives the upload-error message |
| WebApp.ResultMessagesDiffer | app.py:46-67 | equal results imply the same success, the same conversion failure and the same missing file |
| WebApp.UploadToGoogleSheets | app.py:39-67 | the result, the files, the tabs and the call log are those of `Upload` |
| WebApp.ConvertIfXls | app.py:41-46 | whether the upload goes on, the files and the path it goes on with are those of `ConversionStage` |
| WebApp.WriteToSheet | app.py:48-67 | the outcome, the files, the tabs and the call log are those of `SendToSheet` |
| WebApp.StartUploadThread | app.py:70-81 | an empty path gives the "not selected" error and changes nothing; otherwise the result and effects are exactly the upload's |
| WebApp.NotSelectedIsNoUploadResult | app.py:71 | the "not selected" result differs from every result an upload can return |
| DesktopApp.StringVar.Set | main.py:93 | the variable holds the new value |
| DesktopApp.UploadToGoogleSheets | main.py:88-121 | returns true exactly when `Upload` succeeds; `excel_file`, the files, the tabs and the call log end as `Upload` says |
| DesktopApp.ConvertIfXls | main.py:90-96 | whether the upload goes on, the files and the new `excel_file` are those of `ConversionStage` |
| DesktopApp.WriteToSheet | main.py:98-121 | returns true exactly when `SendToSheet` succeeds; `excel_file`, the files, the tabs and the call log end as `SendToSheet` says |
| DesktopApp.StartUploadThread | main.py:124-130 | an empty `excel_file` starts nothing and changes nothing; otherwise the upload runs with all its effects |

## Left out

- The tkinter form, the message boxes, and the Flask routes and templates are not modelled. A message box is modelled as the bool the desktop upload returns.
- The pickle cache of the client and of the last selections is not modelled.
- Excel's COM automation is replaced by two success flags: one for opening and saving the source, and one for `wb.Close()` and `excel.Quit()` after the save. `pythoncom.CoInitialize`/`CoUninitialize` and an Excel process left running are not modelled.
- `main.py` calls `convert_xls_to_xlsx` on a new worker thread (main.py:126) and never initialises COM on that thread. Under pywin32 this may make every desktop conversion raise. The model leaves this to the first flag, and nothing here confirms or rules it out.
- `SheetsClient.WorksheetByTitle` and `FileSystem.LoadWorkbook` take no success flag. A service error in `worksheet_by_title` therefore looks the same as a missing tab, and an openpyxl error the same as an unreadable file.
- The size of a tab's grid is not modelled. `update_values` is called without `extend=True`, and a block larger than the grid may be refused; the model counts such a refusal as a failed write.
- openpyxl and pandas are replaced by the table a file holds, or by an unreadable file. How `ws.values` and the DataFrame pad rows is taken as given.
- The pygsheets service is replaced by a map of tabs and success flags for `open`, `clear` and `update_values`. Timeouts, partial writes and concurrent writers are not modelled.
- The threads are calls made in sequence. `main.py` never joins its thread, so its result is not observed.
- `os.path.normpath` is not modelled, and neither are drive letters or UNC prefixes. The paths use both Windows separators, and `join` inserts a backslash. Each file is named by one exact string, while Windows treats `/` and `\` alike and ignores case: the target of `a/b/f.xls` is `a/b\f.xlsx`, and a stale file stored as `a\b\f.xlsx` is a different file here. The "every other file is untouched" promises of `Pipeline.Conversion`, `Pipeline.ConversionReplacesTarget` and `Pipeline.SuccessCleansUp` hold only where each file is spelled one way.
- `os.remove` failing on a file in use is not modelled. `FileSystem.Remove` only reports a missing file.
- WebApp.ResultOf: the message of a caught exception is only its fixed prefix. The exception's own text is not modelled.
- The code does not do the following:
  - drop empty rows when bounding (`Tables.BoundKeepsBlankRows`);
  - keep an `.xlsx` file the operator supplied: any `.xlsx` path is deleted after a successful upload;
  - delete the intermediate file after a failed upload: it is deleted only after a successful one.

