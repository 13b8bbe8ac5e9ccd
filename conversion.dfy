/** The `.xls` to `.xlsx` conversion both variants call before uploading a legacy
    workbook. The two copies (app.py:14-36, main.py:66-85) differ only in the COM
    initialisation of the web variant, which is not modelled. */
module XlsConversion {
  import opened Paths
  import opened Pipeline
  import opened Environment

  /** `convert_xls_to_xlsx`: derive the target path from the directory and stem of the
      source, remove a file already there, let Excel save the source there, then close
      the workbook and quit Excel; the result is the target path, or `None` when any
      Excel step raises. */
  method ConvertXlsToXlsx(fs: FileSystem, xlsFile: string, convertWorks: bool, closeWorks: bool)
    returns (converted: Option<string>)
    modifies fs
    ensures (converted, fs.files) == Conversion(old(fs.files), xlsFile, convertWorks, closeWorks)
  {
    var xlsxFile := XlsxPath(xlsFile);
    if fs.Exists(xlsxFile) {
      var _ := fs.Remove(xlsxFile);
    } else {
      assert fs.files == fs.files - {xlsxFile};
    }
    var saved := fs.ExcelSaveAs(xlsFile, xlsxFile, convertWorks);
    // `wb.Close()` and `excel.Quit()` run after the save and can still raise.
    if saved && closeWorks {
      converted := Some(xlsxFile);
    } else {
      converted := None;
    }
  }
}
