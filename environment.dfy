/** The collaborators the upload changes step by step: the local disk (through
    `os.path`, `os.remove`, openpyxl and Excel's automation) and the pygsheets client
    `gc`. Excel's save, `gc.open`, `clear` and `update_values` take a flag saying
    whether they work; `worksheet_by_title` and `load_workbook` fail only as the state
    decides (a missing tab, an unreadable file). */
module Environment {
  import opened Tables
  import opened Pipeline

  /** The local disk, path by path. */
  class FileSystem {
    var files: Files

    constructor (files: Files)
      ensures this.files == files
    {
      this.files := files;
    }

    /** `os.path.exists` */
    predicate Exists(path: string)
      reads this
      ensures Exists(path) <==> path in files
    {
      path in files
    }

    /** `os.remove`: deletes the file; it raises (reported as `false`) when there is
        none. */
    method Remove(path: string) returns (removed: bool)
      modifies this
      ensures removed == (path in old(files))
      ensures files == old(files) - {path}
    {
      removed := path in files;
      files := files - {path};
    }

    /** `load_workbook(path)` and `pd.DataFrame(ws.values)`: the table of the active
        sheet, or `None` when openpyxl raises. */
    method LoadWorkbook(path: string) returns (table: Option<Table>)
      ensures path in files && files[path].Workbook? ==> table == Some(files[path].table)
      ensures !(path in files && files[path].Workbook?) ==> table == None
    {
      if path in files && files[path].Workbook? {
        table := Some(files[path].table);
      } else {
        table := None;
      }
    }

    /** Excel's `Workbooks.Open(xls)` and `wb.SaveAs(target, FileFormat=51)`: when Excel
        works and can open the source, the target is written with the source's
        contents; otherwise nothing is written. */
    method ExcelSaveAs(xls: string, target: string, convertWorks: bool) returns (saved: bool)
      modifies this
      ensures saved == (convertWorks && xls in old(files) && old(files)[xls].Workbook?)
      ensures files == if saved then old(files)[target := old(files)[xls]] else old(files)
    {
      saved := convertWorks && xls in files && files[xls].Workbook?;
      if saved {
        files := files[target := files[xls]];
      }
    }
  }

  /** The pygsheets client: the spreadsheets it can reach, by title, and the log of
      the calls made on it. Spreadsheet and worksheet handles are their titles. */
  class SheetsClient {
    var books: Books
    ghost var calls: seq<Call>

    constructor (books: Books)
      ensures this.books == books && calls == []
    {
      this.books := books;
      calls := [];
    }

    /** `gc.open(title)`: raises when the service refuses or no spreadsheet has that
        title. */
    method Open(title: string, openWorks: bool) returns (sheetOpened: bool)
      modifies this`calls
      ensures sheetOpened == (openWorks && title in books)
      ensures calls == old(calls) + [Call.Open(title)]
    {
      sheetOpened := openWorks && title in books;
      calls := calls + [Call.Open(title)];
    }

    /** `sh.worksheet_by_title(tab)`: raises when the spreadsheet has no such tab. */
    method WorksheetByTitle(sheet: string, tab: string) returns (found: bool)
      requires sheet in books
      modifies this`calls
      ensures found == (tab in books[sheet])
      ensures calls == old(calls) + [Call.WorksheetByTitle(sheet, tab)]
    {
      found := tab in books[sheet];
      calls := calls + [Call.WorksheetByTitle(sheet, tab)];
    }

    /** `worksheet.clear()`: empties the tab, or raises and changes nothing. */
    method Clear(sheet: string, tab: string, clearWorks: bool) returns (cleared: bool)
      requires sheet in books && tab in books[sheet]
      modifies this
      ensures cleared == clearWorks
      ensures books == if cleared then WithTab(old(books), sheet, tab, Blank) else old(books)
      ensures calls == old(calls) + [Call.Clear(sheet, tab)]
    {
      cleared := clearWorks;
      if cleared {
        books := WithTab(books, sheet, tab, Blank);
      }
      calls := calls + [Call.Clear(sheet, tab)];
    }

    /** `worksheet.update_values(crange='A1', values=values)`: one call that writes the
        whole block from the top-left cell, or raises and changes nothing. */
    method UpdateValues(sheet: string, tab: string, values: Table, updateWorks: bool) returns (updated: bool)
      requires sheet in books && tab in books[sheet]
      modifies this
      ensures updated == updateWorks
      ensures books == if updated then WithTab(old(books), sheet, tab, WriteAtOrigin(old(books)[sheet][tab], values))
                       else old(books)
      ensures calls == old(calls) + [Call.UpdateValues(sheet, tab, Origin, values)]
    {
      updated := updateWorks;
      if updated {
        books := WithTab(books, sheet, tab, WriteAtOrigin(books[sheet][tab], values));
      }
      calls := calls + [Call.UpdateValues(sheet, tab, Origin, values)];
    }
  }
}
