/**
 * `process_jupyter_notebooks` of the collection expander
 * (training-data/scripts/expand_collection.py): the text kept from the cells of a
 * notebook, and the record written for each notebook that yields any.
 *
 * A notebook is given already decoded: `None` stands for a file that cannot be
 * read or is not a JSON object, whose exception the `try` of the source swallows.
 */
module Notebooks {
  import opened Text
  import opened Records

  /** One cell: its `cell_type` and its `source` lines, each possibly missing. */
  datatype Cell = Cell(cellType: Option<string>, source: Option<seq<string>>)

  /** One `.ipynb` file found under a repository, with `notebook.get('cells', [])`. */
  datatype NotebookFile = NotebookFile(repo: string, path: string, cells: Option<seq<Cell>>)

  /** The record written for one notebook. */
  datatype NotebookDoc = NotebookDoc(source: string, filePath: string, content: string, wordCount: nat, docType: string)

  // ---------------------------------------------------------------- comments

  /** What `#.*$` matches: a '#' and the rest of its line. */
  predicate IsComment(c: string) {
    c != [] && c[0] == '#' && '\n' !in c
  }

  /** The match of `#.*$` within one line: from the line's first '#' to its end. */
  function CommentOf(line: string): (r: Option<string>)
    ensures r.Some? <==> '#' in line
    ensures r.Some? ==> && 0 < |r.value| <= |line|
                        && r.value == line[|line| - |r.value|..]
                        && r.value[0] == '#'
                        && '#' !in line[..|line| - |r.value|]
  {
    var i := IndexOf(line, '#');
    if i == |line| then None else Some(line[i..])
  }

  /** `re.findall(r'#.*$', code, re.MULTILINE)`: `.` never crosses a newline, so each
      line of `code` holding a '#' contributes its comment, in order. */
  function Comments(code: string): seq<string> {
    Collect(SplitOn(code, '\n'), CommentOf)
  }

  /** Every match is a comment, and there is one exactly when `code` holds a '#'. */
  lemma CommentsFound(code: string)
    ensures forall c :: c in Comments(code) ==> IsComment(c)
    ensures Comments(code) == [] <==> '#' !in code
  {
    var lines := SplitOn(code, '\n');
    forall i | 0 <= i < |lines| && CommentOf(lines[i]).Some?
      ensures IsComment(CommentOf(lines[i]).value)
    {
      var c := CommentOf(lines[i]).value;
      InSlice(lines[i], |lines[i]| - |c|, |lines[i]|);
    }
    CollectAll(lines, CommentOf, IsComment);
    CollectEmpty(lines, CommentOf);
    InJoin(['\n'], lines, '#');
  }

  // ---------------------------------------------------------------- cells

  /** A cell whose keys the loop reads are present: `cell_type` always, and `source`
      for markdown and code cells. */
  predicate Readable(cell: Cell) {
    && cell.cellType.Some?
    && (cell.cellType.value == "markdown" || cell.cellType.value == "code" ==> cell.source.Some?)
  }

  /** A readable cell that adds a part: any markdown cell, and a code cell with a '#'. */
  predicate Contributes(cell: Cell) {
    && Readable(cell)
    && (|| cell.cellType.value == "markdown"
        || (cell.cellType.value == "code" && '#' in Concat(cell.source.value)))
  }

  /** Lines 368-374: the part one cell adds, if any; a missing key raises. */
  function CellPart(cell: Cell): (r: Result<Option<string>>)
    ensures r.Ok? <==> Readable(cell)
    ensures r.Fail? ==> r.error == KeyError
    ensures r.Ok? ==> (r.value.Some? <==> Contributes(cell))
  {
    match cell.cellType
    case None => Fail(KeyError)
    case Some(t) =>
      if t == "markdown" then
        match cell.source
        case None => Fail(KeyError)
        case Some(s) => Ok(Some(Concat(s)))
      else if t == "code" then
        match cell.source
        case None => Fail(KeyError)
        case Some(s) =>
          var cs := Comments(Concat(s));
          CommentsFound(Concat(s));
          if cs == [] then Ok(None) else Ok(Some(Join("\n", cs)))
      else Ok(None)
  }

  /** The parts of the cells in order, or the `KeyError` of the first unreadable cell. */
  function Parts(cells: seq<Cell>): Result<seq<string>> {
    if cells == [] then Ok([])
    else
      match Parts(cells[..|cells| - 1])
      case Fail(e) => Fail(e)
      case Ok(ps) =>
        match CellPart(cells[|cells| - 1])
        case Fail(e) => Fail(e)
        case Ok(p) => Ok(ps + Present(p))
  }

  /** The cells are read without error exactly when each is readable, and then
      there is a part exactly when some cell contributes one. */
  lemma {:induction false} PartsFound(cells: seq<Cell>)
    ensures Parts(cells).Ok? <==> forall i :: 0 <= i < |cells| ==> Readable(cells[i])
    ensures Parts(cells).Ok? ==> (Parts(cells).value == [] <==> forall i :: 0 <= i < |cells| ==> !Contributes(cells[i]))
    ensures Parts(cells).Fail? ==> Parts(cells).error == KeyError
    decreases |cells|
  {
    if cells != [] {
      var p := cells[..|cells| - 1];
      PartsFound(p);
      assert forall i :: 0 <= i < |p| ==> p[i] == cells[i];
    }
  }

  /** Once a cell raises, the notebook's outcome is that error. */
  lemma {:induction false} PartsFailPersists(cells: seq<Cell>, i: nat)
    requires i <= |cells| && Parts(cells[..i]).Fail?
    ensures Parts(cells) == Parts(cells[..i])
    decreases |cells| - i
  {
    if i < |cells| {
      assert cells[..i + 1][..i] == cells[..i];
      PartsFailPersists(cells, i + 1);
    } else {
      assert cells[..i] == cells;
    }
  }

  /** Lines 366-374: the loop over the cells, which a missing key leaves at once. */
  method ExtractParts(cells: seq<Cell>) returns (r: Result<seq<string>>)
    ensures r == Parts(cells)
  {
    var parts: seq<string> := [];
    var i := 0;
    while i < |cells|
      invariant 0 <= i <= |cells|
      invariant Parts(cells[..i]) == Ok(parts)
    {
      assert cells[..i + 1][..i] == cells[..i];
      var part := CellPart(cells[i]);
      if part.Fail? {
        PartsFailPersists(cells, i + 1);
        return Fail(part.error);
      }
      assert cells[..i + 1][i] == cells[i];
      parts := parts + Present(part.value);
      i := i + 1;
    }
    assert cells[..i] == cells;
    r := Ok(parts);
  }

  // ---------------------------------------------------------------- notebooks

  /** Lines 358-384: the record for one notebook, or none when it cannot be read,
      raises, or yields no part. */
  function NotebookRecord(f: NotebookFile): (r: Option<NotebookDoc>)
    ensures r.Some? ==> && r.value.source == f.repo + "_notebooks"
                        && r.value.filePath == f.path
                        && r.value.wordCount == |Words(r.value.content)|
                        && r.value.docType == "jupyter_notebook"
  {
    match f.cells
    case None => None
    case Some(cells) =>
      match Parts(cells)
      case Fail(_) => None
      case Ok(parts) =>
        if parts == [] then None
        else
          var combined := Join("\n\n", parts);
          Some(NotebookDoc(f.repo + "_notebooks", f.path, combined, |Words(combined)|, "jupyter_notebook"))
  }

  /** A notebook is recorded exactly when it was read, every cell is readable, and
      some cell is markdown or code with a comment. */
  lemma NotebookKept(f: NotebookFile)
    ensures NotebookRecord(f).Some? <==>
      && f.cells.Some?
      && (forall i :: 0 <= i < |f.cells.value| ==> Readable(f.cells.value[i]))
      && (exists i :: 0 <= i < |f.cells.value| && Contributes(f.cells.value[i]))
  {
    if f.cells.Some? {
      PartsFound(f.cells.value);
    }
  }

  /** Lines 356-387: one notebook. */
  method ProcessNotebook(f: NotebookFile) returns (r: Option<NotebookDoc>)
    ensures r == NotebookRecord(f)
  {
    if f.cells.None? {
      return None;
    }
    var parts := ExtractParts(f.cells.value);
    if parts.Fail? || parts.value == [] {
      return None;
    }
    var combined := Join("\n\n", parts.value);
    r := Some(NotebookDoc(f.repo + "_notebooks", f.path, combined, |Words(combined)|, "jupyter_notebook"));
  }

  /** `process_jupyter_notebooks`: the records of the notebooks, in the order found. */
  method ProcessJupyterNotebooks(files: seq<NotebookFile>) returns (docs: seq<NotebookDoc>)
    ensures docs == Collect(files, NotebookRecord)
  {
    docs := [];
    var i := 0;
    while i < |files|
      invariant 0 <= i <= |files|
      invariant docs == Collect(files[..i], NotebookRecord)
    {
      assert files[..i + 1][..i] == files[..i];
      var r := ProcessNotebook(files[i]);
      docs := docs + Present(r);
      i := i + 1;
    }
    assert files[..i] == files;
  }
}
