/**
 * The workbooks the dashboard writes: the data exports (`export_customers_excel`,
 * `export_products_excel`) and the two-sheet template (`export_template`).
 * A sheet is its grid of cell values, row 1 first, and the width given to each
 * column; fills, fonts, borders and alignment are presentation and not modelled.
 */
module Sheets {
  import opened Outcomes
  import opened Tables
  import opened Catalog

  datatype Sheet = Sheet(title: string, cells: seq<seq<Value>>, widths: seq<nat>)

  /** What an export produced. */
  datatype Export =
    | Refused(reason: Failure)                   // a warning, and no dialog is shown
    | NoFileChosen                               // the save dialog was closed: nothing is written
    | Written(path: string, sheets: seq<Sheet>)  // the workbook saved at `path`

  predicate Rectangular(g: seq<seq<Value>>, n: nat) {
    forall i :: 0 <= i < |g| ==> |g[i]| == n
  }

  /** Column `j` of a grid, header cell first. A direct definition; `GridRoundTrip` and the width rule are stated over it. */
  function Column(g: seq<seq<Value>>, j: nat): (c: seq<Value>)
    requires forall i :: 0 <= i < |g| ==> j < |g[i]|
    ensures |c| == |g| && forall i :: 0 <= i < |g| ==> c[i] == g[i][j]
  {
    seq(|g|, i requires 0 <= i < |g| => g[i][j])
  }

  /** Row 1: the column names. */
  function HeaderRow(cols: seq<string>): seq<Value> {
    seq(|cols|, j requires 0 <= j < |cols| => Str(cols[j]))
  }

  /** One record's values in column order. */
  function DataRow(r: Row, cols: seq<string>): seq<Value> {
    seq(|cols|, j requires 0 <= j < |cols| => if cols[j] in r then r[cols[j]] else NaN)
  }

  /** The cells an export writes: the header in row 1, then one row per record from row 2 on. */
  function Grid(t: Table): (g: seq<seq<Value>>)
    ensures |g| == |t.rows| + 1 && Rectangular(g, |t.columns|)
  {
    [HeaderRow(t.columns)] + seq(|t.rows|, i requires 0 <= i < |t.rows| => DataRow(t.rows[i], t.columns))
  }

  /** A grid read back with its first row as the header. */
  function ReadGrid(g: seq<seq<Value>>): Table
    requires g != [] && Rectangular(g, |g[0]|)
    requires forall j :: 0 <= j < |g[0]| ==> g[0][j].Str?
  {
    var cols := seq(|g[0]|, j requires 0 <= j < |g[0]| => g[0][j].s);
    Table(cols, seq(|g| - 1, i requires 0 <= i < |g| - 1 => RecordMap(Zip(cols, g[i + 1]))))
  }

  /** The written grid holds the table exactly: its header gives the columns in order and each row gives a record. */
  lemma GridRoundTrip(t: Table)
    requires ValidTable(t)
    ensures var g := Grid(t);
      && Rectangular(g, |g[0]|) && (forall j :: 0 <= j < |g[0]| ==> g[0][j].Str?)
      && ReadGrid(g) == t
  {
    var g := Grid(t);
    var back := ReadGrid(g);
    assert back.columns == t.columns;
    forall i | 0 <= i < |t.rows| ensures back.rows[i] == t.rows[i] {
      assert Zip(t.columns, g[i + 1]) == Pairs(t.columns, t.rows[i]);
      RecordMapOfPairs(t.columns, t.rows[i]);
    }
  }

  // ---------------------------------------------------------------------------
  // Column widths: `len(str(cell.value))` of the longest cell, header included, plus 2

  predicate IsColumnWidth(cells: seq<Value>, width: int) {
    && (forall i :: 0 <= i < |cells| ==> |Display(cells[i])| + 2 <= width)
    && (if cells == [] then width == 2
        else exists i :: 0 <= i < |cells| && |Display(cells[i])| + 2 == width)
  }

  /** The width loop of the exports, run over one column. */
  method ColumnWidth(cells: seq<Value>) returns (width: nat)
    ensures IsColumnWidth(cells, width)
  {
    var maxLength := 0;
    for i := 0 to |cells|
      invariant forall k :: 0 <= k < i ==> |Display(cells[k])| <= maxLength
      invariant maxLength == 0 || exists k :: 0 <= k < i && |Display(cells[k])| == maxLength
    {
      if |Display(cells[i])| > maxLength {
        maxLength := |Display(cells[i])|;
      }
    }
    if cells != [] && maxLength == 0 {
      assert |Display(cells[0])| == 0;
    }
    width := maxLength + 2;
  }

  /** The width of every column of a grid with `n` columns. */
  method SheetWidths(g: seq<seq<Value>>, n: nat) returns (widths: seq<nat>)
    requires Rectangular(g, n)
    ensures |widths| == n
    ensures forall j :: 0 <= j < n ==> IsColumnWidth(Column(g, j), widths[j])
  {
    widths := [];
    for j := 0 to n
      invariant |widths| == j
      invariant forall k :: 0 <= k < j ==> IsColumnWidth(Column(g, k), widths[k])
    {
      var w := ColumnWidth(Column(g, j));
      widths := widths + [w];
    }
  }

  /** Every column of the sheet has the width the rule gives it. */
  predicate WidthsFit(s: Sheet) {
    && Rectangular(s.cells, |s.widths|)
    && forall j :: 0 <= j < |s.widths| ==> IsColumnWidth(Column(s.cells, j), s.widths[j])
  }

  /** A sheet holding table `t` under `title`, sized by the width rule. */
  predicate IsTableSheet(s: Sheet, t: Table, title: string) {
    s.title == title && s.cells == Grid(t) && |s.widths| == |t.columns| && WidthsFit(s)
  }

  method TableSheet(t: Table, title: string) returns (s: Sheet)
    ensures IsTableSheet(s, t, title)
  {
    var g := Grid(t);
    var widths := SheetWidths(g, |t.columns|);
    s := Sheet(title, g, widths);
  }

  /**
   * `export_customers_excel` / `export_products_excel`: an empty table is refused
   * before any dialog; otherwise the chosen file gets one sheet with the table.
   */
  method ExportTable(t: Table, title: string, path: string) returns (r: Export)
    ensures IsEmpty(t) <==> r == Refused(NoData)
    ensures !IsEmpty(t) && path == "" ==> r == NoFileChosen
    ensures !IsEmpty(t) && path != "" ==>
              r.Written? && r.path == path && |r.sheets| == 1 && IsTableSheet(r.sheets[0], t, title)
  {
    if IsEmpty(t) {
      return Refused(NoData);
    }
    if path == "" {
      return NoFileChosen;
    }
    var s := TableSheet(t, title);
    return Written(path, [s]);
  }

  // ---------------------------------------------------------------------------
  // Template workbook

  /** The Instructions sheet's grid: a single column A. A direct definition; `InstructionsWidth` states its width. */
  function InstructionGrid(kind: TemplateKind): (g: seq<seq<Value>>)
    ensures Rectangular(g, 1) && |g| == |InstructionCells(kind)|
    ensures forall i :: 0 <= i < |g| ==> g[i] == [InstructionCells(kind)[i]]
  {
    var cells := InstructionCells(kind);
    seq(|cells|, i requires 0 <= i < |cells| => [cells[i]])
  }

  /**
   * `export_template`: the sample sheet (header plus the two sample rows) titled
   * after the kind, then the Instructions sheet; both sized by the width rule.
   */
  method ExportTemplate(kind: TemplateKind, path: string) returns (r: Export)
    ensures path == "" ==> r == NoFileChosen
    ensures path != "" ==>
              && r.Written? && r.path == path && |r.sheets| == 2
              && IsTableSheet(r.sheets[0], SampleTemplate(kind), KindTitle(kind) + " Template")
              && |r.sheets[0].cells| == 3
              && r.sheets[1].title == "Instructions"
              && r.sheets[1].cells == InstructionGrid(kind)
              && |r.sheets[1].widths| == 1 && WidthsFit(r.sheets[1])
  {
    if path == "" {
      return NoFileChosen;
    }
    var sample := TableSheet(SampleTemplate(kind), KindTitle(kind) + " Template");
    var g := InstructionGrid(kind);
    var widths := SheetWidths(g, 1);
    return Written(path, [sample, Sheet("Instructions", g, widths)]);
  }

  lemma InstructionLineLengths(kind: TemplateKind)
    ensures |InstructionLines(kind)[5]| == 57
    ensures forall i :: 0 <= i < 8 ==> |InstructionLines(kind)[i]| <= 57
  {
    var lines := InstructionLines(kind);
    assert |KindName(kind)| <= 9;
    assert |lines[2]| == 47 + |KindName(kind)|;
  }

  lemma InstructionCellLength(kind: TemplateKind, i: nat)
    requires i < |InstructionCells(kind)|
    ensures |Display(InstructionCells(kind)[i])| <= 57
  {
    var cells := InstructionCells(kind);
    if i < 8 {
      InstructionLineLengths(kind);
      assert cells[i] == Str(InstructionLines(kind)[i]);
    } else if i > 8 {
      var f := RequiredFields(kind)[i - 9];
      assert |f| <= 10 by {
        assert f in RequiredFields(kind);
      }
      assert cells[i] == Str("- " + f);
    }
  }

  /** The Instructions column is as wide as its longest line, the fourth step (57 characters), plus 2. */
  lemma InstructionsWidth(kind: TemplateKind, w: nat)
    requires IsColumnWidth(Column(InstructionGrid(kind), 0), w)
    ensures w == 59
  {
    var c := Column(InstructionGrid(kind), 0);
    InstructionLineLengths(kind);
    assert c[5] == InstructionCells(kind)[5] == Str(InstructionLines(kind)[5]);
    forall i | 0 <= i < |c| ensures |Display(c[i])| <= 57 {
      assert c[i] == InstructionCells(kind)[i];
      InstructionCellLength(kind, i);
    }
  }
}
