/**
 * What the table prompt draws after every transition: a pagination summary,
 * the column headings, one line per visible row, and an optional error line.
 * Colours and the table's box drawing are left to the terminal; a heading's
 * highlight flag stands for the colour it is drawn in.
 */
module Rendering {
  import opened ValueGrid
  import opened Session
  import Pagination
  import Decimal

  /** A row or column name, highlighted when the cursor is on that row or column. */
  datatype Heading = Heading(name: string, highlighted: bool)

  /** One drawn row: its name and the text of each of its cells. */
  datatype BodyRow = BodyRow(header: Heading, cells: seq<string>)

  /** The drawn frame: the summary heading, the column headings, the visible rows, the error line. */
  datatype Frame = Frame(summary: string, heads: seq<Heading>, body: seq<BodyRow>, bottom: string)

  /** A cell's text, bracketed when it is the cursor cell and padded with spaces otherwise. */
  function CellLabel(v: string, selected: bool): (cell: string)
    ensures |cell| == |v| + 4 && cell[2..|v| + 2] == v
    ensures cell[0] == '[' <==> selected
  {
    (if selected then "[" else " ") + " " + v + " " + (if selected then "]" else " ")
  }

  /** The two shapes a cell can be drawn in; only the cursor cell begins with '['. */
  lemma CellLabelShape(v: string, selected: bool)
    ensures CellLabel(v, selected) == if selected then "[ " + v + " ]" else "  " + v + "  "
    ensures CellLabel(v, selected)[0] == '[' <==> selected
  {
  }

  function WindowOf(cfg: Config, s: State): Pagination.Window
  {
    Pagination.Paginate(cfg.pageSize, s.row, |cfg.rowNames|)
  }

  /** "<first+1>-<last+1> of <total>", the rows shown counted from one. */
  function Summary(w: Pagination.Window, total: nat): string
    requires 0 <= w.first <= w.last
  {
    Decimal.Show(w.first + 1) + "-" + Decimal.Show(w.last + 1) + " of " + Decimal.Show(total)
  }

  function ColumnHeads(cfg: Config, s: State): seq<Heading>
  {
    seq(|cfg.columnNames|, j requires 0 <= j < |cfg.columnNames| => Heading(cfg.columnNames[j], j == s.column))
  }

  function RowCells(cfg: Config, s: State, i: int): seq<string>
  {
    seq(|cfg.columnNames|, j requires 0 <= j < |cfg.columnNames| =>
      CellLabel(Text(s.grid, i, j), i == s.row && j == s.column))
  }

  function RowOf(cfg: Config, s: State, i: int): BodyRow
    requires 0 <= i < |cfg.rowNames|
  {
    BodyRow(Heading(cfg.rowNames[i], i == s.row), RowCells(cfg, s, i))
  }

  /** The drawn lines for the first `n` rows: those rows that lie in the window `w`. */
  function VisibleRows(cfg: Config, s: State, w: Pagination.Window, n: int): seq<BodyRow>
    requires 0 <= n <= |cfg.rowNames|
  {
    if n == 0 then []
    else VisibleRows(cfg, s, w, n - 1) + (if w.first <= n - 1 <= w.last then [RowOf(cfg, s, n - 1)] else [])
  }

  /** The error line: empty without an error, otherwise the message after ">> ". */
  function ErrorLine(error: string): (line: string)
    ensures line == "" <==> error == ""
  {
    if error == "" then "" else ">> " + error
  }

  /** The frame drawn for state `s`, with `error` the validation message ("" for none). */
  function FrameOf(cfg: Config, s: State, error: string): Frame
    requires Wellformed(cfg) && InBounds(cfg, s)
  {
    var w := WindowOf(cfg, s);
    Pagination.WindowBounds(cfg.pageSize, s.row, |cfg.rowNames|);
    Frame(Summary(w, |cfg.rowNames|), ColumnHeads(cfg, s), VisibleRows(cfg, s, w, |cfg.rowNames|), ErrorLine(error))
  }

  /** Among the first `n` rows, exactly those in the window are drawn, in order. */
  lemma {:induction false} VisibleRowsAre(cfg: Config, s: State, w: Pagination.Window, n: int)
    requires 0 <= w.first <= w.last < |cfg.rowNames| && 0 <= n <= |cfg.rowNames|
    ensures var rows := VisibleRows(cfg, s, w, n);
      && |rows| == (if n <= w.first then 0 else Pagination.Min(n - 1, w.last) - w.first + 1)
      && forall k :: 0 <= k < |rows| ==> rows[k] == RowOf(cfg, s, w.first + k)
  {
    if n > 0 {
      VisibleRowsAre(cfg, s, w, n - 1);
    }
  }

  /**
   * The frame draws exactly the rows of the window, each with one cell per
   * column; the cursor cell is the one and only cell drawn in brackets, and
   * every cell shows its text ("" when unset).
   */
  lemma FrameMarksCursor(cfg: Config, s: State, error: string)
    requires Wellformed(cfg) && InBounds(cfg, s)
    ensures var f, w := FrameOf(cfg, s, error), WindowOf(cfg, s);
      && |f.body| == w.last - w.first + 1
      && (forall k :: 0 <= k < |f.body| ==>
            f.body[k].header == Heading(cfg.rowNames[w.first + k], w.first + k == s.row)
            && |f.body[k].cells| == |cfg.columnNames|)
      && (forall k, j :: 0 <= k < |f.body| && 0 <= j < |f.body[k].cells| ==>
            f.body[k].cells[j] == CellLabel(Text(s.grid, w.first + k, j), w.first + k == s.row && j == s.column)
            && (f.body[k].cells[j][0] == '[' <==> (w.first + k == s.row && j == s.column)))
      && 0 <= s.row - w.first < |f.body|
      && f.body[s.row - w.first].cells[s.column] == "[ " + Text(s.grid, s.row, s.column) + " ]"
  {
    var w := WindowOf(cfg, s);
    Pagination.WindowBounds(cfg.pageSize, s.row, |cfg.rowNames|);
    VisibleRowsAre(cfg, s, w, |cfg.rowNames|);
    forall v: string, selected: bool
      ensures CellLabel(v, selected)[0] == '[' <==> selected
    {
      CellLabelShape(v, selected);
    }
    CellLabelShape(Text(s.grid, s.row, s.column), true);
  }

  /** The heading row: every column name, with only the cursor's column highlighted. */
  lemma HeadsMarkColumn(cfg: Config, s: State, error: string)
    requires Wellformed(cfg) && InBounds(cfg, s)
    ensures var heads := FrameOf(cfg, s, error).heads;
      && |heads| == |cfg.columnNames|
      && forall j :: 0 <= j < |heads| ==> heads[j].name == cfg.columnNames[j] && (heads[j].highlighted <==> j == s.column)
  {
  }

  /** The error line is present exactly when there is an error message, and shows it. */
  lemma ErrorLineShown(error: string)
    ensures ErrorLine(error) == "" <==> error == ""
    ensures error != "" ==> ErrorLine(error) == ">> " + error && ErrorLine(error)[..3] == ">> " && ErrorLine(error)[3..] == error
  {
  }
}
