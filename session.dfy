/**
 * The table prompt as a state machine: a fixed configuration, the mutable
 * cursor and grid, and one transition per keypress.
 */
module Session {
  import opened ValueGrid
  import Cursor

  /** The axes' names and the page size, fixed at construction. */
  datatype Config = Config(rowNames: seq<string>, columnNames: seq<string>, pageSize: int)

  /** What the prompt needs of its configuration: two non-empty axes and a positive page size. */
  predicate Wellformed(cfg: Config)
  {
    |cfg.rowNames| >= 1 && |cfg.columnNames| >= 1 && cfg.pageSize >= 1
  }

  /** The cursor cell and the values typed so far. */
  datatype State = State(row: int, column: int, grid: Grid)

  predicate InBounds(cfg: Config, s: State)
  {
    0 <= s.row < |cfg.rowNames| && 0 <= s.column < |cfg.columnNames|
  }

  /** The cursor starts on the top-left cell of an empty grid. */
  function Initial(): State
  {
    State(0, 0, map[])
  }

  /** A keypress by key name; any other key types its value into the cell. */
  datatype Event = Left | Right | Up | Down | Backspace | Typed(value: string)

  predicate IsEdit(e: Event)
  {
    e.Backspace? || e.Typed?
  }

  /** The transition for one keypress. */
  function Step(cfg: Config, s: State, e: Event): (t: State)
    ensures Wellformed(cfg) && InBounds(cfg, s) ==> InBounds(cfg, t)
  {
    match e
    case Left => s.(column := Cursor.Left(s.column, |cfg.columnNames|))
    case Right => s.(column := Cursor.Right(s.column, |cfg.columnNames|))
    case Up => s.(row := Cursor.Up(s.row))
    case Down => s.(row := Cursor.Down(s.row, |cfg.rowNames|))
    case Backspace => s.(grid := Delete(s.grid, s.row, s.column))
    case Typed(v) => s.(grid := Input(s.grid, s.row, s.column, v))
  }

  /** The keypresses `es` delivered in order. */
  function Run(cfg: Config, s: State, es: seq<Event>): State
    decreases |es|
  {
    if |es| == 0 then s else Run(cfg, Step(cfg, s, es[0]), es[1..])
  }

  /**
   * One keypress keeps the cursor on the grid; vertical keys leave the
   * column alone, horizontal keys the row, and neither touches the grid;
   * edits leave the cursor where it is.
   */
  lemma StepKeepsInBounds(cfg: Config, s: State, e: Event)
    requires Wellformed(cfg) && InBounds(cfg, s)
    ensures InBounds(cfg, Step(cfg, s, e))
    ensures (e.Up? || e.Down?) ==> Step(cfg, s, e).column == s.column && Step(cfg, s, e).grid == s.grid
    ensures (e.Left? || e.Right?) ==> Step(cfg, s, e).row == s.row && Step(cfg, s, e).grid == s.grid
    ensures IsEdit(e) ==> Step(cfg, s, e).row == s.row && Step(cfg, s, e).column == s.column
  {
  }

  /** Any sequence of keypresses from a cell on the grid ends on the grid. */
  lemma {:induction false} RunKeepsInBounds(cfg: Config, s: State, es: seq<Event>)
    requires Wellformed(cfg) && InBounds(cfg, s)
    ensures InBounds(cfg, Run(cfg, s, es))
    decreases |es|
  {
    if |es| > 0 {
      StepKeepsInBounds(cfg, s, es[0]);
      RunKeepsInBounds(cfg, Step(cfg, s, es[0]), es[1..]);
    }
  }

  /** A plain text buffer edited by the same keys: append the value, or drop the last character. */
  function EditBuffer(b: string, es: seq<Event>): string
    decreases |es|
  {
    if |es| == 0 then b
    else
      var b' := match es[0]
        case Typed(v) => b + v
        case Backspace => DropLast(b)
        case _ => b;
      EditBuffer(b', es[1..])
  }

  /**
   * Typing and deleting in one cell behaves like editing a text buffer
   * holding the cell's text; the cursor and every other cell stay put.
   */
  lemma {:induction false} EditsActLikeBuffer(cfg: Config, s: State, es: seq<Event>)
    requires forall i :: 0 <= i < |es| ==> IsEdit(es[i])
    ensures var t := Run(cfg, s, es);
      && t.row == s.row && t.column == s.column
      && Text(t.grid, s.row, s.column) == EditBuffer(Text(s.grid, s.row, s.column), es)
      && forall r, c :: (r != s.row || c != s.column) ==> Text(t.grid, r, c) == Text(s.grid, r, c)
    decreases |es|
  {
    if |es| > 0 {
      var s' := Step(cfg, s, es[0]);
      assert IsEdit(es[0]);
      assert forall i :: 0 <= i < |es| - 1 ==> es[1..][i] == es[i + 1];
      EditsActLikeBuffer(cfg, s', es[1..]);
    }
  }
}
