/**
 * The table prompt itself: a grid-input controller whose cursor and values
 * change in place as keypresses arrive, re-drawing the table after each.
 */
module Prompt {
  import opened ValueGrid
  import Cursor
  import Pagination
  import Projection
  import Session
  import Rendering

  /** What the validator says of a candidate answer. */
  datatype Verdict = Accept | Reject(message: string)

  /** The result of submitting: the answer with the last frame, or the frame showing the rejection. */
  datatype Outcome = Completed(answer: map<string, string>, frame: Rendering.Frame) | Retry(frame: Rendering.Frame)

  class TablePrompt {
    const rowNames: seq<string>
    const columnNames: seq<string>
    const pageSize: int
    var row: int
    var column: int
    var values: Grid

    function Cfg(): Session.Config
    {
      Session.Config(rowNames, columnNames, pageSize)
    }

    function Snapshot(): Session.State
      reads this
    {
      Session.State(row, column, values)
    }

    /** Both axes non-empty, a positive page size, and the cursor on the grid. */
    ghost predicate Valid()
      reads this
    {
      Session.Wellformed(Cfg()) && Session.InBounds(Cfg(), Snapshot())
    }

    /** A missing page size (0 here) defaults to five rows. */
    constructor (rowNames: seq<string>, columnNames: seq<string>, requestedPageSize: nat)
      requires |rowNames| >= 1 && |columnNames| >= 1
      ensures Valid()
      ensures Cfg() == Session.Config(rowNames, columnNames, if requestedPageSize == 0 then 5 else requestedPageSize)
      ensures Snapshot() == Session.Initial()
    {
      this.rowNames := rowNames;
      this.columnNames := columnNames;
      row := 0;
      column := 0;
      values := map[];
      pageSize := if requestedPageSize == 0 then 5 else requestedPageSize;
    }

    /** The flat answer, one entry per (row name, column name) pair, filled row by row. */
    method GridToObject(grid: Grid) returns (obj: map<string, string>)
      ensures obj == Projection.ResultOf(rowNames, columnNames, grid)
    {
      obj := map[];
      var rowIndex := 0;
      while rowIndex < |rowNames|
        invariant 0 <= rowIndex <= |rowNames|
        invariant obj == Projection.ResultOf(rowNames[..rowIndex], columnNames, grid)
      {
        ghost var before := obj;
        var rowName := rowNames[rowIndex];
        var columnIndex := 0;
        while columnIndex < |columnNames|
          invariant 0 <= columnIndex <= |columnNames|
          invariant obj == before + Projection.RowEntries(rowName, rowIndex, columnNames[..columnIndex], grid)
        {
          ghost var done := Projection.RowEntries(rowName, rowIndex, columnNames[..columnIndex], grid);
          var key := Projection.Key(rowName, columnNames[columnIndex]);
          var value := Text(grid, rowIndex, columnIndex);
          assert columnNames[..columnIndex + 1][..columnIndex] == columnNames[..columnIndex];
          assert Projection.RowEntries(rowName, rowIndex, columnNames[..columnIndex + 1], grid) == done[key := value];
          Projection.UnionUpdate(before, done, key, value);
          obj := obj[key := value];
          columnIndex := columnIndex + 1;
        }
        assert columnNames[..columnIndex] == columnNames;
        assert rowNames[..rowIndex + 1][..rowIndex] == rowNames[..rowIndex];
        assert rowNames[..rowIndex + 1][rowIndex] == rowName;
        rowIndex := rowIndex + 1;
      }
      assert rowNames[..rowIndex] == rowNames;
    }

    /** The answer for the values typed so far; nothing changes. */
    method GetCurrentValue() returns (obj: map<string, string>)
      ensures obj == Projection.ResultOf(rowNames, columnNames, values)
    {
      obj := GridToObject(values);
    }

    /** Draw the table for the current state, with `error` ("" for none) as the error line. */
    method Render(error: string) returns (f: Rendering.Frame)
      requires Valid()
      ensures f == Rendering.FrameOf(Cfg(), Snapshot(), error)
    {
      var w := Pagination.Paginate(pageSize, row, |rowNames|);
      Pagination.WindowBounds(pageSize, row, |rowNames|);
      var heads := Rendering.ColumnHeads(Cfg(), Snapshot());
      var body: seq<Rendering.BodyRow> := [];
      var rowIndex := 0;
      while rowIndex < |rowNames|
        invariant 0 <= rowIndex <= |rowNames|
        invariant body == Rendering.VisibleRows(Cfg(), Snapshot(), w, rowIndex)
      {
        if w.first <= rowIndex <= w.last {
          var columnValues: seq<string> := [];
          var columnIndex := 0;
          while columnIndex < |columnNames|
            invariant 0 <= columnIndex <= |columnNames|
            invariant columnValues == Rendering.RowCells(Cfg(), Snapshot(), rowIndex)[..columnIndex]
          {
            var isSelected := row == rowIndex && column == columnIndex;
            var value := Text(values, rowIndex, columnIndex);
            assert Rendering.RowCells(Cfg(), Snapshot(), rowIndex)[columnIndex] == Rendering.CellLabel(value, isSelected);
            columnValues := columnValues + [Rendering.CellLabel(value, isSelected)];
            columnIndex := columnIndex + 1;
          }
          assert columnValues == Rendering.RowCells(Cfg(), Snapshot(), rowIndex);
          body := body + [Rendering.BodyRow(Rendering.Heading(rowNames[rowIndex], row == rowIndex), columnValues)];
        }
        rowIndex := rowIndex + 1;
      }
      var bottom := Rendering.ErrorLine(error);
      f := Rendering.Frame(Rendering.Summary(w, |rowNames|), heads, body, bottom);
    }

    method OnDownKey() returns (f: Rendering.Frame)
      requires Valid()
      modifies this`row
      ensures Valid()
      ensures row == Cursor.Down(old(row), |rowNames|)
      ensures f == Rendering.FrameOf(Cfg(), Snapshot(), "")
    {
      var length := |rowNames|;
      row := if row < length - 1 then row + 1 else row;
      f := Render("");
    }

    method OnUpKey() returns (f: Rendering.Frame)
      requires Valid()
      modifies this`row
      ensures Valid()
      ensures row == Cursor.Up(old(row))
      ensures f == Rendering.FrameOf(Cfg(), Snapshot(), "")
    {
      row := if row > 0 then row - 1 else row;
      f := Render("");
    }

    method OnLeftKey() returns (f: Rendering.Frame)
      requires Valid()
      modifies this`column
      ensures Valid()
      ensures column == Cursor.Left(old(column), |columnNames|)
      ensures f == Rendering.FrameOf(Cfg(), Snapshot(), "")
    {
      var length := |columnNames|;
      column := if column > 0 then column - 1 else length - 1;
      f := Render("");
    }

    method OnRightKey() returns (f: Rendering.Frame)
      requires Valid()
      modifies this`column
      ensures Valid()
      ensures column == Cursor.Right(old(column), |columnNames|)
      ensures f == Rendering.FrameOf(Cfg(), Snapshot(), "")
    {
      var length := |columnNames|;
      column := if column < length - 1 then column + 1 else 0;
      f := Render("");
    }

    /** Append `value` to the cursor cell, creating its row first when the row is unset. */
    method HandleInput(value: string) returns (f: Rendering.Frame)
      requires Valid()
      modifies this`values
      ensures Valid()
      ensures values == ValueGrid.Input(old(values), row, column, value)
      ensures f == Rendering.FrameOf(Cfg(), Snapshot(), "")
    {
      if row !in values {
        values := values[row := map[column := value]];
      } else {
        var cell := if column in values[row] then values[row][column] else "";
        values := values[row := values[row][column := cell + value]];
      }
      f := Render("");
    }

    /** Drop the last character of the cursor cell when it holds any. */
    method HandleDelete() returns (f: Rendering.Frame)
      requires Valid()
      modifies this`values
      ensures Valid()
      ensures values == ValueGrid.Delete(old(values), row, column)
      ensures f == Rendering.FrameOf(Cfg(), Snapshot(), "")
    {
      if row in values && column in values[row] && |values[row][column]| > 0 {
        var cell := values[row][column];
        values := values[row := values[row][column := cell[..|cell| - 1]]];
      }
      f := Render("");
    }

    /** Dispatch a keypress by its key name; any other key is typed into the cell. */
    method HandleKeypress(e: Session.Event) returns (f: Rendering.Frame)
      requires Valid()
      modifies this
      ensures Valid()
      ensures Snapshot() == Session.Step(Cfg(), old(Snapshot()), e)
      ensures f == Rendering.FrameOf(Cfg(), Snapshot(), "")
    {
      match e
      case Left => f := OnLeftKey();
      case Right => f := OnRightKey();
      case Up => f := OnUpKey();
      case Down => f := OnDownKey();
      case Backspace => f := HandleDelete();
      case Typed(v) => f := HandleInput(v);
    }

    /** A rejected answer only re-draws, with the validator's message as the error line. */
    method OnError(message: string) returns (f: Rendering.Frame)
      requires Valid()
      ensures f == Rendering.FrameOf(Cfg(), Snapshot(), message)
    {
      f := Render(message);
    }

    /**
     * The enter key: the current answer goes to the validator; accepted, the
     * session completes with it, rejected, the table is re-drawn with the
     * message. Either way neither the cursor nor the values change.
     */
    method OnLine(validate: map<string, string> -> Verdict) returns (outcome: Outcome)
      requires Valid()
      ensures var answer := Projection.ResultOf(rowNames, columnNames, values);
        outcome == match validate(answer)
          case Accept => Completed(answer, Rendering.FrameOf(Cfg(), Snapshot(), ""))
          case Reject(m) => Retry(Rendering.FrameOf(Cfg(), Snapshot(), m))
    {
      var answer := GetCurrentValue();
      match validate(answer)
      case Accept =>
        var f := Render("");
        outcome := Completed(answer, f);
      case Reject(m) =>
        var f := OnError(m);
        outcome := Retry(f);
    }
  }

  /** The keypresses of the three-by-two walk-through. */
  function WalkThrough(): seq<Session.Event>
  {
    [Session.Right, Session.Typed("9"), Session.Down, Session.Typed("x")]
  }

  function ThreeByTwo(): Session.Config
  {
    Session.Config(["R1", "R2", "R3"], ["C1", "C2"], 5)
  }

  /** Right, type "9", down, type "x": the cursor ends on (1, 1) with "9" above it. */
  lemma WalkThroughState()
    ensures Session.Run(ThreeByTwo(), Session.Initial(), WalkThrough())
      == Session.State(1, 1, map[0 := map[1 := "9"], 1 := map[1 := "x"]])
  {
    var cfg, es := ThreeByTwo(), WalkThrough();
    var s1 := Session.Step(cfg, Session.Initial(), es[0]);
    assert s1 == Session.State(0, 1, map[]);
    var s2 := Session.Step(cfg, s1, es[1]);
    assert s2 == Session.State(0, 1, map[0 := map[1 := "9"]]);
    var s3 := Session.Step(cfg, s2, es[2]);
    assert s3 == Session.State(1, 1, map[0 := map[1 := "9"]]);
    var s4 := Session.Step(cfg, s3, es[3]);
    assert es[1..][1..][1..][1..] == [];
    assert Session.Run(cfg, s3, es[3..]) == s4;
    assert Session.Run(cfg, s2, es[2..]) == s4;
    assert Session.Run(cfg, s1, es[1..]) == s4;
  }

  /** The answer after the walk-through: "9" under R1_C2, "x" under R2_C2, "" elsewhere. */
  lemma WalkThroughAnswer()
    ensures var s := Session.Run(ThreeByTwo(), Session.Initial(), WalkThrough());
      Projection.ResultOf(ThreeByTwo().rowNames, ThreeByTwo().columnNames, s.grid)
        == map["R1_C1" := "", "R1_C2" := "9", "R2_C1" := "", "R2_C2" := "x", "R3_C1" := "", "R3_C2" := ""]
  {
    WalkThroughState();
    var g: Grid := map[0 := map[1 := "9"], 1 := map[1 := "x"]];
    ThreeByTwoAnswer(g);
    assert Text(g, 0, 0) == "" && Text(g, 0, 1) == "9";
    assert Text(g, 1, 0) == "" && Text(g, 1, 1) == "x";
    assert Text(g, 2, 0) == "" && Text(g, 2, 1) == "";
  }

  /** The answer over the three-by-two axes, key by key. */
  lemma ThreeByTwoAnswer(g: Grid)
    ensures Projection.ResultOf(["R1", "R2", "R3"], ["C1", "C2"], g)
      == map["R1_C1" := Text(g, 0, 0), "R1_C2" := Text(g, 0, 1),
             "R2_C1" := Text(g, 1, 0), "R2_C2" := Text(g, 1, 1),
             "R3_C1" := Text(g, 2, 0), "R3_C2" := Text(g, 2, 1)]
  {
    var rows, columns := ["R1", "R2", "R3"], ["C1", "C2"];
    Projection.ThreeRows("R1", "R2", "R3", columns, g);
    var m0: map<string, string> := map[];
    var m1 := m0 + Projection.RowEntries("R1", 0, columns, g);
    var m2 := m1 + Projection.RowEntries("R2", 1, columns, g);
    Projection.AddTwoColumns(m0, "R1", 0, "C1", "C2", g);
    Projection.AddTwoColumns(m1, "R2", 1, "C1", "C2", g);
    Projection.AddTwoColumns(m2, "R3", 2, "C1", "C2", g);
    assert Projection.Key("R1", "C1") == "R1_C1" && Projection.Key("R1", "C2") == "R1_C2";
    assert Projection.Key("R2", "C1") == "R2_C1" && Projection.Key("R2", "C2") == "R2_C2";
    assert Projection.Key("R3", "C1") == "R3_C1" && Projection.Key("R3", "C2") == "R3_C2";
  }
}
