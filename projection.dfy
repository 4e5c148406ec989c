/**
 * The answer of the table prompt: the grid flattened into one map keyed by
 * "<rowName>_<columnName>". Entries are written row by row, column by
 * column, so when two cells produce the same key the later write wins.
 */
module Projection {
  import opened ValueGrid

  /** The answer key of a cell: its row name, an underscore, its column name. */
  function Key(rowName: string, columnName: string): (k: string)
    ensures |k| == |rowName| + 1 + |columnName|
    ensures k[..|rowName|] == rowName && k[|rowName|] == '_' && k[|rowName| + 1..] == columnName
  {
    rowName + "_" + columnName
  }

  /** The entries written for row `i` (named `rowName`) over the given columns, in order. */
  function RowEntries(rowName: string, i: int, columnNames: seq<string>, g: Grid): map<string, string>
  {
    if |columnNames| == 0 then map[]
    else
      var j := |columnNames| - 1;
      RowEntries(rowName, i, columnNames[..j], g)[Key(rowName, columnNames[j]) := Text(g, i, j)]
  }

  /** The whole answer: every row's entries, later rows overwriting earlier ones. */
  function ResultOf(rowNames: seq<string>, columnNames: seq<string>, g: Grid): map<string, string>
  {
    if |rowNames| == 0 then map[]
    else
      var i := |rowNames| - 1;
      ResultOf(rowNames[..i], columnNames, g) + RowEntries(rowNames[i], i, columnNames, g)
  }

  /** Row-major order on cells: (i', j') is written after (i, j). */
  predicate WrittenAfter(i': int, j': int, i: int, j: int)
  {
    i' > i || (i' == i && j' > j)
  }

  /** No two distinct cells produce the same key. */
  predicate KeysDistinct(rowNames: seq<string>, columnNames: seq<string>)
  {
    forall i, j, i', j' ::
      0 <= i < |rowNames| && 0 <= j < |columnNames| &&
      0 <= i' < |rowNames| && 0 <= j' < |columnNames| &&
      (i != i' || j != j') ==>
      Key(rowNames[i], columnNames[j]) != Key(rowNames[i'], columnNames[j'])
  }

  /** `k` is the key of some cell of the grid. */
  ghost predicate IsCellKey(rowNames: seq<string>, columnNames: seq<string>, k: string)
  {
    exists i, j :: 0 <= i < |rowNames| && 0 <= j < |columnNames| && k == Key(rowNames[i], columnNames[j])
  }

  lemma {:induction false} RowEntriesKeys(rowName: string, i: int, columnNames: seq<string>, g: Grid)
    ensures forall j :: 0 <= j < |columnNames| ==> Key(rowName, columnNames[j]) in RowEntries(rowName, i, columnNames, g)
    ensures forall k :: k in RowEntries(rowName, i, columnNames, g) ==>
      exists j :: 0 <= j < |columnNames| && k == Key(rowName, columnNames[j])
  {
    if |columnNames| > 0 {
      var n := |columnNames| - 1;
      RowEntriesKeys(rowName, i, columnNames[..n], g);
      assert forall j :: 0 <= j < n ==> columnNames[..n][j] == columnNames[j];
    }
  }

  /** A key that no column of the row writes is not among the row's entries. */
  lemma {:induction false} RowEntriesAvoid(rowName: string, i: int, columnNames: seq<string>, g: Grid, k: string)
    requires forall j :: 0 <= j < |columnNames| ==> Key(rowName, columnNames[j]) != k
    ensures k !in RowEntries(rowName, i, columnNames, g)
  {
    if |columnNames| > 0 {
      var n := |columnNames| - 1;
      assert forall j :: 0 <= j < n ==> columnNames[..n][j] == columnNames[j];
      RowEntriesAvoid(rowName, i, columnNames[..n], g, k);
    }
  }

  /** Within one row, a key reads the text of the last column that writes it. */
  lemma {:induction false} RowEntriesLastWrite(rowName: string, i: int, columnNames: seq<string>, g: Grid, j: int)
    requires 0 <= j < |columnNames|
    requires forall j' :: j < j' < |columnNames| ==> Key(rowName, columnNames[j']) != Key(rowName, columnNames[j])
    ensures var m := RowEntries(rowName, i, columnNames, g);
      Key(rowName, columnNames[j]) in m && m[Key(rowName, columnNames[j])] == Text(g, i, j)
  {
    var n := |columnNames| - 1;
    if j < n {
      var prefix := columnNames[..n];
      assert forall j' :: j < j' < n ==> prefix[j'] == columnNames[j'];
      RowEntriesLastWrite(rowName, i, prefix, g, j);
    }
  }

  /** Every (row, column) pair of names has its key in the answer. */
  lemma {:induction false} ResultHasEveryKey(rowNames: seq<string>, columnNames: seq<string>, g: Grid)
    ensures forall i, j :: 0 <= i < |rowNames| && 0 <= j < |columnNames| ==>
      Key(rowNames[i], columnNames[j]) in ResultOf(rowNames, columnNames, g)
  {
    if |rowNames| > 0 {
      var n := |rowNames| - 1;
      var prefix := rowNames[..n];
      ResultHasEveryKey(prefix, columnNames, g);
      RowEntriesKeys(rowNames[n], n, columnNames, g);
      forall i, j | 0 <= i < |rowNames| && 0 <= j < |columnNames|
        ensures Key(rowNames[i], columnNames[j]) in ResultOf(rowNames, columnNames, g)
      {
        if i < n {
          assert prefix[i] == rowNames[i];
          assert Key(prefix[i], columnNames[j]) in ResultOf(prefix, columnNames, g);
        }
      }
    }
  }

  /** The answer has no key other than those of the cells. */
  lemma {:induction false} ResultHasOnlyCellKeys(rowNames: seq<string>, columnNames: seq<string>, g: Grid)
    ensures forall k :: k in ResultOf(rowNames, columnNames, g) ==> IsCellKey(rowNames, columnNames, k)
  {
    if |rowNames| > 0 {
      var n := |rowNames| - 1;
      var prefix := rowNames[..n];
      var row := RowEntries(rowNames[n], n, columnNames, g);
      ResultHasOnlyCellKeys(prefix, columnNames, g);
      RowEntriesKeys(rowNames[n], n, columnNames, g);
      forall k | k in ResultOf(rowNames, columnNames, g)
        ensures IsCellKey(rowNames, columnNames, k)
      {
        if k in row {
          var j :| 0 <= j < |columnNames| && k == Key(rowNames[n], columnNames[j]);
          assert 0 <= n < |rowNames| && k == Key(rowNames[n], columnNames[j]);
        } else {
          assert IsCellKey(prefix, columnNames, k);
          var i, j :| 0 <= i < n && 0 <= j < |columnNames| && k == Key(prefix[i], columnNames[j]);
          assert prefix[i] == rowNames[i];
          assert 0 <= i < |rowNames| && k == Key(rowNames[i], columnNames[j]);
        }
      }
    }
  }

  /**
   * A key reads the text of the last cell, in row-major order, that writes
   * it; with a unique key that is the cell's own text.
   */
  lemma {:induction false} LastWriteWins(rowNames: seq<string>, columnNames: seq<string>, g: Grid, i: int, j: int)
    requires 0 <= i < |rowNames| && 0 <= j < |columnNames|
    requires forall i', j' :: 0 <= i' < |rowNames| && 0 <= j' < |columnNames| && WrittenAfter(i', j', i, j) ==>
      Key(rowNames[i'], columnNames[j']) != Key(rowNames[i], columnNames[j])
    ensures var m := ResultOf(rowNames, columnNames, g);
      Key(rowNames[i], columnNames[j]) in m && m[Key(rowNames[i], columnNames[j])] == Text(g, i, j)
  {
    var n := |rowNames| - 1;
    var k := Key(rowNames[i], columnNames[j]);
    if i == n {
      assert forall j' :: j < j' < |columnNames| ==> WrittenAfter(n, j', i, j);
      RowEntriesLastWrite(rowNames[n], n, columnNames, g, j);
    } else {
      var prefix := rowNames[..n];
      forall i', j' | 0 <= i' < |prefix| && 0 <= j' < |columnNames| && WrittenAfter(i', j', i, j)
        ensures Key(prefix[i'], columnNames[j']) != Key(prefix[i], columnNames[j])
      {
        assert prefix[i'] == rowNames[i'] && prefix[i] == rowNames[i];
      }
      LastWriteWins(prefix, columnNames, g, i, j);
      assert prefix[i] == rowNames[i];
      forall j' | 0 <= j' < |columnNames|
        ensures Key(rowNames[n], columnNames[j']) != k
      {
        assert WrittenAfter(n, j', i, j);
      }
      RowEntriesAvoid(rowNames[n], n, columnNames, g, k);
    }
  }

  /** With distinct keys every cell's text is found under its own key. */
  lemma DistinctKeysComplete(rowNames: seq<string>, columnNames: seq<string>, g: Grid)
    requires KeysDistinct(rowNames, columnNames)
    ensures forall i, j :: 0 <= i < |rowNames| && 0 <= j < |columnNames| ==>
      var m := ResultOf(rowNames, columnNames, g);
      Key(rowNames[i], columnNames[j]) in m && m[Key(rowNames[i], columnNames[j])] == Text(g, i, j)
  {
    forall i, j | 0 <= i < |rowNames| && 0 <= j < |columnNames|
      ensures var m := ResultOf(rowNames, columnNames, g);
        Key(rowNames[i], columnNames[j]) in m && m[Key(rowNames[i], columnNames[j])] == Text(g, i, j)
    {
      LastWriteWins(rowNames, columnNames, g, i, j);
    }
  }

  /** Writing into the right operand of a map union is writing into the union. */
  lemma UnionUpdate(a: map<string, string>, b: map<string, string>, k: string, v: string)
    ensures a + b[k := v] == (a + b)[k := v]
  {
  }

  /** Adding a row's entries over two columns to `m` writes its two keys in order. */
  lemma AddTwoColumns(m: map<string, string>, rowName: string, i: int, c1: string, c2: string, g: Grid)
    ensures m + RowEntries(rowName, i, [c1, c2], g)
      == m[Key(rowName, c1) := Text(g, i, 0)][Key(rowName, c2) := Text(g, i, 1)]
  {
    var cs := [c1, c2];
    assert cs[..1] == [c1] && [c1][..0] == [];
    var e0: map<string, string> := map[];
    var e1 := e0[Key(rowName, c1) := Text(g, i, 0)];
    assert RowEntries(rowName, i, [c1], g) == e1;
    assert RowEntries(rowName, i, cs, g) == e1[Key(rowName, c2) := Text(g, i, 1)];
    UnionUpdate(m, e0, Key(rowName, c1), Text(g, i, 0));
    UnionUpdate(m, e1, Key(rowName, c2), Text(g, i, 1));
    assert m + e0 == m;
  }

  /** The answer over two rows, written out as its row entries. */
  lemma TwoRows(r1: string, r2: string, columnNames: seq<string>, g: Grid)
    ensures ResultOf([r1, r2], columnNames, g)
      == map[] + RowEntries(r1, 0, columnNames, g) + RowEntries(r2, 1, columnNames, g)
  {
    var rs := [r1, r2];
    assert rs[..1] == [r1] && [r1][..0] == [];
    assert ResultOf(rs, columnNames, g) == ResultOf([r1], columnNames, g) + RowEntries(r2, 1, columnNames, g);
  }

  /** The answer over three rows, written out as its row entries. */
  lemma ThreeRows(r1: string, r2: string, r3: string, columnNames: seq<string>, g: Grid)
    ensures ResultOf([r1, r2, r3], columnNames, g)
      == map[] + RowEntries(r1, 0, columnNames, g) + RowEntries(r2, 1, columnNames, g) + RowEntries(r3, 2, columnNames, g)
  {
    var rs := [r1, r2, r3];
    assert rs[..2] == [r1, r2];
    TwoRows(r1, r2, columnNames, g);
    assert ResultOf(rs, columnNames, g) == ResultOf([r1, r2], columnNames, g) + RowEntries(r3, 2, columnNames, g);
  }

  /** Two rows by two columns with only the top-right cell set. */
  lemma TwoByTwo()
    ensures ResultOf(["A", "B"], ["X", "Y"], map[0 := map[1 := "7"]])
      == map["A_X" := "", "A_Y" := "7", "B_X" := "", "B_Y" := ""]
  {
    var g: Grid := map[0 := map[1 := "7"]];
    TwoRows("A", "B", ["X", "Y"], g);
    var empty: map<string, string> := map[];
    AddTwoColumns(empty, "A", 0, "X", "Y", g);
    AddTwoColumns(empty + RowEntries("A", 0, ["X", "Y"], g), "B", 1, "X", "Y", g);
    assert Key("A", "X") == "A_X" && Key("A", "Y") == "A_Y";
    assert Key("B", "X") == "B_X" && Key("B", "Y") == "B_Y";
    assert Text(g, 0, 1) == "7";
  }

  /**
   * Names containing "_" can collide: row "a_b" with column "c" and row "a"
   * with column "b_c" share the key "a_b_c", which then reads the second
   * row's cell, and the answer has three keys for four cells.
   */
  lemma CollidingNames(g: Grid)
    ensures var m := ResultOf(["a_b", "a"], ["c", "b_c"], g);
      && m.Keys == {"a_b_c", "a_b_b_c", "a_c"}
      && m["a_b_c"] == Text(g, 1, 1)
  {
    TwoRows("a_b", "a", ["c", "b_c"], g);
    var empty: map<string, string> := map[];
    AddTwoColumns(empty, "a_b", 0, "c", "b_c", g);
    AddTwoColumns(empty + RowEntries("a_b", 0, ["c", "b_c"], g), "a", 1, "c", "b_c", g);
    assert Key("a_b", "c") == "a_b_c" && Key("a_b", "b_c") == "a_b_b_c";
    assert Key("a", "c") == "a_c" && Key("a", "b_c") == "a_b_c";
  }
}
