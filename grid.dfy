/**
 * The sparse value store of the table prompt: an array of row arrays in
 * which a missing row, or a missing cell inside a row, reads as the empty
 * string. Rows and columns are the integer indices of the two axes.
 */
module ValueGrid {

  /** Row index -> (column index -> cell text); absent entries are unset. */
  type Grid = map<int, map<int, string>>

  /** What a cell reads as: its stored text, or "" when the row or the cell is unset. */
  function Text(g: Grid, r: int, c: int): string
  {
    if r in g && c in g[r] then g[r][c] else ""
  }

  /**
   * Typing `v` into cell (r, c). A missing row is created holding only this
   * cell; otherwise the cell's old text (or "") gets `v` appended.
   */
  function Input(g: Grid, r: int, c: int, v: string): (g': Grid)
    ensures Text(g', r, c) == Text(g, r, c) + v
    ensures forall r', c' :: (r' != r || c' != c) ==> Text(g', r', c') == Text(g, r', c')
    ensures r in g' && c in g'[r]
  {
    if r !in g then g[r := map[c := v]]
    else g[r := g[r][c := Text(g, r, c) + v]]
  }

  /** `s` without its last character; "" stays "". */
  function DropLast(s: string): (t: string)
    ensures |s| > 0 ==> s == t + [s[|s| - 1]]
    ensures |s| == 0 ==> t == s
  {
    if |s| > 0 then s[..|s| - 1] else s
  }

  /**
   * Backspace on cell (r, c): only a stored, non-empty cell is shortened by
   * one character; an unset or empty cell leaves the grid as it is.
   */
  function Delete(g: Grid, r: int, c: int): (g': Grid)
    ensures Text(g', r, c) == DropLast(Text(g, r, c))
    ensures forall r', c' :: (r' != r || c' != c) ==> Text(g', r', c') == Text(g, r', c')
    ensures Text(g, r, c) == "" ==> g' == g
  {
    if r in g && c in g[r] && |g[r][c]| > 0 then g[r := g[r][c := DropLast(g[r][c])]]
    else g
  }

  /** Typing one character and deleting it again leaves the cell reading as before. */
  lemma InputThenDelete(g: Grid, r: int, c: int, ch: char)
    ensures Text(Delete(Input(g, r, c, [ch]), r, c), r, c) == Text(g, r, c)
  {
    var s := Text(g, r, c);
    assert (s + [ch])[..|s|] == s;
  }
}
