/**
 * Cursor movement of the table prompt. Rows clamp at both ends of the row
 * axis; columns wrap around the column axis. `length` is the axis length.
 */
module Cursor {

  /** The up arrow: one row up, staying put on the first row. */
  function Up(row: int): (r: int)
    ensures 0 <= row ==> 0 <= r <= row
  {
    if row > 0 then row - 1 else row
  }

  /** The down arrow: one row down, staying put on the last row. */
  function Down(row: int, length: int): (r: int)
    ensures row < length ==> row <= r < length
  {
    if row < length - 1 then row + 1 else row
  }

  /** The left arrow: one column left, from the first column to the last. */
  function Left(column: int, length: int): (r: int)
    ensures 0 <= column < length ==> 0 <= r < length
  {
    if column > 0 then column - 1 else length - 1
  }

  /** The right arrow: one column right, from the last column to the first. */
  function Right(column: int, length: int): (r: int)
    ensures 0 <= column < length ==> 0 <= r < length
  {
    if column < length - 1 then column + 1 else 0
  }

  /** Rows clamp: a move stays on the axis, steps by one inside it and never wraps. */
  lemma RowsClamp(row: int, length: int)
    requires 0 <= row < length
    ensures 0 <= Up(row) < length && 0 <= Down(row, length) < length
    ensures Up(row) == (if row == 0 then 0 else row - 1)
    ensures Down(row, length) == (if row == length - 1 then row else row + 1)
  {
  }

  /** Columns wrap: a move stays on the axis and the two ends are joined. */
  lemma ColumnsWrap(column: int, length: int)
    requires 0 <= column < length
    ensures 0 <= Left(column, length) < length && 0 <= Right(column, length) < length
    ensures Left(column, length) == (if column == 0 then length - 1 else column - 1)
    ensures Right(column, length) == (if column == length - 1 then 0 else column + 1)
    ensures Right(Left(column, length), length) == column
    ensures Left(Right(column, length), length) == column
  {
  }

  /** `k` presses of the down arrow. */
  function DownTimes(row: int, length: int, k: nat): int
  {
    if k == 0 then row else Down(DownTimes(row, length, k - 1), length)
  }

  /** `k` presses of the up arrow. */
  function UpTimes(row: int, k: nat): int
  {
    if k == 0 then row else Up(UpTimes(row, k - 1))
  }

  /** `k` presses of the right arrow. */
  function RightTimes(column: int, length: int, k: nat): int
  {
    if k == 0 then column else Right(RightTimes(column, length, k - 1), length)
  }

  /** `k` presses of the left arrow. */
  function LeftTimes(column: int, length: int, k: nat): int
  {
    if k == 0 then column else Left(LeftTimes(column, length, k - 1), length)
  }

  /** However often down is pressed, the row saturates at the last row. */
  lemma {:induction false} DownSaturates(row: int, length: int, k: nat)
    requires 0 <= row < length
    ensures DownTimes(row, length, k) == if row + k < length then row + k else length - 1
  {
    if k > 0 {
      DownSaturates(row, length, k - 1);
    }
  }

  /** However often up is pressed, the row saturates at the first row. */
  lemma {:induction false} UpSaturates(row: int, k: nat)
    requires 0 <= row
    ensures UpTimes(row, k) == if row - k > 0 then row - k else 0
  {
    if k > 0 {
      UpSaturates(row, k - 1);
    }
  }

  /** Euclidean remainder is determined by any quotient/remainder split. */
  lemma ModUnique(x: int, n: int, q: int, c: int)
    requires n > 0 && 0 <= c < n && x == q * n + c
    ensures x % n == c
  {
    var d := q - x / n;
    assert d * n == x % n - c;
  }

  /** One step forward modulo `n`. */
  lemma ModSucc(x: int, n: int)
    requires n > 0
    ensures (x + 1) % n == if x % n == n - 1 then 0 else x % n + 1
  {
    var q, c := x / n, x % n;
    if c == n - 1 {
      ModUnique(x + 1, n, q + 1, 0);
    } else {
      ModUnique(x + 1, n, q, c + 1);
    }
  }

  /** One step back modulo `n`. */
  lemma ModPred(x: int, n: int)
    requires n > 0
    ensures (x - 1) % n == if x % n == 0 then n - 1 else x % n - 1
  {
    var q, c := x / n, x % n;
    if c == 0 {
      ModUnique(x - 1, n, q - 1, n - 1);
    } else {
      ModUnique(x - 1, n, q, c - 1);
    }
  }

  /** Pressing right `k` times moves `k` columns forward modulo the axis length. */
  lemma {:induction false} RightIsModular(column: int, length: int, k: nat)
    requires 0 <= column < length
    ensures RightTimes(column, length, k) == (column + k) % length
  {
    if k == 0 {
      ModUnique(column, length, 0, column);
    } else {
      RightIsModular(column, length, k - 1);
      ModSucc(column + k - 1, length);
    }
  }

  /** Pressing left `k` times moves `k` columns back modulo the axis length. */
  lemma {:induction false} LeftIsModular(column: int, length: int, k: nat)
    requires 0 <= column < length
    ensures LeftTimes(column, length, k) == (column - k) % length
  {
    if k == 0 {
      ModUnique(column, length, 0, column);
    } else {
      LeftIsModular(column, length, k - 1);
      ModPred(column - k + 1, length);
    }
  }
}
