/**
 * The visible row window of the table prompt: which rows are drawn for a
 * given cursor row, page size and number of rows.
 */
module Pagination {

  /** The inclusive range of row indices that is drawn. */
  datatype Window = Window(first: int, last: int)

  function Max(a: int, b: int): int { if a >= b then a else b }

  function Min(a: int, b: int): int { if a <= b then a else b }

  /**
   * Centre the window on `row` (half a page above it), cut it at the last
   * row, then move its start up by however much it came out short, so that
   * near the bottom the window stays a full page when there are enough rows.
   * `pageSize` is positive here, so the floor of `pageSize / 2` is Dafny's `/`.
   */
  function Paginate(pageSize: int, row: int, total: int): (w: Window)
    ensures 0 <= w.first && w.last <= total - 1
  {
    var middleOfPage := pageSize / 2;
    var firstIndex := Max(0, row - middleOfPage);
    var lastIndex := Min(firstIndex + pageSize - 1, total - 1);
    var lastPageOffset := pageSize - 1 - lastIndex + firstIndex;
    Window(Max(0, firstIndex - lastPageOffset), lastIndex)
  }

  /** The preconditions under which the prompt asks for a window. */
  predicate Sane(pageSize: int, row: int, total: int)
  {
    pageSize >= 1 && total >= 1 && 0 <= row < total
  }

  /**
   * The window lies on the row axis, contains the cursor row, and is exactly
   * min(pageSize, total) rows wide: a full page when there are enough rows,
   * otherwise every row.
   */
  lemma WindowBounds(pageSize: int, row: int, total: int)
    requires Sane(pageSize, row, total)
    ensures var w := Paginate(pageSize, row, total);
      && 0 <= w.first <= row <= w.last <= total - 1
      && w.last - w.first + 1 == Min(pageSize, total)
    ensures total < pageSize ==> Paginate(pageSize, row, total) == Window(0, total - 1)
  {
    var middleOfPage := pageSize / 2;
    assert middleOfPage <= pageSize - 1;
    var firstIndex := Max(0, row - middleOfPage);
    var lastIndex := Min(firstIndex + pageSize - 1, total - 1);
    assert row <= firstIndex + middleOfPage;
    if lastIndex == firstIndex + pageSize - 1 {
      assert Paginate(pageSize, row, total) == Window(firstIndex, lastIndex);
    } else {
      assert lastIndex == total - 1;
      assert Paginate(pageSize, row, total) == Window(Max(0, total - pageSize), total - 1);
    }
  }

  /** The worked cases of a five-row page over twelve rows. */
  lemma FivePagesOfTwelve()
    ensures Paginate(5, 0, 12) == Window(0, 4)
    ensures Paginate(5, 6, 12) == Window(4, 8)
    ensures Paginate(5, 11, 12) == Window(7, 11)
  {
  }
}
