/**
 * The pagination arithmetic both dashboard pages compute from the store:
 * the start index, the page window (`Array.prototype.slice`), the page count
 * (`Math.ceil`) and the upper bound of the "Showing a-b of n" line.
 */
module Pagination {
  import opened JsValues

  /** `(currentPage - 1) * itemsPerPage`. */
  function StartIndex(page: int, size: int): int
  {
    (page - 1) * size
  }

  /** `filteredProducts.slice(startIndex, startIndex + itemsPerPage)`. */
  function PageWindow<T>(v: seq<T>, page: int, size: int): seq<T>
  {
    Slice(v, StartIndex(page, size), StartIndex(page, size) + size)
  }

  function Min(a: int, b: int): int { if a <= b then a else b }
  function Max(a: int, b: int): int { if a >= b then a else b }

  /**
   * For a real page number (at least 1) the window is the items from the start
   * index on, at most `size` of them, and empty past the end.
   */
  lemma WindowOfPage<T>(v: seq<T>, page: int, size: int)
    requires page >= 1 && size > 0
    ensures var start := StartIndex(page, size);
            && start >= 0
            && |PageWindow(v, page, size)| == Max(0, Min(size, |v| - start))
            && (start < |v| ==> PageWindow(v, page, size) == v[start..Min(start + size, |v|)])
            && (start >= |v| ==> PageWindow(v, page, size) == [])
  {
    var start := StartIndex(page, size);
    assert start >= 0 by {
      assert page - 1 >= 0;
    }
  }

  /** Item `i` is shown on page `i / size + 1`, at position `i % size`. */
  lemma ItemOnItsPage<T>(v: seq<T>, i: int, size: int)
    requires 0 <= i < |v| && size > 0
    ensures var w := PageWindow(v, i / size + 1, size);
            i % size < |w| && w[i % size] == v[i]
  {
    var page := i / size + 1;
    var start := StartIndex(page, size);
    assert start == (i / size) * size;
    assert start + i % size == i;
    assert 0 <= i / size;
    assert start >= 0 by {
      assert (i / size) * size >= 0;
    }
    WindowOfPage(v, page, size);
  }

  /** `Math.ceil(len / itemsPerPage)`: the fewest pages of `size` items that hold `len` items. */
  function TotalPages(len: nat, size: int): (r: nat)
    requires size > 0
    ensures r * size >= len
    ensures r > 0 ==> (r - 1) * size < len
  {
    var q := (len + size - 1) / size;
    assert q * size <= len + size - 1 < q * size + size;
    assert q >= 0;
    q
  }

  /** The pagination control appears (`totalPages > 1`) exactly when the items overflow one page. */
  lemma PagerShownIffOverflow(len: nat, size: int)
    requires size > 0
    ensures TotalPages(len, size) > 1 <==> len > size
  {
    var t := TotalPages(len, size);
    if t > 1 {
      var k := t - 2;
      assert k * size >= 0;
      assert (t - 1) * size == k * size + size;
    } else if t == 1 {
      assert t * size == size;
    } else {
      assert t * size == 0;
    }
  }

  /** The upper bound of "Showing {startIndex + 1}-{...} of {length}". */
  function ShowingTo(page: int, size: int, len: nat): int
  {
    Min(StartIndex(page, size) + size, len)
  }

  /** The shown upper bound never exceeds the item count, and on a real page it counts the window exactly. */
  lemma ShowingBounds<T>(v: seq<T>, page: int, size: int)
    requires page >= 1 && size > 0
    ensures ShowingTo(page, size, |v|) <= |v|
    ensures StartIndex(page, size) <= |v| ==>
              ShowingTo(page, size, |v|) - StartIndex(page, size) == |PageWindow(v, page, size)|
  {
    WindowOfPage(v, page, size);
  }

  /** Ten items, six per page: two pages, and the second shows four items. */
  lemma TenItemsSixPerPage<T>(v: seq<T>)
    requires |v| == 10
    ensures |PageWindow(v, 2, 6)| == 4 && PageWindow(v, 2, 6) == v[6..]
    ensures TotalPages(|v|, 6) == 2
    ensures ShowingTo(2, 6, |v|) == 10
  {
    PagerShownIffOverflow(10, 6);
  }

  /**
   * `setPage` does not bound the page: page 0 shows nothing, and a negative page
   * reaches back from the end of the list, as `slice` does with negative indices.
   */
  lemma OutOfRangePages<T>(v: seq<T>)
    requires |v| == 10
    ensures PageWindow(v, 0, 6) == []
    ensures PageWindow(v, -1, 6) == v[..4]
  {
  }
}
