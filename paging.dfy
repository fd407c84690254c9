/**
 * Pagination shared by the three history tables: the page count, the slice a
 * page shows, the five-button page-number window, the Previous/Next clamps and
 * the "Showing x to y" caption.
 */
module Paging {

  function Min(a: int, b: int): int { if a <= b then a else b }
  function Max(a: int, b: int): int { if a >= b then a else b }

  /** `Math.ceil(n / size)`: the fewest pages of `size` rows that hold `n` rows. */
  function TotalPages(n: nat, size: nat): (r: nat)
    requires size > 0
    ensures n <= r * size
    ensures r > 0 ==> (r - 1) * size < n
  {
    var q := (n + size - 1) / size;
    assert q * size + (n + size - 1) % size == n + size - 1;
    assert (q - 1) * size == q * size - size;
    q
  }

  lemma NoPagesIffEmpty(n: nat, size: nat)
    requires size > 0
    ensures TotalPages(n, size) == 0 <==> n == 0
  {
  }

  /** The index `Array.prototype.slice` reads a possibly negative bound as. */
  function SliceIndex(i: int, len: nat): (r: nat)
    ensures r <= len
    ensures 0 <= i <= len ==> r == i
  {
    if i < 0 then Max(len + i, 0) else Min(i, len)
  }

  /** `s.slice(start, end)`. */
  function Slice<T>(s: seq<T>, start: int, end: int): seq<T> {
    var from := SliceIndex(start, |s|);
    var to := SliceIndex(end, |s|);
    if from < to then s[from..to] else []
  }

  /** The first row index of page `page` (`startIndex`). */
  function StartIndex(page: int, size: nat): int {
    (page - 1) * size
  }

  /** The rows page `page` shows: `s.slice((page - 1) * size, (page - 1) * size + size)`. */
  function Page<T>(s: seq<T>, page: int, size: nat): seq<T> {
    Slice(s, StartIndex(page, size), StartIndex(page, size) + size)
  }

  /** A window [start, start + size) of a list, for a non-negative start. */
  lemma SliceWindow<T>(s: seq<T>, start: nat, size: nat)
    ensures var r := Slice(s, start, start + size);
      && |r| == Max(0, Min(size, |s| - start))
      && (start <= |s| ==> r == s[start..Min(start + size, |s|)])
      && forall k :: 0 <= k < |r| ==> r[k] == s[start + k]
  {
  }

  /** Page numbers from 1 start at a non-negative row, one page size apart. */
  lemma StartIndexFacts(page: int, size: nat)
    requires page >= 1
    ensures StartIndex(page, size) >= 0
    ensures StartIndex(page + 1, size) == StartIndex(page, size) + size
  {
    assert (page - 1) * size >= 0;
    assert page * size == (page - 1) * size + size;
  }

  /** Page `page` holds exactly the rows at [start, start + size) that exist, so at most `size`. */
  lemma PageContents<T>(s: seq<T>, page: int, size: nat)
    requires page >= 1
    ensures var start := StartIndex(page, size);
      && |Page(s, page, size)| == Max(0, Min(size, |s| - start))
      && |Page(s, page, size)| <= size
      && forall k :: 0 <= k < |Page(s, page, size)| ==> Page(s, page, size)[k] == s[start + k]
  {
    StartIndexFacts(page, size);
    SliceWindow(s, StartIndex(page, size), size);
  }

  /** Pages 1 to k, concatenated in order. */
  function PagesUpTo<T>(s: seq<T>, size: nat, k: nat): seq<T> {
    if k == 0 then [] else PagesUpTo(s, size, k - 1) + Page(s, k, size)
  }

  lemma {:induction false} PagesUpToIsPrefix<T>(s: seq<T>, size: nat, k: nat)
    ensures PagesUpTo(s, size, k) == s[..Min(StartIndex(k + 1, size), |s|)]
  {
    if k > 0 {
      PagesUpToIsPrefix(s, size, k - 1);
      StartIndexFacts(k, size);
      var start := StartIndex(k, size);
      var lo := Min(start, |s|);
      var hi := Min(start + size, |s|);
      if start <= |s| {
        SliceWindow(s, start, size);
        assert Page(s, k, size) == s[lo..hi];
      } else {
        SliceWindow(s, start, size);
        assert Page(s, k, size) == [];
      }
      assert s[..lo] + s[lo..hi] == s[..hi];
    }
  }

  /** Pages 1 to TotalPages, concatenated, give back the whole list. */
  lemma PagesConcatenate<T>(s: seq<T>, size: nat)
    requires size > 0
    ensures PagesUpTo(s, size, TotalPages(|s|, size)) == s
  {
    var n := TotalPages(|s|, size);
    PagesUpToIsPrefix(s, size, n);
    assert StartIndex(n + 1, size) == n * size;
  }

  /** Every page from 1 to TotalPages shows at least one row. */
  lemma PagesNonEmpty<T>(s: seq<T>, page: int, size: nat)
    requires size > 0 && 1 <= page <= TotalPages(|s|, size)
    ensures |Page(s, page, size)| >= 1
  {
    PageContents(s, page, size);
    assert StartIndex(page, size) <= (TotalPages(|s|, size) - 1) * size by {
      assert (TotalPages(|s|, size) - 1) * size - (page - 1) * size
          == (TotalPages(|s|, size) - page) * size;
    }
  }

  /** The k-th button of the window: `pageNumber` in the source. */
  function WindowEntry(current: int, total: nat, i: nat): int {
    if total <= 5 then i + 1
    else if current <= 3 then i + 1
    else if current >= total - 2 then total - 4 + i
    else current - 2 + i
  }

  /** The page-number buttons: `Array.from({ length: Math.min(5, totalPages) })` mapped by WindowEntry. */
  function PageWindow(current: int, total: nat): (r: seq<int>)
    ensures |r| == Min(5, total)
  {
    seq(Min(5, total), i requires 0 <= i => WindowEntry(current, total, i))
  }

  /**
   * The window is min(5, total) consecutive page numbers inside [1, total], and
   * it contains the current page whenever that page exists.
   */
  lemma WindowLaws(current: int, total: nat)
    ensures var w := PageWindow(current, total);
      && |w| == Min(5, total)
      && (forall k :: 0 <= k < |w| ==> 1 <= w[k] <= total)
      && (forall k :: 0 < k < |w| ==> w[k] == w[k - 1] + 1)
      && (1 <= current <= total ==> current in w)
  {
    var w := PageWindow(current, total);
    if 1 <= current <= total {
      var k := if total <= 5 || current <= 3 then current - 1
               else if current >= total - 2 then current - total + 4
               else 2;
      assert w[k] == current;
    }
  }

  /** The Previous button: `Math.max(currentPage - 1, 1)`. */
  function Previous(current: int): (r: int)
    ensures r >= 1
    ensures current > 1 ==> r == current - 1
    ensures current <= 1 ==> r == 1
  {
    Max(current - 1, 1)
  }

  /** The Next button: `Math.min(currentPage + 1, totalPages)`. */
  function Next(current: int, total: nat): (r: int)
    ensures r <= total
    ensures current < total ==> r == current + 1
    ensures current >= total ==> r == total
  {
    Min(current + 1, total)
  }

  /** From a page that exists, Previous and Next reach a page that exists. */
  lemma ClampStaysInRange(current: int, total: nat)
    requires 1 <= current <= total
    ensures 1 <= Previous(current) <= total
    ensures 1 <= Next(current, total) <= total
  {
  }

  /** The caption's first row number: `startIndex + 1`. */
  function ShowingFrom(page: int, size: nat): int {
    StartIndex(page, size) + 1
  }

  /** The caption's last row number: `Math.min(startIndex + size, n)`. */
  function ShowingTo(page: int, size: nat, n: nat): int {
    Min(StartIndex(page, size) + size, n)
  }

  /** On a page that exists, the caption counts exactly the rows the page shows. */
  lemma CaptionCountsPage<T>(s: seq<T>, page: int, size: nat)
    requires size > 0 && 1 <= page <= TotalPages(|s|, size)
    ensures 1 <= ShowingFrom(page, size) <= ShowingTo(page, size, |s|) <= |s|
    ensures ShowingTo(page, size, |s|) - ShowingFrom(page, size) + 1 == |Page(s, page, size)|
  {
    PageContents(s, page, size);
    PagesNonEmpty(s, page, size);
  }

  /** The row's serial number: `startIndex + index + 1`. */
  function SerialNumber(page: int, size: nat, index: nat): int {
    StartIndex(page, size) + index + 1
  }

  /** The serial number is the row's 1-based position in the whole sorted list. */
  lemma SerialNumberIsPosition<T>(s: seq<T>, page: int, size: nat, index: nat)
    requires page >= 1 && index < |Page(s, page, size)|
    ensures 1 <= SerialNumber(page, size, index) <= |s|
    ensures Page(s, page, size)[index] == s[SerialNumber(page, size, index) - 1]
  {
    PageContents(s, page, size);
  }
}
