/** Zero-based pages over a listing, as a page request of (pageNo, pageSize) cuts them:
    page `n` holds the elements at positions n * pageSize up to (n + 1) * pageSize. */
module Paging {

  /** The number of pages `total` elements fill at `size` per page. */
  function TotalPages(total: nat, size: int): (n: nat)
    requires size >= 1
    ensures n * size >= total
    ensures n == 0 || (n - 1) * size < total
  {
    var n := (total + size - 1) / size;
    CeilingBounds(total, size, n);
    n
  }

  lemma CeilingBounds(total: nat, size: int, n: int)
    requires size >= 1 && n == (total + size - 1) / size
    ensures n >= 0 && n * size >= total && (n == 0 || (n - 1) * size < total)
  {
    var r := (total + size - 1) % size;
    assert total + size - 1 == n * size + r && 0 <= r < size;
    assert (n - 1) * size == n * size - size;
  }

  /** A page is the last one when no page follows it. */
  predicate IsLast(pageNo: int, totalPages: nat)
  {
    !(pageNo + 1 < totalPages)
  }

  /** The elements of page `pageNo`; empty when the page lies beyond the listing. */
  function PageOf<T>(s: seq<T>, pageNo: nat, size: int): (r: seq<T>)
    requires size >= 1
    ensures |r| <= size
    ensures forall i | 0 <= i < |r| :: pageNo * size + i < |s| && r[i] == s[pageNo * size + i]
  {
    var lo := pageNo * size;
    if lo >= |s| then []
    else if lo + size <= |s| then s[lo..lo + size]
    else s[lo..]
  }

  /** The last flag says exactly that no element lies beyond the page. */
  lemma LastIffNothingFollows(total: nat, size: int, pageNo: nat)
    requires size >= 1
    ensures IsLast(pageNo, TotalPages(total, size)) <==> (pageNo + 1) * size >= total
  {
    var n := TotalPages(total, size);
    if pageNo + 1 < n {
      assert (pageNo + 1) * size <= (n - 1) * size by {
        MulMonotone(pageNo + 1, n - 1, size);
      }
    } else {
      assert n * size <= (pageNo + 1) * size by {
        MulMonotone(n, pageNo + 1, size);
      }
    }
  }

  lemma MulMonotone(a: int, b: int, size: int)
    requires 0 <= a <= b && size >= 1
    ensures a * size <= b * size
  {
    assert b * size - a * size == (b - a) * size;
  }

  /** Every page before the last is full; pages from `TotalPages` on are empty. */
  lemma {:induction false} PageSizes<T>(s: seq<T>, size: int, pageNo: nat)
    requires size >= 1
    ensures pageNo + 1 < TotalPages(|s|, size) ==> |PageOf(s, pageNo, size)| == size
    ensures pageNo >= TotalPages(|s|, size) ==> PageOf(s, pageNo, size) == []
  {
    var n := TotalPages(|s|, size);
    if pageNo + 1 < n {
      LastIffNothingFollows(|s|, size, pageNo);
      assert (pageNo + 1) * size == pageNo * size + size;
    }
    if pageNo >= n {
      MulMonotone(n, pageNo, size);
    }
  }

  /** Position `q` of page `p` holds the element at `p * size + q`, if there is one. */
  lemma PagePosition<T>(s: seq<T>, size: int, p: nat, q: nat)
    requires size >= 1 && q < size && p * size + q < |s|
    ensures p < TotalPages(|s|, size)
    ensures q < |PageOf(s, p, size)| && PageOf(s, p, size)[q] == s[p * size + q]
  {
    var n := TotalPages(|s|, size);
    if p >= n { MulMonotone(n, p, size); }
  }

  /** Every element appears, on page `k / size` at position `k % size`: the pages
      together hold the whole listing. */
  lemma ElementOnItsPage<T>(s: seq<T>, size: int, k: nat)
    requires size >= 1 && k < |s|
    ensures k / size < TotalPages(|s|, size)
    ensures k % size < |PageOf(s, k / size, size)|
    ensures PageOf(s, k / size, size)[k % size] == s[k]
  {
    var p, q := k / size, k % size;
    assert k == p * size + q;
    PagePosition(s, size, p, q);
  }

  /** A listing that fits on one page: a single page, which is the last and holds all of
      it (two posts at ten per page give one page, marked last). */
  lemma OnePage<T>(s: seq<T>, size: int)
    requires size >= 1 && 0 < |s| <= size
    ensures TotalPages(|s|, size) == 1 && IsLast(0, TotalPages(|s|, size))
    ensures PageOf(s, 0, size) == s
  {
    var n := TotalPages(|s|, size);
    assert n < 2 by {
      if n >= 2 { MulMonotone(1, n - 1, size); }
    }
  }
}
