/** Cutting a sorted list into fixed-size pages, as the meeting list
    (`get_meetings_page`, `list_keyboard`) and the agenda view
    (`build_agenda_text_and_kb`) do with Python slices. */
module Pagination {

  function Min(a: int, b: int): int {
    if a <= b then a else b
  }

  /** How Python resolves one slice bound against a list of length `n`:
      a negative bound counts from the end, and bounds are clamped to
      `0..n`. */
  function SliceBound(i: int, n: nat): (b: nat)
    ensures b <= n
    ensures 0 <= i ==> b == Min(i, n)
  {
    if i < 0 then (if i + n < 0 then 0 else i + n)
    else if i > n then n
    else i
  }

  /** Python's `s[start:end]`, which never fails. */
  function PySlice<T>(s: seq<T>, start: int, end: int): (r: seq<T>)
    ensures 0 <= start <= end ==> r == s[Min(start, |s|)..Min(end, |s|)]
  {
    var a := SliceBound(start, |s|);
    var b := SliceBound(end, |s|);
    if a < b then s[a..b] else []
  }

  datatype Page<T> = Page(items: seq<T>, hasPrev: bool, hasNext: bool)

  /** Page number `page` of `s` with `size` entries per page, and the
      "back" / "forward" buttons of the meeting list: back when the page is
      not the first, forward when entries remain after this page. */
  function Paginate<T>(s: seq<T>, page: int, size: nat): (p: Page<T>)
    requires size > 0
    ensures page >= 0 ==> p.items == s[Min(page * size, |s|)..Min(page * size + size, |s|)]
    ensures page >= 0 ==> (p.items == [] <==> page * size >= |s|)
    ensures |p.items| <= size
  {
    Page(PySlice(s, page * size, page * size + size), page > 0, (page + 1) * size < |s|)
  }

  /** Entry `i` of page `page` is entry `page * size + i` of the list. */
  lemma PageItems<T>(s: seq<T>, page: int, size: nat)
    requires size > 0 && page >= 0
    ensures forall i :: 0 <= i < |Paginate(s, page, size).items| ==>
              page * size + i < |s| && Paginate(s, page, size).items[i] == s[page * size + i]
  {
  }

  /** The forward button is offered exactly when the next page has
      something on it, so following it never lands on an empty page. */
  lemma NextPageNonEmpty<T>(s: seq<T>, page: int, size: nat)
    requires size > 0 && page >= 0
    ensures Paginate(s, page, size).hasNext <==> Paginate(s, page + 1, size).items != []
  {
    assert (page + 1) * size == page * size + size;
  }

  /** A page after the first that shows anything follows a full page. */
  lemma PreviousPageFull<T>(s: seq<T>, page: int, size: nat)
    requires size > 0 && page > 0
    requires Paginate(s, page, size).items != []
    ensures Paginate(s, page, size).hasPrev
    ensures |Paginate(s, page - 1, size).items| == size
  {
    assert (page - 1) * size + size == page * size;
  }

  /** The first `k` pages, one after another. */
  function FirstPages<T>(s: seq<T>, k: nat, size: nat): seq<T>
    requires size > 0
  {
    if k == 0 then [] else FirstPages(s, k - 1, size) + Paginate(s, k - 1, size).items
  }

  /** Page `page` starts at entry `m` when `m == page * size`. */
  lemma PageAt<T>(s: seq<T>, page: nat, size: nat, m: nat)
    requires size > 0 && m == page * size
    ensures Paginate(s, page, size).items == s[Min(m, |s|)..Min(m + size, |s|)]
  {
  }

  /** Reading pages 0, 1, ..., k-1 in turn shows the first `k * size`
      entries, each once and in order. */
  lemma FirstPagesArePrefix<T>(s: seq<T>, k: nat, size: nat)
    requires size > 0
    ensures FirstPages(s, k, size) == s[..Min(k * size, |s|)]
  {
    PagesUpTo(s, k, size, k * size);
  }

  lemma {:induction false} PagesUpTo<T>(s: seq<T>, k: nat, size: nat, m: nat)
    requires size > 0 && m == k * size
    ensures FirstPages(s, k, size) == s[..Min(m, |s|)]
  {
    if k > 0 {
      var m' := m - size;
      assert m' == (k - 1) * size;
      PagesUpTo(s, k - 1, size, m');
      PageAt(s, k - 1, size, m');
      var a := Min(m', |s|);
      var b := Min(m, |s|);
      assert s[..a] + s[a..b] == s[..b];
    }
  }

  /** `(n + size - 1) / size` pages hold `n` entries. */
  lemma CeilingPages(n: nat, size: nat)
    requires size > 0
    ensures ((n + size - 1) / size) * size >= n
  {
    var q := (n + size - 1) / size;
    var r := (n + size - 1) % size;
    assert q * size + r == n + size - 1;
  }

  /** Enough pages show the whole list. */
  lemma PagesCoverAll<T>(s: seq<T>, size: nat)
    requires size > 0
    ensures FirstPages(s, (|s| + size - 1) / size, size) == s
  {
    var k := (|s| + size - 1) / size;
    FirstPagesArePrefix(s, k, size);
    CeilingPages(|s|, size);
  }
}
