/** The page window over a list of entries (`src/task_timer/views/paginator.rs`):
    a page number, a page size and the number of entries. */
module Pagination {

  /** Rust's `as u16`: keeps the low sixteen bits. */
  function AsU16(n: nat): (r: nat)
    ensures r < 65536 && r <= n
    ensures n < 65536 ==> r == n
  {
    n % 65536
  }

  /** Adding two values already cast to `u16`, with the sum wrapping, gives
      the cast of the plain sum. */
  lemma AsU16Add(a: nat, b: nat)
    ensures AsU16(AsU16(a) + AsU16(b)) == AsU16(a + b)
  {
    var qa, qb := a / 65536, b / 65536;
    assert a == qa * 65536 + AsU16(a);
    assert b == qb * 65536 + AsU16(b);
    assert a + b == (qa + qb) * 65536 + (AsU16(a) + AsU16(b));
    ModAddMultiple(AsU16(a) + AsU16(b), qa + qb);
  }

  lemma ModAddMultiple(x: nat, q: nat)
    ensures (q * 65536 + x) % 65536 == x % 65536
  {
    var r := x % 65536;
    assert x == (x / 65536) * 65536 + r;
    assert q * 65536 + x == (q + x / 65536) * 65536 + r;
  }

  /** The window `page_slice` returns, on plain values: from the page's first
      entry, at most `pageSize` entries, never past the last entry. */
  function Window(page: nat, pageSize: nat, entryLen: nat): (r: (nat, nat))
    ensures r.0 == page * pageSize
    ensures r.1 <= entryLen && r.1 <= r.0 + pageSize
    ensures r.1 == r.0 + pageSize || r.1 == entryLen
  {
    var start := page * pageSize;
    (start, if start + pageSize < entryLen then start + pageSize else entryLen)
  }

  class Paginator {
    var page: nat
    var pageSize: nat
    var entryLen: nat

    /** The page never starts past the entries, unless it is the first page. */
    predicate Valid()
      reads this
    {
      page == 0 || page * pageSize < entryLen
    }

    constructor (pageSize: nat)
      ensures page == 0 && this.pageSize == pageSize && entryLen == 0
      ensures Valid()
    {
      page := 0;
      this.pageSize := pageSize;
      entryLen := 0;
    }

    /** `next_page`: moves on only when the next page starts before the end. */
    method NextPage()
      modifies this
      ensures (old(page) + 1) * pageSize < entryLen ==> page == old(page) + 1
      ensures (old(page) + 1) * pageSize >= entryLen ==> page == old(page)
      ensures pageSize == old(pageSize) && entryLen == old(entryLen)
      ensures old(Valid()) ==> Valid()
    {
      if (page + 1) * pageSize < entryLen {
        page := page + 1;
      }
    }

    /** `prev_page`: one page back, stopping at the first. */
    method PrevPage()
      modifies this
      ensures page == if old(page) == 0 then 0 else old(page) - 1
      ensures pageSize == old(pageSize) && entryLen == old(entryLen)
      ensures old(Valid()) ==> Valid()
    {
      if page > 0 {
        page := page - 1;
        if (page + 1) * pageSize < entryLen {
          PrevPageStaysInside(page, pageSize, entryLen);
        }
      }
    }

    function Offset(): (r: nat)
      reads this
      ensures r == PageSlice().0
    {
      page * pageSize
    }

    /** `content_height`.  On the last, short page it is the number of entries
        left; otherwise it is `offset + page_size`, which is the page size only
        on the first page.  The subtraction panics when the offset is past the
        end, so callers must keep it inside. */
    function ContentHeight(): (r: nat)
      reads this
      requires Offset() <= entryLen
      ensures Offset() + pageSize > entryLen ==> r == AsU16(entryLen - Offset())
      ensures Offset() + pageSize <= entryLen ==> r == AsU16(Offset() + pageSize)
      ensures r < 65536
    {
      var maxPageLen := page * pageSize + pageSize;
      if maxPageLen > entryLen then AsU16(entryLen - page * pageSize) else AsU16(maxPageLen)
    }

    /** `page_slice`. */
    function PageSlice(): (r: (nat, nat))
      reads this
      ensures r.0 == page * pageSize && r.1 <= entryLen && r.1 <= r.0 + pageSize
      ensures (page == 0 || page * pageSize < entryLen) ==> r.0 <= r.1
    {
      Window(page, pageSize, entryLen)
    }
  }

  /** Going back a page from a valid position stays valid. */
  lemma PrevPageStaysInside(page: nat, pageSize: nat, entryLen: nat)
    requires (page + 1) * pageSize < entryLen
    ensures page == 0 || page * pageSize < entryLen
  {
    assert page * pageSize <= (page + 1) * pageSize;
  }

  /** On a valid position the window is well ordered and inside the entries. */
  lemma WindowInside(page: nat, pageSize: nat, entryLen: nat)
    requires page == 0 || page * pageSize < entryLen
    ensures Window(page, pageSize, entryLen).0 <= Window(page, pageSize, entryLen).1 <= entryLen
  {
  }

  /** On the first page `content_height` is the window's length; past the first
      full page it overshoots by the offset. */
  lemma ContentHeightOnLaterFullPage(p: Paginator)
    requires p.page > 0 && p.Offset() + p.pageSize <= p.entryLen && p.pageSize > 0
    requires p.Offset() + p.pageSize < 65536
    ensures p.ContentHeight() == p.PageSlice().1 - p.PageSlice().0 + p.Offset()
    ensures p.ContentHeight() > p.pageSize
  {
    assert p.Offset() >= p.pageSize by {
      assert p.page * p.pageSize >= 1 * p.pageSize;
    }
  }
}
