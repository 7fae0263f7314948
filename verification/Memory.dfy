/** The mapped pages of the cache, shared with a kernel that may reclaim evictable ones at any access. */
module Memory {
  import opened Words
  import opened CacheState

  class Memory {
    var pages: map<Desc, Page>
    var evictable: set<Desc>

    ghost function View(): Mem
      reads this
    {
      Mem(pages, evictable)
    }

    constructor (ppc: nat)
      ensures pages.Keys == AllPages(ppc) && evictable == {}
    {
      pages := map d | d in AllPages(ppc) :: ZERO_PAGE;
      evictable := {};
    }

    /** The kernel reclaims some evictable pages, or none. */
    method Preempt()
      modifies this
      ensures Evicts(old(View()), View())
    {
      var gone: set<Desc> :| gone <= evictable;
      pages := map d | d in pages :: if d in gone then ZERO_PAGE else pages[d];
    }

    method ReadByte(d: Desc, i: nat) returns (b: byte)
      requires d in pages && i < PAGE_SIZE
      modifies this
      ensures Evicts(old(View()), View()) && b == pages[d][i]
    {
      Preempt();
      b := pages[d][i];
    }

    /** A store finds memory as m, and makes the page dirty. */
    method WriteByte(d: Desc, i: nat, b: byte) returns (ghost m: Mem)
      requires d in pages && i < PAGE_SIZE
      modifies this
      ensures Evicts(old(View()), m) && View() == StorePage(m, d, m.pages[d][i := b])
    {
      Preempt();
      m := View();
      pages := pages[d := pages[d][i := b]];
      evictable := evictable - {d};
    }

    /** madvise(MADV_FREE) on a chunk. */
    method MadviseFree(c: nat, ppc: nat)
      modifies this`evictable
      ensures evictable == old(evictable) + PagesOf(c, ppc)
    {
      evictable := evictable + PagesOf(c, ppc);
    }

    /** madvise(MADV_DONTNEED) on a chunk; what a file then reads as is arbitrary. */
    method MadviseDontNeed(c: nat, ppc: nat, kind: Kind) returns (filePages: map<Desc, Page>)
      modifies this
      ensures PagesOf(c, ppc) <= filePages.Keys
      ensures View() == DontNeed(old(View()), kind, PagesOf(c, ppc), filePages)
    {
      filePages := ReadBack(PagesOf(c, ppc));
      var before := pages;
      pages := map d | d in before ::
        if d !in PagesOf(c, ppc) then before[d] else if kind == Disk then filePages[d] else ZERO_PAGE;
      evictable := evictable - PagesOf(c, ppc);
    }

    method ReadBack(ds: set<Desc>) returns (filePages: map<Desc, Page>)
      ensures filePages.Keys == ds
    {
      filePages := map[];
      var rest := ds;
      while rest != {}
        invariant rest <= ds && filePages.Keys == ds - rest
        decreases |rest|
      {
        var d :| d in rest;
        var page: Page := *;
        filePages := filePages[d := page];
        rest := rest - {d};
      }
    }
  }

  function AllPages(ppc: nat): (ds: set<Desc>)
    ensures forall d :: d in ds <==> InRange(ppc, d)
  {
    set c, i | 0 <= c < NUMBER_OF_CHUNKS && 0 <= i < ppc :: Desc(c, i)
  }
}
