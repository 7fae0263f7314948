/** Several accesses to one page, with the kernel acting before each: what they amount to together. */
module PageAccess {
  import opened Words
  import opened CacheState
  import opened CacheSteps
  import Memory

  // ---- Accesses that follow a store ----

  /** A store to page d after an earlier one, which found memory as m1 and left page pg. */
  method StoreAgain(mem: Memory.Memory, d: Desc, i: nat, b: byte, ghost a: Mem, ghost m1: Mem, ghost pg: Page)
    returns (ghost m: Mem)
    requires d in mem.pages && i < PAGE_SIZE
    requires d in a.pages && Evicts(a, m1) && mem.View() == StorePage(m1, d, pg)
    modifies mem
    ensures Evicts(a, m) && d in m.pages && m.pages[d] == m1.pages[d]
    ensures mem.View() == StorePage(m, d, pg[i := b])
  {
    ghost var m2 := mem.WriteByte(d, i, b);
    StoreThenReclaim(a, m1, d, pg, m2);
    m := Merge(m1, m2, d);
    StoreTwice(m, d, pg, pg[i := b]);
  }

  method LoadAgain(mem: Memory.Memory, d: Desc, i: nat, ghost a: Mem, ghost m1: Mem, ghost pg: Page)
    returns (b: byte, ghost m: Mem)
    requires d in mem.pages && i < PAGE_SIZE
    requires d in a.pages && Evicts(a, m1) && mem.View() == StorePage(m1, d, pg)
    modifies mem
    ensures Evicts(a, m) && d in m.pages && m.pages[d] == m1.pages[d] && b == pg[i]
    ensures mem.View() == StorePage(m, d, pg)
  {
    b := mem.ReadByte(d, i);
    StoreThenReclaim(a, m1, d, pg, mem.View());
    m := Merge(m1, mem.View(), d);
  }

  // ---- Locking a page for write ----

  /**
   The race of `lazyfree_write_lock`: use the first byte to lock the page, then look whether
   it was evicted. Whether that succeeds depends only on the page that the first store found.
   */
  method TakePage(mem: Memory.Memory, d: Desc) returns (ok: bool, ghost m: Mem)
    requires d in mem.pages
    modifies mem
    ensures Evicts(old(mem.View()), m) && d in m.pages && ok == (Tail(m.pages[d]) != 0)
    ensures mem.View() == StorePage(m, d, if ok then m.pages[d] else m.pages[d][0 := 0])
  {
    ghost var a := mem.View();
    var byte0 := mem.ReadByte(d, 0);
    ghost var a1 := mem.View();
    m := mem.WriteByte(d, 0, 1);
    ghost var found := m.pages[d];
    EvictsTransitive(a, a1, m);
    var t;
    t, m := LoadAgain(mem, d, PAGE_SIZE - 1, a, m, found[0 := 1]);
    ok := t != 0;
    m := StoreAgain(mem, d, 0, if ok then byte0 else 0, a, m, found[0 := 1]);
    RestoreByte(a1.pages[d], found, byte0, ok);
  }

  /** A page that was not evicted before the store gets the byte back that was read before. */
  lemma RestoreByte(was: Page, found: Page, byte0: byte, ok: bool)
    requires byte0 == was[0] && (found == was || found == ZERO_PAGE)
    requires ok == (Tail(found) != 0)
    ensures found[0 := 1][0 := if ok then byte0 else 0] == if ok then found else found[0 := 0]
  {
  }

  /** `*tail &= ~1`: the byte read is the page's, or 0 if the page was evicted. */
  method ClearTail(mem: Memory.Memory, d: Desc) returns (ghost m: Mem, ghost t: byte)
    requires d in mem.pages
    modifies mem
    ensures TailCleared(old(mem.View()), d, t, m, mem.View())
  {
    var b := mem.ReadByte(d, PAGE_SIZE - 1);
    t := b;
    ghost var m1 := mem.View();
    m := mem.WriteByte(d, PAGE_SIZE - 1, b & !1);
    EvictsTransitive(old(mem.View()), m1, m);
  }

  /** `*tail |= 1`: the byte read is the page's, or 0 if the page was evicted. */
  method MarkTail(mem: Memory.Memory, d: Desc) returns (ghost m: Mem, ghost t: byte)
    requires d in mem.pages
    modifies mem
    ensures Evicts(old(mem.View()), m) && d in m.pages && Sees(old(mem.View()), d, t)
    ensures mem.View() == StorePage(m, d, WithTail(m.pages[d], Marked(t)))
  {
    var b := mem.ReadByte(d, PAGE_SIZE - 1);
    t := b;
    ghost var m1 := mem.View();
    m := mem.WriteByte(d, PAGE_SIZE - 1, Marked(b));
    EvictsTransitive(old(mem.View()), m1, m);
  }

  // ---- Writing an entry ----

  /** The page after its first `i` bytes from `offset` on have been overwritten. */
  function Overwritten(p: Page, offset: nat, value: seq<byte>): Page
    requires offset + |value| <= PAGE_SIZE
  {
    p[..offset] + value + p[offset + |value|..]
  }

  lemma OverwriteNext(p: Page, offset: nat, value: seq<byte>, i: nat)
    requires i < |value| && offset + |value| <= PAGE_SIZE
    ensures Overwritten(p, offset, value[..i])[offset + i := value[i]] == Overwritten(p, offset, value[..i + 1])
  {
  }

  /** memcpy into a page: one store as far as the kernel is concerned. */
  method CopyIn(mem: Memory.Memory, d: Desc, offset: nat, value: array<byte>) returns (ghost m: Mem)
    requires d in mem.pages && value.Length > 0 && offset + value.Length <= PAGE_SIZE
    modifies mem
    ensures Evicts(old(mem.View()), m) && d in m.pages
    ensures mem.View() == StorePage(m, d, Overwritten(m.pages[d], offset, value[..]))
  {
    ghost var a := mem.View();
    m := mem.WriteByte(d, offset, value[0]);
    ghost var found := m.pages[d];
    assert found[offset := value[0]] == Overwritten(found, offset, value[..1]);
    var i := 1;
    while i < value.Length
      invariant 1 <= i <= value.Length
      invariant Evicts(a, m) && d in m.pages && m.pages[d] == found
      invariant mem.View() == StorePage(m, d, Overwritten(found, offset, value[..i]))
    {
      OverwriteNext(found, offset, value[..], i);
      m := StoreAgain(mem, d, offset + i, value[i], a, m, Overwritten(found, offset, value[..i]));
      assert value[..][..i] == value[..i] && value[..][..i + 1] == value[..i + 1];
      i := i + 1;
    }
    assert value[..value.Length] == value[..];
  }
}
