/** include/cache.h: the lock a client carries, and the optimistic read through it. */
module GenericCache {
  import opened Words
  import opened Options
  import opened ProbeTable
  import opened CacheState
  import opened CacheSteps
  import Memory

  /** `rlock_impl_t`, filled in by the cache and carried by the client. */
  class RLock {
    var key: Key
    var head: Head
    var tail: byte
    var chunk: Option<nat>
    var index: nat

    ghost function View(): Lock
      reads this
    {
      Lock(key, head, tail, chunk, index)
    }

    constructor (key: Key)
      ensures View().key == key && head == Null
    {
      this.key := key;
      head := Null;
    }

    /** Point to no page. */
    method Clear()
      modifies this
      ensures View() == Lock(old(key), EmptyPage, 0, None, old(index))
    {
      head := EmptyPage;
      tail := 0;
      chunk := None;
    }

    /** Record the slot found, and point to its page if it was not evicted. */
    method Settle(d: Desc, found: bool, t: byte)
      modifies this
      ensures View() == Lock(old(key), if found then At(d) else old(head), if found then t else old(tail),
                             Some(d.chunk), d.index % INDEX_MODULUS)
    {
      index := d.index % INDEX_MODULUS;
      chunk := Some(d.chunk);
      if found {
        head := At(d);
        tail := t;
      }
    }

    method Detach()
      modifies this
      ensures View() == old(View()).(head := Null)
    {
      head := Null;
    }
  }

  /** `LAZYFREE_LOCK_CHECK`. */
  method LockCheck(mem: Memory.Memory, lock: RLock) returns (ok: bool)
    requires lock.head != Null && (lock.head.At? ==> lock.head.desc in mem.pages)
    modifies mem
    ensures Evicts(old(mem.View()), mem.View())
    ensures ok <==> lock.head.At? && Tail(mem.pages[lock.head.desc]) != 0
  {
    if lock.head == EmptyPage {
      return false;
    }
    var t := mem.ReadByte(lock.head.desc, PAGE_SIZE - 1);
    ok := t != 0;
  }

  // ---- The optimistic read ----

  /** Bytes of a page that `lazyfree_read` copies: it stops at the end of the page. */
  function Slice(p: Page, offset: nat, size: nat): (s: seq<byte>)
    ensures offset + size <= PAGE_SIZE ==> |s| == size
  {
    if offset >= PAGE_SIZE then [] else if offset + size <= PAGE_SIZE then p[offset..offset + size] else p[offset..]
  }

  /** What a read that ends exactly at the end of the page gives: its last byte comes from the lock. */
  function Read(p: Page, tail: byte, offset: nat, size: nat): seq<byte> {
    Slice(if offset + size == PAGE_SIZE then WithTail(p, tail) else p, offset, size)
  }

  lemma SliceNext(p: Page, offset: nat, i: nat)
    requires offset + i < PAGE_SIZE
    ensures |Slice(p, offset, i)| == i && Slice(p, offset, i + 1) == Slice(p, offset, i) + [p[offset + i]]
  {
  }

  /** Copying stops when everything asked for, or everything there is, has been copied. */
  lemma SliceEnd(p: Page, offset: nat, i: nat, size: nat)
    requires i <= size && (i == size || offset + i >= PAGE_SIZE) && (i == 0 || offset + i <= PAGE_SIZE)
    ensures Slice(p, offset, i) == Slice(p, offset, size) && |Slice(p, offset, size)| == i
  {
  }

  /** The loop of `lazyfree_read`: unless the page was evicted meanwhile, all bytes are of one and the same page. */
  method CopyOut(mem: Memory.Memory, d: Desc, dest: array<byte>, offset: nat, size: nat)
    requires d in mem.pages && dest.Length >= size
    modifies mem, dest
    ensures Evicts(old(mem.View()), mem.View())
    ensures var n := |Slice(mem.pages[d], offset, size)|;
            n <= size && dest[n..] == old(dest[n..])
            && (mem.pages[d] != ZERO_PAGE ==> dest[..n] == Slice(mem.pages[d], offset, size))
  {
    var i := 0;
    ghost var a := mem.View();
    while i < size && offset + i < PAGE_SIZE
      invariant 0 <= i <= size && (i == 0 || offset + i <= PAGE_SIZE)
      invariant Evicts(a, mem.View())
      invariant dest[i..] == old(dest[i..])
      invariant mem.pages[d] != ZERO_PAGE ==> dest[..i] == Slice(mem.pages[d], offset, i)
    {
      ghost var before := mem.View();
      dest[i] := mem.ReadByte(d, offset + i);
      EvictsTransitive(a, before, mem.View());
      SliceNext(mem.pages[d], offset, i);
      assert dest[..i + 1] == dest[..i] + [dest[i]];
      i := i + 1;
    }
    SliceEnd(mem.pages[d], offset, i, size);
  }

  /**
   `lazyfree_read`. It succeeds exactly when the page is not evicted by the end, and then
   every byte copied is the page's, however the kernel acted during the loop.
   */
  method LazyfreeRead(mem: Memory.Memory, lock: RLock, dest: array<byte>, offset: nat, size: nat) returns (ok: bool)
    requires lock.head != Null && (lock.head.At? ==> lock.head.desc in mem.pages)
    requires dest.Length >= size && (offset + size == PAGE_SIZE ==> size > 0)
    modifies mem, dest
    ensures Evicts(old(mem.View()), mem.View())
    ensures ok <==> lock.head.At? && Tail(mem.pages[lock.head.desc]) != 0
    ensures ok ==> var s := Read(mem.pages[lock.head.desc], lock.tail, offset, size);
                   |s| <= size && dest[..|s|] == s && dest[|s|..] == old(dest[|s|..])
  {
    ok := LockCheck(mem, lock);
    if !ok {
      return;
    }
    ghost var m0 := mem.View();
    CopyOut(mem, lock.head.desc, dest, offset, size);
    if offset + size == PAGE_SIZE {
      dest[size - 1] := lock.tail;
    }
    ghost var m1 := mem.View();
    ok := LockCheck(mem, lock);
    EvictsTransitive(m0, m1, mem.View());
  }
}
