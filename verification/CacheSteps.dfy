/**
 The lock protocol of src/cache/lazyfree_cache.c as steps between states. The kernel may
 reclaim evictable pages before every access to a page; a step takes what the kernel and
 the environment chose (page contents m, chunk choice, outcome of the index insertion).
 */
module CacheSteps {
  import opened Words
  import opened Options
  import opened ProbeTable
  import opened CacheState

  /** `_index` of a lock has 16 bits. */
  const INDEX_MODULUS := 65536

  /** `lock->head`: NULL, the shared EMPTY_PAGE, or a page of the cache. */
  datatype Head = Null | EmptyPage | At(desc: Desc)

  /** `rlock_impl_t`. */
  datatype Lock = Lock(key: Key, head: Head, tail: byte, chunk: Option<nat>, index: nat)

  /** The slot `lazyfree_write_lock` takes when it upgrades a lock. */
  function LockedDesc(l: Lock): Desc
    requires l.chunk.Some?
  {
    Desc(l.chunk.value, l.index)
  }

  /** Slot d was allocated at some time: below the bump pointer, or zeroed when its chunk was dropped. */
  ghost predicate Seen(s: State, d: Desc)
    requires Shaped(s) && InRange(s.ppc, d)
  {
    d.index < s.chunks[d.chunk].len || SlotKey(s, d) == 0
  }

  /** The fields of a lock agree with the page its head points to. */
  ghost predicate LockShaped(s: State, l: Lock) {
    l.head.At? ==>
      && InRange(s.ppc, l.head.desc) && l.chunk == Some(l.head.desc.chunk)
      && l.index == l.head.desc.index % INDEX_MODULUS
  }

  /** What a caller may pass as a lock: its key is not 0, and its page was allocated at some time. */
  ghost predicate LockOk(s: State, l: Lock)
    requires Shaped(s)
  {
    l.key != 0 && LockShaped(s, l) && (l.head.At? ==> Seen(s, l.head.desc))
  }

  /** Only the kernel acts. */
  ghost predicate Reclaims(s: State, s': State) {
    Evicts(s.mem, s'.mem) && s' == s.(mem := s'.mem)
  }

  /** The lock found its page evicted, or points to it with the last byte decoded, or decoded after an eviction. */
  ghost predicate PageLocked(s: State, d: Desc, l: Lock, s': State)
    requires Shaped(s) && InRange(s.ppc, d) && Reclaims(s, s')
  {
    || (l.head == EmptyPage && l.tail == 0 && Tail(s'.mem.pages[d]) == 0)
    || (&& l.head == At(d) && Tail(SlotPage(s, d)) != 0
        && (|| l.tail == BitToTail(SlotBit(s, d), Tail(SlotPage(s, d)))
            || (l.tail == 0 && s'.mem.pages[d] == ZERO_PAGE)))
  }

  /** `lazyfree_read_lock`. */
  ghost predicate ReadLockStep(s: State, key: Key, l: Lock, s': State)
    requires Shaped(s)
  {
    && s.wlock.None? && Reclaims(s, s') && l.key == key
    && match HmapGet(s, key)
       case None => l.head == EmptyPage && l.tail == 0 && l.chunk == None
       case Some(d) =>
         if SlotKey(s, d) != key then l.head == EmptyPage && l.tail == 0 && l.chunk == None
         else l.chunk == Some(d.chunk) && l.index == d.index % INDEX_MODULUS && PageLocked(s, d, l, s')
  }

  /** The lock that a lookup of key k gives on slot d, intact: it carries the decoded last byte. */
  ghost function LockOn(s: State, k: Key, d: Desc): Lock
    requires Shaped(s) && InRange(s.ppc, d)
  {
    Lock(k, At(d), BitToTail(SlotBit(s, d), Tail(SlotPage(s, d))), Some(d.chunk), d.index % INDEX_MODULUS)
  }

  /** `lazyfree_read_unlock`, when it returns. */
  ghost predicate ReadUnlockStep(s: State, l: Lock, drop: bool, valid: bool, s': State)
    requires Shaped(s) && LockShaped(s, l)
  {
    && s.wlock.None?
    && match l.head
       case Null => false
       case EmptyPage => !valid && s' == s
       case At(d) =>
         && Evicts(s.mem, s'.mem) && Tail(s'.mem.pages[d]) != 0
         && valid == (SlotKey(s, d) == l.key)
         && s' == if valid && drop then CacheDrop(s.(mem := s'.mem), d) else s.(mem := s'.mem)
  }

  /** The keys in the index when `lazyfree_write_alloc` inserts. */
  function KeysAtPut(s: State, choice: Choice): set<Key>
    requires Shaped(s) && ChoiceOk(s, choice)
  {
    MakeRoom(s, choice).index.Keys
  }

  /** `lazyfree_write_alloc`, when it returns; whether the insertion succeeded depends on the hashes of the keys. */
  ghost predicate AllocStep(s: State, key: Key, choice: Choice, stored: bool, s': State)
    requires Shaped(s)
  {
    && ChoiceOk(s, choice) && WriteAlloc(s, key, choice, stored).1.Some?
    && (key != 0 ==> InsertionOutcome(s.hasher, KeysAtPut(s, choice), key, stored))
    && s' == WriteAlloc(s, key, choice, stored).0
  }

  lemma {:induction false} WalkKeepsIndex(s: State, left: nat)
    requires Shaped(s) && left > 0
    ensures Walk(s, left).0.index == s.index
    decreases left
  {
    if AllocCurrent(s).1.None? && left > 1 {
      WalkKeepsIndex(Advance(s), left - 1);
    }
  }

  /** Whatever chunk is dropped, an insertion finds fewer than n keys in the index. */
  ghost predicate IndexBelow(s: State, n: nat)
    requires Shaped(s)
  {
    forall choice :: ChoiceOk(s, choice) ==> |MakeRoom(s, choice).index| < n
  }

  lemma IndexBelowForAnyMemory(s: State, m: Mem, n: nat)
    requires Shaped(s) && m.pages.Keys == s.mem.pages.Keys && IndexBelow(s, n)
    ensures Shaped(s.(mem := m)) && IndexBelow(s.(mem := m), n)
  {
    forall choice | ChoiceOk(s.(mem := m), choice) ensures |MakeRoom(s.(mem := m), choice).index| < n {
      assert ChoiceOk(s, choice);
    }
  }

  /** rlock_check_key: the page still belongs to the lock's key. */
  ghost predicate KeyMatches(s: State, l: Lock)
    requires Shaped(s) && LockShaped(s, l)
  {
    l.head.At? && SlotKey(s, l.head.desc) == l.key
  }

  /** The upgraded page: no longer reclaimable, its first byte restored, its last byte as its writer left it. */
  function Upgrade(s: State, d: Desc, key: Key): State
    requires Shaped(s) && InRange(s.ppc, d)
  {
    s.(wlock := Some(WLock(d, key)), mem := StorePage(s.mem, d, Decoded(SlotPage(s, d), SlotBit(s, d))))
  }

  /** What a read of the last byte of page d may return. */
  ghost predicate Sees(m: Mem, d: Desc, t: byte)
    requires d in m.pages
  {
    t == Tail(m.pages[d]) || (d in m.evictable && t == 0)
  }

  /** The tail of page d was read as t, then stored with its lowest bit cleared into memory m. */
  ghost predicate TailCleared(before: Mem, d: Desc, t: byte, m: Mem, after: Mem)
    requires d in before.pages
  {
    && Sees(before, d, t) && Evicts(before, m)
    && after == StorePage(m, d, WithTail(m.pages[d], BitToTail(false, t)))
  }

  /** The upgrade of page d write-locks slot wd, another one: the last byte is decoded there. */
  ghost predicate UpgradedElsewhere(s: State, d: Desc, wd: Desc, key: Key, s': State)
    requires Shaped(s) && InRange(s.ppc, d) && InRange(s.ppc, wd)
  {
    var before := StorePage(s.mem, d, SlotPage(s, d));
    && s' == s.(wlock := Some(WLock(wd, key)), mem := s'.mem)
    && if SlotBit(s, wd) then s'.mem == before else exists t, m :: TailCleared(before, wd, t, m, s'.mem)
  }

  /** The end of an upgrade: it locks the slot that the lock's 16-bit index names. */
  ghost predicate UpgradeStep(s: State, l: Lock, s': State)
    requires Shaped(s) && LockShaped(s, l) && l.head.At?
  {
    var d, wd := l.head.desc, LockedDesc(l);
    if wd == d then s' == Upgrade(s, d, l.key) else UpgradedElsewhere(s, d, wd, l.key, s')
  }

  /** The lock is on its key's page, intact when byte 1 is stored in it. */
  ghost predicate Upgrades(s: State, l: Lock, m: Mem)
    requires Shaped(s) && LockShaped(s, l) && Evicts(s.mem, m)
  {
    KeyMatches(s, l) && Tail(m.pages[l.head.desc]) != 0
  }

  /** The 16-bit index of the lock names the page the lock is on. */
  ghost predicate IndexFits(l: Lock) { l.head.At? ==> l.head.desc.index < INDEX_MODULUS }

  /** `lazyfree_write_lock`; m is memory when byte 1 was stored, with page d as that store found it. */
  ghost predicate WriteLockStep(s: State, l: Lock, m: Mem, choice: Choice, stored: bool, s': State)
    requires Shaped(s) && LockShaped(s, l)
  {
    && s.wlock.None? && Evicts(s.mem, m)
    && if !KeyMatches(s, l) then m == s.mem && AllocStep(s, l.key, choice, stored, s')
       else
         var d := l.head.desc;
         if Tail(m.pages[d]) != 0 then UpgradeStep(s.(mem := m), l, s')
         else AllocStep(s.(mem := StorePage(m, d, m.pages[d][0 := 0])), l.key, choice, stored, s')
  }

  lemma FittingUpgrade(s: State, l: Lock, m: Mem, choice: Choice, stored: bool, s': State)
    requires Shaped(s) && LockShaped(s, l) && WriteLockStep(s, l, m, choice, stored, s')
    requires Upgrades(s, l, m) && IndexFits(l)
    ensures s' == Upgrade(s.(mem := m), l.head.desc, l.key)
  {
  }

  /** An upgrade locks the lock's own page exactly when that is among the first 65536 of its chunk. */
  lemma UpgradeLocksOwnPageIff(s: State, l: Lock, m: Mem, choice: Choice, stored: bool, s': State)
    requires Shaped(s) && LockShaped(s, l) && WriteLockStep(s, l, m, choice, stored, s') && Upgrades(s, l, m)
    ensures s'.wlock == Some(WLock(l.head.desc, l.key)) <==> IndexFits(l)
    ensures s'.wlock == Some(WLock(Desc(l.head.desc.chunk, l.head.desc.index % INDEX_MODULUS), l.key))
  {
  }

  /** The state in which `lazyfree_write_lock` allocates when it does not upgrade. */
  function FallbackState(s: State, l: Lock, m: Mem): State
    requires Shaped(s) && LockShaped(s, l) && Evicts(s.mem, m)
  {
    if l.head.At? && SlotKey(s, l.head.desc) == l.key
    then s.(mem := StorePage(m, l.head.desc, m.pages[l.head.desc][0 := 0])) else s
  }

  // ---- Several accesses of one page are one store ----

  lemma EvictsTransitive(a: Mem, b: Mem, c: Mem)
    requires Evicts(a, b) && Evicts(b, c)
    ensures Evicts(a, c)
  {
  }

  /** Memory m1 just before the first store to page d, with the other pages as they are in m2, later. */
  function Merge(m1: Mem, m2: Mem, d: Desc): Mem
    requires d in m1.pages
  {
    Mem(m2.pages[d := m1.pages[d]], m1.evictable)
  }

  lemma StoreThenReclaim(a: Mem, m1: Mem, d: Desc, pg: Page, m2: Mem)
    requires d in a.pages && Evicts(a, m1) && Evicts(StorePage(m1, d, pg), m2)
    ensures Evicts(a, Merge(m1, m2, d)) && Merge(m1, m2, d).pages[d] == m1.pages[d]
    ensures m2 == StorePage(Merge(m1, m2, d), d, pg)
  {
    var m := Merge(m1, m2, d);
    assert m2.pages == m.pages[d := pg];
    assert m2.evictable == m.evictable - {d};
  }

  lemma StoreTwice(m: Mem, d: Desc, p: Page, q: Page)
    ensures StorePage(StorePage(m, d, p), d, q) == StorePage(m, d, q)
  {
    assert m.evictable - {d} - {d} == m.evictable - {d};
  }

  /** The holder of the write lock stores into its page. */
  ghost predicate UserStoreStep(s: State, pg: Page, m: Mem, s': State)
    requires Shaped(s)
  {
    s.wlock.Some? && Evicts(s.mem, m) && s' == s.(mem := StorePage(m, s.wlock.value.desc, pg))
  }

  function Publish(s: State, d: Desc, t1: byte, t2: byte): (r: State)
    requires Shaped(s) && InRange(s.ppc, d)
    ensures Shaped(r) && r.ppc == s.ppc
  {
    var ch := s.chunks[d.chunk];
    SetChunk(s, d.chunk, ch.(bits := ch.bits[d.index := Odd(t1)]))
      .(wlock := None, mem := StorePage(s.mem, d, WithTail(SlotPage(s, d), Marked(t2))))
  }

  /** `lazyfree_write_unlock`: drop the page, or publish it with its lowest tail bit kept aside. */
  ghost predicate WriteUnlockStep(s: State, drop: bool, m: Mem, t1: byte, t2: byte, s': State)
    requires Shaped(s)
  {
    && s.wlock.Some? && InRange(s.ppc, s.wlock.value.desc) && Evicts(s.mem, m)
    && var d := s.wlock.value.desc;
       if drop then m == s.mem && s' == CacheDrop(s.(wlock := None), d)
       else Sees(s.mem, d, t1) && Sees(s.mem, d, t2) && s' == Publish(s.(mem := m), d, t1, t2)
  }

  /** What `lazyfree_cache_new_ex` builds; keys and bits are whatever malloc returned. */
  ghost predicate Initial(s: State) {
    && Shaped(s)
    && (forall c :: 0 <= c < NUMBER_OF_CHUNKS ==> s.chunks[c].len == 0 && s.chunks[c].free == [])
    && s.current == 0 && s.index == map[] && s.key0.None? && s.wlock.None?
    && s.totalFree == NUMBER_OF_CHUNKS * s.ppc
    && s.mem.evictable == {}
  }

  /**
   One call of the API, one store by the lock's holder, or the kernel alone. An upgrade is
   one that locks the right slot, which is every upgrade in chunks of at most 65536 pages.
   */
  datatype ApiOp =
    | Kernel
    | ReadLock(key: Key, lock: Lock)
    | ReadUnlock(lock: Lock, drop: bool, valid: bool)
    | WriteLock(lock: Lock, m: Mem, choice: Choice, stored: bool)
    | UserStore(page: Page, m: Mem)
    | WriteUnlock(drop: bool, m: Mem, t1: byte, t2: byte)

  ghost predicate ApiStep(s: State, op: ApiOp, s': State) {
    && Shaped(s)
    && match op
       case Kernel => Reclaims(s, s')
       case ReadLock(key, l) => key != 0 && ReadLockStep(s, key, l, s')
       case ReadUnlock(l, drop, valid) => LockOk(s, l) && ReadUnlockStep(s, l, drop, valid, s')
       case WriteLock(l, m, choice, stored) =>
         LockOk(s, l) && WriteLockStep(s, l, m, choice, stored, s') && (Upgrades(s, l, m) ==> IndexFits(l))
       case UserStore(page, m) => UserStoreStep(s, page, m, s')
       case WriteUnlock(drop, m, t1, t2) => WriteUnlockStep(s, drop, m, t1, t2, s')
  }

  /** The key an operation works for; Kernel and ReadLock change no key's slot. */
  function OpKey(s: State, op: ApiOp): Key {
    match op
    case Kernel => 0
    case ReadLock(key, _) => key
    case ReadUnlock(l, _, _) => l.key
    case WriteLock(l, _, _, _) => l.key
    case UserStore(_, _) => if s.wlock.Some? then s.wlock.value.key else 0
    case WriteUnlock(_, _, _, _) => if s.wlock.Some? then s.wlock.value.key else 0
  }
}
