/** src/cache/fallthrough_cache.c: one get or drop as a chain of lock-protocol steps. */
module FallthroughSteps {
  import opened Words
  import opened Options
  import opened ProbeTable
  import opened CacheState
  import opened CacheSteps
  import opened CacheInvariant
  import opened CacheSafety
  import opened ProtocolRuns
  import opened Publication

  /** `entry_size` and a deterministic `refill_cb`. */
  datatype Config = Config(entrySize: nat, refill: Key -> seq<byte>)

  ghost predicate ConfigOk(cfg: Config) {
    0 < cfg.entrySize <= PAGE_SIZE && forall k :: |cfg.refill(k)| == cfg.entrySize
  }

  /** The last n bytes of a page: where an entry lives. */
  function Payload(p: Page, n: nat): seq<byte>
    requires n <= PAGE_SIZE
  {
    p[PAGE_SIZE - n..]
  }

  /** A page with the key's refill value as its entry. */
  function EntryPage(cfg: Config, key: Key): Page
    requires ConfigOk(cfg)
  {
    Zeros()[..PAGE_SIZE - cfg.entrySize] + cfg.refill(key)
  }

  /** What `lazyfree_read` copies from a page: its bytes, the last one replaced by the lock's tail. */
  function ReadPayload(p: Page, tail: byte, n: nat): seq<byte>
    requires n <= PAGE_SIZE
  {
    Payload(WithTail(p, tail), n)
  }

  /** `LAZYFREE_LOCK_CHECK` gives false. */
  ghost predicate CheckFails(s: State, l: Lock)
    requires Shaped(s) && LockShaped(s, l)
  {
    l.head == EmptyPage || (l.head.At? && Tail(SlotPage(s, l.head.desc)) == 0)
  }

  /** A completed call, with its result and the states and choices on the way. */
  datatype Event =
    | Hit(key: Key, value: seq<byte>, lock: Lock, s1: State)
    | Miss(key: Key, value: seq<byte>, lock: Lock, s1: State,
           m1: Mem, choice: Choice, stored: bool, s2: State,
           page: Page, m2: Mem, s3: State, m3: Mem, t1: byte, t2: byte)
    | Dropped(key: Key, lock: Lock, s1: State, valid: bool)
    | NotFound(key: Key, lock: Lock)
  {
    predicate IsGet() { Hit? || Miss? }
    predicate IsDrop() { Dropped? || NotFound? }
  }

  /** `ft_cache_get` finding its page. */
  ghost predicate HitStep(cfg: Config, s: State, e: Event, s': State)
    requires ConfigOk(cfg) && Shaped(s) && e.Hit?
  {
    && ReadLockStep(s, e.key, e.lock, e.s1) && Shaped(e.s1) && LockShaped(e.s1, e.lock)
    && e.lock.head.At? && ReadUnlockStep(e.s1, e.lock, false, true, s')
    && e.value == ReadPayload(s'.mem.pages[e.lock.head.desc], e.lock.tail, cfg.entrySize)
  }

  /** `ft_cache_get` up to its refill: the check of the lock fails. */
  ghost predicate LookupStep(s: State, e: Event)
    requires Shaped(s) && e.Miss?
  {
    && ReadLockStep(s, e.key, e.lock, e.s1) && Shaped(e.s1) && LockShaped(e.s1, e.lock) && e.s1.ppc == s.ppc
    && CheckFails(e.s1, e.lock) && Evicts(e.s1.mem, e.m1)
  }

  /** `ft_cache_get` from its refill on: lock, store the value at the end of the page, unlock. */
  ghost predicate RefillStep(cfg: Config, e: Event, s': State)
    requires ConfigOk(cfg) && e.Miss? && Shaped(e.s1) && LockShaped(e.s1, e.lock)
  {
    && e.value == cfg.refill(e.key)
    && WriteLockStep(e.s1, e.lock, e.m1, e.choice, e.stored, e.s2) && Shaped(e.s2)
    && UserStoreStep(e.s2, e.page, e.m2, e.s3) && Shaped(e.s3)
    && Payload(e.page, cfg.entrySize) == e.value
    && WriteUnlockStep(e.s3, false, e.m3, e.t1, e.t2, s')
  }

  /** `ft_cache_drop` finding its page. */
  ghost predicate DropStep(s: State, e: Event, s': State)
    requires Shaped(s) && e.Dropped?
  {
    && ReadLockStep(s, e.key, e.lock, e.s1) && Shaped(e.s1) && LockShaped(e.s1, e.lock)
    && e.lock.head.At? && ReadUnlockStep(e.s1, e.lock, true, e.valid, s')
  }

  ghost predicate NotFoundStep(s: State, e: Event, s': State)
    requires Shaped(s) && e.NotFound?
  {
    ReadLockStep(s, e.key, e.lock, s') && Shaped(s') && LockShaped(s', e.lock) && CheckFails(s', e.lock)
  }

  ghost predicate MissStep(cfg: Config, s: State, e: Event, s': State)
    requires ConfigOk(cfg) && Shaped(s) && e.Miss?
  {
    LookupStep(s, e) && RefillStep(cfg, e, s')
  }

  /** One completed call. */
  ghost predicate FtStep(cfg: Config, s: State, e: Event, s': State)
    requires ConfigOk(cfg)
  {
    && Shaped(s)
    && match e
       case Hit(_, _, _, _) => HitStep(cfg, s, e, s')
       case Miss(_, _, _, _, _, _, _, _, _, _, _, _, _, _) => MissStep(cfg, s, e, s')
       case Dropped(_, _, _, _) => DropStep(s, e, s')
       case NotFound(_, _) => NotFoundStep(s, e, s')
  }

  /** A cache between calls. */
  ghost predicate Idle(s: State) { Inv(s) && s.wlock.None? }

  // ---- Every call is a run of the lock protocol ----

  lemma ReadLockKeeps(s: State, key: Key, l: Lock, s1: State)
    requires Idle(s) && key != 0 && ReadLockStep(s, key, l, s1)
    ensures Idle(s1) && OthersKept(s, s1, key) && LockOk(s1, l) && s1.index == s.index && s1.chunks == s.chunks
  {
    ReclaimKeeps(s, s1, key);
    ReadLockIsOk(s, key, l, s1);
  }

  /** A lookup that succeeds never finds the slot under another key. */
  lemma LookupAgrees(s: State, key: Key)
    requires Idle(s) && key in s.index
    ensures key != 0 && InRange(s.ppc, s.index[key]) && Live(s, s.index[key]) && SlotKey(s, s.index[key]) == key
  {
  }

  /** The state in which a miss allocates: an evicted page under the lock has been left all zero. */
  ghost function MissSite(e: Event): State
    requires e.Miss?
  {
    if Shaped(e.s1) && LockShaped(e.s1, e.lock) && KeyMatches(e.s1, e.lock)
    then e.s1.(mem := StorePage(e.m1, e.lock.head.desc, ZERO_PAGE)) else e.s1
  }

  /** The slot that a miss fills. */
  ghost function MissSlot(e: Event): Option<Desc>
    requires e.Miss? && Shaped(MissSite(e)) && ChoiceOk(MissSite(e), e.choice)
  {
    WriteAlloc(MissSite(e), e.key, e.choice, e.stored).1
  }

  /** A miss allocates: the slot found for the key, if any, was evicted. */
  lemma MissAllocates(cfg: Config, s: State, e: Event, s': State)
    requires ConfigOk(cfg) && Idle(s) && e.Miss? && e.key != 0 && MissStep(cfg, s, e, s')
    ensures var z := MissSite(e);
            && Idle(z) && z.ppc == s.ppc && OthersKept(s, z, 0) && ChoiceOk(z, e.choice)
            && z == s.(mem := z.mem) && z.mem.evictable <= s.mem.evictable
            && MissSlot(e).Some? && e.s2 == WriteAlloc(z, e.key, e.choice, e.stored).0
            && InsertionOutcome(z.hasher, KeysAtPut(z, e.choice), e.key, e.stored)
  {
    var l := e.lock;
    ReadLockKeeps(s, e.key, l, e.s1);
    ReclaimKeeps(s, e.s1, 0);
    if KeyMatches(e.s1, l) {
      EvictedPageIsCleared(e.s1, l, e.m1);
      OthersKeptTransitive(s, e.s1, MissSite(e), 0);
    }
  }

  /** Pages that are not reclaimable read the same, except those of `but`. */
  ghost predicate SamePagesBut(m: Mem, m': Mem, but: set<Desc>) {
    && m'.pages.Keys == m.pages.Keys
    && forall x :: x in m.pages && x !in m.evictable && x !in but ==> m'.pages[x] == m.pages[x] && x !in m'.evictable
  }

  /** Up to its allocation a miss affects at most the page its key was found at. */
  lemma MissSiteSpares(s: State, e: Event, d: Desc)
    requires Idle(s) && e.Miss? && e.key != 0 && LookupStep(s, e)
    requires Live(s, d) && SlotKey(s, d) != e.key && d !in s.mem.evictable
    ensures d in MissSite(e).mem.pages && MissSite(e).mem.pages[d] == s.mem.pages[d]
  {
    ReadLockKeeps(s, e.key, e.lock, e.s1);
    assert Live(e.s1, d) && SlotKey(e.s1, d) == SlotKey(s, d) && SlotPage(e.s1, d) == SlotPage(s, d);
    assert Evicts(e.s1.mem, e.m1) && e.lock.key == e.key && d !in e.s1.mem.evictable;
    StoreSpares(e.s1, e.lock, e.m1, d);
    if KeyMatches(e.s1, e.lock) {
      assert MissSite(e).mem.pages == e.m1.pages[e.lock.head.desc := ZERO_PAGE];
    } else {
      assert MissSite(e) == e.s1;
    }
  }

  lemma StoreSpares(s: State, l: Lock, m: Mem, d: Desc)
    requires Idle(s) && LockOk(s, l) && Evicts(s.mem, m) && Live(s, d)
    requires SlotKey(s, d) != l.key && d !in s.mem.evictable
    ensures m.pages[d] == SlotPage(s, d) && (KeyMatches(s, l) ==> l.head.desc != d)
  {
  }

  lemma EvictedPageIsCleared(s: State, l: Lock, m: Mem)
    requires Idle(s) && LockOk(s, l) && KeyMatches(s, l) && Evicts(s.mem, m)
    requires Tail(SlotPage(s, l.head.desc)) == 0
    ensures Tail(m.pages[l.head.desc]) == 0 && m.pages[l.head.desc][0 := 0] == ZERO_PAGE
    ensures var z := s.(mem := StorePage(m, l.head.desc, ZERO_PAGE)); Idle(z) && OthersKept(s, z, 0)
  {
    MatchedIsLive(s, l);
    FallbackPage(s, l.head.desc, m);
    MemoryChangeKeeps(s, s.(mem := StorePage(m, l.head.desc, ZERO_PAGE)), 0);
  }

  // ---- What a miss does to the slots ----

  /** Apart from slot d, data can only be lost. */
  ghost predicate KeptBut(s: State, t: State, d: Desc)
    requires Shaped(s) && Shaped(t)
  {
    && t.ppc == s.ppc
    && forall x :: Live(t, x) && x != d ==>
         && Live(s, x) && SlotKey(s, x) == SlotKey(t, x) && SlotBit(s, x) == SlotBit(t, x)
         && (SlotPage(t, x) == SlotPage(s, x) || SlotPage(t, x) == ZERO_PAGE)
  }

  lemma KeptButTransitive(s: State, t: State, u: State, d: Desc)
    requires Shaped(s) && Shaped(t) && Shaped(u) && KeptBut(s, t, d) && KeptBut(t, u, d)
    ensures KeptBut(s, u, d)
  {
  }

  lemma AllocKeptBut(s: State, key: Key, choice: Choice, stored: bool)
    requires Idle(s) && key != 0 && ChoiceOk(s, choice) && WriteAlloc(s, key, choice, stored).1.Some?
    ensures var s', d := WriteAlloc(s, key, choice, stored).0, WriteAlloc(s, key, choice, stored).1.value;
            && Inv(s') && KeptBut(s, s', d) && s'.wlock == Some(WLock(d, key))
  {
    var r, t := MakeRoom(s, choice), AllocSite(s, choice);
    var s', d := WriteAlloc(s, key, choice, stored).0, WriteAlloc(s, key, choice, stored).1.value;
    WriteAllocTakes(s, key, choice, stored);
    MakeRoomKeeps(s, choice, 0);
    WalkKeeps(r, |s.chunks|, 0);
    OthersKeptTransitive(s, r, t, 0);
    TakenKeeps(t, key, stored);
    TakenFrame(t, key, stored);
    TakenSlots(t, key, stored);
    assert KeptBut(t, s', d) by {
      assert forall x :: Live(s', x) && x != d ==> SlotSame(t, s', x);
    }
  }

  lemma StoreKeptBut(s: State, page: Page, m: Mem, s': State)
    requires Inv(s) && UserStoreStep(s, page, m, s')
    ensures var d := s.wlock.value.desc;
            && Inv(s') && KeptBut(s, s', d) && s'.wlock == s.wlock && s'.index == s.index
            && SlotPage(s', d) == page && d !in s'.mem.evictable && SamePagesBut(s.mem, s'.mem, {d})
  {
    StoreKeeps(s, s.wlock.value.desc, page, m);
  }

  lemma UnlockKeptBut(s: State, m: Mem, t1: byte, t2: byte, s': State)
    requires Inv(s) && WriteUnlockStep(s, false, m, t1, t2, s')
    ensures var d := s.wlock.value.desc;
            && Idle(s') && KeptBut(s, s', d) && s'.index == s.index && SamePagesBut(s.mem, s'.mem, {d})
  {
    var d, a := s.wlock.value.desc, s.(mem := m);
    ReclaimKeeps(s, a, 0);
    WriteUnlockKeeps(s, false, m, t1, t2, s');
    PublishChunks(a, d, t1, t2);
    assert forall x :: Live(s', x) && x != d ==> s'.mem.pages[x] == m.pages[x];
  }

  /** After a miss the key's slot holds the refilled entry, and is not reclaimable. */
  ghost predicate Filled(cfg: Config, t: State, d: Desc, key: Key)
    requires ConfigOk(cfg) && Shaped(t)
  {
    && Live(t, d) && SlotKey(t, d) == key && d !in t.mem.evictable && Odd(Tail(SlotPage(t, d)))
    && Payload(Decoded(SlotPage(t, d), SlotBit(t, d)), cfg.entrySize) == cfg.refill(key)
  }

  lemma MissFills(cfg: Config, s: State, e: Event, s': State)
    requires ConfigOk(cfg) && Idle(s) && e.Miss? && e.key != 0 && MissStep(cfg, s, e, s')
    ensures Shaped(MissSite(e)) && ChoiceOk(MissSite(e), e.choice) && MissSlot(e).Some?
    ensures Idle(s') && KeptBut(s, s', MissSlot(e).value) && Filled(cfg, s', MissSlot(e).value, e.key)
    ensures s'.index == e.s2.index && SamePagesBut(e.s2.mem, s'.mem, {MissSlot(e).value})
  {
    MissAllocates(cfg, s, e, s');
    var z, d := MissSite(e), MissSlot(e).value;
    assert KeptBut(s, z, d);
    AllocKeptBut(z, e.key, e.choice, e.stored);
    StoreKeptBut(e.s2, e.page, e.m2, e.s3);
    PublishStores(e.s3, e.m3, e.t1, e.t2, s');
    UnlockKeptBut(e.s3, e.m3, e.t1, e.t2, s');
    KeptButTransitive(s, z, e.s2, d);
    KeptButTransitive(s, e.s2, e.s3, d);
    KeptButTransitive(s, e.s3, s', d);
  }
}
