/** src/cache/fallthrough_cache.c: a read-through client of the page cache. */
module FallthroughCache {
  import opened Words
  import opened Options
  import opened ProbeTable
  import opened CacheState
  import opened CacheSteps
  import opened CacheSafety
  import opened ProtocolRuns
  import opened Occupancy
  import opened FallthroughSteps
  import opened FallthroughRuns
  import opened FallthroughHits
  import opened FallthroughAnon
  import opened GenericCache
  import LazyfreeCache
  import PageAccess

  /** A call returns, or ends the program: the page was evicted while it was read, or no page could be allocated. */
  datatype Outcome = Returned | LockCheckFailed | NoFreePage

  class FallthroughCache {
    const cache: LazyfreeCache.LazyfreeCache
    const entrySize: nat
    const refill: Key -> seq<byte>
    ghost var refills: seq<Key>

    ghost function Cfg(): Config { Config(entrySize, refill) }

    ghost function Abs(): State
      requires cache.ChunksValid()
      reads cache, cache.mem, cache.index, cache.chunkObjects
    {
      cache.Abs()
    }

    /** The client's objects are not part of the cache. */
    ghost predicate Outside(o: object)
      reads cache.index
    {
      o !in cache.Repr() && o != this
    }

    ghost predicate Wired()
      reads this, cache.Repr()
    {
      cache.Wired() && cache.Roomy() && this !in cache.Repr() && ConfigOk(Cfg())
    }

    ghost predicate Valid()
      reads this, cache.Repr()
    {
      Wired() && Idle(Abs()) && Content(Cfg(), Abs())
    }

    /** `ft_cache_init`. */
    constructor (numEntries: nat, entrySize: nat, refill: Key -> seq<byte>,
                 lazyfreeChunks: nat, anonChunks: nat, diskChunks: nat, hasher: Hasher)
      requires 0 < entrySize <= PAGE_SIZE && forall k :: |refill(k)| == entrySize
      requires lazyfreeChunks + anonChunks + diskChunks == NUMBER_OF_CHUNKS
      requires NUMBER_OF_CHUNKS * (numEntries * PAGE_SIZE / NUMBER_OF_CHUNKS / PAGE_SIZE) <= 0x8000_0000
      ensures Valid() && Initial(Abs()) && Cfg() == Config(entrySize, refill) && refills == []
      ensures fresh(cache) && fresh(cache.Repr()) && Abs().hasher == hasher
      ensures NUMBER_OF_CHUNKS * Abs().ppc <= numEntries < NUMBER_OF_CHUNKS * (Abs().ppc + 1)
      ensures forall c :: 0 <= c < NUMBER_OF_CHUNKS ==>
                && (Abs().chunks[c].kind == LazyFree <==> c < lazyfreeChunks)
                && (Abs().chunks[c].kind == Disk <==> c >= lazyfreeChunks + anonChunks)
      ensures lazyfreeChunks == 0 ==> NoLazyFree(Abs())
      ensures lazyfreeChunks > 0 ==> Abs().chunks[0].kind == LazyFree
    {
      this.entrySize := entrySize;
      this.refill := refill;
      refills := [];
      cache := new LazyfreeCache.LazyfreeCache(numEntries * PAGE_SIZE, lazyfreeChunks, anonChunks, diskChunks, hasher);
      new;
      NewCacheHasContent(Cfg(), Abs());
    }

    // ---- Lookup ----

    /** `read_lock` and the first LAZYFREE_LOCK_CHECK. */
    method Lookup(lock: RLock) returns (found: bool)
      requires Wired() && Idle(Abs()) && Outside(lock) && lock.key != 0
      modifies lock, cache.mem
      ensures Wired() && lock.key == old(lock.key)
      ensures if found then Found(old(Abs()), lock.View(), Abs()) else Missing(old(Abs()), lock.View(), Abs())
    {
      cache.ReadLock(lock);
      ghost var s1, l := Abs(), lock.View();
      LockIsShaped(old(Abs()), lock.key, l, s1);
      found := cache.LockCheck(lock);
      LockThenReclaim(old(Abs()), lock.key, l, s1, Abs());
    }

    // ---- A page that was found ----

    method ReadEntry(lock: RLock, value: array<byte>)
      requires Wired() && Outside(value) && value.Length == entrySize
      requires lock.head.At? && LockShaped(Abs(), lock.View())
      modifies cache.mem, value
      ensures Wired() && Reclaims(old(Abs()), Abs())
      ensures var p := SlotPage(Abs(), lock.head.desc);
              Tail(p) != 0 ==> value[..] == ReadPayload(p, lock.tail, entrySize)
    {
      var _ := LazyfreeRead(cache.mem, lock, value, PAGE_SIZE - entrySize, entrySize);
      cache.MemFrame();
      PayloadIsRead(Abs().mem.pages[lock.head.desc], lock.tail, entrySize);
      assert value[..entrySize] == value[..];
    }

    /** The branch "Found" of `ft_cache_get` up to its second check. */
    method CopyEntry(lock: RLock, value: array<byte>) returns (ok: bool)
      requires Wired() && Outside(value) && value.Length == entrySize
      requires lock.head.At? && LockShaped(Abs(), lock.View())
      modifies cache.mem, value
      ensures Wired() && Reclaims(old(Abs()), Abs())
      ensures ok <==> Tail(SlotPage(Abs(), lock.head.desc)) != 0
      ensures ok ==> value[..] == ReadPayload(SlotPage(Abs(), lock.head.desc), lock.tail, entrySize)
    {
      ReadEntry(lock, value);
      ghost var s1 := Abs();
      ok := cache.LockCheck(lock);
      NotZeroMeansSame(s1.mem, Abs().mem, lock.head.desc);
      EvictsTransitive(old(Abs()).mem, s1.mem, Abs().mem);
    }

    /** A slot that is the lock's key's is in use, so releasing it leaves room on its chunk's free stack. */
    lemma LockCanRelease(lock: RLock)
      requires Wired() && Idle(Abs()) && LockOk(Abs(), lock.View())
      ensures cache.CanRelease(lock)
    {
      if KeyMatches(Abs(), lock.View()) {
        MatchedIsLive(Abs(), lock.View());
        CacheDropKeeps(Abs(), lock.head.desc, lock.key);
      }
    }

    /** `read_unlock`, of a lock on a page. */
    method Unlock(lock: RLock, drop: bool) returns (exited: bool, ghost valid: bool)
      requires Wired() && Outside(lock) && Abs().wlock.None?
      requires lock.head.At? && LockShaped(Abs(), lock.View()) && cache.CanRelease(lock)
      modifies cache.Repr()
      ensures cache.index.data == old(cache.index.data)
      ensures Wired()
      ensures exited ==> Reclaims(old(Abs()), Abs()) && Tail(SlotPage(Abs(), lock.head.desc)) == 0
      ensures !exited ==> ReadUnlockStep(old(Abs()), old(lock.View()), drop, valid, Abs())
    {
      var r;
      r, exited := cache.ReadUnlock(lock, drop);
      valid := r;
    }

    /** The branch "Found" of `ft_cache_get`. */
    method GetFound(lock: RLock, value: array<byte>, ghost s: State) returns (outcome: Outcome, ghost e: Event)
      requires Wired() && Outside(lock) && Outside(value) && value.Length == entrySize
      requires Found(s, lock.View(), Abs())
      modifies cache.Repr(), value
      ensures cache.index.data == old(cache.index.data)
      ensures refills == old(refills)
      ensures outcome.Returned? ==> Wired() && Got(Cfg(), s, old(lock.key), value[..], e, Abs()) && e.Hit?
      ensures !outcome.Returned? ==> outcome.LockCheckFailed? && Wired() && LostDuring(s, old(lock.key), Abs())
    {
      ghost var s0, l := Abs(), lock.View();
      var ok := CopyEntry(lock, value);
      FoundStays(s, l, s0, Abs());
      if !ok {
        return LockCheckFailed, NotFound(l.key, l);
      }
      outcome, e := UnlockFound(lock, value, s);
    }

    method UnlockFound(lock: RLock, value: array<byte>, ghost s: State) returns (outcome: Outcome, ghost e: Event)
      requires Wired() && Outside(lock) && Outside(value) && Found(s, lock.View(), Abs())
      requires value[..] == ReadPayload(SlotPage(Abs(), lock.head.desc), lock.tail, entrySize)
      modifies cache.Repr()
      ensures cache.index.data == old(cache.index.data)
      ensures outcome.Returned? ==> Wired() && Got(Cfg(), s, old(lock.key), value[..], e, Abs()) && e.Hit?
      ensures !outcome.Returned? ==> outcome.LockCheckFailed? && Wired() && LostDuring(s, old(lock.key), Abs())
    {
      ghost var s1, l := Abs(), lock.View();
      FoundStays(s, l, s1, s1);
      LockCanRelease(lock);
      e := Hit(l.key, value[..], l, s1);
      var exited;
      ghost var valid;
      exited, valid := Unlock(lock, false);
      if exited {
        FoundStays(s, l, s1, Abs());
        return LockCheckFailed, e;
      }
      HitIsStep(Cfg(), s, l, e, valid, Abs());
      outcome := Returned;
    }

    // ---- A page that was not found ----

    /** `refill_cb`, which writes the value; its calls are counted. */
    method Refill(key: Key, value: array<byte>)
      requires Wired() && Outside(value) && value.Length == entrySize
      modifies value, this`refills
      ensures Wired() && Abs() == old(Abs()) && value[..] == refill(key) && refills == old(refills) + [key]
    {
      var bytes := refill(key);
      forall i | 0 <= i < value.Length {
        value[i] := bytes[i];
      }
      refills := refills + [key];
      cache.MemFrame();
    }

    /** memcpy of the value to the end of the locked page. */
    method StoreEntry(page: Desc, value: array<byte>) returns (ghost pg: Page, ghost m: Mem)
      requires Wired() && Outside(value) && value.Length == entrySize
      requires Abs().wlock.Some? && Abs().wlock.value.desc == page && InRange(cache.pagesPerChunk, page)
      modifies cache.mem
      ensures Wired() && UserStoreStep(old(Abs()), pg, m, Abs()) && Payload(pg, entrySize) == value[..]
    {
      m := PageAccess.CopyIn(cache.mem, page, PAGE_SIZE - entrySize, value);
      pg := PageAccess.Overwritten(m.pages[page], PAGE_SIZE - entrySize, value[..]);
      cache.MemFrame();
    }

    /** memcpy and `write_unlock`. */
    method FillPage(page: Desc, value: array<byte>)
      returns (ghost pg: Page, ghost m2: Mem, ghost s3: State, ghost u: Unlocking)
      requires Wired() && Outside(value) && value.Length == entrySize
      requires Abs().wlock.Some? && Abs().wlock.value.desc == page && InRange(cache.pagesPerChunk, page)
      modifies cache.Repr()
      ensures cache.index.data == old(cache.index.data)
      ensures Wired() && Filling(old(Abs()), value[..], pg, m2, s3, u, Abs())
    {
      pg, m2 := StoreEntry(page, value);
      s3 := Abs();
      ghost var m3, t1, t2;
      m3, t1, t2 := cache.WriteUnlock(false);
      u := Unlocking(m3, t1, t2);
    }

    /** `write_lock`, after a lookup that failed. */
    method LockMissing(lock: RLock, ghost s: State)
      returns (d: Option<Desc>, ghost m: Mem, ghost choice: Choice, ghost stored: bool)
      requires Wired() && Outside(lock) && Missing(s, lock.View(), Abs())
      modifies cache.Repr(), lock
      ensures cache.index.data == old(cache.index.data) || fresh(cache.index.data)
      ensures Wired() && LazyfreeCache.LazyfreeCache.Locked(old(Abs()), old(lock.View()), d, m, choice, stored, Abs())
      ensures if d.None? then s.ppc == 0
              else InRange(cache.pagesPerChunk, d.value) && Abs().wlock == Some(WLock(d.value, old(lock.key)))
    {
      ghost var s1, l := Abs(), lock.View();
      MissingLockable(s, l, s1);
      NeverFullAtPut(s1, Capacity(cache.index.log2Capacity));
      d, m, choice, stored := cache.WriteLock(lock);
      if d.None? {
        NoFreePageIff(s, l, s1, m, choice);
      }
    }

    /** The end of `ft_cache_get`, once the value is there: lock for write, store, unlock. */
    method GetMissing(lock: RLock, value: array<byte>, ghost s: State) returns (outcome: Outcome, ghost e: Event)
      requires Wired() && Outside(lock) && Outside(value) && value.Length == entrySize && value[..] == refill(lock.key)
      requires Missing(s, lock.View(), Abs())
      modifies cache.Repr(), lock
      ensures cache.index.data == old(cache.index.data) || fresh(cache.index.data)
      ensures outcome.Returned? ==> Wired() && Got(Cfg(), s, old(lock.key), value[..], e, Abs()) && e.Miss?
      ensures !outcome.Returned? ==> outcome.NoFreePage? && s.ppc == 0
    {
      ghost var s1, l := Abs(), lock.View();
      ghost var m1, choice, stored, page, m2, s3, u;
      var d;
      d, m1, choice, stored := LockMissing(lock, s);
      if d.None? {
        return NoFreePage, NotFound(l.key, l);
      }
      ghost var s2 := Abs();
      assert s2.wlock == Some(WLock(d.value, l.key)) && value[..] == refill(l.key);
      page, m2, s3, u := FillPage(d.value, value);
      e := Miss(l.key, value[..], l, s1, m1, choice, stored, s2, page, m2, s3, u.m, u.t1, u.t2);
      MissIsStep(Cfg(), s, e, Abs());
      outcome := Returned;
    }

    /** The branch "Cache miss" of `ft_cache_get`. */
    method GetRefilled(lock: RLock, value: array<byte>, ghost s: State) returns (outcome: Outcome, ghost e: Event)
      requires Wired() && Outside(lock) && Outside(value) && value.Length == entrySize
      requires Missing(s, lock.View(), Abs())
      modifies this`refills, cache.Repr(), lock, value
      ensures cache.index.data == old(cache.index.data) || fresh(cache.index.data)
      ensures refills == old(refills) + [old(lock.key)] && value[..] == refill(old(lock.key))
      ensures outcome.Returned? ==> Wired() && Got(Cfg(), s, old(lock.key), value[..], e, Abs()) && e.Miss?
      ensures !outcome.Returned? ==> outcome.NoFreePage? && s.ppc == 0
    {
      Refill(lock.key, value);
      outcome, e := GetMissing(lock, value, s);
    }

    // ---- The two calls ----

    /**
     `ft_cache_get` of a key other than 0: on return the value is the refill value, refilled
     once on a miss and never on a hit, and a refilled key is found by the next get unless
     the others in the index may crowd it out. The only ways not to return are an eviction of the
     key's page during the call, and a cache without pages.
     */
    method Get(key: Key, value: array<byte>) returns (outcome: Outcome, ghost e: Event)
      requires Valid() && key != 0 && Outside(value) && value.Length == entrySize
      modifies this`refills, cache.Repr(), value
      ensures cache.index.data == old(cache.index.data) || fresh(cache.index.data)
      ensures outcome.Returned? ==>
                Valid() && Got(Cfg(), old(Abs()), key, value[..], e, Abs()) && value[..] == refill(key)
      ensures outcome.Returned? ==> refills == if e.Miss? then old(refills) + [key] else old(refills)
      ensures outcome.Returned? && e.Miss? && Uncrowded(cache.index.hasher, old(Abs()).index.Keys, key) ==>
                Protected(Abs(), key)
      ensures outcome.LockCheckFailed? ==> Wired() && LostDuring(old(Abs()), key, Abs())
      ensures outcome.NoFreePage? ==> old(Abs()).ppc == 0
    {
      var lock := new RLock(key);
      outcome, e := GetLocked(lock, value);
      if outcome.Returned? {
        CallKeepsContent(Cfg(), old(Abs()), e, Abs());
        RefillIndexes(Cfg(), old(Abs()), e, Abs());
      }
    }

    method GetLocked(lock: RLock, value: array<byte>) returns (outcome: Outcome, ghost e: Event)
      requires Wired() && Idle(Abs()) && Outside(lock) && lock.key != 0 && Outside(value) && value.Length == entrySize
      modifies this`refills, cache.Repr(), lock, value
      ensures cache.index.data == old(cache.index.data) || fresh(cache.index.data)
      ensures outcome.Returned? ==> Wired() && Got(Cfg(), old(Abs()), old(lock.key), value[..], e, Abs())
      ensures outcome.Returned? ==> refills == if e.Miss? then old(refills) + [old(lock.key)] else old(refills)
      ensures outcome.LockCheckFailed? ==> Wired() && LostDuring(old(Abs()), old(lock.key), Abs())
      ensures outcome.NoFreePage? ==> old(Abs()).ppc == 0
    {
      ghost var s := Abs();
      var found := Lookup(lock);
      if found {
        outcome, e := GetFound(lock, value, s);
      } else {
        outcome, e := GetRefilled(lock, value, s);
      }
    }

    /**
     `ft_cache_drop` of a key other than 0; the only way not to return is an eviction of the
     key's page during the call.
     */
    method Drop(key: Key) returns (outcome: Outcome, existed: bool, ghost e: Event)
      requires Valid() && key != 0
      modifies cache.Repr()
      ensures cache.index.data == old(cache.index.data)
      ensures outcome.Returned? ==> Valid() && Released(Cfg(), old(Abs()), key, existed, e, Abs())
      ensures !outcome.Returned? ==> outcome.LockCheckFailed? && Wired() && LostDuring(old(Abs()), key, Abs())
    {
      ghost var s := Abs();
      var lock := new RLock(key);
      existed := Lookup(lock);
      if existed {
        outcome, e := DropFound(lock, s);
      } else {
        NotFoundIsStep(Cfg(), s, lock.View(), Abs());
        outcome, e := Returned, NotFound(key, lock.View());
      }
      if outcome.Returned? {
        CallKeepsContent(Cfg(), s, e, Abs());
      }
    }

    method DropFound(lock: RLock, ghost s: State) returns (outcome: Outcome, ghost e: Event)
      requires Wired() && Outside(lock) && Found(s, lock.View(), Abs())
      modifies cache.Repr()
      ensures cache.index.data == old(cache.index.data)
      ensures outcome.Returned? ==> Wired() && Released(Cfg(), s, old(lock.key), true, e, Abs())
      ensures !outcome.Returned? ==> outcome.LockCheckFailed? && Wired() && LostDuring(s, old(lock.key), Abs())
    {
      ghost var s1, l := Abs(), lock.View();
      FoundStays(s, l, s1, s1);
      LockCanRelease(lock);
      var exited;
      ghost var valid;
      exited, valid := Unlock(lock, true);
      e := Dropped(l.key, l, s1, valid);
      if exited {
        FoundStays(s, l, s1, Abs());
        return LockCheckFailed, e;
      }
      DropIsStep(Cfg(), s, e, Abs());
      outcome := Returned;
    }
  }

  lemma LockIsShaped(s: State, key: Key, l: Lock, s': State)
    requires Shaped(s) && ReadLockStep(s, key, l, s')
    ensures LockShaped(s', l) && l.head != Null
  {
  }

  lemma LockThenReclaim(s: State, key: Key, l: Lock, s1: State, s2: State)
    requires Shaped(s) && ReadLockStep(s, key, l, s1) && Reclaims(s1, s2)
    ensures ReadLockStep(s, key, l, s2)
  {
    EvictsTransitive(s.mem, s1.mem, s2.mem);
  }

  lemma PayloadIsRead(p: Page, tail: byte, n: nat)
    requires 0 < n <= PAGE_SIZE
    ensures Read(p, tail, PAGE_SIZE - n, n) == ReadPayload(p, tail, n)
  {
  }

  /** A key that is uncrowded when it is refilled is then indexed and out of the kernel's reach. */
  lemma RefillIndexes(cfg: Config, s: State, e: Event, s': State)
    requires ConfigOk(cfg) && Idle(s) && e.key != 0 && FtStep(cfg, s, e, s')
    ensures Shaped(s') && (e.Miss? && Uncrowded(s.hasher, s.index.Keys, e.key) ==> Protected(s', e.key))
  {
    CallLeavesOthers(cfg, s, e, s');
    if e.Miss? && Uncrowded(s.hasher, s.index.Keys, e.key) {
      UncrowdedIsStored(cfg, s, e, s');
      MissProtects(cfg, s, e, s');
    }
  }

  /** A completed get. */
  ghost predicate Got(cfg: Config, s: State, key: Key, value: seq<byte>, e: Event, s': State) {
    ConfigOk(cfg) && e.IsGet() && e.key == key && e.value == value && FtStep(cfg, s, e, s')
  }

  /** A completed drop. */
  ghost predicate Released(cfg: Config, s: State, key: Key, existed: bool, e: Event, s': State) {
    ConfigOk(cfg) && e.key == key && (if existed then e.Dropped? else e.NotFound?) && FtStep(cfg, s, e, s')
  }

  /** The lock is for the page of its key, intact so far. */
  ghost predicate Found(s: State, l: Lock, s1: State) {
    && Idle(s) && l.key != 0 && ReadLockStep(s, l.key, l, s1) && Shaped(s1)
    && l.head.At? && LockShaped(s1, l) && Tail(SlotPage(s1, l.head.desc)) != 0
  }

  /** The key's page is intact, and the kernel's to reclaim. */
  ghost predicate Losable(s: State, key: Key) {
    && key in s.index && s.index[key] in s.mem.evictable
    && s.index[key] in s.mem.pages && Tail(s.mem.pages[s.index[key]]) != 0
  }

  /** The key's page was intact, and the kernel reclaimed it since. */
  ghost predicate LostDuring(s: State, key: Key, s': State) {
    Losable(s, key) && Reclaims(s, s') && s.index[key] in s'.mem.pages && Tail(s'.mem.pages[s.index[key]]) == 0
  }

  /** A lookup finds the page, and then the kernel reclaims it. */
  ghost predicate LostWhileRead(s: State, l: Lock, s1: State, s2: State) {
    Found(s, l, s1) && Reclaims(s1, s2) && Tail(s2.mem.pages[l.head.desc]) == 0
  }

  /** A get or drop may end the program exactly when the kernel may reclaim the key's page, and has not yet. */
  lemma ExitPossibleIff(s: State, key: Key)
    requires Idle(s) && key != 0
    ensures (exists l: Lock, s1: State, s2: State :: l.key == key && LostWhileRead(s, l, s1, s2)) <==> Losable(s, key)
  {
    forall l: Lock, s1: State, s2: State | l.key == key && LostWhileRead(s, l, s1, s2) ensures Losable(s, key) {
      FoundStays(s, l, s1, s2);
    }
    if Losable(s, key) {
      var d := s.index[key];
      LookupAgrees(s, key);
      var l := LockOn(s, key, d);
      var s2 := AfterEviction(s, d);
      assert Found(s, l, s);
      assert LostWhileRead(s, l, s, s2);
    }
  }

  lemma FoundStays(s: State, l: Lock, s1: State, s2: State)
    requires Found(s, l, s1) && Reclaims(s1, s2)
    ensures Idle(s2) && LockOk(s2, l) && s2.index == s.index && s2.chunks == s.chunks
    ensures if Tail(SlotPage(s2, l.head.desc)) != 0 then Found(s, l, s2) else LostDuring(s, l.key, s2)
  {
    LockThenReclaim(s, l.key, l, s1, s2);
    ReadLockKeeps(s, l.key, l, s2);
  }

  lemma HitIsStep(cfg: Config, s: State, l: Lock, e: Event, valid: bool, s': State)
    requires ConfigOk(cfg) && e.Hit? && e.key == l.key && e.lock == l && Found(s, l, e.s1)
    requires ReadUnlockStep(e.s1, l, false, valid, s')
    requires e.value == ReadPayload(SlotPage(e.s1, l.head.desc), l.tail, cfg.entrySize)
    ensures FtStep(cfg, s, e, s')
  {
    FoundStays(s, l, e.s1, e.s1);
    LookupAgrees(s, l.key);
    NotZeroMeansSame(e.s1.mem, s'.mem, l.head.desc);
  }

  /** The lock is for no page, or for one that was evicted. */
  ghost predicate Missing(s: State, l: Lock, s1: State) {
    && Idle(s) && l.key != 0 && ReadLockStep(s, l.key, l, s1) && Shaped(s1)
    && LockShaped(s1, l) && CheckFails(s1, l)
  }

  lemma MissingLockable(s: State, l: Lock, s1: State)
    requires Missing(s, l, s1)
    ensures LazyfreeCache.LazyfreeCache.Lockable(s1, l) && s1.ppc == s.ppc && Idle(s1)
  {
    ReadLockKeeps(s, l.key, l, s1);
  }

  /** After a failed lookup the allocation fails exactly in a cache without pages. */
  lemma NoFreePageIff(s: State, l: Lock, s1: State, m: Mem, choice: Choice)
    requires Missing(s, l, s1) && Evicts(s1.mem, m)
    requires Shaped(FallbackState(s1, l, m)) && ChoiceOk(FallbackState(s1, l, m), choice)
    ensures AllocNewPage(FallbackState(s1, l, m), choice).1.None? <==> s.ppc == 0
  {
    ReadLockKeeps(s, l.key, l, s1);
    if KeyMatches(s1, l) {
      EvictedPageIsCleared(s1, l, m);
    }
    AllocationFailsIffNoPages(FallbackState(s1, l, m), choice);
  }

  lemma DropIsStep(cfg: Config, s: State, e: Event, s': State)
    requires ConfigOk(cfg) && e.Dropped? && Found(s, e.lock, e.s1) && e.lock.key == e.key
    requires ReadUnlockStep(e.s1, e.lock, true, e.valid, s')
    ensures FtStep(cfg, s, e, s')
  {
  }

  lemma NotFoundIsStep(cfg: Config, s: State, l: Lock, s': State)
    requires ConfigOk(cfg) && Missing(s, l, s')
    ensures FtStep(cfg, s, NotFound(l.key, l), s')
  {
  }

  /** What `write_unlock` met: memory, and the two values read of the last byte. */
  datatype Unlocking = Unlocking(m: Mem, t1: byte, t2: byte)

  ghost predicate Filling(s2: State, value: seq<byte>, page: Page, m2: Mem, s3: State, u: Unlocking, s': State) {
    && Shaped(s2) && UserStoreStep(s2, page, m2, s3) && Shaped(s3)
    && |value| <= PAGE_SIZE && Payload(page, |value|) == value
    && WriteUnlockStep(s3, false, u.m, u.t1, u.t2, s')
  }

  lemma MissLooksUp(s: State, e: Event)
    requires e.Miss? && Missing(s, e.lock, e.s1) && e.lock.key == e.key && Evicts(e.s1.mem, e.m1)
    ensures LookupStep(s, e)
  {
  }

  lemma MissRefills(cfg: Config, e: Event, s': State)
    requires ConfigOk(cfg) && e.Miss? && Shaped(e.s1) && LockShaped(e.s1, e.lock) && e.value == cfg.refill(e.key)
    requires WriteLockStep(e.s1, e.lock, e.m1, e.choice, e.stored, e.s2)
    requires Filling(e.s2, e.value, e.page, e.m2, e.s3, Unlocking(e.m3, e.t1, e.t2), s')
    ensures RefillStep(cfg, e, s')
  {
  }

  lemma MissIsStep(cfg: Config, s: State, e: Event, s': State)
    requires ConfigOk(cfg) && e.Miss? && Missing(s, e.lock, e.s1) && e.lock.key == e.key && e.value == cfg.refill(e.key)
    requires e.s2.wlock.Some?
    requires LazyfreeCache.LazyfreeCache.Locked(
               e.s1, e.lock, Some(e.s2.wlock.value.desc), e.m1, e.choice, e.stored, e.s2)
    requires Filling(e.s2, e.value, e.page, e.m2, e.s3, Unlocking(e.m3, e.t1, e.t2), s')
    ensures Got(cfg, s, e.key, e.value, e, s')
  {
    MissLooksUp(s, e);
    MissRefills(cfg, e, s');
  }
}
