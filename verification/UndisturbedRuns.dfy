/** Runs of the lock protocol in which the kernel acts only when asked to: what they lead to, computed. */
module UndisturbedRuns {
  import opened Words
  import opened Options
  import opened ProbeTable
  import opened CacheState
  import opened CacheSteps
  import opened CacheInvariant
  import opened CacheSafety
  import opened ProtocolRuns
  import opened Publication

  ghost predicate Quiet(s: State) { Inv(s) && s.wlock.None? && s.ppc > 0 }

  /** Slot x is used by the same key, with the same bytes. */
  ghost predicate SlotKept(s: State, t: State, x: Desc)
    requires Shaped(s) && Shaped(t) && t.ppc == s.ppc && Live(s, x)
  {
    Live(t, x) && SlotKey(t, x) == SlotKey(s, x) && SlotBit(t, x) == SlotBit(s, x) && SlotPage(t, x) == SlotPage(s, x)
  }

  /** The use of the chunks is as in u. */
  ghost predicate SameCounts(u: State, t: State)
    requires Shaped(u) && Shaped(t)
  {
    && t.current == u.current && t.totalFree == u.totalFree
    && forall c :: 0 <= c < NUMBER_OF_CHUNKS ==>
         && t.chunks[c].len == u.chunks[c].len && t.chunks[c].free == u.chunks[c].free
         && t.chunks[c].kind == u.chunks[c].kind
  }

  // ---- Allocating a page, and publishing it ----

  /** An allocation for the key took slot d. */
  ghost predicate Allocated(s: State, key: Key, choice: Choice, d: Desc, t: State)
    requires Shaped(s) && ChoiceOk(s, choice)
  {
    && Inv(t) && t.ppc == s.ppc && t.hasher == s.hasher && t.wlock == Some(WLock(d, key))
    && Live(t, d) && SlotKey(t, d) == key
    && AllocCurrent(AllocSite(s, choice)).1 == Some(d) && SameCounts(AllocCurrent(AllocSite(s, choice)).0, t)
    && t.index == MakeRoom(s, choice).index[key := d]
    && t.mem.pages == MakeRoom(s, choice).mem.pages && t.mem.evictable == AllocSite(s, choice).mem.evictable
    && forall x :: Live(s, x) && (s.totalFree != 0 || x.chunk != choice.victim) ==> x != d && SlotKept(s, t, x)
  }

  lemma TakenCounts(s: State, key: Key, stored: bool)
    requires Shaped(s) && AllocCurrent(s).1.Some?
    ensures SameCounts(AllocCurrent(s).0, Taken(s, key, stored))
  {
  }

  lemma AllocationTakes(s: State, key: Key, choice: Choice)
    requires Quiet(s) && key != 0 && ChoiceOk(s, choice)
    ensures WriteAlloc(s, key, choice, true).1.Some?
    ensures Allocated(s, key, choice, WriteAlloc(s, key, choice, true).1.value, WriteAlloc(s, key, choice, true).0)
  {
    var site := AllocSite(s, choice);
    AllocationFailsIffNoPages(s, choice);
    WriteAllocTakes(s, key, choice, true);
    WriteAllocKeeps(s, key, choice, true);
    WalkStopsAtEnd(MakeRoom(s, choice), |s.chunks|);
    TakenFrame(site, key, true);
    TakenSlots(site, key, true);
    TakenCounts(site, key, true);
    AllocationKeepsSlots(s, key, choice);
  }

  lemma AllocationKeepsSlots(s: State, key: Key, choice: Choice)
    requires Quiet(s) && key != 0 && ChoiceOk(s, choice) && WriteAlloc(s, key, choice, true).1.Some?
    ensures var t, d := WriteAlloc(s, key, choice, true).0, WriteAlloc(s, key, choice, true).1.value;
            && Inv(t) && t.ppc == s.ppc
            && t.mem.pages == MakeRoom(s, choice).mem.pages && t.mem.evictable == AllocSite(s, choice).mem.evictable
            && forall x :: Live(s, x) && (s.totalFree != 0 || x.chunk != choice.victim) ==> x != d && SlotKept(s, t, x)
  {
    var t, d := WriteAlloc(s, key, choice, true).0, WriteAlloc(s, key, choice, true).1.value;
    var site := AllocSite(s, choice);
    WriteAllocTakes(s, key, choice, true);
    WriteAllocKeeps(s, key, choice, true);
    TakenSlots(site, key, true);
    WriteAllocMemory(s, key, choice, true);
    WalkMemory(MakeRoom(s, choice), |s.chunks|);
    forall x | Live(s, x) && (s.totalFree != 0 || x.chunk != choice.victim) ensures x != d && SlotKept(s, t, x) {
      SlotOutlivesAlloc(s, choice, x);
      assert SlotSame(site, t, x);
    }
  }

  lemma SlotOutlivesAlloc(s: State, choice: Choice, x: Desc)
    requires Quiet(s) && ChoiceOk(s, choice) && Live(s, x) && (s.totalFree != 0 || x.chunk != choice.victim)
    ensures var site := AllocSite(s, choice);
            Live(site, x) && SlotKey(site, x) == SlotKey(s, x) && SlotBit(site, x) == SlotBit(s, x)
  {
    WalkStopsAtEnd(MakeRoom(s, choice), |s.chunks|);
    if s.totalFree == 0 {
      DropChunkChunks(s, choice);
      assert SlotSame(s, MakeRoom(s, choice), x);
    }
  }

  /** The holder of the write lock stores a page. */
  ghost function Stored(s: State, pg: Page): State
    requires s.wlock.Some?
  {
    s.(mem := StorePage(s.mem, s.wlock.value.desc, pg))
  }

  /** The holder stores a page and publishes it. */
  ghost function AfterPublish(s: State, pg: Page): (t: State)
    requires Inv(s) && s.wlock.Some?
    ensures Shaped(t) && t.ppc == s.ppc
  {
    Publish(Stored(s, pg), s.wlock.value.desc, Tail(pg), Tail(pg))
  }

  /** Slot d holds a page that reads as pg, and is not reclaimable. */
  ghost predicate Holds(t: State, d: Desc, key: Key, pg: Page)
    requires Shaped(t)
  {
    && Live(t, d) && SlotKey(t, d) == key && Odd(Tail(SlotPage(t, d))) && d !in t.mem.evictable
    && Decoded(SlotPage(t, d), SlotBit(t, d)) == pg
  }

  lemma PublishHappens(s: State, pg: Page)
    requires Inv(s) && s.wlock.Some?
    ensures var s3, t, tail := Stored(s, pg), AfterPublish(s, pg), Tail(pg);
            && UserStoreStep(s, pg, s.mem, s3) && Shaped(s3)
            && WriteUnlockStep(s3, false, s3.mem, tail, tail, t)
            && Inv(s3) && Inv(t) && t.wlock.None? && Holds(t, s.wlock.value.desc, s.wlock.value.key, pg)
  {
    var s3 := Stored(s, pg);
    StoreKeeps(s, s.wlock.value.desc, pg, s.mem);
    PublishStores(s3, s3.mem, Tail(pg), Tail(pg), AfterPublish(s, pg));
  }

  lemma PublishKeepsCounts(s: State, pg: Page)
    requires Inv(s) && s.wlock.Some?
    ensures SameCounts(s, AfterPublish(s, pg))
  {
  }

  lemma PublishKeepsPages(s: State, pg: Page)
    requires Inv(s) && s.wlock.Some?
    ensures var t, d := AfterPublish(s, pg), s.wlock.value.desc;
            d in t.mem.pages && t.mem.pages == s.mem.pages[d := t.mem.pages[d]]
  {
  }

  lemma PublishKeepsSlots(s: State, pg: Page)
    requires Inv(s) && s.wlock.Some?
    ensures var t, d := AfterPublish(s, pg), s.wlock.value.desc;
            && t.hasher == s.hasher && t.index == s.index && t.mem.evictable == s.mem.evictable - {d}
            && forall x :: Live(s, x) && x != d ==> SlotKept(s, t, x)
  {
    var s3, d := Stored(s, pg), s.wlock.value.desc;
    StoreKeeps(s, d, pg, s.mem);
    PublishChunks(s3, d, Tail(pg), Tail(pg));
    forall x | Live(s, x) && x != d ensures SlotKept(s, AfterPublish(s, pg), x) {
      assert Live(s3, x) && SlotKey(s3, x) == SlotKey(s, x) && SlotBit(s3, x) == SlotBit(s, x);
    }
  }

  // ---- Runs ----

  datatype Run = Run(states: seq<State>, ops: seq<ApiOp>) {
    ghost predicate Valid() { ApiRun(states, ops) }

    function Last(): State
      requires |states| == |ops| + 1
    {
      states[|ops|]
    }
  }

  /** Run t goes on from run r, with operations that work for other keys than k. */
  ghost predicate GoesOnWithout(r: Run, t: Run, k: Key) {
    && r.Valid() && t.Valid() && r.ops <= t.ops && r.states <= t.states
    && forall j :: |r.ops| <= j < |t.ops| ==> OpKey(t.states[j], t.ops[j]) != k
  }

  lemma GoesOnTransitive(r: Run, t: Run, u: Run, k: Key)
    requires GoesOnWithout(r, t, k) && GoesOnWithout(t, u, k)
    ensures GoesOnWithout(r, u, k)
  {
    forall j | |r.ops| <= j < |u.ops| ensures OpKey(u.states[j], u.ops[j]) != k {
      assert j < |t.ops| ==> u.ops[j] == t.ops[j] && u.states[j] == t.states[j];
    }
  }

  function Then(r: Run, op: ApiOp, s: State): Run { Run(r.states + [s], r.ops + [op]) }

  lemma OneMore(r: Run, op: ApiOp, s: State, k: Key)
    requires r.Valid() && ApiStep(r.Last(), op, s) && OpKey(r.Last(), op) != k
    ensures GoesOnWithout(r, Then(r, op, s), k) && Then(r, op, s).Last() == s
  {
    var t := Then(r, op, s);
    forall i | 0 <= i < |t.ops| ensures ApiStepAt(t.states, t.ops, i) {
      assert i < |r.ops| ==> ApiStepAt(r.states, r.ops, i);
    }
  }

  /** A page was allocated for the key, filled with pg and published, in slot d. */
  ghost predicate Rounded(s: State, key: Key, choice: Choice, d: Desc, pg: Page, t: State)
    requires Shaped(s) && ChoiceOk(s, choice)
  {
    && Quiet(t) && t.ppc == s.ppc && t.hasher == s.hasher && Holds(t, d, key, pg)
    && AllocCurrent(AllocSite(s, choice)).1 == Some(d) && SameCounts(AllocCurrent(AllocSite(s, choice)).0, t)
    && t.index == MakeRoom(s, choice).index[key := d]
    && d in t.mem.pages && t.mem.pages == MakeRoom(s, choice).mem.pages[d := t.mem.pages[d]]
    && t.mem.evictable == AllocSite(s, choice).mem.evictable - {d}
    && forall x :: Live(s, x) && (s.totalFree != 0 || x.chunk != choice.victim) ==> SlotKept(s, t, x)
  }

  /** The lock leads to no page. */
  ghost predicate Headless(l: Lock) { l.key != 0 && (l.head == Null || l.head == EmptyPage) }

  lemma RoundIsRounded(s: State, key: Key, choice: Choice, d: Desc, s2: State, pg: Page)
    requires Quiet(s) && ChoiceOk(s, choice) && Allocated(s, key, choice, d, s2)
    ensures Rounded(s, key, choice, d, pg, AfterPublish(s2, pg))
  {
    var t := AfterPublish(s2, pg);
    PublishHappens(s2, pg);
    PublishKeepsCounts(s2, pg);
    PublishKeepsPages(s2, pg);
    PublishKeepsSlots(s2, pg);
    forall x | Live(s, x) && (s.totalFree != 0 || x.chunk != choice.victim) ensures SlotKept(s, t, x) {
      assert SlotKept(s, s2, x) && SlotKept(s2, t, x);
    }
  }

  lemma LockHappens(s: State, l: Lock, choice: Choice)
    requires Quiet(s) && Headless(l) && ChoiceOk(s, choice)
    requires InsertionOutcome(s.hasher, KeysAtPut(s, choice), l.key, true)
    ensures var s2 := WriteAlloc(s, l.key, choice, true).0;
            && ApiStep(s, WriteLock(l, s.mem, choice, true), s2)
            && s2.wlock.Some? && Allocated(s, l.key, choice, s2.wlock.value.desc, s2)
  {
    AllocationTakes(s, l.key, choice);
    assert Evicts(s.mem, s.mem) && s.(mem := s.mem) == s && !KeyMatches(s, l) && LockShaped(s, l);
  }

  /** The holder of the write lock fills its page and publishes it. */
  lemma PublishRun(r: Run, pg: Page, k: Key) returns (t: Run)
    requires r.Valid() && Inv(r.Last()) && r.Last().wlock.Some? && r.Last().wlock.value.key != k
    ensures GoesOnWithout(r, t, k) && t.Last() == AfterPublish(r.Last(), pg)
    ensures t.ops == r.ops + [UserStore(pg, r.Last().mem),
                              WriteUnlock(false, Stored(r.Last(), pg).mem, Tail(pg), Tail(pg))]
  {
    var s, tail := r.Last(), Tail(pg);
    var s3, s4 := Stored(s, pg), AfterPublish(s, pg);
    var store, unlock := UserStore(pg, s.mem), WriteUnlock(false, s3.mem, tail, tail);
    PublishHappens(s, pg);
    assert ApiStep(s, store, s3) && ApiStep(s3, unlock, s4);
    var t1 := Then(r, store, s3);
    OneMore(r, store, s3, k);
    t := Then(t1, unlock, s4);
    OneMore(t1, unlock, s4, k);
    GoesOnTransitive(r, t1, t, k);
  }

  /** Lock for write, fill and publish a page, when the index has room for the key. */
  lemma Round(r: Run, l: Lock, choice: Choice, pg: Page, k: Key) returns (t: Run, d: Desc)
    requires r.Valid() && Quiet(r.Last()) && Headless(l) && l.key != k && ChoiceOk(r.Last(), choice)
    requires InsertionOutcome(r.Last().hasher, KeysAtPut(r.Last(), choice), l.key, true)
    ensures GoesOnWithout(r, t, k) && |t.ops| == |r.ops| + 3 && Rounded(r.Last(), l.key, choice, d, pg, t.Last())
  {
    var s := r.Last();
    var op, s2 := WriteLock(l, s.mem, choice, true), WriteAlloc(s, l.key, choice, true).0;
    LockHappens(s, l, choice);
    var t1 := Then(r, op, s2);
    OneMore(r, op, s2, k);
    d := s2.wlock.value.desc;
    RoundIsRounded(s, l.key, choice, d, s2, pg);
    t := PublishRun(t1, pg, k);
    GoesOnTransitive(r, t1, t, k);
  }

  // ---- Filling the cache ----

  /** A lock that was never taken. */
  function FreshLock(key: Key): Lock { Lock(key, Null, 0, None, 0) }

  /** Every slot in use still is, by the same key and with the same bytes. */
  ghost predicate AllKept(s: State, t: State)
    requires Shaped(s) && Shaped(t)
  {
    t.ppc == s.ppc && t.hasher == s.hasher && forall x :: Live(s, x) ==> SlotKept(s, t, x)
  }

  lemma AllKeptTransitive(s: State, t: State, u: State)
    requires Shaped(s) && Shaped(t) && Shaped(u) && AllKept(s, t) && AllKept(t, u)
    ensures AllKept(s, u)
  {
    forall x | Live(s, x) ensures SlotKept(s, u, x) {
      assert SlotKept(s, t, x) && SlotKept(t, u, x);
    }
  }

  /** An index of two keys has room for either. */
  lemma TwoKeysFit(s: State, choice: Choice, k: Key, q: Key)
    requires Shaped(s) && ChoiceOk(s, choice) && s.index.Keys <= {k, q}
    ensures InsertionOutcome(s.hasher, KeysAtPut(s, choice), q, true)
  {
    var keys := KeysAtPut(s, choice);
    assert keys + {q} <= {k, q};
    SubsetSize(keys + {q}, {k, q});
    FewKeysSpread(s.hasher, keys, q);
  }

  ghost predicate TwoKeys(s: State, k: Key, q: Key) {
    Quiet(s) && q != 0 && q != k && s.index.Keys <= {k, q}
  }

  /** Nothing of key k changed. */
  ghost predicate KeyKept(s: State, t: State, k: Key)
    requires Shaped(s) && Shaped(t)
  {
    AllKept(s, t) && (k in s.index ==> k in t.index && t.index[k] == s.index[k])
  }

  lemma TakesOne(s: State)
    requires Shaped(s) && AllocCurrent(s).1.Some?
    ensures AllocCurrent(s).0.totalFree == s.totalFree - 1
  {
  }

  lemma SiteWithoutDrop(s: State, choice: Choice)
    requires Shaped(s) && ChoiceOk(s, choice) && s.totalFree != 0
    ensures var site := AllocSite(s, choice); site == s.(mem := site.mem, current := site.current)
  {
    WalkStopsAtEnd(s, |s.chunks|);
  }

  lemma CountsDown(s: State, q: Key, choice: Choice, d: Desc, pg: Page, t: State)
    requires Quiet(s) && ChoiceOk(s, choice) && s.totalFree != 0 && Rounded(s, q, choice, d, pg, t)
    ensures t.totalFree == s.totalFree - 1 && AllKept(s, t) && t.index == s.index[q := d]
  {
    SiteWithoutDrop(s, choice);
    TakesOne(AllocSite(s, choice));
  }

  lemma FillsOne(s: State, q: Key, choice: Choice, d: Desc, pg: Page, t: State, k: Key)
    requires TwoKeys(s, k, q) && ChoiceOk(s, choice) && s.totalFree != 0 && Rounded(s, q, choice, d, pg, t)
    ensures TwoKeys(t, k, q) && KeyKept(s, t, k) && t.totalFree == s.totalFree - 1
  {
    CountsDown(s, q, choice, d, pg, t);
  }

  lemma FillOne(r: Run, q: Key, choice: Choice, pg: Page, k: Key) returns (t: Run, d: Desc)
    requires r.Valid() && TwoKeys(r.Last(), k, q) && r.Last().totalFree != 0 && ChoiceOk(r.Last(), choice)
    ensures GoesOnWithout(r, t, k) && TwoKeys(t.Last(), k, q) && KeyKept(r.Last(), t.Last(), k)
    ensures Rounded(r.Last(), q, choice, d, pg, t.Last()) && t.Last().totalFree == r.Last().totalFree - 1
  {
    TwoKeysFit(r.Last(), choice, k, q);
    t, d := Round(r, FreshLock(q), choice, pg, k);
    FillsOne(r.Last(), q, choice, d, pg, t.Last(), k);
  }

  /** Key q is given one page after another, until none is free; key k's slots are left alone. */
  lemma {:induction false} FillUp(r: Run, q: Key, pg: Page, k: Key) returns (t: Run)
    requires r.Valid() && TwoKeys(r.Last(), k, q)
    ensures GoesOnWithout(r, t, k) && TwoKeys(t.Last(), k, q) && KeyKept(r.Last(), t.Last(), k)
    ensures t.Last().totalFree == 0
    decreases r.Last().totalFree
  {
    var s := r.Last();
    SpaceBounds(s);
    t := r;
    if s.totalFree != 0 {
      var u, d := FillOne(r, q, DropOf(0, s.ppc), pg, k);
      SpaceBounds(u.Last());
      t := FillUp(u, q, pg, k);
      GoesOnTransitive(r, u, t, k);
      AllKeptTransitive(s, u.Last(), t.Last());
    }
  }

  // ---- From a new cache ----

  /** The state found by the first allocation for a chunk that was dropped, or in a new cache. */
  lemma FirstPageOf(s: State, choice: Choice)
    requires Shaped(s) && ChoiceOk(s, choice) && s.ppc > 0
    requires var r := MakeRoom(s, choice); r.chunks[r.current].free == [] && r.chunks[r.current].len == 0
    ensures AllocSite(s, choice) == MakeRoom(s, choice)
    ensures AllocCurrent(AllocSite(s, choice)).1 == Some(Desc(MakeRoom(s, choice).current, 0))
  {
  }

  lemma NewIsQuiet(s: State)
    requires Initial(s) && s.ppc > 0
    ensures Quiet(s) && Run([s], []).Valid() && s.totalFree > 0
  {
    InitialInv(s);
  }

  /** Key k's first page, filled with pg and published. */
  lemma FirstRound(s: State, k: Key, pg: Page) returns (t: Run)
    requires Initial(s) && s.ppc > 0 && k != 0
    ensures t.Valid() && t.states[0] == s && Rounded(s, k, DropOf(0, s.ppc), Desc(0, 0), pg, t.Last())
    ensures t.Last().index == map[k := Desc(0, 0)]
  {
    NewIsQuiet(s);
    var r, choice := Run([s], []), DropOf(0, s.ppc);
    TwoKeysFit(s, choice, k, k);
    FirstPageOf(s, choice);
    var d;
    t, d := Round(r, FreshLock(k), choice, pg, 0);
  }

  lemma ReadLockHappens(r: Run, k: Key, d: Desc) returns (t: Run)
    requires r.Valid() && Quiet(r.Last()) && k != 0 && k in r.Last().index && r.Last().index[k] == d
    requires Live(r.Last(), d) && SlotKey(r.Last(), d) == k && Tail(SlotPage(r.Last(), d)) != 0
    ensures GoesOnWithout(r, t, 0) && t.Last() == r.Last() && |t.ops| == |r.ops| + 1
    ensures t.ops[|r.ops|] == ReadLock(k, LockOn(r.Last(), k, d)) && LockOk(t.Last(), LockOn(r.Last(), k, d))
  {
    var s := r.Last();
    var op := ReadLock(k, LockOn(s, k, d));
    assert ApiStep(s, op, s);
    OneMore(r, op, s, 0);
    t := Then(r, op, s);
  }
}
