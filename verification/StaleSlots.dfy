/**
 How a key comes to own two slots, one of them stale, and what follows: a page that is
 write-locked and published while its key is not in the index.
 */
module StaleSlots {
  import opened Options
  import opened ProbeTable
  import opened CacheState
  import opened CacheSteps
  import opened CacheInvariant
  import opened CacheSafety
  import opened Publication
  import opened UndisturbedRuns

  ghost predicate Owns(s: State, k: Key, d: Desc)
    requires Shaped(s)
  {
    Live(s, d) && SlotKey(s, d) == k
  }

  // ---- Leaving chunk 0 behind ----

  lemma CurrentHasSpaceIff(s: State)
    requires Quiet(s)
    ensures AllocCurrent(s).1.Some? <==> Space(s.ppc, s.chunks[s.current]) > 0
  {
    FreeFits(s.ppc, s.chunks[s.current]);
  }

  /** Chunk 0 is current, and the other chunks have the rest of the free pages. */
  ghost predicate InChunk0(s: State, k: Key, q: Key) {
    && TwoKeys(s, k, q) && s.current == 0 && s.chunks[0].kind == LazyFree
    && s.totalFree == Space(s.ppc, s.chunks[0]) + (NUMBER_OF_CHUNKS - 1) * s.ppc
    && k in s.index && s.index[k] == FIRST && Owns(s, k, FIRST)
  }

  lemma TakesSpace(s: State)
    requires Shaped(s) && AllocCurrent(s).1.Some?
    ensures var c, a := s.current, AllocCurrent(s).0;
            && a.current == c && a.chunks[c].kind == s.chunks[c].kind && a.totalFree == s.totalFree - 1
            && Space(s.ppc, a.chunks[c]) == Space(s.ppc, s.chunks[c]) - 1
  {
  }

  lemma StaysInChunk0(s: State, q: Key, choice: Choice, d: Desc, pg: Page, t: State, k: Key)
    requires InChunk0(s, k, q) && AllocCurrent(s).1.Some? && ChoiceOk(s, choice) && s.totalFree != 0
    requires Rounded(s, q, choice, d, pg, t) && TwoKeys(t, k, q) && KeyKept(s, t, k)
    ensures InChunk0(t, k, q) && Space(t.ppc, t.chunks[0]) == Space(s.ppc, s.chunks[0]) - 1
  {
    assert AllocSite(s, choice) == s;
    TakesSpace(s);
    assert SlotKept(s, t, FIRST);
  }

  lemma {:induction false} FillChunk0(r: Run, q: Key, pg: Page, k: Key) returns (t: Run)
    requires r.Valid() && InChunk0(r.Last(), k, q)
    ensures GoesOnWithout(r, t, k) && InChunk0(t.Last(), k, q) && Space(t.Last().ppc, t.Last().chunks[0]) == 0
    ensures t.Last().ppc == r.Last().ppc
    decreases r.Last().totalFree
  {
    var s := r.Last();
    SpaceBounds(s);
    CurrentHasSpaceIff(s);
    t := r;
    if AllocCurrent(s).1.Some? {
      var u, d := FillOne(r, q, DropOf(0, s.ppc), pg, k);
      StaysInChunk0(s, q, DropOf(0, s.ppc), d, pg, u.Last(), k);
      SpaceBounds(u.Last());
      t := FillChunk0(u, q, pg, k);
      GoesOnTransitive(r, u, t, k);
    }
  }

  /** Chunk 0 is full, and key k's page in it may be reclaimed. */
  ghost predicate LeftBehind(s: State, k: Key, q: Key) {
    && TwoKeys(s, k, q) && s.totalFree > 1 && Space(s.ppc, s.chunks[0]) == 0
    && k in s.index && s.index[k] == FIRST && Owns(s, k, FIRST) && FIRST in s.mem.evictable
  }

  /** An allocation without a drop takes its page where there is space. */
  lemma TakesWhereSpaceIs(s: State, q: Key, choice: Choice, d: Desc, pg: Page, t: State)
    requires Quiet(s) && ChoiceOk(s, choice) && s.totalFree != 0 && Rounded(s, q, choice, d, pg, t)
    requires Space(s.ppc, s.chunks[0]) == 0
    ensures d.chunk != 0 && Space(t.ppc, t.chunks[0]) == 0
  {
    var site := AllocSite(s, choice);
    SiteWithoutDrop(s, choice);
    FreeFits(s.ppc, s.chunks[0]);
  }

  lemma LeavesChunk0(s: State, q: Key, choice: Choice, d: Desc, pg: Page, t: State, k: Key)
    requires InChunk0(s, k, q) && Space(s.ppc, s.chunks[0]) == 0 && ChoiceOk(s, choice) && s.totalFree > 2
    requires Rounded(s, q, choice, d, pg, t) && TwoKeys(t, k, q) && KeyKept(s, t, k) && t.totalFree == s.totalFree - 1
    ensures LeftBehind(t, k, q)
  {
    CurrentHasSpaceIff(s);
    TakesWhereSpaceIs(s, q, choice, d, pg, t);
    WalkMemory(s, |s.chunks|);
    assert FIRST.chunk in PassedBy(s, |s.chunks|);
    assert SlotKept(s, t, FIRST);
  }

  lemma FirstRoundIsInChunk0(s0: State, k: Key, q: Key, pk: Page, t: State)
    requires Initial(s0) && s0.ppc > 0 && s0.chunks[0].kind == LazyFree && k != 0 && q != 0 && q != k
    requires Rounded(s0, k, DropOf(0, s0.ppc), FIRST, pk, t) && t.index == map[k := FIRST]
    ensures InChunk0(t, k, q)
  {
    NewIsQuiet(s0);
    FirstPageOf(s0, DropOf(0, s0.ppc));
  }

  lemma LeaveChunk0(s0: State, k: Key, q: Key, pk: Page, pq: Page) returns (t: Run)
    requires Initial(s0) && s0.ppc > 0 && s0.chunks[0].kind == LazyFree && k != 0 && q != 0 && q != k
    ensures t.Valid() && t.states[0] == s0 && LeftBehind(t.Last(), k, q) && t.Last().ppc == s0.ppc
  {
    var r := FirstRound(s0, k, pk);
    FirstRoundIsInChunk0(s0, k, q, pk, r.Last());
    var full := FillChunk0(r, q, pq, k);
    var choice, d := DropOf(0, s0.ppc), FIRST;
    t, d := FillOne(full, q, choice, pq, k);
    LeavesChunk0(full.Last(), q, choice, d, pq, t.Last(), k);
  }

  // ---- The kernel evicts the page, and the key is refilled ----

  /** Key k has a new slot d, which holds pk, and still owns its first one. */
  ghost predicate Stale(s: State, k: Key, q: Key, d: Desc, pk: Page) {
    && TwoKeys(s, k, q) && k in s.index && s.index[k] == d && d.chunk != 0
    && Owns(s, k, d) && Odd(Tail(SlotPage(s, d))) && Decoded(SlotPage(s, d), SlotBit(s, d)) == pk && Owns(s, k, FIRST)
  }

  lemma EvictionHappens(s: State, k: Key, q: Key)
    requires LeftBehind(s, k, q)
    ensures var t := AfterEviction(s, FIRST);
            && ApiStep(s, Kernel, t) && LeftBehind(t, k, q) && SlotPage(t, FIRST) == ZERO_PAGE
  {
    ReclaimKeeps(s, AfterEviction(s, FIRST), 0);
  }

  /** A lookup of the key finds the page evicted. */
  lemma LookupFails(s: State, k: Key, q: Key)
    requires LeftBehind(s, k, q) && SlotPage(s, FIRST) == ZERO_PAGE && k != 0
    ensures ApiStep(s, ReadLock(k, Lock(k, EmptyPage, 0, Some(0), 0)), s)
  {
  }

  lemma RefillGoesStale(s: State, k: Key, q: Key, choice: Choice, d: Desc, pk: Page, t: State)
    requires LeftBehind(s, k, q) && ChoiceOk(s, choice) && Rounded(s, k, choice, d, pk, t)
    ensures Stale(t, k, q, d, pk)
  {
    TakesWhereSpaceIs(s, k, choice, d, pk, t);
    CountsDown(s, k, choice, d, pk, t);
    assert SlotKept(s, t, FIRST);
  }

  /**
   From every new cache whose first chunk is lazyfree: k is stored, q fills the rest of the
   chunk, the chunk is left to the kernel, which evicts k's page, and a refill of k finds it
   gone. Then the evicted slot is still k's, but the index leads k to another one.
   */
  lemma RefillLeavesStaleSlot(s0: State, k: Key, q: Key, pk: Page, pq: Page) returns (t: Run, d: Desc)
    requires Initial(s0) && s0.ppc > 0 && s0.chunks[0].kind == LazyFree && k != 0 && q != 0 && q != k
    ensures t.Valid() && t.states[0] == s0 && Stale(t.Last(), k, q, d, pk) && t.Last().ppc == s0.ppc
  {
    var left := LeaveChunk0(s0, k, q, pk, pq);
    var s, l := AfterEviction(left.Last(), FIRST), Lock(k, EmptyPage, 0, Some(0), 0);
    var choice := DropOf(0, s0.ppc);
    EvictionHappens(left.Last(), k, q);
    OneMore(left, Kernel, s, k);
    var lost := Then(left, Kernel, s);
    LookupFails(s, k, q);
    OneMore(lost, ReadLock(k, l), s, 0);
    TwoKeysFit(s, choice, q, k);
    t, d := Round(Then(lost, ReadLock(k, l), s), l, choice, pk, 0);
    RefillGoesStale(s, k, q, choice, d, pk, t.Last());
  }

  // ---- The stale slot's chunk is dropped, and a lock is upgraded ----

  lemma StaysStale(s: State, t: State, k: Key, q: Key, d: Desc, pk: Page)
    requires Stale(s, k, q, d, pk) && TwoKeys(t, k, q) && KeyKept(s, t, k)
    ensures Stale(t, k, q, d, pk)
  {
    assert SlotKept(s, t, d) && SlotKept(s, t, FIRST);
  }

  /** The slot is k's and intact, but the index does not know k. */
  ghost predicate Unmapped(s: State, k: Key, d: Desc) {
    Quiet(s) && k !in s.index && Owns(s, k, d) && Tail(SlotPage(s, d)) != 0
  }

  lemma DropUnmaps(s: State, k: Key, q: Key, d: Desc, pk: Page, e: Desc, pq: Page, t: State)
    requires Stale(s, k, q, d, pk) && s.totalFree == 0 && Rounded(s, q, DropOf(0, s.ppc), e, pq, t)
    ensures Unmapped(t, k, d)
  {
    assert s.chunks[0].keys[0] == k;
    assert SlotKept(s, t, d);
  }

  lemma UpgradeHappens(s: State, k: Key, d: Desc, l: Lock)
    requires Unmapped(s, k, d) && LockOk(s, l) && l.key == k && l.head == At(d) && IndexFits(l)
    ensures var t := Upgrade(s, d, k);
            && ApiStep(s, WriteLock(l, s.mem, DropOf(0, s.ppc), false), t)
            && Inv(t) && t.wlock == Some(WLock(d, k)) && t.index == s.index
  {
    assert s.(mem := s.mem) == s;
    UpgradeStateKeeps(s, d);
  }

  /** The run ends with a write lock through l, a store of pn, and a publication. */
  ghost predicate EndsWithPublish(t: Run, l: Lock, pn: Page) {
    var n := |t.ops|;
    && n >= 3 && t.ops[n - 3].WriteLock? && t.ops[n - 3].lock == l
    && t.ops[n - 2].UserStore? && t.ops[n - 2].page == pn
    && t.ops[n - 1].WriteUnlock? && !t.ops[n - 1].drop
  }

  /**
   From every such cache of at most 65536 pages a chunk: with key k's slot stale as above, q
   fills the cache, k is locked for read, and a page for q drops the stale slot's chunk, and
   k from the index. The lock still can be upgraded: k's page is write-locked, filled with
   pn and published, while k is not in the index.
   */
  lemma PublishedUnindexed(s0: State, k: Key, q: Key, pk: Page, pq: Page, pn: Page) returns (t: Run, d: Desc, l: Lock)
    requires Initial(s0) && 0 < s0.ppc <= INDEX_MODULUS && s0.chunks[0].kind == LazyFree
    requires k != 0 && q != 0 && q != k
    ensures t.Valid() && t.states[0] == s0 && l.key == k && l.head == At(d) && EndsWithPublish(t, l, pn)
    ensures k !in t.Last().index && Quiet(t.Last()) && Holds(t.Last(), d, k, pn)
  {
    var stale;
    stale, d, l := LockedStale(s0, k, q, pk, pq);
    var s, choice, e := stale.Last(), DropOf(0, s0.ppc), d;
    TwoKeysFit(s, choice, k, q);
    var dropped;
    dropped, e := Round(stale, FreshLock(q), choice, pq, 0);
    DropUnmaps(s, k, q, d, pk, e, pq, dropped.Last());
    t := UpgradeAndPublish(dropped, k, d, l, pn);
  }

  /** The cache is full, slot d of k is read-locked, and k has a stale slot too. */
  lemma LockedStale(s0: State, k: Key, q: Key, pk: Page, pq: Page) returns (t: Run, d: Desc, l: Lock)
    requires Initial(s0) && 0 < s0.ppc <= INDEX_MODULUS && s0.chunks[0].kind == LazyFree
    requires k != 0 && q != 0 && q != k
    ensures t.Valid() && t.states[0] == s0 && t.Last().ppc == s0.ppc && t.Last().totalFree == 0
    ensures Stale(t.Last(), k, q, d, pk) && l.key == k && l.head == At(d) && IndexFits(l) && LockOk(t.Last(), l)
  {
    var stale;
    stale, d := RefillLeavesStaleSlot(s0, k, q, pk, pq);
    var full := FillUp(stale, q, pq, k);
    StaysStale(stale.Last(), full.Last(), k, q, d, pk);
    t := ReadLockHappens(full, k, d);
    l := LockOn(full.Last(), k, d);
  }

  lemma UpgradeAndPublish(r: Run, k: Key, d: Desc, l: Lock, pn: Page) returns (t: Run)
    requires r.Valid() && Unmapped(r.Last(), k, d) && k != 0
    requires l.key == k && l.head == At(d) && IndexFits(l) && LockOk(r.Last(), l)
    ensures GoesOnWithout(r, t, 0) && EndsWithPublish(t, l, pn)
    ensures k !in t.Last().index && Quiet(t.Last()) && Holds(t.Last(), d, k, pn)
  {
    var s, op := r.Last(), WriteLock(l, r.Last().mem, DropOf(0, r.Last().ppc), false);
    var held := Upgrade(s, d, k);
    UpgradeHappens(s, k, d, l);
    OneMore(r, op, held, 0);
    PublishHappens(held, pn);
    PublishKeepsSlots(held, pn);
    t := PublishRun(Then(r, op, held), pn, 0);
    GoesOnTransitive(r, Then(r, op, held), t, 0);
  }
}
