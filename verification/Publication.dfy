/** What becomes of a published page: the lock upgrade race, the stolen bit, the eviction window. */
module Publication {
  import opened Words
  import opened Options
  import opened ProbeTable
  import opened CacheState
  import opened CacheSteps
  import opened CacheInvariant
  import opened CacheSafety
  import opened ProtocolRuns

  // ---- Memory across an allocation ----

  /** The chunks that the loop of `alloc_new_page` leaves behind. */
  function PassedBy(s: State, left: nat): set<nat>
    requires Shaped(s) && left > 0
    decreases left
  {
    if AllocCurrent(s).1.Some? || left == 1 then {} else {s.current} + PassedBy(Advance(s), left - 1)
  }

  function Leaves(s: State, choice: Choice): set<nat>
    requires Shaped(s) && ChoiceOk(s, choice)
  {
    PassedBy(MakeRoom(s, choice), |s.chunks|)
  }

  lemma {:induction false} WalkMemory(s: State, left: nat)
    requires Shaped(s) && left > 0
    ensures WalkEnd(s, left).mem.pages == s.mem.pages
    ensures forall d :: d in WalkEnd(s, left).mem.evictable <==>
              d in s.mem.evictable
              || (InRange(s.ppc, d) && d.chunk in PassedBy(s, left) && s.chunks[d.chunk].kind == LazyFree)
    decreases left
  {
    if AllocCurrent(s).1.None? && left > 1 {
      WalkMemory(Advance(s), left - 1);
    }
  }

  /** Only a chunk with no page left is left behind. */
  lemma {:induction false} PassedChunksAreFull(s: State, left: nat, c: nat)
    requires Shaped(s) && left > 0 && c in PassedBy(s, left)
    ensures c < NUMBER_OF_CHUNKS && Full(s, c)
    decreases left
  {
    CurrentIsFull(s);
    if c != s.current {
      PassedChunksAreFull(Advance(s), left - 1, c);
    }
  }

  /** What the way to a free page does to memory. */
  ghost predicate OnTheWay(s: State, choice: Choice, m: Mem)
    requires Shaped(s) && ChoiceOk(s, choice)
  {
    && m.pages.Keys == s.mem.pages.Keys
    && (forall d :: d in s.mem.pages ==>
         || m.pages[d] == s.mem.pages[d]
         || (s.totalFree == 0 && d.chunk == choice.victim
             && (s.chunks[d.chunk].kind != Disk ==> m.pages[d] == ZERO_PAGE)))
    && (forall d :: d in m.evictable ==>
         d in s.mem.evictable
         || (InRange(s.ppc, d) && d.chunk in Leaves(s, choice) && s.chunks[d.chunk].kind == LazyFree))
  }

  lemma SiteMemory(s: State, choice: Choice)
    requires Shaped(s) && ChoiceOk(s, choice)
    ensures OnTheWay(s, choice, AllocSite(s, choice).mem)
  {
    WalkMemory(MakeRoom(s, choice), |s.chunks|);
    assert forall c :: 0 <= c < NUMBER_OF_CHUNKS ==> MakeRoom(s, choice).chunks[c].kind == s.chunks[c].kind;
  }

  /** An allocation changes no page outside the dropped chunk, and exposes only pages of lazyfree chunks it leaves. */
  lemma WriteAllocMemory(s: State, key: Key, choice: Choice, stored: bool)
    requires Inv(s) && s.wlock.None? && ChoiceOk(s, choice) && key != 0
    requires WriteAlloc(s, key, choice, stored).1.Some?
    ensures var s' := WriteAlloc(s, key, choice, stored).0;
            s'.mem == AllocSite(s, choice).mem && OnTheWay(s, choice, s'.mem)
  {
    WriteAllocTakes(s, key, choice, stored);
    SiteMemory(s, choice);
    TakenFrame(AllocSite(s, choice), key, stored);
  }

  // ---- The lock upgrade race ----

  /** The lock is on the same slot, with the bytes last published, and the page is no longer reclaimable. */
  ghost predicate UpgradedInPlace(s: State, l: Lock, s': State)
    requires Shaped(s) && Shaped(s') && s'.ppc == s.ppc && LockOk(s, l) && l.head.At?
  {
    var d := l.head.desc;
    && s'.wlock == Some(WLock(d, l.key)) && d !in s'.mem.evictable
    && SlotPage(s', d) == Decoded(SlotPage(s, d), SlotBit(s, d))
    && s'.index == s.index
  }

  /** The page was evicted and is left all zero; the lock is on a page that nobody owned, or of the dropped chunk. */
  ghost predicate FellBack(s: State, l: Lock, choice: Choice, s': State)
    requires Shaped(s) && Shaped(s') && s'.ppc == s.ppc && LockOk(s, l) && l.head.At?
  {
    var d := l.head.desc;
    && s'.wlock.Some? && s'.wlock.value.key == l.key
    && var w := s'.wlock.value.desc;
    && (!Live(s, w) || (s.totalFree == 0 && w.chunk == choice.victim))
    && SlotPage(s', d) == ZERO_PAGE
    && s.chunks[d.chunk].kind == LazyFree
  }

  /** The lock is on another slot, whose number is left in 16 bits, and the last byte of that one is decoded. */
  ghost predicate UpgradedAstray(s: State, l: Lock, s': State)
    requires Shaped(s) && Shaped(s') && s'.ppc == s.ppc && LockOk(s, l) && l.head.At?
  {
    var d := l.head.desc;
    && s'.wlock == Some(WLock(Desc(d.chunk, d.index % INDEX_MODULUS), l.key)) && s'.wlock.value.desc != d
    && SlotPage(s', d) == SlotPage(s, d) && s'.index == s.index
    && var w := s'.wlock.value.desc;
       InRange(s.ppc, w) && (w !in s.mem.evictable ==> SlotPage(s', w) == Decoded(SlotPage(s, w), SlotBit(s, w)))
  }

  /**
   Whatever the kernel does between reading byte 0, storing 1 and checking the last byte,
   which result `lazyfree_write_lock` has depends only on whether the page had been evicted
   when 1 was stored, and whether its slot number fits in 16 bits.
   */
  lemma UpgradeRace(s: State, l: Lock, m: Mem, choice: Choice, stored: bool, s': State)
    requires Inv(s) && LockOk(s, l) && KeyMatches(s, l) && WriteLockStep(s, l, m, choice, stored, s')
    ensures Shaped(s') && s'.ppc == s.ppc && (UpgradedAstray(s, l, s') || Inv(s'))
    ensures if m.pages[l.head.desc] == ZERO_PAGE then FellBack(s, l, choice, s')
            else if IndexFits(l) then UpgradedInPlace(s, l, s') else UpgradedAstray(s, l, s')
  {
    var d := l.head.desc;
    if Tail(m.pages[d]) != 0 {
      NotZeroMeansSame(s.mem, m, d);
      if IndexFits(l) {
        FittingUpgrade(s, l, m, choice, stored, s');
        UpgradesInPlace(s, l, m);
      } else {
        UpgradesAstray(s, l, m, choice, stored, s');
      }
    } else {
      FallbackPage(s, d, m);
      FallsBack(s, l, m, choice, stored, s');
    }
  }

  lemma UpgradesAstray(s: State, l: Lock, m: Mem, choice: Choice, stored: bool, s': State)
    requires Inv(s) && LockOk(s, l) && WriteLockStep(s, l, m, choice, stored, s') && Upgrades(s, l, m) && !IndexFits(l)
    ensures Shaped(s') && s'.ppc == s.ppc && UpgradedAstray(s, l, s')
  {
    NotZeroMeansSame(s.mem, m, l.head.desc);
  }

  lemma FallsBack(s: State, l: Lock, m: Mem, choice: Choice, stored: bool, s': State)
    requires Inv(s) && LockOk(s, l) && KeyMatches(s, l) && WriteLockStep(s, l, m, choice, stored, s')
    requires Tail(m.pages[l.head.desc]) == 0
    ensures Inv(s') && s'.ppc == s.ppc && FellBack(s, l, choice, s')
  {
    var d := l.head.desc;
    WriteLockKeeps(s, l, m, choice, stored, s');
    FallbackPage(s, d, m);
    var z := s.(mem := StorePage(m, d, ZERO_PAGE));
    FallbackAllocates(s, l, m, choice, stored, s');
    WriteAllocMemory(z, l.key, choice, stored);
    FallbackIsFresh(z, l.key, choice, stored);
    assert forall x :: Live(s, x) <==> Live(z, x);
  }

  lemma UpgradesInPlace(s: State, l: Lock, m: Mem)
    requires Inv(s) && s.wlock.None? && LockOk(s, l) && KeyMatches(s, l) && Evicts(s.mem, m)
    requires Tail(m.pages[l.head.desc]) != 0
    ensures var s' := Upgrade(s.(mem := m), l.head.desc, l.key);
            Inv(s') && s'.ppc == s.ppc && UpgradedInPlace(s, l, s')
  {
    NotZeroMeansSame(s.mem, m, l.head.desc);
    UpgradeKeeps(s, l, m);
  }

  lemma FallbackIsFresh(s: State, key: Key, choice: Choice, stored: bool)
    requires Inv(s) && s.wlock.None? && ChoiceOk(s, choice) && key != 0
    requires WriteAlloc(s, key, choice, stored).1.Some?
    ensures var s', d := WriteAlloc(s, key, choice, stored).0, WriteAlloc(s, key, choice, stored).1.value;
            && s'.wlock == Some(WLock(d, key))
            && !Live(AllocSite(s, choice), d)
            && (s.totalFree != 0 || d.chunk != choice.victim ==> !Live(s, d))
  {
    var r, t := MakeRoom(s, choice), AllocSite(s, choice);
    WriteAllocTakes(s, key, choice, stored);
    WalkStopsAtEnd(r, |s.chunks|);
    TakenFrame(t, key, stored);
    TakenSlots(t, key, stored);
    if s.totalFree == 0 { DropChunkChunks(s, choice); }
    assert forall x :: Live(s, x) && (s.totalFree != 0 || x.chunk != choice.victim) ==> Live(r, x);
    assert forall x :: Live(t, x) <==> Live(r, x);
  }

  // ---- The stolen bit ----

  /** Publishing a page that its holder has written to makes it decode to exactly what the holder left. */
  lemma PublishStores(s: State, m: Mem, t1: byte, t2: byte, s': State)
    requires Inv(s) && WriteUnlockStep(s, false, m, t1, t2, s')
    requires s.wlock.value.desc !in s.mem.evictable
    ensures var d := s.wlock.value.desc;
            && Inv(s') && s'.ppc == s.ppc && Live(s', d) && SlotKey(s', d) == s.wlock.value.key
            && Decoded(SlotPage(s', d), SlotBit(s', d)) == SlotPage(s, d)
            && Odd(Tail(SlotPage(s', d))) && d !in s'.mem.evictable
  {
    var d := s.wlock.value.desc;
    WriteUnlockKeeps(s, false, m, t1, t2, s');
    assert m.pages[d] == SlotPage(s, d) && t1 == t2 == Tail(SlotPage(s, d));
    StolenBitRoundTrip(t1);
    RetailRoundTrip(SlotPage(s, d), Marked(t1));
  }

  lemma RetailRoundTrip(p: Page, t: byte)
    ensures WithTail(WithTail(p, t), Tail(p)) == p && Tail(WithTail(p, t)) == t
  {
  }

  /** Published by key k at slot d in the first step, and not written for k again until step n. */
  ghost predicate LastPublished(states: seq<State>, ops: seq<ApiOp>, n: nat, d: Desc, k: Key) {
    && ApiRun(states, ops) && 0 < n <= |ops| && InvAt(states, 0) && k != 0
    && ops[0].WriteUnlock? && !ops[0].drop && states[0].wlock == Some(WLock(d, k))
    && d !in states[0].mem.evictable
    && UnwrittenBetween(states, ops, 1, n, k)
  }

  ghost predicate HoldsOrLost(t: State, d: Desc, k: Key, pg: Page)
    requires Shaped(t)
  {
    Live(t, d) && SlotKey(t, d) == k && SlotPage(t, d) != ZERO_PAGE ==> Decoded(SlotPage(t, d), SlotBit(t, d)) == pg
  }

  lemma FirstStepPublishes(states: seq<State>, ops: seq<ApiOp>, n: nat, d: Desc, k: Key)
    requires LastPublished(states, ops, n, d, k)
    ensures InvAt(states, 1) && states[1].ppc == states[0].ppc && d in states[0].mem.pages
    ensures HoldsOrLost(states[1], d, k, states[0].mem.pages[d])
  {
    assert ApiStepAt(states, ops, 0);
    PublishStores(states[0], ops[0].m, ops[0].t1, ops[0].t2, states[1]);
  }

  lemma HoldsOrLostKept(s: State, t: State, d: Desc, k: Key, pg: Page)
    requires Shaped(s) && Shaped(t) && t.ppc == s.ppc && UnchangedOrLost(s, t, d, k) && HoldsOrLost(s, d, k, pg)
    ensures HoldsOrLost(t, d, k, pg)
  {
  }

  /** However the run goes on, a slot that still is k's decodes to what was published, or was evicted. */
  lemma PublishedSurvives(states: seq<State>, ops: seq<ApiOp>, n: nat, d: Desc, k: Key)
    requires LastPublished(states, ops, n, d, k)
    ensures InvAt(states, n) && d in states[0].mem.pages
    ensures HoldsOrLost(states[n], d, k, states[0].mem.pages[d])
  {
    FirstStepPublishes(states, ops, n, d, k);
    UntouchedBetween(states, ops, 1, n, d, k);
    HoldsOrLostKept(states[1], states[n], d, k, states[0].mem.pages[d]);
  }

  lemma PublishedBefore(states: seq<State>, ops: seq<ApiOp>, m: nat, n: nat, d: Desc, k: Key)
    requires LastPublished(states, ops, n, d, k) && 0 < m <= n
    ensures LastPublished(states, ops, m, d, k)
  {
    WithinUnwritten(states, ops, 1, 1, m, n, k);
  }

  /** Locking for write again gives back every byte, the last one included. */
  lemma PublishThenUpgrade(states: seq<State>, ops: seq<ApiOp>, d: Desc, k: Key,
        l: Lock, m: Mem, choice: Choice, stored: bool, s': State)
    requires LastPublished(states, ops, |ops|, d, k) && l.key == k && l.head == At(d)
    requires ApiStep(states[|ops|], WriteLock(l, m, choice, stored), s')
    requires KeyMatches(states[|ops|], l) && m.pages[d] != ZERO_PAGE
    ensures s'.wlock == Some(WLock(d, k)) && d in s'.mem.pages && d in states[0].mem.pages
    ensures s'.mem.pages[d] == states[0].mem.pages[d]
  {
    PublishedSurvives(states, ops, |ops|, d, k);
    var t := states[|ops|];
    UpgradeRace(t, l, m, choice, stored, s');
    MatchedIsLive(t, l);
    NotZeroMeansSame(t.mem, m, d);
  }

  // ---- The eviction window ----

  /** With no page free, the victim of the drop is empty: it is current, and its first page is taken. */
  lemma VictimIsEmpty(s: State, choice: Choice)
    requires Shaped(s) && ChoiceOk(s, choice) && s.totalFree == 0 && s.ppc > 0
    ensures var t := AllocSite(s, choice);
            && t.current == choice.victim && AllocCurrent(t).1 == Some(Desc(choice.victim, 0))
            && t.mem.evictable == s.mem.evictable - PagesOf(choice.victim, s.ppc) && Leaves(s, choice) == {}
  {
  }

  lemma AllocationExposes(s: State, key: Key, choice: Choice, stored: bool, d: Desc)
    requires Inv(s) && s.wlock.None? && ChoiceOk(s, choice) && key != 0 && WriteAlloc(s, key, choice, stored).1.Some?
    requires d !in s.mem.evictable && d in WriteAlloc(s, key, choice, stored).0.mem.evictable
    ensures InRange(s.ppc, d) && s.chunks[d.chunk].kind == LazyFree && d.chunk in Leaves(s, choice)
  {
    WriteAllocMemory(s, key, choice, stored);
  }

  lemma WriteLockExposes(s: State, l: Lock, m: Mem, choice: Choice, stored: bool, s': State, d: Desc)
    requires Inv(s) && LockOk(s, l)
    requires WriteLockStep(s, l, m, choice, stored, s') && (Upgrades(s, l, m) ==> IndexFits(l))
    requires d !in s.mem.evictable && d in s'.mem.evictable
    ensures ChoiceOk(s, choice) && InRange(s.ppc, d)
    ensures s.chunks[d.chunk].kind == LazyFree && d.chunk in Leaves(s, choice)
  {
    if !KeyMatches(s, l) {
      AllocationExposes(s, l.key, choice, stored, d);
    } else if Tail(m.pages[l.head.desc]) != 0 {
      FittingUpgrade(s, l, m, choice, stored, s');
    } else {
      var z := s.(mem := StorePage(m, l.head.desc, ZERO_PAGE));
      MatchedIsLive(s, l);
      FallbackAllocates(s, l, m, choice, stored, s');
      AllocationExposes(z, l.key, choice, stored, d);
      LeavesIgnoresMemory(s, z, choice);
    }
  }

  /** Only an allocation that drops no chunk makes pages reclaimable: those of full lazyfree chunks it leaves. */
  lemma EvictionWindow(s: State, op: ApiOp, s': State, d: Desc)
    requires Inv(s) && ApiStep(s, op, s') && d !in s.mem.evictable && d in s'.mem.evictable
    ensures op.WriteLock? && ChoiceOk(s, op.choice)
    ensures InRange(s.ppc, d) && s.chunks[d.chunk].kind == LazyFree && d.chunk in Leaves(s, op.choice)
    ensures s.totalFree > 0 && Full(s, d.chunk)
  {
    match op {
      case WriteLock(l, m, choice, stored) =>
        WriteLockExposes(s, l, m, choice, stored, s', d);
        SpaceBounds(s);
        if s.totalFree == 0 {
          VictimIsEmpty(s, choice);
        }
        PassedChunksAreFull(MakeRoom(s, choice), |s.chunks|, d.chunk);
      case _ =>
    }
  }

  lemma LeavesIgnoresMemory(s: State, z: State, choice: Choice)
    requires Shaped(s) && Shaped(z) && z == s.(mem := z.mem) && ChoiceOk(s, choice)
    ensures Leaves(s, choice) == Leaves(z, choice)
  {
    PassedIgnoresMemory(MakeRoom(s, choice), MakeRoom(z, choice), |s.chunks|);
  }

  lemma {:induction false} PassedIgnoresMemory(s: State, z: State, left: nat)
    requires Shaped(s) && Shaped(z) && z == s.(mem := z.mem) && left > 0
    ensures PassedBy(s, left) == PassedBy(z, left)
    decreases left
  {
    if AllocCurrent(s).1.None? && left > 1 {
      PassedIgnoresMemory(Advance(s), Advance(z), left - 1);
    }
  }
}
