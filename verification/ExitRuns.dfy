/** How a call comes to end the program: gets that leave a key's page, intact, within the kernel's reach. */
module ExitRuns {
  import opened Options
  import opened ProbeTable
  import opened CacheState
  import opened CacheSteps
  import opened CacheInvariant
  import opened CacheSafety
  import opened ProtocolRuns
  import opened Publication
  import opened FallthroughSteps
  import opened FallthroughRuns
  import opened FallthroughHits
  import opened GetOutcomes
  import opened UndisturbedRuns
  import opened FallthroughCache

  // ---- One get of a new key ----

  /** A refill leaves chunks as the allocation did, and takes the new slot from the kernel. */
  lemma RefillCounts(e: Event, t: State)
    requires e.Miss? && Inv(e.s2) && UserStoreStep(e.s2, e.page, e.m2, e.s3) && Shaped(e.s3)
    requires WriteUnlockStep(e.s3, false, e.m3, e.t1, e.t2, t)
    ensures Shaped(t) && t.ppc == e.s2.ppc && SameCounts(e.s2, t)
    ensures e.s2.wlock.Some? && t.mem.evictable == e.s2.mem.evictable - {e.s2.wlock.value.desc}
  {
  }

  lemma AllocCounts(s: State, key: Key, choice: Choice, stored: bool)
    requires Idle(s) && key != 0 && ChoiceOk(s, choice) && WriteAlloc(s, key, choice, stored).1.Some?
    ensures var (t, d), site := WriteAlloc(s, key, choice, stored), AllocSite(s, choice);
            && Inv(t) && t.ppc == s.ppc && t.wlock == Some(WLock(d.value, key)) && t.mem == site.mem
            && AllocCurrent(site).1 == d && SameCounts(AllocCurrent(site).0, t)
  {
    WriteAllocTakes(s, key, choice, stored);
    WriteAllocKeeps(s, key, choice, stored);
    TakenFrame(AllocSite(s, choice), key, stored);
    TakenCounts(AllocSite(s, choice), key, stored);
  }

  /** The counters and the reach of the kernel after a miss, given where it allocates. */
  ghost predicate Counted(site: State, d: Desc, t: State)
    requires Shaped(site)
  {
    && AllocCurrent(site).1 == Some(d)
    && Shaped(t) && t.ppc == site.ppc && SameCounts(AllocCurrent(site).0, t)
    && t.mem.evictable == site.mem.evictable - {d}
  }

  lemma SiteCounted(z: State, key: Key, choice: Choice, stored: bool, s2: State, t: State)
    requires Idle(z) && key != 0 && ChoiceOk(z, choice) && WriteAlloc(z, key, choice, stored).1.Some?
    requires s2 == WriteAlloc(z, key, choice, stored).0
    requires Shaped(s2) && Shaped(t) && t.ppc == s2.ppc && SameCounts(s2, t)
    requires s2.wlock.Some? && t.mem.evictable == s2.mem.evictable - {s2.wlock.value.desc}
    ensures Counted(AllocSite(z, choice), WriteAlloc(z, key, choice, stored).1.value, t)
  {
    AllocCounts(z, key, choice, stored);
  }

  lemma RefillStepCounts(cfg: Config, e: Event, t: State)
    requires ConfigOk(cfg) && e.Miss? && Shaped(e.s1) && LockShaped(e.s1, e.lock) && RefillStep(cfg, e, t) && Inv(e.s2)
    ensures Shaped(t) && t.ppc == e.s2.ppc && SameCounts(e.s2, t)
    ensures e.s2.wlock.Some? && t.mem.evictable == e.s2.mem.evictable - {e.s2.wlock.value.desc}
  {
    RefillCounts(e, t);
  }

  lemma MissCounts(cfg: Config, s: State, e: Event, t: State)
    requires ConfigOk(cfg) && Idle(s) && e.Miss? && e.key != 0 && MissStep(cfg, s, e, t)
    ensures Shaped(MissSite(e)) && ChoiceOk(MissSite(e), e.choice) && MissSlot(e).Some?
    ensures MissSite(e) == s.(mem := MissSite(e).mem) && MissSite(e).mem.evictable <= s.mem.evictable
    ensures Counted(AllocSite(MissSite(e), e.choice), MissSlot(e).value, t)
  {
    MissAllocates(cfg, s, e, t);
    var z := MissSite(e);
    WriteAllocKeeps(z, e.key, e.choice, e.stored);
    RefillStepCounts(cfg, e, t);
    SiteCounted(z, e.key, e.choice, e.stored, e.s2, t);
  }

  lemma IndexedKeeps(index: map<Key, Desc>, e: Event, k: Key)
    requires e.Miss? && Shaped(MissSite(e)) && ChoiceOk(MissSite(e), e.choice) && MissSlot(e).Some?
    requires k in index && k != e.key
    ensures k in Indexed(index, e) && Indexed(index, e)[k] == index[k]
  {
  }

  /** Without a drop, a miss leaves the index entries of other keys. */
  lemma IndexAfter(cfg: Config, s: State, e: Event, t: State, k: Key)
    requires ConfigOk(cfg) && Idle(s) && s.totalFree > 0 && e.Miss? && e.key != 0 && MissStep(cfg, s, e, t)
    requires k in s.index && k != e.key
    ensures Idle(t) && k in t.index && t.index[k] == s.index[k]
  {
    MissIndexes(cfg, s, e, t);
    IndexedKeeps(s.index, e, k);
  }

  lemma AllocatesHere(s: State, choice: Choice)
    requires Shaped(s) && ChoiceOk(s, choice) && s.totalFree != 0 && AllocCurrent(s).1.Some?
    ensures AllocSite(s, choice) == s && Leaves(s, choice) == {}
  {
  }

  /** The first n pages of chunk 0 are used, no other is, and none is within the kernel's reach. */
  ghost predicate FirstUsed(s: State, ppc: nat, n: nat) {
    && Shaped(s) && s.ppc == ppc && s.current == 0 && s.chunks[0].kind == LazyFree
    && s.chunks[0].len == n && s.chunks[0].free == [] && s.totalFree == NUMBER_OF_CHUNKS * ppc - n
    && s.mem.evictable == {}
  }

  lemma OneMoreUsed(s: State, z: State, choice: Choice, d: Desc, t: State, n: nat)
    requires FirstUsed(s, s.ppc, n) && n < s.ppc
    requires Shaped(z) && z == s.(mem := z.mem) && z.mem.evictable <= s.mem.evictable
    requires ChoiceOk(z, choice) && Counted(AllocSite(z, choice), d, t)
    ensures d == Desc(0, n) && Leaves(z, choice) == {} && FirstUsed(t, s.ppc, n + 1)
  {
    AllocatesHere(z, choice);
  }

  // ---- Gets that fill the first chunk ----

  /** Each of the first n keys got a page of chunk 0, and the first of them has the first page still. */
  ghost predicate UsedBy(s: State, ppc: nat, keys: seq<Key>, n: nat) {
    && Idle(s) && FirstUsed(s, ppc, n) && n <= |keys| && (forall q :: q in s.index ==> q in keys[..n])
    && (n > 0 ==> Protected(s, keys[0]) && s.index[keys[0]] == FIRST)
  }

  /** Different keys, and none of them 0. */
  predicate DistinctKeys(keys: seq<Key>) {
    && (forall i, j :: 0 <= i < j < |keys| ==> keys[i] != keys[j])
    && (forall i :: 0 <= i < |keys| ==> keys[i] != 0)
  }

  lemma NewKeyMisses(cfg: Config, s: State, e: Event, t: State, keys: seq<Key>, n: nat)
    requires ConfigOk(cfg) && DistinctKeys(keys) && n < |keys| && UsedBy(s, s.ppc, keys, n)
    requires e.IsGet() && e.key == keys[n] && FtStep(cfg, s, e, t)
    ensures e.key != 0 && e.key !in s.index && e.Miss? && MissStep(cfg, s, e, t)
  {
    GoneIsNotFound(cfg, s, e, t);
  }

  /** A get of the next key takes the next page of chunk 0. */
  lemma NextPage(cfg: Config, s: State, e: Event, t: State, n: nat)
    requires ConfigOk(cfg) && Idle(s) && n < s.ppc && FirstUsed(s, s.ppc, n)
    requires e.Miss? && e.key != 0 && MissStep(cfg, s, e, t)
    ensures Shaped(MissSite(e)) && ChoiceOk(MissSite(e), e.choice) && MissSlot(e) == Some(Desc(0, n))
    ensures Leaves(MissSite(e), e.choice) == {} && FirstUsed(t, s.ppc, n + 1)
  {
    MissCounts(cfg, s, e, t);
    OneMoreUsed(s, MissSite(e), e.choice, MissSlot(e).value, t, n);
  }

  lemma FirstIsProtected(cfg: Config, s: State, e: Event, t: State)
    requires ConfigOk(cfg) && Idle(s) && 0 < s.ppc && FirstUsed(s, s.ppc, 0) && s.index.Keys == {}
    requires e.Miss? && e.key != 0 && MissStep(cfg, s, e, t)
    ensures Idle(t) && Protected(t, e.key) && t.index[e.key] == FIRST
  {
    NextPage(cfg, s, e, t, 0);
    MissIndexes(cfg, s, e, t);
    FewKeysSpread(s.hasher, s.index.Keys, e.key);
    UncrowdedIsStored(cfg, s, e, t);
    MissProtects(cfg, s, e, t);
  }

  lemma FirstStaysProtected(cfg: Config, s: State, e: Event, t: State, k: Key, n: nat)
    requires ConfigOk(cfg) && Idle(s) && n < s.ppc && FirstUsed(s, s.ppc, n) && Protected(s, k)
    requires e.Miss? && e.key != 0 && e.key != k && MissStep(cfg, s, e, t)
    ensures Idle(t) && Protected(t, k) && t.index[k] == s.index[k]
  {
    NextPage(cfg, s, e, t, n);
    MissAllocates(cfg, s, e, t);
    assert Spares(s, e, k, s.index[k]);
    ProtectedStays(cfg, s, e, t, k);
  }

  lemma NewEntries(s: State, t: State, keys: seq<Key>, n: nat)
    requires Shaped(s) && Shaped(t) && n < |keys| && OthersKept(s, t, keys[n])
    requires forall q :: q in s.index ==> q in keys[..n]
    ensures forall q :: q in t.index ==> q in keys[..n + 1]
  {
    assert keys[..n + 1] == keys[..n] + [keys[n]];
  }

  lemma UsedByNext(s: State, t: State, keys: seq<Key>, n: nat)
    requires n < |keys| && UsedBy(s, s.ppc, keys, n) && Idle(t) && FirstUsed(t, s.ppc, n + 1)
    requires OthersKept(s, t, keys[n]) && Protected(t, keys[0]) && t.index[keys[0]] == FIRST
    ensures UsedBy(t, s.ppc, keys, n + 1)
  {
    NewEntries(s, t, keys, n);
  }

  lemma EarlyGet(cfg: Config, s: State, e: Event, t: State, keys: seq<Key>, n: nat)
    requires ConfigOk(cfg) && DistinctKeys(keys) && n < |keys| && n < s.ppc && UsedBy(s, s.ppc, keys, n)
    requires e.IsGet() && e.key == keys[n] && FtStep(cfg, s, e, t)
    ensures UsedBy(t, s.ppc, keys, n + 1)
  {
    NewKeyMisses(cfg, s, e, t, keys, n);
    NextPage(cfg, s, e, t, n);
    CallLeavesOthers(cfg, s, e, t);
    if n == 0 {
      assert s.index.Keys == {};
      FirstIsProtected(cfg, s, e, t);
    } else {
      FirstStaysProtected(cfg, s, e, t, keys[0], n);
    }
    UsedByNext(s, t, keys, n);
  }

  // ---- The get that leaves the chunk behind ----

  lemma WalkExposes(z: State, choice: Choice)
    requires FirstUsed(z, z.ppc, z.ppc) && 0 < z.ppc && ChoiceOk(z, choice)
    ensures var site := AllocSite(z, choice);
            && FIRST in site.mem.evictable && site.mem.pages == z.mem.pages && site.chunks == z.chunks
  {
    WalkMemory(z, |z.chunks|);
    WalkStopsAtEnd(z, |z.chunks|);
    assert FIRST.chunk in PassedBy(z, |z.chunks|);
  }

  /** The first chunk is full: the allocation leaves it to the kernel. */
  lemma LeavesFirst(s: State, z: State, choice: Choice, d: Desc, t: State)
    requires FirstUsed(s, s.ppc, s.ppc) && 0 < s.ppc
    requires Shaped(z) && z == s.(mem := z.mem) && z.mem.evictable <= s.mem.evictable
    requires ChoiceOk(z, choice) && Counted(AllocSite(z, choice), d, t)
    ensures d != FIRST && FIRST in t.mem.evictable && AllocSite(z, choice).mem.pages == z.mem.pages
  {
    WalkExposes(z, choice);
  }

  /** The key's page is the first one, and the kernel's to reclaim. */
  ghost predicate Exposed(t: State, k: Key) {
    Idle(t) && k in t.index && t.index[k] == FIRST && FIRST in t.mem.evictable
  }

  lemma MissExposes(cfg: Config, s: State, e: Event, t: State, k: Key)
    requires ConfigOk(cfg) && Idle(s) && 0 < s.ppc && FirstUsed(s, s.ppc, s.ppc)
    requires k in s.index && s.index[k] == FIRST
    requires e.Miss? && e.key != 0 && e.key != k && MissStep(cfg, s, e, t)
    ensures Exposed(t, k)
  {
    MissCounts(cfg, s, e, t);
    LeavesFirst(s, MissSite(e), e.choice, MissSlot(e).value, t);
    IndexAfter(cfg, s, e, t, k);
  }

  /** With chunk 0 full, a get of one more key exposes the first one's page. */
  lemma LastGet(cfg: Config, s: State, e: Event, t: State, keys: seq<Key>)
    requires ConfigOk(cfg) && DistinctKeys(keys) && 0 < s.ppc < |keys| && UsedBy(s, s.ppc, keys, s.ppc)
    requires e.IsGet() && e.key == keys[s.ppc] && FtStep(cfg, s, e, t)
    ensures e.Miss? && Exposed(t, keys[0])
  {
    NewKeyMisses(cfg, s, e, t, keys, s.ppc);
    MissExposes(cfg, s, e, t, keys[0]);
  }

  lemma CalmRefillKeeps(cfg: Config, e: Event, t: State, x: Desc)
    requires ConfigOk(cfg) && Calm(e) && Shaped(e.s1) && LockShaped(e.s1, e.lock) && RefillStep(cfg, e, t)
    requires Inv(e.s2) && x in e.s2.mem.pages && (e.s2.wlock.Some? ==> e.s2.wlock.value.desc != x)
    ensures x in t.mem.pages && t.mem.pages[x] == e.s2.mem.pages[x]
  {
  }

  lemma AllocLeavesFirst(z: State, key: Key, choice: Choice, stored: bool)
    requires Idle(z) && FirstUsed(z, z.ppc, z.ppc) && 0 < z.ppc && key != 0 && ChoiceOk(z, choice)
    requires WriteAlloc(z, key, choice, stored).1.Some?
    ensures var t := WriteAlloc(z, key, choice, stored).0;
            && Inv(t) && t.mem.pages == z.mem.pages
            && t.wlock == Some(WLock(WriteAlloc(z, key, choice, stored).1.value, key))
  {
    AllocCounts(z, key, choice, stored);
    WalkExposes(z, choice);
  }

  lemma NewKeySite(s: State, e: Event)
    requires Idle(s) && e.Miss? && e.key != 0 && e.key !in s.index && LookupStep(s, e)
    ensures MissSite(e) == e.s1
  {
    GoneLookupFails(s, e.key, e.lock, e.s1);
  }

  /** If the kernel takes its time, the exposed page is intact when the call returns. */
  lemma CalmMissKeeps(cfg: Config, s: State, e: Event, t: State, k: Key)
    requires ConfigOk(cfg) && Idle(s) && 0 < s.ppc && FirstUsed(s, s.ppc, s.ppc)
    requires Protected(s, k) && s.index[k] == FIRST
    requires Calm(e) && e.s1 == s && e.key != 0 && e.key !in s.index && MissStep(cfg, s, e, t)
    ensures FIRST in s.mem.pages && FIRST in t.mem.pages && t.mem.pages[FIRST] == s.mem.pages[FIRST]
  {
    NewKeySite(s, e);
    MissAllocates(cfg, s, e, t);
    MissCounts(cfg, s, e, t);
    AllocLeavesFirst(s, e.key, e.choice, e.stored);
    LeavesFirst(s, s, e.choice, MissSlot(e).value, t);
    CalmRefillKeeps(cfg, e, t, FIRST);
  }

  // ---- Runs ----

  /** Gets of different keys in turn, at most one more than a chunk has pages, and the first chunk is lazyfree. */
  ghost predicate InTurn(cfg: Config, states: seq<State>, events: seq<Event>, keys: seq<Key>) {
    && FtRun(cfg, states, events) && Initial(states[0]) && states[0].chunks[0].kind == LazyFree
    && 0 < states[0].ppc == |keys| - 1 && DistinctKeys(keys) && GetsOf(events, keys)
  }

  ghost predicate GetsOf(events: seq<Event>, keys: seq<Key>) {
    |events| <= |keys| && forall i :: 0 <= i < |events| ==> events[i].IsGet() && events[i].key == keys[i]
  }

  ghost predicate UsedByAt(states: seq<State>, keys: seq<Key>, n: nat) {
    n < |states| && UsedBy(states[n], states[0].ppc, keys, n)
  }

  lemma {:induction false} RunUses(cfg: Config, states: seq<State>, events: seq<Event>, keys: seq<Key>, n: nat)
    requires InTurn(cfg, states, events, keys) && n <= |events| && n < |keys|
    ensures UsedByAt(states, keys, n)
  {
    if n == 0 {
      InitialInv(states[0]);
    } else {
      RunUses(cfg, states, events, keys, n - 1);
      assert StepAt(cfg, states, events, n - 1);
      EarlyGet(cfg, states[n - 1], events[n - 1], states[n], keys, n - 1);
    }
  }

  /** After every such run, whatever the kernel did, the first key's page is the kernel's to reclaim. */
  lemma RunExposes(cfg: Config, states: seq<State>, events: seq<Event>, keys: seq<Key>)
    requires InTurn(cfg, states, events, keys) && |events| == |keys|
    ensures Exposed(states[|keys|], keys[0])
  {
    var n := |keys| - 1;
    RunUses(cfg, states, events, keys, n);
    assert StepAt(cfg, states, events, n);
    LastGet(cfg, states[n], events[n], states[n + 1], keys);
  }

  lemma ExtendInTurn(cfg: Config, states: seq<State>, events: seq<Event>, keys: seq<Key>, e: Event, t: State)
    requires InTurn(cfg, states, events, keys) && |events| < |keys|
    requires e.IsGet() && e.key == keys[|events|] && FtStep(cfg, states[|events|], e, t)
    ensures InTurn(cfg, states + [t], events + [e], keys)
  {
    assert keys[|events|] != 0;
    ExtendFtRun(cfg, states, events, e, t);
    ExtendGets(events, keys, e);
    assert (states + [t])[0] == states[0];
  }

  lemma ExtendGets(events: seq<Event>, keys: seq<Key>, e: Event)
    requires GetsOf(events, keys) && |events| < |keys| && e.IsGet() && e.key == keys[|events|]
    ensures GetsOf(events + [e], keys)
  {
  }

  lemma NextCall(cfg: Config, s: State, keys: seq<Key>, n: nat) returns (e: Event, t: State)
    requires ConfigOk(cfg) && DistinctKeys(keys) && n < |keys| && 0 < s.ppc && UsedBy(s, s.ppc, keys, n)
    ensures FtStep(cfg, s, e, t) && e.Miss? && e.key == keys[n] && e.key !in s.index && Calm(e) && e.s1 == s
  {
    e, t := GetMisses(cfg, s, keys[n], DropOf(0, s.ppc));
  }

  lemma {:induction false} InTurnExists(cfg: Config, s0: State, keys: seq<Key>, n: nat)
      returns (states: seq<State>, events: seq<Event>)
    requires ConfigOk(cfg) && Initial(s0) && s0.chunks[0].kind == LazyFree
    requires 0 < s0.ppc == |keys| - 1 && DistinctKeys(keys) && n < |keys|
    ensures InTurn(cfg, states, events, keys) && states[0] == s0 && |events| == n
  {
    if n == 0 {
      states, events := [s0], [];
    } else {
      states, events := InTurnExists(cfg, s0, keys, n - 1);
      RunUses(cfg, states, events, keys, n - 1);
      var e, t := NextCall(cfg, states[n - 1], keys, n - 1);
      ExtendInTurn(cfg, states, events, keys, e, t);
      states, events := states + [t], events + [e];
    }
  }

  lemma LastCall(cfg: Config, states: seq<State>, events: seq<Event>, keys: seq<Key>)
      returns (states': seq<State>, events': seq<Event>)
    requires InTurn(cfg, states, events, keys) && |events| == |keys| - 1
    ensures InTurn(cfg, states', events', keys) && states'[0] == states[0] && |events'| == |keys|
    ensures FIRST in states'[|keys|].mem.pages && Tail(states'[|keys|].mem.pages[FIRST]) != 0
  {
    var n := |keys| - 1;
    RunUses(cfg, states, events, keys, n);
    var e, t := NextCall(cfg, states[n], keys, n);
    ExtendInTurn(cfg, states, events, keys, e, t);
    states', events' := states + [t], events + [e];
    CalmMissKeeps(cfg, states[n], e, t, keys[0]);
  }

  lemma ExposedMayExit(t: State, k: Key) returns (l: Lock, s1: State, s2: State)
    requires Exposed(t, k) && Tail(SlotPage(t, FIRST)) != 0
    ensures l.key == k && LostWhileRead(t, l, s1, s2)
  {
    ExitPossibleIff(t, k);
    l, s1, s2 :| l.key == k && LostWhileRead(t, l, s1, s2);
  }

  /**
   A get or drop can end the program: from every new cache whose first chunk is lazyfree, and
   for any different keys, one more than a chunk has pages, there is a run that gets them in
   turn, after which a lookup of the first finds its page, and then loses it.
   */
  lemma ExitIsReached(cfg: Config, s0: State, keys: seq<Key>)
      returns (states: seq<State>, events: seq<Event>, l: Lock, s1: State, s2: State)
    requires ConfigOk(cfg) && Initial(s0) && s0.chunks[0].kind == LazyFree
    requires 0 < s0.ppc == |keys| - 1 && DistinctKeys(keys)
    ensures InTurn(cfg, states, events, keys) && states[0] == s0 && |events| == |keys|
    ensures l.key == keys[0] && LostWhileRead(states[|keys|], l, s1, s2)
  {
    states, events := InTurnExists(cfg, s0, keys, |keys| - 1);
    states, events := LastCall(cfg, states, events, keys);
    RunExposes(cfg, states, events, keys);
    l, s1, s2 := ExposedMayExit(states[|keys|], keys[0]);
  }
}
