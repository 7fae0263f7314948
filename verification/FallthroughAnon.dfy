/** Runs without lazyfree chunks (the anonymous and disk configurations of src/cache/cache.c). */
module FallthroughAnon {
  import opened Words
  import opened ProbeTable
  import opened CacheState
  import opened CacheSteps
  import opened CacheInvariant
  import opened CacheSafety
  import opened ProtocolRuns
  import opened Occupancy
  import opened FallthroughSteps
  import opened FallthroughRuns
  import opened FallthroughHits
  import opened FallthroughAgreement

  ghost predicate NoLazyFree(s: State)
    requires Shaped(s)
  {
    forall c :: 0 <= c < NUMBER_OF_CHUNKS ==> s.chunks[c].kind != LazyFree
  }

  ghost predicate Exact(s: State) { Agreed(s) && NoLazyFree(s) }

  /** Without lazyfree chunks a key of the index is always found. */
  lemma IndexedIsProtected(s: State, k: Key)
    requires Idle(s) && NoLazyFree(s) && k in s.index
    ensures Protected(s, k)
  {
    LookupAgrees(s, k);
    assert PageOk(s.chunks[s.index[k].chunk].kind, SlotPage(s, s.index[k]));
  }

  /** As many slots in use as keys in the index. */
  lemma OwnedIsIndexed(s: State)
    requires Exact(s)
    ensures |Owned(s)| == |s.index|
  {
    IndexedSlotsDiffer(s);
    assert Owned(s) <= s.index.Values by {
      forall d | d in Owned(s) ensures d in s.index.Values {
        assert s.index[SlotKey(s, d)] == d;
      }
    }
    ValuesSize(s.index);
    SubsetSize(Owned(s), s.index.Values);
  }

  lemma {:induction false} ValuesSize<K, V>(m: map<K, V>)
    ensures |m.Values| <= |m|
    decreases |m|
  {
    if |m| > 0 {
      var k :| k in m;
      var rest := m - {k};
      assert m.Keys == rest.Keys + {k};
      ValuesSize(rest);
      assert m.Values == rest.Values + {m[k]} by {
        forall v | v in m.Values ensures v in rest.Values + {m[k]} {
          var q :| q in m && m[q] == v;
          assert q != k ==> q in rest && rest[q] == v;
        }
      }
    }
  }

  // ---- Every call keeps the agreement, on keys that are spread ----

  lemma FillKeepsKinds(e: Event, s': State)
    requires e.Miss? && Shaped(e.s2) && Shaped(e.s3)
    requires UserStoreStep(e.s2, e.page, e.m2, e.s3) && WriteUnlockStep(e.s3, false, e.m3, e.t1, e.t2, s')
    ensures Shaped(s') && KindsSame(e.s2, s')
  {
  }

  lemma CallKeepsKinds(cfg: Config, s: State, e: Event, s': State)
    requires ConfigOk(cfg) && Idle(s) && e.key != 0 && FtStep(cfg, s, e, s')
    ensures Shaped(s') && KindsSame(s, s')
  {
    match e
    case Hit(_, _, _, _) => HitReads(cfg, s, e, s');
    case Miss(_, _, _, _, _, _, _, _, _, _, _, _, _, _) =>
      MissAllocates(cfg, s, e, s');
      AllocKeepsKinds(MissSite(e), e.key, e.choice, e.stored);
      FillKeepsKinds(e, s');
    case Dropped(_, _, _, _) => DropIsValid(s, e, s');
    case NotFound(key, l) => ReadLockKeeps(s, key, l, s');
  }

  lemma MissOnlyUnindexed(cfg: Config, s: State, e: Event, s': State)
    requires ConfigOk(cfg) && Exact(s) && e.key != 0 && FtStep(cfg, s, e, s') && e.Miss?
    ensures e.key !in s.index
  {
    if e.key in s.index {
      IndexedIsProtected(s, e.key);
      ProtectedIsFound(cfg, s, e, s');
    }
  }

  /** Without lazyfree chunks, the index and the reverse table agree after every call. */
  lemma CallAgrees(cfg: Config, s: State, e: Event, s': State)
    requires ConfigOk(cfg) && Exact(s) && e.key != 0 && FtStep(cfg, s, e, s')
    requires e.Miss? ==> Uncrowded(s.hasher, s.index.Keys, e.key)
    ensures Exact(s') && s'.ppc == s.ppc && s'.index.Keys <= s.index.Keys + {e.key}
  {
    CallKeepsKinds(cfg, s, e, s');
    AgreementKeptIff(cfg, s, e, s');
    if e.Miss? {
      MissOnlyUnindexed(cfg, s, e, s');
      UncrowdedIsStored(cfg, s, e, s');
    }
  }

  // ---- A working set within the capacity always hits ----

  /** The keys of the first n calls. */
  ghost function Touched(events: seq<Event>, n: nat): set<Key>
    requires n <= |events|
  {
    set i | 0 <= i < n :: events[i].key
  }

  /** A run from a new cache without lazyfree chunks, on keys that never crowd each other out. */
  ghost predicate AnonRun(cfg: Config, states: seq<State>, events: seq<Event>) {
    && FtRun(cfg, states, events) && Initial(states[0]) && NoLazyFree(states[0])
    && Spread(states[0].hasher, Touched(events, |events|))
  }

  ghost predicate ExactAt(states: seq<State>, events: seq<Event>, i: nat) {
    && i < |states| == |events| + 1 && Exact(states[i])
    && states[i].ppc == states[0].ppc && states[i].hasher == states[0].hasher
    && states[i].index.Keys <= Touched(events, i)
  }

  lemma TouchedNext(events: seq<Event>, i: nat)
    requires i < |events|
    ensures Touched(events, i) + {events[i].key} <= Touched(events, i + 1)
  {
  }

  lemma MissIsUncrowded(states: seq<State>, events: seq<Event>, i: nat)
    requires i < |events| && ExactAt(states, events, i) && Spread(states[0].hasher, Touched(events, |events|))
    ensures Uncrowded(states[i].hasher, states[i].index.Keys, events[i].key)
  {
    var all := Touched(events, |events|);
    assert events[i].key in all && states[i].index.Keys <= all;
    FewerKeysUncrowded(states[0].hasher, states[i].index.Keys, all, events[i].key);
  }

  lemma CallAgreesAt(cfg: Config, states: seq<State>, events: seq<Event>, i: nat)
    requires AnonRun(cfg, states, events) && i < |events| && ExactAt(states, events, i)
    ensures ExactAt(states, events, i + 1)
  {
    assert StepAt(cfg, states, events, i);
    MissIsUncrowded(states, events, i);
    CallLeavesOthers(cfg, states[i], events[i], states[i + 1]);
    CallAgrees(cfg, states[i], events[i], states[i + 1]);
    TouchedNext(events, i);
  }

  /** Index and reverse table agree in every state of such a run, and the index holds only keys that were asked for. */
  lemma {:induction false} AnonRunAgrees(cfg: Config, states: seq<State>, events: seq<Event>, n: nat)
    requires AnonRun(cfg, states, events) && n <= |events|
    ensures ExactAt(states, events, n)
  {
    if n == 0 {
      InitialInv(states[0]);
    } else {
      AnonRunAgrees(cfg, states, events, n - 1);
      CallAgreesAt(cfg, states, events, n - 1);
    }
  }

  /** In every state of such a run, index[k] is d if and only if slot d is in use by k. */
  lemma IndexAgreesExactly(cfg: Config, states: seq<State>, events: seq<Event>, n: nat, k: Key, d: Desc)
    requires AnonRun(cfg, states, events) && n <= |events| && k != 0
    ensures ExactAt(states, events, n)
    ensures var s := states[n]; (k in s.index && s.index[k] == d) <==> (Live(s, d) && SlotKey(s, d) == k)
  {
    AnonRunAgrees(cfg, states, events, n);
    AgreementBothWays(states[n], k, d);
  }

  /** A miss within the working set finds a free page, so no chunk is dropped. */
  lemma MissHasRoom(cfg: Config, states: seq<State>, events: seq<Event>, i: nat)
    requires AnonRun(cfg, states, events) && i < |events| && events[i].Miss?
    requires |Touched(events, |events|)| <= NUMBER_OF_CHUNKS * states[0].ppc
    ensures i < |states| && states[i].totalFree > 0
  {
    var s, all := states[i], Touched(events, |events|);
    AnonRunAgrees(cfg, states, events, i);
    MissUnindexedAt(cfg, states, events, i);
    Conservation(s);
    OwnedIsIndexed(s);
    assert events[i].key in all && s.index.Keys <= all - {events[i].key};
    SubsetSize(s.index.Keys, all - {events[i].key});
  }

  lemma MissUnindexedAt(cfg: Config, states: seq<State>, events: seq<Event>, i: nat)
    requires AnonRun(cfg, states, events) && i < |events| && events[i].Miss? && ExactAt(states, events, i)
    ensures events[i].key !in states[i].index
  {
    assert StepAt(cfg, states, events, i);
    MissOnlyUnindexed(cfg, states[i], events[i], states[i + 1]);
  }

  /** After a get that returned, the key is in the index and protected. */
  lemma GetProtectsAt(cfg: Config, states: seq<State>, events: seq<Event>, i: nat)
    requires AnonRun(cfg, states, events) && i < |events| && events[i].IsGet() && ExactAt(states, events, i)
    ensures events[i].key in states[i + 1].index
    ensures ProtectedAt(states, i + 1, events[i].key, states[i + 1].index[events[i].key])
  {
    assert StepAt(cfg, states, events, i);
    CallAgreesAt(cfg, states, events, i);
    if events[i].Hit? {
      HitReads(cfg, states[i], events[i], states[i + 1]);
    } else {
      MissIsUncrowded(states, events, i);
      UncrowdedIsStored(cfg, states[i], events[i], states[i + 1]);
      MissProtects(cfg, states[i], events[i], states[i + 1]);
    }
    IndexedIsProtected(states[i + 1], events[i].key);
  }

  lemma AnonSparesAt(cfg: Config, states: seq<State>, events: seq<Event>, i: nat, k: Key, d: Desc)
    requires AnonRun(cfg, states, events) && i < |events| && ExactAt(states, events, i)
    requires |Touched(events, |events|)| <= NUMBER_OF_CHUNKS * states[0].ppc && d.chunk < NUMBER_OF_CHUNKS
    ensures Spares(states[i], events[i], k, d)
  {
    if events[i].Miss? {
      MissHasRoom(cfg, states, events, i);
    }
  }

  /**
   Without lazyfree chunks, a run that touches at most as many keys as the cache has pages, and
   keys that never crowd each other out, never misses a key it has got before and not dropped.
   */
  lemma WorkingSetAlwaysHits(cfg: Config, states: seq<State>, events: seq<Event>, i: nat, j: nat)
    requires AnonRun(cfg, states, events)
    requires |Touched(events, |events|)| <= NUMBER_OF_CHUNKS * states[0].ppc
    requires i < j < |events| && events[i].IsGet() && events[j].IsGet() && events[j].key == events[i].key
    requires forall m :: i < m < j && events[m].key == events[i].key ==> events[m].IsGet()
    ensures events[j].Hit?
  {
    var k := events[i].key;
    AnonRunAgrees(cfg, states, events, i);
    GetProtectsAt(cfg, states, events, i);
    var d := states[i + 1].index[k];
    IndexedSlotInRange(states, events, i, k, d);
    forall m | i + 1 <= m < j ensures LeavesAlone(states, events, m, k, d) {
      AnonRunAgrees(cfg, states, events, m);
      AnonSparesAt(cfg, states, events, m, k, d);
    }
    ProtectedAlong(cfg, states, events, k, d, i + 1, j);
    ProtectedIsFoundAt(cfg, states, events, j, d);
  }

  lemma IndexedSlotInRange(states: seq<State>, events: seq<Event>, i: nat, k: Key, d: Desc)
    requires ProtectedAt(states, i + 1, k, d)
    ensures d.chunk < NUMBER_OF_CHUNKS
  {
    LookupAgrees(states[i + 1], k);
  }
}
