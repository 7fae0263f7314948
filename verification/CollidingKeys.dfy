/** Nine keys with the same last home: the ninth is refilled on every get, and never found. */
module CollidingKeys {
  import opened ProbeTable
  import opened CacheState
  import opened CacheSteps
  import opened CacheSafety
  import opened ProtocolRuns
  import opened FallthroughSteps
  import opened FallthroughRuns
  import opened FallthroughHits
  import opened GetOutcomes

  const EIGHT := HASHMAP_LINEAR_PROBE_LENGTH

  /** Nine different keys with the same last home. */
  ghost predicate Collide(hash: Hasher, keys: seq<Key>) {
    && |keys| == EIGHT + 1
    && (forall i, j :: 0 <= i < j < |keys| ==> keys[i] != keys[j])
    && (forall i :: 0 <= i < |keys| ==> keys[i] != 0 && LastHome(hash, keys[i]) == LastHome(hash, keys[EIGHT]))
  }

  function KeySet(keys: seq<Key>): set<Key> { set k | k in keys }

  lemma {:induction false} KeySetSize(keys: seq<Key>)
    requires forall i, j :: 0 <= i < j < |keys| ==> keys[i] != keys[j]
    ensures |KeySet(keys)| == |keys|
  {
    if |keys| > 0 {
      var n := |keys| - 1;
      KeySetSize(keys[..n]);
      assert KeySet(keys) == KeySet(keys[..n]) + {keys[n]} && keys[n] !in keys[..n];
    }
  }

  /** The first eight are too few to crowd each other out. */
  lemma EarlyKeyFits(hash: Hasher, keys: seq<Key>, n: nat)
    requires Collide(hash, keys) && n < EIGHT
    ensures Uncrowded(hash, KeySet(keys[..n]), keys[n]) && keys[n] !in KeySet(keys[..n])
    ensures KeySet(keys[..n + 1]) == KeySet(keys[..n]) + {keys[n]}
  {
    KeySetSize(keys[..n + 1]);
    assert KeySet(keys[..n + 1]) == KeySet(keys[..n]) + {keys[n]};
    FewKeysSpread(hash, KeySet(keys[..n]), keys[n]);
  }

  /** The ninth collides with the other eight. */
  lemma NinthKeyOverfills(hash: Hasher, keys: seq<Key>)
    requires Collide(hash, keys)
    ensures Overfull(hash, KeySet(keys[..EIGHT]), keys[EIGHT])
  {
    KeySetSize(keys[..EIGHT]);
    assert Colliding(hash, KeySet(keys[..EIGHT]), keys[EIGHT]) == KeySet(keys[..EIGHT]);
  }

  /** The key that call i asks for: each of the first eight once, and then the ninth again and again. */
  function Asked(keys: seq<Key>, i: nat): Key
    requires |keys| == EIGHT + 1
  {
    if i < EIGHT then keys[i] else keys[EIGHT]
  }

  /** Before call i, the index holds the keys asked for so far, up to eight of them. */
  ghost predicate Indexing(s: State, hash: Hasher, ppc: nat, keys: seq<Key>, i: nat)
    requires |keys| == EIGHT + 1
  {
    && Idle(s) && s.hasher == hash && s.ppc == ppc && s.totalFree == NUMBER_OF_CHUNKS * ppc - i
    && s.index.Keys == KeySet(keys[..if i < EIGHT then i else EIGHT])
  }

  lemma MissTakesOne(cfg: Config, s: State, e: Event, t: State)
    requires ConfigOk(cfg) && Idle(s) && e.Miss? && e.key != 0 && MissStep(cfg, s, e, t) && s.totalFree != 0
    ensures t.totalFree == s.totalFree - 1 && t.ppc == s.ppc && t.hasher == s.hasher
  {
    MissAllocates(cfg, s, e, t);
    WriteAllocTakes(MissSite(e), e.key, e.choice, e.stored);
    WalkStopsAtEnd(MissSite(e), |s.chunks|);
    TakenFrame(AllocSite(MissSite(e), e.choice), e.key, e.stored);
  }

  /** A get of a key that is not in the index misses. */
  lemma AskedMisses(cfg: Config, s: State, e: Event, t: State, keys: seq<Key>, i: nat)
    requires ConfigOk(cfg) && Collide(s.hasher, keys) && Indexing(s, s.hasher, s.ppc, keys, i)
    requires e.IsGet() && e.key == Asked(keys, i) && e.key != 0 && FtStep(cfg, s, e, t)
    ensures e.Miss?
  {
    if i < EIGHT { EarlyKeyFits(s.hasher, keys, i); } else { NinthKeyOverfills(s.hasher, keys); }
    GoneIsNotFound(cfg, s, e, t);
  }

  lemma EarlyFills(cfg: Config, s: State, e: Event, t: State, keys: seq<Key>, i: nat)
    requires ConfigOk(cfg) && Collide(s.hasher, keys) && Indexing(s, s.hasher, s.ppc, keys, i) && s.totalFree > 0
    requires i < EIGHT && e.Miss? && e.key == keys[i] && e.key != 0 && MissStep(cfg, s, e, t)
    ensures Indexing(t, s.hasher, s.ppc, keys, i + 1)
  {
    EarlyKeyFits(s.hasher, keys, i);
    UncrowdedIsStored(cfg, s, e, t);
    MissTakesOne(cfg, s, e, t);
    MissIndexes(cfg, s, e, t);
  }

  lemma LateFills(cfg: Config, s: State, e: Event, t: State, keys: seq<Key>, i: nat)
    requires ConfigOk(cfg) && Collide(s.hasher, keys) && Indexing(s, s.hasher, s.ppc, keys, i) && s.totalFree > 0
    requires i >= EIGHT && e.Miss? && e.key == keys[EIGHT] && e.key != 0 && MissStep(cfg, s, e, t)
    ensures Indexing(t, s.hasher, s.ppc, keys, i + 1)
  {
    NinthKeyOverfills(s.hasher, keys);
    MissAllocates(cfg, s, e, t);
    NinthKeyIsNotStored(cfg, s, e, t);
    MissTakesOne(cfg, s, e, t);
  }

  // ---- Runs ----

  /** Gets of the nine keys in turn, and then of the ninth only, as many as the cache has pages at most. */
  ghost predicate AskedRun(cfg: Config, states: seq<State>, events: seq<Event>, keys: seq<Key>) {
    && FtRun(cfg, states, events) && Initial(states[0]) && Collide(states[0].hasher, keys)
    && |events| <= NUMBER_OF_CHUNKS * states[0].ppc && GetsAsked(events, keys)
  }

  ghost predicate GetsAsked(events: seq<Event>, keys: seq<Key>)
    requires |keys| == EIGHT + 1
  {
    forall i :: 0 <= i < |events| ==> events[i].IsGet() && events[i].key == Asked(keys, i)
  }

  ghost predicate IndexingAt(states: seq<State>, keys: seq<Key>, n: nat) {
    n < |states| && |keys| == EIGHT + 1 && Indexing(states[n], states[0].hasher, states[0].ppc, keys, n)
  }

  lemma CallFills(cfg: Config, states: seq<State>, events: seq<Event>, keys: seq<Key>, n: nat)
    requires AskedRun(cfg, states, events, keys) && n < |events| && IndexingAt(states, keys, n)
    ensures events[n].Miss? && IndexingAt(states, keys, n + 1)
  {
    assert StepAt(cfg, states, events, n);
    AskedMisses(cfg, states[n], events[n], states[n + 1], keys, n);
    if n < EIGHT {
      EarlyFills(cfg, states[n], events[n], states[n + 1], keys, n);
    } else {
      LateFills(cfg, states[n], events[n], states[n + 1], keys, n);
    }
  }

  lemma {:induction false} RunFills(cfg: Config, states: seq<State>, events: seq<Event>, keys: seq<Key>, n: nat)
    requires AskedRun(cfg, states, events, keys) && n <= |events|
    ensures IndexingAt(states, keys, n)
  {
    if n == 0 {
      InitialInv(states[0]);
    } else {
      RunFills(cfg, states, events, keys, n - 1);
      CallFills(cfg, states, events, keys, n - 1);
    }
  }

  /**
   In every run from a new cache that gets nine keys with the same last home in turn, and then
   the ninth over and over, every call misses, and the ninth key is never in the index,
   whatever the kernel does.
   */
  lemma NinthKeyNeverHits(cfg: Config, states: seq<State>, events: seq<Event>, keys: seq<Key>, i: nat)
    requires AskedRun(cfg, states, events, keys) && i < |events|
    ensures events[i].Miss? && keys[EIGHT] !in states[i + 1].index
    ensures i >= EIGHT ==> forall k :: k in keys[..EIGHT] ==> k in states[i + 1].index
  {
    RunFills(cfg, states, events, keys, i);
    CallFills(cfg, states, events, keys, i);
    NinthIsNotEarly(keys, states[0].hasher);
  }

  lemma NinthIsNotEarly(keys: seq<Key>, hash: Hasher)
    requires Collide(hash, keys)
    ensures forall n: nat :: n <= EIGHT ==> keys[EIGHT] !in KeySet(keys[..n])
    ensures forall k :: k in keys[..EIGHT] ==> k in KeySet(keys[..EIGHT])
  {
  }

  lemma ExtendAskedRun(cfg: Config, states: seq<State>, events: seq<Event>, keys: seq<Key>, e: Event, s: State)
    requires AskedRun(cfg, states, events, keys) && |events| < NUMBER_OF_CHUNKS * states[0].ppc
    requires e.IsGet() && e.key == Asked(keys, |events|) && FtStep(cfg, states[|events|], e, s)
    ensures AskedRun(cfg, states + [s], events + [e], keys)
  {
    assert Asked(keys, |events|) != 0;
    ExtendFtRun(cfg, states, events, e, s);
    ExtendAsked(events, keys, e);
    assert (states + [s])[0] == states[0];
  }

  lemma ExtendAsked(events: seq<Event>, keys: seq<Key>, e: Event)
    requires |keys| == EIGHT + 1 && GetsAsked(events, keys) && e.IsGet() && e.key == Asked(keys, |events|)
    ensures GetsAsked(events + [e], keys)
  {
  }

  lemma EmptyAskedRun(cfg: Config, s0: State, keys: seq<Key>)
    requires ConfigOk(cfg) && Initial(s0) && Collide(s0.hasher, keys)
    ensures AskedRun(cfg, [s0], [], keys)
  {
  }

  /** There is such a run, of every length up to the number of pages, from every new cache with pages. */
  lemma {:induction false} AskedRunExists(cfg: Config, s0: State, keys: seq<Key>, n: nat)
      returns (states: seq<State>, events: seq<Event>)
    requires ConfigOk(cfg) && Initial(s0) && Collide(s0.hasher, keys) && n <= NUMBER_OF_CHUNKS * s0.ppc
    ensures AskedRun(cfg, states, events, keys) && states[0] == s0 && |events| == n
  {
    if n == 0 {
      states, events := [s0], [];
      EmptyAskedRun(cfg, s0, keys);
    } else {
      states, events := AskedRunExists(cfg, s0, keys, n - 1);
      states, events := OneMoreCall(cfg, states, events, keys);
    }
  }

  lemma OneMoreCall(cfg: Config, states: seq<State>, events: seq<Event>, keys: seq<Key>)
      returns (states': seq<State>, events': seq<Event>)
    requires AskedRun(cfg, states, events, keys) && |events| < NUMBER_OF_CHUNKS * states[0].ppc
    ensures AskedRun(cfg, states', events', keys) && states'[0] == states[0] && |events'| == |events| + 1
  {
    RunFills(cfg, states, events, keys, |events|);
    var e, s := NextMisses(cfg, states[|events|], keys, |events|);
    ExtendAskedRun(cfg, states, events, keys, e, s);
    states', events' := states + [s], events + [e];
  }

  lemma NextMisses(cfg: Config, s: State, keys: seq<Key>, i: nat) returns (e: Event, t: State)
    requires ConfigOk(cfg) && Collide(s.hasher, keys) && Indexing(s, s.hasher, s.ppc, keys, i)
    requires i < NUMBER_OF_CHUNKS * s.ppc
    ensures FtStep(cfg, s, e, t) && e.Miss? && e.key == Asked(keys, i)
  {
    if i < EIGHT { EarlyKeyFits(s.hasher, keys, i); } else { NinthKeyOverfills(s.hasher, keys); }
    e, t := GetMisses(cfg, s, Asked(keys, i), DropOf(0, s.ppc));
  }
}
