/**
 Key 0: `hmap_remove` never clears `key0`, and a released slot carries key 0, so a get of
 key 0 can return another key's bytes. Transparency holds exactly without key 0.
 */
module KeyZero {
  import opened Words
  import opened Options
  import opened ProbeTable
  import opened CacheState
  import opened CacheSteps
  import opened FallthroughSteps
  import opened FallthroughRuns

  // ---- Calls that the kernel does not disturb, computed ----

  /** No slot is found for the key, and the current chunk has a page left. */
  ghost predicate CanMiss(s: State, key: Key) {
    && Shaped(s) && s.wlock.None? && s.mem.evictable == {}
    && HmapGet(s, key).None? && s.totalFree > 0 && AllocCurrent(s).1.Some?
    && (key != 0 ==> InsertionOutcome(s.hasher, s.index.Keys, key, true))
  }

  function MissPage(s: State): Desc
    requires Shaped(s) && AllocCurrent(s).1.Some?
  {
    AllocCurrent(s).1.value
  }

  function AfterLock(s: State, key: Key): (r: State)
    requires Shaped(s) && AllocCurrent(s).1.Some?
    ensures Shaped(r) && r.ppc == s.ppc
  {
    Claim(AllocCurrent(s).0, MissPage(s), key, true)
  }

  function AfterStore(cfg: Config, s: State, key: Key): (r: State)
    requires ConfigOk(cfg) && Shaped(s) && AllocCurrent(s).1.Some?
    ensures Shaped(r) && r.ppc == s.ppc
  {
    var s2 := AfterLock(s, key);
    s2.(mem := StorePage(s2.mem, MissPage(s), EntryPage(cfg, key)))
  }

  function AfterMiss(cfg: Config, s: State, key: Key): (r: State)
    requires ConfigOk(cfg) && Shaped(s) && AllocCurrent(s).1.Some?
    ensures Shaped(r) && r.ppc == s.ppc
  {
    var t := Tail(EntryPage(cfg, key));
    Publish(AfterStore(cfg, s, key), MissPage(s), t, t)
  }

  ghost function MissOf(cfg: Config, s: State, key: Key): Event
    requires ConfigOk(cfg) && Shaped(s) && AllocCurrent(s).1.Some?
  {
    var s2, s3, t := AfterLock(s, key), AfterStore(cfg, s, key), Tail(EntryPage(cfg, key));
    Miss(key, cfg.refill(key), Lock(key, EmptyPage, 0, None, 0), s,
         s.mem, DropOf(0, s.ppc), true, s2, EntryPage(cfg, key), s2.mem, s3, s3.mem, t, t)
  }

  lemma AllocHappens(s: State, key: Key)
    requires CanMiss(s, key)
    ensures AllocStep(s, key, DropOf(0, s.ppc), true, AfterLock(s, key))
  {
    assert MakeRoom(s, DropOf(0, s.ppc)) == s;
    assert Walk(s, |s.chunks|) == AllocCurrent(s);
  }

  lemma LookupHappens(cfg: Config, s: State, key: Key)
    requires ConfigOk(cfg) && CanMiss(s, key)
    ensures LookupStep(s, MissOf(cfg, s, key))
  {
  }

  lemma WriteLockHappens(s: State, key: Key)
    requires CanMiss(s, key)
    ensures WriteLockStep(s, Lock(key, EmptyPage, 0, None, 0), s.mem, DropOf(0, s.ppc), true, AfterLock(s, key))
  {
    AllocHappens(s, key);
  }

  lemma StoreHappens(cfg: Config, s: State, key: Key)
    requires ConfigOk(cfg) && CanMiss(s, key)
    ensures UserStoreStep(AfterLock(s, key), EntryPage(cfg, key), AfterLock(s, key).mem, AfterStore(cfg, s, key))
    ensures Payload(EntryPage(cfg, key), cfg.entrySize) == cfg.refill(key)
  {
  }

  lemma UnlockHappens(cfg: Config, s: State, key: Key)
    requires ConfigOk(cfg) && CanMiss(s, key)
    ensures var s3, t := AfterStore(cfg, s, key), Tail(EntryPage(cfg, key));
            WriteUnlockStep(s3, false, s3.mem, t, t, AfterMiss(cfg, s, key))
  {
    var s3 := AfterStore(cfg, s, key);
    assert s3.(mem := s3.mem) == s3;
    assert Tail(s3.mem.pages[MissPage(s)]) == Tail(EntryPage(cfg, key));
  }

  lemma MissHappens(cfg: Config, s: State, key: Key)
    requires ConfigOk(cfg) && CanMiss(s, key)
    ensures FtStep(cfg, s, MissOf(cfg, s, key), AfterMiss(cfg, s, key))
  {
    LookupHappens(cfg, s, key);
    WriteLockHappens(s, key);
    StoreHappens(cfg, s, key);
    UnlockHappens(cfg, s, key);
  }

  /** The index leads to slot d, which carries the key and an intact page. */
  ghost predicate CanHit(s: State, key: Key, d: Desc) {
    && Shaped(s) && s.wlock.None? && s.mem.evictable == {}
    && HmapGet(s, key) == Some(d) && InRange(s.ppc, d) && SlotKey(s, d) == key && Odd(Tail(SlotPage(s, d)))
  }

  lemma DropHappens(cfg: Config, s: State, key: Key, d: Desc)
    requires ConfigOk(cfg) && CanHit(s, key, d)
    ensures FtStep(cfg, s, Dropped(key, LockOn(s, key, d), s, true), CacheDrop(s, d))
  {
    assert s.(mem := s.mem) == s;
  }

  /** The bytes a hit of slot d gives. */
  function Entry(s: State, d: Desc, n: nat): seq<byte>
    requires Shaped(s) && InRange(s.ppc, d) && n <= PAGE_SIZE
  {
    Payload(Decoded(SlotPage(s, d), SlotBit(s, d)), n)
  }

  lemma HitHappens(cfg: Config, s: State, key: Key, d: Desc)
    requires ConfigOk(cfg) && CanHit(s, key, d)
    ensures FtStep(cfg, s, Hit(key, Entry(s, d, cfg.entrySize), LockOn(s, key, d), s), s)
  {
    assert s.(mem := s.mem) == s;
  }

  /** What a miss stores and publishes is an entry that reads as the refill value. */
  lemma EntryReadsBack(cfg: Config, key: Key)
    requires ConfigOk(cfg)
    ensures var pg, t := EntryPage(cfg, key), Tail(EntryPage(cfg, key));
            var published := WithTail(pg, Marked(t));
            && Odd(Tail(published)) && Payload(Decoded(published, Odd(t)), cfg.entrySize) == cfg.refill(key)
  {
    var pg, t := EntryPage(cfg, key), Tail(EntryPage(cfg, key));
    StolenBitRoundTrip(t);
    assert WithTail(WithTail(pg, Marked(t)), t) == pg;
    assert Payload(pg, cfg.entrySize) == cfg.refill(key);
  }

  lemma LockedShape(s: State, key: Key)
    requires CanMiss(s, key)
    ensures var s2, d := AfterLock(s, key), MissPage(s);
            && s2.mem == s.mem && SlotKey(s2, d) == key && HmapGet(s2, key) == Some(d)
            && d.chunk == s.current == s2.current && s2.totalFree == s.totalFree - 1
            && HmapPut(s, key, d, true) == s.(key0 := s2.key0, index := s2.index)
  {
  }

  /** After a miss the key's entry is in the page taken. */
  lemma AfterMissShape(cfg: Config, s: State, key: Key)
    requires ConfigOk(cfg) && CanMiss(s, key)
    ensures var s', d := AfterMiss(cfg, s, key), MissPage(s);
            && CanHit(s', key, d) && Entry(s', d, cfg.entrySize) == cfg.refill(key)
            && d.chunk == s.current == s'.current && s'.totalFree == s.totalFree - 1
            && HmapPut(s, key, d, true) == s.(key0 := s'.key0, index := s'.index)
  {
    LockedShape(s, key);
    EntryReadsBack(cfg, key);
  }

  /** After a drop the page is the next to be taken, key0 is as before, and the page still holds the entry. */
  lemma AfterDropShape(s: State, key: Key, d: Desc)
    requires CanHit(s, key, d) && d.chunk == s.current
    ensures var s' := CacheDrop(s, d);
            && AllocCurrent(s').1 == Some(d) && s'.current == s.current && s'.totalFree == s.totalFree + 1
            && s'.wlock == s.wlock && s'.mem == s.mem && s'.key0 == s.key0 && s'.index == s.index - {key}
            && SlotKey(s', d) == 0 && SlotBit(s', d) == SlotBit(s, d)
  {
  }

  /** Slot d was released, and is the next to be taken; its page still holds an entry of the given key. */
  ghost predicate FreedLast(cfg: Config, s: State, d: Desc, key: Key)
    requires ConfigOk(cfg)
  {
    && Shaped(s) && s.wlock.None? && s.mem.evictable == {} && s.totalFree > 0
    && AllocCurrent(s).1 == Some(d) && InRange(s.ppc, d) && SlotKey(s, d) == 0
    && Odd(Tail(SlotPage(s, d))) && Entry(s, d, cfg.entrySize) == cfg.refill(key)
  }

  function AfterRound(cfg: Config, s: State, key: Key): (r: State)
    requires ConfigOk(cfg) && Shaped(s) && AllocCurrent(s).1.Some?
    ensures Shaped(r) && r.ppc == s.ppc
  {
    CacheDrop(AfterMiss(cfg, s, key), MissPage(s))
  }

  lemma RoundReleases(cfg: Config, s: State, key: Key)
    requires ConfigOk(cfg) && CanMiss(s, key)
    ensures var s2, d := AfterRound(cfg, s, key), MissPage(s);
            && FreedLast(cfg, s2, d, key)
            && s2.key0 == (if key == 0 then Some(d) else s.key0)
            && s2.index.Keys <= s.index.Keys && s2.hasher == s.hasher
  {
    AfterMissShape(cfg, s, key);
    AfterDropShape(AfterMiss(cfg, s, key), key, MissPage(s));
  }

  /** A get that misses, and a drop. */
  lemma RoundHappens(cfg: Config, s: State, key: Key)
    requires ConfigOk(cfg) && CanMiss(s, key)
    ensures var s1, s2, d := AfterMiss(cfg, s, key), AfterRound(cfg, s, key), MissPage(s);
            && FtStep(cfg, s, MissOf(cfg, s, key), s1)
            && FtStep(cfg, s1, Dropped(key, LockOn(s1, key, d), s1, true), s2)
  {
    MissHappens(cfg, s, key);
    AfterMissShape(cfg, s, key);
    DropHappens(cfg, AfterMiss(cfg, s, key), key, MissPage(s));
  }

  // ---- Runs on any keys ----

  ghost predicate RawStepAt(cfg: Config, states: seq<State>, events: seq<Event>, i: nat)
    requires ConfigOk(cfg) && i < |events| && |states| == |events| + 1
  {
    FtStep(cfg, states[i], events[i], states[i + 1])
  }

  /** Completed calls on keys of the given set. */
  ghost predicate RunOn(cfg: Config, keys: set<Key>, states: seq<State>, events: seq<Event>) {
    && ConfigOk(cfg) && |states| == |events| + 1
    && (forall i :: 0 <= i < |events| ==> RawStepAt(cfg, states, events, i))
    && (forall i :: 0 <= i < |events| ==> events[i].key in keys)
  }

  /** Every get of the run gives its key's refill value. */
  ghost predicate Transparent(cfg: Config, events: seq<Event>) {
    forall i :: 0 <= i < |events| && events[i].IsGet() ==> events[i].value == cfg.refill(events[i].key)
  }

  lemma ExtendRun(cfg: Config, keys: set<Key>, states: seq<State>, events: seq<Event>, e: Event, s: State)
    requires RunOn(cfg, keys, states, events) && e.key in keys && FtStep(cfg, states[|events|], e, s)
    ensures RunOn(cfg, keys, states + [s], events + [e])
  {
    forall i | 0 <= i < |events| + 1 ensures RawStepAt(cfg, states + [s], events + [e], i) {
      assert i < |events| ==> RawStepAt(cfg, states, events, i);
    }
  }

  /** A run continued by a get that misses, and a drop. */
  lemma ExtendByRound(cfg: Config, keys: set<Key>, states: seq<State>, events: seq<Event>, key: Key)
      returns (states': seq<State>, events': seq<Event>)
    requires RunOn(cfg, keys, states, events) && key in keys && CanMiss(states[|events|], key)
    ensures RunOn(cfg, keys, states', events') && states'[0] == states[0] && |events'| == |events| + 2
    ensures var s, s' := states[|events|], states'[|events'|];
            && Shaped(s) && FreedLast(cfg, s', MissPage(s), key)
            && s'.key0 == (if key == 0 then Some(MissPage(s)) else s.key0)
            && s'.index.Keys <= s.index.Keys && s'.hasher == s.hasher
  {
    var s := states[|events|];
    var s1, s2, d := AfterMiss(cfg, s, key), AfterRound(cfg, s, key), MissPage(s);
    RoundHappens(cfg, s, key);
    RoundReleases(cfg, s, key);
    states', events' := states + [s1], events + [MissOf(cfg, s, key)];
    ExtendRun(cfg, keys, states, events, MissOf(cfg, s, key), s1);
    ExtendRun(cfg, keys, states', events', Dropped(key, LockOn(s1, key, d), s1, true), s2);
    states', events' := states' + [s2], events' + [Dropped(key, LockOn(s1, key, d), s1, true)];
  }

  /** Get 0, drop 0, get k, drop k, get 0: the last get gives k's bytes. */
  lemma KeyZeroReadsAnotherKey(cfg: Config, s0: State, k: Key) returns (states: seq<State>, events: seq<Event>)
    requires ConfigOk(cfg) && Initial(s0) && s0.ppc > 0 && k != 0
    ensures RunOn(cfg, {0, k}, states, events) && states[0] == s0
    ensures |events| == 5 && events[4].Hit? && events[4].key == 0 && events[4].value == cfg.refill(k)
  {
    var d := MissPage(s0);
    states, events := ExtendByRound(cfg, {0, k}, [s0], [], 0);
    FewKeysSpread(s0.hasher, {}, k);
    states, events := ExtendByRound(cfg, {0, k}, states, events, k);
    var s := states[|events|];
    var e := Hit(0, Entry(s, d, cfg.entrySize), LockOn(s, 0, d), s);
    HitHappens(cfg, s, 0, d);
    ExtendRun(cfg, {0, k}, states, events, e, s);
    states, events := states + [s], events + [e];
  }

  lemma WithoutKeyZeroIsTransparent(cfg: Config, keys: set<Key>, states: seq<State>, events: seq<Event>)
    requires RunOn(cfg, keys, states, events) && Initial(states[0]) && 0 !in keys
    ensures Transparent(cfg, events)
  {
    forall i | 0 <= i < |events| ensures StepAt(cfg, states, events, i) {
      assert RawStepAt(cfg, states, events, i);
    }
    forall i | 0 <= i < |events| && events[i].IsGet() ensures events[i].value == cfg.refill(events[i].key) {
      Transparency(cfg, states, events, i);
    }
  }

  /**
   Which keys the fallthrough cache is transparent for: given a key that refills differently
   from key 0, every run from a new cache is transparent if and only if key 0 is not used.
   */
  lemma TransparentIffWithoutKeyZero(cfg: Config, s0: State, keys: set<Key>, k: Key)
    requires ConfigOk(cfg) && Initial(s0) && s0.ppc > 0
    requires k in keys && k != 0 && cfg.refill(k) != cfg.refill(0)
    ensures (forall states: seq<State>, events: seq<Event> ::
               RunOn(cfg, keys, states, events) && states[0] == s0 ==> Transparent(cfg, events))
            <==> 0 !in keys
  {
    if 0 in keys {
      var states, events := KeyZeroReadsAnotherKey(cfg, s0, k);
      assert RunOn(cfg, keys, states, events) && !Transparent(cfg, events);
    } else {
      forall states: seq<State>, events: seq<Event> | RunOn(cfg, keys, states, events) && states[0] == s0
        ensures Transparent(cfg, events)
      {
        WithoutKeyZeroIsTransparent(cfg, keys, states, events);
      }
    }
  }
}
