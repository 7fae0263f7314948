/** Runs of the fallthrough cache: when a key is found again, and when it must be refilled. */
module FallthroughHits {
  import opened Options
  import opened ProbeTable
  import opened CacheState
  import opened CacheSteps
  import opened CacheInvariant
  import opened CacheSafety
  import opened Publication
  import opened FallthroughSteps
  import opened FallthroughRuns

  // ---- A dropped key is refilled ----

  lemma MissLeavesOthers(cfg: Config, s: State, e: Event, s': State)
    requires ConfigOk(cfg) && Idle(s) && e.Miss? && e.key != 0 && MissStep(cfg, s, e, s')
    ensures Idle(s') && OthersKept(s, s', e.key)
  {
    MissAllocates(cfg, s, e, s');
    MissFills(cfg, s, e, s');
    WriteAllocKeeps(MissSite(e), e.key, e.choice, e.stored);
  }

  lemma CallLeavesOthers(cfg: Config, s: State, e: Event, s': State)
    requires ConfigOk(cfg) && Idle(s) && e.key != 0 && FtStep(cfg, s, e, s')
    ensures Idle(s') && OthersKept(s, s', e.key)
  {
    match e
    case Hit(_, _, _, _) => HitReads(cfg, s, e, s'); ReclaimKeeps(s, s', e.key);
    case Miss(_, _, _, _, _, _, _, _, _, _, _, _, _, _) =>
      MissLeavesOthers(cfg, s, e, s');
    case Dropped(_, _, _, _) => DropReleases(s, e, s');
    case NotFound(key, l) => ReadLockKeeps(s, key, l, s');
  }

  /** A lookup of the key finds no slot, or one whose page was evicted. */
  ghost predicate Gone(s: State, k: Key)
    requires Shaped(s)
  {
    k !in s.index || Tail(SlotPage(s, s.index[k])) == 0
  }

  lemma DropMakesGone(cfg: Config, s: State, e: Event, s': State)
    requires ConfigOk(cfg) && Idle(s) && e.IsDrop() && e.key != 0 && FtStep(cfg, s, e, s')
    ensures Idle(s') && Gone(s', e.key)
  {
    CallLeavesOthers(cfg, s, e, s');
    if e.Dropped? {
      DropReleases(s, e, s');
    } else if e.key in s.index {
      LookupAgrees(s, e.key);
    }
  }

  lemma GoneStays(cfg: Config, s: State, e: Event, s': State, k: Key)
    requires ConfigOk(cfg) && Idle(s) && e.key != 0 && FtStep(cfg, s, e, s') && k != e.key && Gone(s, k)
    ensures Idle(s') && Gone(s', k)
  {
    CallLeavesOthers(cfg, s, e, s');
    if k in s'.index {
      LookupAgrees(s', k);
    }
  }

  lemma GoneLookupFails(s: State, key: Key, l: Lock, s1: State)
    requires Idle(s) && key != 0 && Gone(s, key) && ReadLockStep(s, key, l, s1)
    ensures l.head == EmptyPage
  {
    if key in s.index { LookupAgrees(s, key); }
  }

  lemma GoneIsNotFound(cfg: Config, s: State, e: Event, s': State)
    requires ConfigOk(cfg) && Idle(s) && e.key != 0 && FtStep(cfg, s, e, s') && Gone(s, e.key)
    ensures e.Miss? || e.NotFound?
  {
    match e
    case Hit(key, _, l, s1) => GoneLookupFails(s, key, l, s1);
    case Dropped(key, l, s1, _) => GoneLookupFails(s, key, l, s1);
    case _ =>
  }

  ghost predicate GoneAt(states: seq<State>, i: nat, k: Key) {
    i < |states| && Idle(states[i]) && Gone(states[i], k)
  }

  lemma GoneStaysAt(cfg: Config, states: seq<State>, events: seq<Event>, k: Key, i: nat)
    requires FtRun(cfg, states, events) && i < |events|
    requires events[i].key != k && GoneAt(states, i, k)
    ensures GoneAt(states, i + 1, k)
  {
    assert StepAt(cfg, states, events, i);
    GoneStays(cfg, states[i], events[i], states[i + 1], k);
  }

  lemma {:induction false} GoneAlong(cfg: Config, states: seq<State>, events: seq<Event>, k: Key, i: nat, n: nat)
    requires FtRun(cfg, states, events) && i <= n <= |events|
    requires forall m :: i <= m < n ==> events[m].key != k
    requires GoneAt(states, i, k)
    ensures GoneAt(states, n, k)
    decreases n
  {
    if i < n {
      GoneAlong(cfg, states, events, k, i, n - 1);
      GoneStaysAt(cfg, states, events, k, n - 1);
    }
  }

  lemma DropMakesGoneAt(cfg: Config, states: seq<State>, events: seq<Event>, i: nat)
    requires FtRun(cfg, states, events) && i < |events|
    requires events[i].IsDrop() && ContentAt(cfg, states, i)
    ensures GoneAt(states, i + 1, events[i].key)
  {
    assert StepAt(cfg, states, events, i);
    DropMakesGone(cfg, states[i], events[i], states[i + 1]);
  }

  lemma GoneIsNotFoundAt(cfg: Config, states: seq<State>, events: seq<Event>, i: nat)
    requires FtRun(cfg, states, events) && i < |events|
    requires GoneAt(states, i, events[i].key)
    ensures events[i].Miss? || events[i].NotFound?
  {
    assert StepAt(cfg, states, events, i);
    GoneIsNotFound(cfg, states[i], events[i], states[i + 1]);
  }

  /** After a drop of k, with either result, the next call for k does not find it, whatever other keys do meanwhile. */
  lemma DropEffect(cfg: Config, states: seq<State>, events: seq<Event>, i: nat, j: nat)
    requires FtRun(cfg, states, events) && Initial(states[0])
    requires i < j < |events| && events[i].IsDrop() && events[j].key == events[i].key
    requires forall m :: i < m < j ==> events[m].key != events[i].key
    ensures events[j].Miss? || events[j].NotFound?
  {
    RunKeepsContent(cfg, states, events, i);
    DropMakesGoneAt(cfg, states, events, i);
    GoneAlong(cfg, states, events, events[i].key, i + 1, j);
    GoneIsNotFoundAt(cfg, states, events, j);
  }

  // ---- A key out of the kernel's reach is found ----

  /** The index leads to an intact page that is not reclaimable. */
  ghost predicate Protected(s: State, k: Key)
    requires Shaped(s)
  {
    k in s.index && s.index[k] !in s.mem.evictable && Tail(SlotPage(s, s.index[k])) != 0
  }

  lemma ProtectedLookup(s: State, key: Key, l: Lock, s1: State)
    requires Idle(s) && Protected(s, key) && ReadLockStep(s, key, l, s1) && Shaped(s1) && LockShaped(s1, l)
    ensures !CheckFails(s1, l)
  {
    LookupAgrees(s, key);
    assert s1.mem.pages[s.index[key]] == s.mem.pages[s.index[key]];
  }

  lemma ProtectedIsFound(cfg: Config, s: State, e: Event, s': State)
    requires ConfigOk(cfg) && Idle(s) && e.key != 0 && FtStep(cfg, s, e, s') && Protected(s, e.key)
    ensures e.Hit? || e.Dropped?
  {
    match e
    case Miss(key, _, l, s1, _, _, _, _, _, _, _, _, _, _) => ProtectedLookup(s, key, l, s1);
    case NotFound(key, l) => ProtectedLookup(s, key, l, s');
    case _ =>
  }

  lemma MissIndexes(cfg: Config, s: State, e: Event, s': State)
    requires ConfigOk(cfg) && Idle(s) && e.Miss? && e.key != 0 && MissStep(cfg, s, e, s')
    ensures Idle(s') && Shaped(MissSite(e)) && ChoiceOk(MissSite(e), e.choice) && MissSlot(e).Some?
    ensures s'.index == Indexed(MakeRoom(MissSite(e), e.choice).index, e)
    ensures s.totalFree > 0 ==> s'.index == Indexed(s.index, e)
  {
    MissAllocates(cfg, s, e, s');
    MissFills(cfg, s, e, s');
    AllocIndexes(MissSite(e), e.key, e.choice, e.stored);
  }

  ghost function Indexed(index: map<Key, Desc>, e: Event): map<Key, Desc>
    requires e.Miss? && Shaped(MissSite(e)) && ChoiceOk(MissSite(e), e.choice) && MissSlot(e).Some?
  {
    if e.stored then index[e.key := MissSlot(e).value] else index
  }

  lemma AllocIndexes(s: State, key: Key, choice: Choice, stored: bool)
    requires Idle(s) && key != 0 && ChoiceOk(s, choice) && WriteAlloc(s, key, choice, stored).1.Some?
    ensures var s', d := WriteAlloc(s, key, choice, stored).0, WriteAlloc(s, key, choice, stored).1.value;
            var index := MakeRoom(s, choice).index;
            s'.index == (if stored then index[key := d] else index) && (s.totalFree > 0 ==> index == s.index)
  {
    WriteAllocTakes(s, key, choice, stored);
    WalkStopsAtEnd(MakeRoom(s, choice), |s.chunks|);
    TakenFrame(AllocSite(s, choice), key, stored);
  }

  lemma MissProtects(cfg: Config, s: State, e: Event, s': State)
    requires ConfigOk(cfg) && Idle(s) && e.Miss? && e.stored && e.key != 0 && MissStep(cfg, s, e, s')
    ensures Idle(s') && Protected(s', e.key)
  {
    MissIndexes(cfg, s, e, s');
    MissFills(cfg, s, e, s');
    assert Odd(Tail(SlotPage(s', MissSlot(e).value)));
  }

  /** A key that the indexed ones cannot crowd out is indexed when it is refilled. */
  lemma UncrowdedIsStored(cfg: Config, s: State, e: Event, s': State)
    requires ConfigOk(cfg) && Idle(s) && e.Miss? && e.key != 0 && MissStep(cfg, s, e, s')
    requires Uncrowded(s.hasher, s.index.Keys, e.key)
    ensures e.stored
  {
    MissAllocates(cfg, s, e, s');
    FewerKeysUncrowded(s.hasher, KeysAtPut(MissSite(e), e.choice), s.index.Keys, e.key);
  }

  /** A key that collides with eight others in the index is refilled without being indexed. */
  lemma NinthKeyIsNotStored(cfg: Config, s: State, e: Event, s': State)
    requires ConfigOk(cfg) && Idle(s) && e.Miss? && e.key != 0 && MissStep(cfg, s, e, s')
    requires ChoiceOk(s, e.choice) && Overfull(s.hasher, KeysAtPut(s, e.choice), e.key)
    ensures Idle(s') && !e.stored && s'.index == MakeRoom(s, e.choice).index
  {
    MissAllocates(cfg, s, e, s');
    MissIndexes(cfg, s, e, s');
    assert MakeRoom(MissSite(e), e.choice).index == MakeRoom(s, e.choice).index;
  }

  /** So the next get of that key misses again. */
  lemma NinthKeyMissesAgain(cfg: Config, s: State, e: Event, t: State, e': Event, t': State)
    requires ConfigOk(cfg) && Idle(s) && e.Miss? && e.key != 0 && MissStep(cfg, s, e, t)
    requires ChoiceOk(s, e.choice) && Overfull(s.hasher, KeysAtPut(s, e.choice), e.key)
    requires e'.IsGet() && e'.key == e.key && FtStep(cfg, t, e', t')
    ensures e'.Miss?
  {
    NinthKeyIsNotStored(cfg, s, e, t);
    GoneIsNotFound(cfg, t, e', t');
  }

  /**
   The call leaves key k in slot d alone: it drops neither d's chunk nor one with a slot of k,
   and leaves d's chunk behind only if the kernel cannot reclaim from it.
   */
  ghost predicate Spares(s: State, e: Event, k: Key, d: Desc) {
    Shaped(s) && e.Miss? && Shaped(MissSite(e)) && ChoiceOk(MissSite(e), e.choice) ==>
      && (s.totalFree == 0 ==> DropSpares(s, e.choice.victim, k, d))
      && (d.chunk in Leaves(MissSite(e), e.choice) ==> d.chunk < |s.chunks| && s.chunks[d.chunk].kind != LazyFree)
  }

  ghost predicate DropSpares(s: State, victim: nat, k: Key, d: Desc)
    requires Shaped(s) && victim < NUMBER_OF_CHUNKS
  {
    d.chunk != victim && k !in KeysBelow(s.chunks[victim].keys, s.chunks[victim].len)
  }

  lemma AllocSparesPage(s: State, key: Key, choice: Choice, stored: bool, d: Desc)
    requires Idle(s) && key != 0 && ChoiceOk(s, choice) && WriteAlloc(s, key, choice, stored).1.Some?
    requires Live(s, d) && d !in s.mem.evictable && (s.totalFree == 0 ==> d.chunk != choice.victim)
    requires d.chunk in Leaves(s, choice) ==> s.chunks[d.chunk].kind != LazyFree
    ensures var s' := WriteAlloc(s, key, choice, stored).0;
            && s'.wlock.Some? && s'.wlock.value.desc != d
            && d in s'.mem.pages && s'.mem.pages[d] == s.mem.pages[d] && d !in s'.mem.evictable
  {
    WriteAllocMemory(s, key, choice, stored);
    FallbackIsFresh(s, key, choice, stored);
  }

  /** A page that is not reclaimable outlives an allocation for another key. */
  lemma MissAllocSpares(cfg: Config, s: State, e: Event, s': State, k: Key, d: Desc)
    requires ConfigOk(cfg) && Idle(s) && e.Miss? && e.key != 0 && MissStep(cfg, s, e, s')
    requires Live(s, d) && SlotKey(s, d) != e.key && d !in s.mem.evictable && Spares(s, e, k, d)
    ensures Shaped(MissSite(e)) && ChoiceOk(MissSite(e), e.choice) && MissSlot(e).Some? && MissSlot(e).value != d
    ensures d in e.s2.mem.pages && e.s2.mem.pages[d] == s.mem.pages[d] && d !in e.s2.mem.evictable
  {
    MissAllocates(cfg, s, e, s');
    MissSiteSpares(s, e, d);
    assert Live(MissSite(e), d);
    AllocSparesPage(MissSite(e), e.key, e.choice, e.stored, d);
    TakesItsSlot(MissSite(e), e.key, e.choice, e.stored);
  }

  lemma TakesItsSlot(s: State, key: Key, choice: Choice, stored: bool)
    requires Idle(s) && key != 0 && ChoiceOk(s, choice) && WriteAlloc(s, key, choice, stored).1.Some?
    ensures WriteAlloc(s, key, choice, stored).0.wlock == Some(WLock(WriteAlloc(s, key, choice, stored).1.value, key))
  {
  }

  /** The index still leads the key to its slot when the insertion is made. */
  lemma MakeRoomSpares(s: State, choice: Choice, k: Key)
    requires Shaped(s) && ChoiceOk(s, choice) && k in s.index
    requires s.totalFree == 0 ==> DropSpares(s, choice.victim, k, s.index[k])
    ensures var index := MakeRoom(s, choice).index; k in index && index[k] == s.index[k]
  {
  }

  /** A protected key outlives a miss of another key. */
  lemma MissKeepsProtected(cfg: Config, s: State, e: Event, s': State, k: Key)
    requires ConfigOk(cfg) && Idle(s) && e.Miss? && e.key != 0 && MissStep(cfg, s, e, s')
    requires Protected(s, k) && e.key != k && Spares(s, e, k, s.index[k])
    ensures Idle(s') && Protected(s', k) && s'.index[k] == s.index[k]
  {
    LookupAgrees(s, k);
    MissAllocSpares(cfg, s, e, s', k, s.index[k]);
    MissAllocates(cfg, s, e, s');
    MakeRoomSpares(MissSite(e), e.choice, k);
    MissIndexes(cfg, s, e, s');
    MissFills(cfg, s, e, s');
    PageSurvives(s, k, e.key, MakeRoom(MissSite(e), e.choice).index, MissSlot(e).value, e.stored, e.s2.mem, s');
  }

  lemma PageSurvives(s: State, k: Key, key: Key, index: map<Key, Desc>, slot: Desc, stored: bool, m: Mem, s': State)
    requires Shaped(s) && Shaped(s') && Protected(s, k) && k != key
    requires k in index && index[k] == s.index[k] && s'.index == if stored then index[key := slot] else index
    requires var d := s.index[k]; d in m.pages && m.pages[d] == SlotPage(s, d) && d !in m.evictable && d != slot
    requires SamePagesBut(m, s'.mem, {slot})
    ensures Protected(s', k) && s'.index[k] == s.index[k]
  {
  }

  lemma ReclaimKeepsProtected(s: State, s': State, k: Key)
    requires Idle(s) && Reclaims(s, s') && Protected(s, k)
    ensures Idle(s') && Protected(s', k) && s'.index[k] == s.index[k]
  {
    ReclaimKeeps(s, s', 0);
  }

  lemma ReleaseSpares(s: State, s': State, q: Key, k: Key)
    requires Shaped(s) && Shaped(s') && Protected(s, k) && k != q
    requires s'.index == s.index - {q} && Evicts(s.mem, s'.mem)
    ensures Protected(s', k) && s'.index[k] == s.index[k]
  {
  }

  lemma DropKeepsProtected(s: State, e: Event, s': State, k: Key)
    requires Idle(s) && e.Dropped? && e.key != 0 && DropStep(s, e, s')
    requires Protected(s, k) && e.key != k
    ensures Idle(s') && Protected(s', k) && s'.index[k] == s.index[k]
  {
    DropReleases(s, e, s');
    ReleaseSpares(s, s', e.key, k);
  }

  lemma ProtectedStays(cfg: Config, s: State, e: Event, s': State, k: Key)
    requires ConfigOk(cfg) && Idle(s) && e.key != 0 && FtStep(cfg, s, e, s')
    requires Protected(s, k) && (e.key == k ==> e.IsGet()) && Spares(s, e, k, s.index[k])
    ensures Idle(s') && Protected(s', k) && s'.index[k] == s.index[k]
  {
    if e.key == k { ProtectedIsFound(cfg, s, e, s'); }
    if e.Hit? {
      HitReads(cfg, s, e, s');
      ReclaimKeepsProtected(s, s', k);
    } else if e.NotFound? {
      ReclaimKeepsProtected(s, s', k);
    } else if e.Miss? {
      MissKeepsProtected(cfg, s, e, s', k);
    } else {
      DropKeepsProtected(s, e, s', k);
    }
  }

  /** The i-th call leaves key k, at slot d, alone: it is no drop of k, and spares slot d. */
  ghost predicate LeavesAlone(states: seq<State>, events: seq<Event>, i: nat, k: Key, d: Desc)
    requires i < |events| && |states| == |events| + 1
  {
    (events[i].key == k ==> events[i].IsGet()) && Spares(states[i], events[i], k, d)
  }

  ghost predicate ProtectedAt(states: seq<State>, i: nat, k: Key, d: Desc) {
    i < |states| && Idle(states[i]) && Protected(states[i], k) && states[i].index[k] == d
  }

  lemma ProtectedStaysAt(cfg: Config, states: seq<State>, events: seq<Event>, k: Key, d: Desc, i: nat)
    requires FtRun(cfg, states, events) && i < |events|
    requires LeavesAlone(states, events, i, k, d) && ProtectedAt(states, i, k, d)
    ensures ProtectedAt(states, i + 1, k, d)
  {
    assert StepAt(cfg, states, events, i);
    ProtectedStays(cfg, states[i], events[i], states[i + 1], k);
  }

  lemma {:induction false} ProtectedAlong(cfg: Config, states: seq<State>, events: seq<Event>,
      k: Key, d: Desc, i: nat, n: nat)
    requires FtRun(cfg, states, events) && i <= n <= |events|
    requires ProtectedAt(states, i, k, d)
    requires forall m :: i <= m < n ==> LeavesAlone(states, events, m, k, d)
    ensures ProtectedAt(states, n, k, d)
    decreases n
  {
    if i < n {
      ProtectedAlong(cfg, states, events, k, d, i, n - 1);
      ProtectedStaysAt(cfg, states, events, k, d, n - 1);
    }
  }

  lemma ProtectedIsFoundAt(cfg: Config, states: seq<State>, events: seq<Event>, i: nat, d: Desc)
    requires FtRun(cfg, states, events) && i < |events|
    requires ProtectedAt(states, i, events[i].key, d)
    ensures events[i].Hit? || events[i].Dropped?
  {
    assert StepAt(cfg, states, events, i);
    ProtectedIsFound(cfg, states[i], events[i], states[i + 1]);
  }

  /** After the refill of an uncrowded key, the key is protected, in the slot that was filled. */
  lemma MissProtectsAt(cfg: Config, states: seq<State>, events: seq<Event>, i: nat)
    requires FtRun(cfg, states, events) && i < |events| && ContentAt(cfg, states, i) && events[i].Miss?
    requires Uncrowded(states[i].hasher, states[i].index.Keys, events[i].key)
    ensures events[i].key in states[i + 1].index
    ensures ProtectedAt(states, i + 1, events[i].key, states[i + 1].index[events[i].key])
  {
    assert StepAt(cfg, states, events, i);
    UncrowdedIsStored(cfg, states[i], events[i], states[i + 1]);
    MissProtects(cfg, states[i], events[i], states[i + 1]);
  }

  /**
   A key refilled into slot d, while the indexed keys cannot crowd it out, keeps hitting
   until it is dropped, as long as no chunk with a slot of the key is dropped, and d's
   chunk, if lazyfree, is not left behind.
   */
  lemma RefilledKeyHits(cfg: Config, states: seq<State>, events: seq<Event>, i: nat, j: nat, k: Key, d: Desc)
    requires FtRun(cfg, states, events) && Initial(states[0])
    requires i < j < |events| && events[i].Miss? && events[i].key == k && events[j].IsGet() && events[j].key == k
    requires Uncrowded(states[i].hasher, states[i].index.Keys, k)
    requires k in states[i + 1].index ==> states[i + 1].index[k] == d
    requires forall m :: i < m < j ==> LeavesAlone(states, events, m, k, d)
    ensures events[j].Hit?
  {
    RunKeepsContent(cfg, states, events, i);
    MissProtectsAt(cfg, states, events, i);
    ProtectedAlong(cfg, states, events, k, d, i + 1, j);
    ProtectedIsFoundAt(cfg, states, events, j, d);
  }
}
