/** Runs of the fallthrough cache: it is invisible, whatever the kernel does. */
module FallthroughRuns {
  import opened Options
  import opened CacheState
  import opened CacheSteps
  import opened CacheSafety
  import opened ProtocolRuns
  import opened FallthroughSteps

  ghost predicate StepAt(cfg: Config, states: seq<State>, events: seq<Event>, i: nat)
    requires ConfigOk(cfg) && i < |events| && |states| == |events| + 1
  {
    events[i].key != 0 && FtStep(cfg, states[i], events[i], states[i + 1])
  }

  /** Completed calls, on keys other than 0. */
  ghost predicate FtRun(cfg: Config, states: seq<State>, events: seq<Event>) {
    && ConfigOk(cfg) && |states| == |events| + 1
    && forall i :: 0 <= i < |events| ==> StepAt(cfg, states, events, i)
  }

  lemma ExtendFtRun(cfg: Config, states: seq<State>, events: seq<Event>, e: Event, s: State)
    requires FtRun(cfg, states, events) && e.key != 0 && FtStep(cfg, states[|events|], e, s)
    ensures FtRun(cfg, states + [s], events + [e])
  {
    forall i | 0 <= i < |events| + 1 ensures StepAt(cfg, states + [s], events + [e], i) {
      if i < |events| {
        assert StepAt(cfg, states, events, i);
        SameStepAt(cfg, states, events, e, s, i);
      }
    }
  }

  lemma SameStepAt(cfg: Config, states: seq<State>, events: seq<Event>, e: Event, s: State, i: nat)
    requires ConfigOk(cfg) && |states| == |events| + 1 && i < |events| && StepAt(cfg, states, events, i)
    ensures StepAt(cfg, states + [s], events + [e], i)
  {
    var ss, es := states + [s], events + [e];
    assert ss[i] == states[i] && ss[i + 1] == states[i + 1] && es[i] == events[i];
  }

  // ---- Transparency ----

  /** Every slot in use holds its key's refill value, or was evicted. Stale slots included. */
  ghost predicate Content(cfg: Config, s: State)
    requires ConfigOk(cfg) && Shaped(s)
  {
    forall d :: Live(s, d) && SlotPage(s, d) != ZERO_PAGE ==>
      Payload(Decoded(SlotPage(s, d), SlotBit(s, d)), cfg.entrySize) == cfg.refill(SlotKey(s, d))
  }

  lemma ContentKept(cfg: Config, s: State, t: State, d: Desc)
    requires ConfigOk(cfg) && Shaped(s) && Shaped(t) && Content(cfg, s) && KeptBut(s, t, d)
    requires Live(t, d) ==> Filled(cfg, t, d, SlotKey(t, d))
    ensures Content(cfg, t)
  {
  }

  /** A hit gives the decoded page of the key's slot, and only the kernel acts meanwhile. */
  lemma HitReads(cfg: Config, s: State, e: Event, s': State)
    requires ConfigOk(cfg) && Idle(s) && e.Hit? && e.key != 0 && HitStep(cfg, s, e, s')
    ensures e.key in s.index && Reclaims(s, s') && Idle(s')
    ensures var d := s.index[e.key];
            && Live(s, d) && SlotKey(s, d) == e.key && SlotPage(s, d) != ZERO_PAGE && SlotPage(s', d) == SlotPage(s, d)
            && e.value == Payload(Decoded(SlotPage(s, d), SlotBit(s, d)), cfg.entrySize)
  {
    ReadLockKeeps(s, e.key, e.lock, e.s1);
    LookupAgrees(s, e.key);
    var d := s.index[e.key];
    EvictsTransitive(s.mem, e.s1.mem, s'.mem);
    NotZeroMeansSame(e.s1.mem, s'.mem, d);
    NotZeroMeansSame(s.mem, s'.mem, d);
    ReclaimKeeps(s, s', 0);
  }

  /** A drop that finds its page always gets past the key check. */
  lemma DropIsValid(s: State, e: Event, s': State)
    requires Idle(s) && e.Dropped? && e.key != 0 && DropStep(s, e, s')
    ensures e.valid && e.key in s.index && InRange(s.ppc, s.index[e.key]) && Evicts(s.mem, s'.mem)
    ensures s' == CacheDrop(s.(mem := s'.mem), s.index[e.key])
  {
    ReadLockKeeps(s, e.key, e.lock, e.s1);
    LookupAgrees(s, e.key);
    EvictsTransitive(s.mem, e.s1.mem, s'.mem);
    assert e.s1.(mem := s'.mem) == s.(mem := s'.mem);
  }

  lemma ReleaseSlot(s: State, d: Desc)
    requires Idle(s) && Live(s, d)
    ensures var s' := CacheDrop(s, d);
            && Idle(s') && s'.ppc == s.ppc && !Live(s', d) && KeptBut(s, s', d)
            && forall x :: x != d ==> SlotSame(s, s', x)
  {
    assert s.(wlock := None) == s;
    CacheDropKeeps(s, d, SlotKey(s, d));
    CacheDropChunks(s, d);
    var s' := CacheDrop(s, d);
    assert forall x :: Live(s', x) && x != d ==> SlotSame(s, s', x);
  }

  /** A drop that finds its page releases it, removes the key from the index, and touches nothing else. */
  lemma DropReleases(s: State, e: Event, s': State)
    requires Idle(s) && e.Dropped? && e.key != 0 && DropStep(s, e, s')
    ensures e.key in s.index && Idle(s') && s'.ppc == s.ppc
    ensures var d := s.index[e.key];
            && KeptBut(s, s', d) && !Live(s', d) && s'.index == s.index - {e.key}
            && Evicts(s.mem, s'.mem) && s'.totalFree == s.totalFree + 1
            && forall x :: x != d ==> SlotSame(s, s', x)
  {
    DropIsValid(s, e, s');
    LookupAgrees(s, e.key);
    var d, a := s.index[e.key], s.(mem := s'.mem);
    ReclaimKeeps(s, a, 0);
    ReleaseSlot(a, d);
    assert KeptBut(s, a, d);
    KeptButTransitive(s, a, s', d);
    forall x | x != d ensures SlotSame(s, s', x) { assert SlotSame(a, s', x); }
  }

  /** The invariant of the fallthrough cache, kept by every call; and what a get returns. */
  lemma CallKeepsContent(cfg: Config, s: State, e: Event, s': State)
    requires ConfigOk(cfg) && Idle(s) && Content(cfg, s) && e.key != 0 && FtStep(cfg, s, e, s')
    ensures Idle(s') && Content(cfg, s')
    ensures e.IsGet() ==> e.value == cfg.refill(e.key)
  {
    match e
    case Hit(_, _, _, _) => HitReads(cfg, s, e, s');
    case Miss(_, _, _, _, _, _, _, _, _, _, _, _, _, _) =>
      MissFills(cfg, s, e, s');
      ContentKept(cfg, s, s', MissSlot(e).value);
    case Dropped(key, _, _, _) =>
      DropReleases(s, e, s');
      ContentKept(cfg, s, s', s.index[key]);
    case NotFound(key, l) => ReadLockKeeps(s, key, l, s');
  }

  /** Before call i the cache is idle, and every slot in use holds its refill value or was evicted. */
  ghost predicate ContentAt(cfg: Config, states: seq<State>, i: nat)
    requires ConfigOk(cfg)
  {
    i < |states| && Idle(states[i]) && Content(cfg, states[i])
  }

  lemma StepKeepsContent(cfg: Config, states: seq<State>, events: seq<Event>, i: nat)
    requires FtRun(cfg, states, events) && i < |events|
    requires ContentAt(cfg, states, i)
    ensures ContentAt(cfg, states, i + 1)
    ensures events[i].IsGet() ==> events[i].value == cfg.refill(events[i].key)
  {
    assert StepAt(cfg, states, events, i);
    CallKeepsContent(cfg, states[i], events[i], states[i + 1]);
  }

  lemma {:induction false} RunKeepsContent(cfg: Config, states: seq<State>, events: seq<Event>, n: nat)
    requires FtRun(cfg, states, events) && n <= |events| && Initial(states[0])
    ensures ContentAt(cfg, states, n)
  {
    if n == 0 {
      NewCacheHasContent(cfg, states[0]);
    } else {
      RunKeepsContent(cfg, states, events, n - 1);
      StepKeepsContent(cfg, states, events, n - 1);
    }
  }

  lemma NewCacheHasContent(cfg: Config, s: State)
    requires ConfigOk(cfg) && Initial(s)
    ensures Idle(s) && Content(cfg, s)
  {
    InitialInv(s);
  }

  /**
   Transparency: over every run of gets and drops on keys other than 0, with the kernel
   reclaiming pages between any two accesses, chunks being dropped and slots reused, each
   get that returns yields exactly the bytes refill gives for its key.
   */
  lemma Transparency(cfg: Config, states: seq<State>, events: seq<Event>, i: nat)
    requires FtRun(cfg, states, events) && Initial(states[0])
    requires i < |events| && events[i].IsGet()
    ensures events[i].value == cfg.refill(events[i].key)
  {
    RunKeepsContent(cfg, states, events, i);
    StepKeepsContent(cfg, states, events, i);
  }
}
