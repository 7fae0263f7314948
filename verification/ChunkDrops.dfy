/** When a lock on a page of a dropped chunk fails its check. */
module ChunkDrops {
  import opened Words
  import opened Options
  import opened ProbeTable
  import opened CacheState
  import opened CacheSteps
  import opened CacheInvariant
  import opened CacheSafety
  import opened ProtocolRuns
  import opened Publication
  import opened UndisturbedRuns

  // ---- Blank pages read as zeros, once the chunk was dropped ----

  /** A slot above the bump pointer reads as zeros, in a chunk that is not file-backed. */
  ghost predicate BlankIsZero(s: State, d: Desc)
    requires Shaped(s) && InRange(s.ppc, d)
  {
    d.index >= s.chunks[d.chunk].len && s.chunks[d.chunk].kind != Disk ==> SlotPage(s, d) == ZERO_PAGE
  }

  /** Blank slots stay blank unless their chunk hands them out, and only pages of slots in use are stored to. */
  lemma ReclaimKeepsBlank(s: State, t: State, d: Desc)
    requires Shaped(s) && Shaped(t) && t.ppc == s.ppc && InRange(s.ppc, d) && BlankIsZero(s, d)
    requires t.chunks[d.chunk].len >= s.chunks[d.chunk].len && t.chunks[d.chunk].kind == s.chunks[d.chunk].kind
    requires t.mem.pages[d] == s.mem.pages[d] || t.mem.pages[d] == ZERO_PAGE || d.index < s.chunks[d.chunk].len
    ensures BlankIsZero(t, d)
  {
  }

  lemma TakenLen(s: State, key: Key, stored: bool, c: nat)
    requires Inv(s) && key != 0 && AllocCurrent(s).1.Some? && c < NUMBER_OF_CHUNKS
    ensures Taken(s, key, stored).chunks[c].len >= s.chunks[c].len
    ensures Taken(s, key, stored).chunks[c].kind == s.chunks[c].kind
  {
    TakenFrame(s, key, stored);
    TakenChunk(s, key, stored);
  }

  lemma RoomKeepsBlank(s: State, choice: Choice, d: Desc)
    requires Shaped(s) && ChoiceOk(s, choice) && InRange(s.ppc, d)
    requires BlankIsZero(s, d) || (s.totalFree == 0 && d.chunk == choice.victim)
    ensures BlankIsZero(MakeRoom(s, choice), d)
  {
  }

  lemma SiteKeepsBlank(s: State, choice: Choice, d: Desc)
    requires Shaped(s) && ChoiceOk(s, choice) && InRange(s.ppc, d) && BlankIsZero(MakeRoom(s, choice), d)
    ensures BlankIsZero(AllocSite(s, choice), d)
  {
    var r := MakeRoom(s, choice);
    WalkStopsAtEnd(r, |s.chunks|);
    WalkMemory(r, |s.chunks|);
  }

  /** An allocation keeps blank slots zero, and makes those of the chunk it drops zero. */
  lemma AllocKeepsBlank(s: State, key: Key, choice: Choice, stored: bool, d: Desc)
    requires Inv(s) && s.wlock.None? && key != 0 && ChoiceOk(s, choice) && WriteAlloc(s, key, choice, stored).1.Some?
    requires InRange(s.ppc, d) && (BlankIsZero(s, d) || (s.totalFree == 0 && d.chunk == choice.victim))
    ensures var t := WriteAlloc(s, key, choice, stored).0; Shaped(t) && t.ppc == s.ppc && BlankIsZero(t, d)
  {
    var site := AllocSite(s, choice);
    WriteAllocTakes(s, key, choice, stored);
    RoomKeepsBlank(s, choice, d);
    SiteKeepsBlank(s, choice, d);
    TakenFrame(site, key, stored);
    TakenLen(site, key, stored, d.chunk);
    ReclaimKeepsBlank(site, Taken(site, key, stored), d);
  }

  lemma WriteLockKeepsBlank(s: State, l: Lock, m: Mem, choice: Choice, stored: bool, s': State, d: Desc)
    requires Inv(s) && LockOk(s, l)
    requires WriteLockStep(s, l, m, choice, stored, s') && (Upgrades(s, l, m) ==> IndexFits(l))
    requires InRange(s.ppc, d)
    requires BlankIsZero(s, d) || (!Upgrades(s, l, m) && s.totalFree == 0 && d.chunk == choice.victim)
    ensures Shaped(s') && s'.ppc == s.ppc && BlankIsZero(s', d)
  {
    if !KeyMatches(s, l) {
      AllocKeepsBlank(s, l.key, choice, stored, d);
    } else if Tail(m.pages[l.head.desc]) != 0 {
      FittingUpgrade(s, l, m, choice, stored, s');
      MatchedIsLive(s, l);
      ReclaimKeepsBlank(s, s', d);
    } else {
      var z := s.(mem := StorePage(m, l.head.desc, ZERO_PAGE));
      FallbackAllocates(s, l, m, choice, stored, s');
      assert BlankIsZero(s, d) ==> BlankIsZero(z, d);
      AllocKeepsBlank(z, l.key, choice, stored, d);
    }
  }

  lemma ReadUnlockKeepsBlank(s: State, l: Lock, drop: bool, valid: bool, s': State, d: Desc)
    requires Inv(s) && LockOk(s, l) && ReadUnlockStep(s, l, drop, valid, s') && InRange(s.ppc, d) && BlankIsZero(s, d)
    ensures Shaped(s') && s'.ppc == s.ppc && BlankIsZero(s', d)
  {
    ReclaimKeepsBlank(s, s', d);
  }

  lemma WriteUnlockKeepsBlank(s: State, drop: bool, m: Mem, t1: byte, t2: byte, s': State, d: Desc)
    requires Inv(s) && WriteUnlockStep(s, drop, m, t1, t2, s') && InRange(s.ppc, d) && BlankIsZero(s, d)
    ensures Shaped(s') && s'.ppc == s.ppc && BlankIsZero(s', d)
  {
    ReclaimKeepsBlank(s, s', d);
  }

  /** Every step keeps a blank slot's page zero. */
  lemma StepKeepsBlank(s: State, op: ApiOp, s': State, d: Desc)
    requires Inv(s) && ApiStep(s, op, s') && InRange(s.ppc, d) && BlankIsZero(s, d)
    ensures Inv(s') && s'.ppc == s.ppc && BlankIsZero(s', d)
  {
    StepKeeps(s, op, s');
    match op
    case Kernel => ReclaimKeepsBlank(s, s', d);
    case ReadLock(key, l) => ReclaimKeepsBlank(s, s', d);
    case ReadUnlock(l, drop, valid) => ReadUnlockKeepsBlank(s, l, drop, valid, s', d);
    case WriteLock(l, m, choice, stored) => WriteLockKeepsBlank(s, l, m, choice, stored, s', d);
    case UserStore(page, m) => ReclaimKeepsBlank(s, s', d);
    case WriteUnlock(drop, m, t1, t2) => WriteUnlockKeepsBlank(s, drop, m, t1, t2, s', d);
  }

  // ---- Over runs ----

  /** The operation drops chunk c before it allocates. */
  ghost predicate DropsChunk(s: State, op: ApiOp, c: nat)
    requires Inv(s)
  {
    && op.WriteLock? && s.totalFree == 0 && op.choice.victim == c
    && LockShaped(s, op.lock) && Evicts(s.mem, op.m) && !Upgrades(s, op.lock, op.m)
  }

  ghost predicate BlankAt(states: seq<State>, n: nat, d: Desc) {
    n < |states| && Shaped(states[n]) && InRange(states[n].ppc, d) && BlankIsZero(states[n], d)
  }

  lemma DropBlanks(states: seq<State>, ops: seq<ApiOp>, i: nat, d: Desc)
    requires ApiRun(states, ops) && i < |ops| && InvAt(states, i) && DropsChunk(states[i], ops[i], d.chunk)
    requires InRange(states[i].ppc, d)
    ensures BlankAt(states, i + 1, d)
  {
    var s, op := states[i], ops[i];
    assert ApiStepAt(states, ops, i);
    StepKeepsInv(states, ops, i);
    WriteLockKeepsBlank(s, op.lock, op.m, op.choice, op.stored, states[i + 1], d);
  }

  lemma BlankAtNext(states: seq<State>, ops: seq<ApiOp>, n: nat, d: Desc)
    requires ApiRun(states, ops) && InvAt(states, 0) && n < |ops| && BlankAt(states, n, d)
    ensures BlankAt(states, n + 1, d)
  {
    RunKeepsInv(states, ops, n);
    assert ApiStepAt(states, ops, n);
    StepKeepsBlank(states[n], ops[n], states[n + 1], d);
  }

  lemma {:induction false} BlankStays(states: seq<State>, ops: seq<ApiOp>, i: nat, n: nat, d: Desc)
    requires ApiRun(states, ops) && InvAt(states, 0) && i <= n <= |ops| && BlankAt(states, i, d)
    ensures BlankAt(states, n, d)
    decreases n - i
  {
    if i < n {
      BlankAtNext(states, ops, i, d);
      BlankStays(states, ops, i + 1, n, d);
    }
  }

  /** The check of a lock on slot d fails exactly when the slot is not in use or its page was evicted. */
  ghost predicate CheckTells(s: State, d: Desc)
    requires Shaped(s) && InRange(s.ppc, d)
  {
    Tail(SlotPage(s, d)) == 0 <==> !Live(s, d) || SlotPage(s, d) == ZERO_PAGE
  }

  /**
   When the check does tell that a page's chunk was dropped: in every state of a run after the
   drop of a chunk that is not file-backed, for a slot that is not write-locked and was not
   released since, the check of a lock on the slot fails if and only if the slot was not
   handed out again, or its new page was evicted.
   */
  lemma DroppedCheckFailsIff(states: seq<State>, ops: seq<ApiOp>, i: nat, n: nat, d: Desc)
    requires ApiRun(states, ops) && InvAt(states, 0) && i < n <= |ops| && InvAt(states, i)
    requires InRange(states[i].ppc, d) && DropsChunk(states[i], ops[i], d.chunk)
    ensures BlankAt(states, n, d)
    ensures var t := states[n];
            t.chunks[d.chunk].kind != Disk && !Held(t, d) && (Live(t, d) || d.index >= t.chunks[d.chunk].len) ==>
              CheckTells(t, d)
  {
    DropBlanks(states, ops, i, d);
    BlankStays(states, ops, i + 1, n, d);
    RunKeepsInv(states, ops, n);
    BlankOrOwnedTells(states[n], d);
  }

  lemma BlankOrOwnedTells(s: State, d: Desc)
    requires Inv(s) && InRange(s.ppc, d) && BlankIsZero(s, d)
    ensures s.chunks[d.chunk].kind != Disk && !Held(s, d) && (Live(s, d) || d.index >= s.chunks[d.chunk].len) ==>
              CheckTells(s, d)
  {
    assert Live(s, d) && !Held(s, d) ==> PageOk(s.chunks[d.chunk].kind, SlotPage(s, d));
  }

  // ---- A file-backed chunk gives its bytes back ----

  lemma StepKeepsKinds(s: State, op: ApiOp, s': State)
    requires Inv(s) && ApiStep(s, op, s')
    ensures Inv(s') && KindsSame(s, s')
  {
    StepKeeps(s, op, s');
    match op
    case WriteLock(l, m, choice, stored) => WriteLockKeepsKinds(s, l, m, choice, stored, s');
    case _ =>
  }

  lemma WriteLockKeepsKinds(s: State, l: Lock, m: Mem, choice: Choice, stored: bool, s': State)
    requires Inv(s) && LockOk(s, l) && Inv(s')
    requires WriteLockStep(s, l, m, choice, stored, s') && (Upgrades(s, l, m) ==> IndexFits(l))
    ensures KindsSame(s, s')
  {
    if !KeyMatches(s, l) {
      AllocKeepsKinds(s, l.key, choice, stored);
    } else if Tail(m.pages[l.head.desc]) != 0 {
      FittingUpgrade(s, l, m, choice, stored, s');
    } else {
      FallbackAllocates(s, l, m, choice, stored, s');
      AllocKeepsKinds(s.(mem := StorePage(m, l.head.desc, ZERO_PAGE)), l.key, choice, stored);
    }
  }

  ghost predicate KindsAt(states: seq<State>, n: nat) {
    InvAt(states, 0) && InvAt(states, n) && KindsSame(states[0], states[n])
  }

  lemma {:induction false} RunKeepsKinds(states: seq<State>, ops: seq<ApiOp>, n: nat)
    requires ApiRun(states, ops) && InvAt(states, 0) && n <= |ops|
    ensures KindsAt(states, n)
  {
    if n > 0 {
      RunKeepsKinds(states, ops, n - 1);
      assert ApiStepAt(states, ops, n - 1);
      StepKeepsKinds(states[n - 1], ops[n - 1], states[n]);
    }
  }

  /** Chunk c is the victim, and its file still has the bytes of its pages. */
  function WithFile(s: State, c: nat): Choice
    requires Shaped(s) && c < NUMBER_OF_CHUNKS
  {
    Choice(c, map d | d in PagesOf(c, s.ppc) :: s.mem.pages[d])
  }

  /** The lock on slot d passes its check although d's chunk was dropped and d was not used again. */
  ghost predicate PassesUnused(s: State, l: Lock, d: Desc) {
    && Quiet(s) && l.head == At(d) && LockShaped(s, l)
    && d.index >= s.chunks[d.chunk].len && Tail(SlotPage(s, d)) != 0
  }

  /**
   From every new cache whose first chunk is file-backed and has two pages: k publishes in
   the second, and takes a read lock; q fills the cache, and makes it drop the chunk. The
   file gives the bytes back: k's lock passes its check, with the slot never used again.
   */
  lemma DroppedFilePassesCheck(s0: State, k: Key, q: Key, pk: Page, pq: Page) returns (locked: Run, t: Run, l: Lock)
    requires Initial(s0) && s0.ppc > 1 && s0.chunks[0].kind == Disk && k != 0 && q != 0 && k != q
    ensures GoesOnWithout(locked, t, k) && locked.states[0] == s0 && |locked.ops| > 0
    ensures locked.ops[|locked.ops| - 1] == ReadLock(k, l) && PassesUnused(t.Last(), l, Desc(0, 1))
  {
    var r;
    r, locked, l := LockSecond(s0, k, q, pk, pq);
    var full := FillUp(locked, q, pq, k);
    RunKeepsKinds(full.states, full.ops, |full.ops|);
    assert SlotKept(r.Last(), full.Last(), Desc(0, 1));
    t := DropFile(full, k, q, pq);
    GoesOnTransitive(locked, full, t, k);
  }

  /** q has the first page of chunk 0, and k the second, read-locked. */
  lemma LockSecond(s0: State, k: Key, q: Key, pk: Page, pq: Page) returns (r: Run, t: Run, l: Lock)
    requires Initial(s0) && s0.ppc > 1 && k != 0 && q != 0 && k != q
    ensures t.Valid() && t.states[0] == s0 && InvAt(t.states, 0) && |t.ops| > 0 && t.ops[|t.ops| - 1] == ReadLock(k, l)
    ensures r.Valid() && t.Last() == r.Last() && TwoKeys(t.Last(), k, q) && t.Last().ppc == s0.ppc
    ensures Holds(t.Last(), Desc(0, 1), k, pk) && l.head == At(Desc(0, 1)) && LockShaped(t.Last(), l)
  {
    var first := FirstRound(s0, q, pq);
    var s, choice, d := first.Last(), DropOf(0, s0.ppc), Desc(0, 1);
    InitialInv(s0);
    FirstPageOf(s0, choice);
    SecondPage(s0, s);
    TwoKeysFit(s, choice, q, k);
    r, d := Round(first, FreshLock(k), choice, pk, 0);
    t := ReadLockHappens(r, k, Desc(0, 1));
    l := LockOn(r.Last(), k, Desc(0, 1));
  }

  lemma SecondPage(s0: State, s: State)
    requires Initial(s0) && s0.ppc > 1 && Quiet(s) && s.ppc == s0.ppc && SameCounts(AllocCurrent(s0).0, s)
    ensures s.totalFree > 0 && AllocCurrent(s).1 == Some(Desc(0, 1)) && AllocSite(s, DropOf(0, s.ppc)) == s
  {
  }

  lemma DropFile(r: Run, k: Key, q: Key, pq: Page) returns (t: Run)
    requires r.Valid() && TwoKeys(r.Last(), k, q) && r.Last().totalFree == 0 && r.Last().ppc > 1
    requires r.Last().chunks[0].kind == Disk && Tail(SlotPage(r.Last(), Desc(0, 1))) != 0
    ensures GoesOnWithout(r, t, k) && Quiet(t.Last()) && t.Last().ppc == r.Last().ppc
    ensures t.Last().chunks[0].len == 1 && Tail(SlotPage(t.Last(), Desc(0, 1))) != 0
  {
    var s, d := r.Last(), Desc(0, 0);
    var choice := WithFile(s, 0);
    TwoKeysFit(s, choice, k, q);
    FirstPageOf(s, choice);
    t, d := Round(r, FreshLock(q), choice, pq, k);
  }
}
