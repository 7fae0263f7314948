/** The 16-bit slot number of a lock, in chunks of more than 65536 pages. */
module LockTruncation {
  import opened Options
  import opened ProbeTable
  import opened CacheState
  import opened CacheSteps
  import opened CacheSafety
  import opened ProtocolRuns
  import opened UndisturbedRuns

  /** The only key, with its latest page in slot (0, n - 1) of n taken one after the other. */
  ghost predicate Stacked(s: State, k: Key, n: nat) {
    && Quiet(s) && k != 0 && s.current == 0 && s.chunks[0].free == [] && s.chunks[0].len == n > 0
    && s.totalFree == NUMBER_OF_CHUNKS * s.ppc - n
    && s.index == map[k := Desc(0, n - 1)] && Holds(s, Desc(0, n - 1), k, ZERO_PAGE)
    && Live(s, Desc(0, 0)) && SlotKey(s, Desc(0, 0)) == k
  }

  lemma StacksOne(s: State, k: Key, n: nat, choice: Choice, d: Desc, t: State)
    requires Stacked(s, k, n) && n < s.ppc && ChoiceOk(s, choice) && Rounded(s, k, choice, d, ZERO_PAGE, t)
    ensures Stacked(t, k, n + 1)
  {
    assert AllocSite(s, choice) == s;
    assert SlotKept(s, t, Desc(0, 0));
  }

  /** Write locks without a page, for the same key, take one slot of chunk 0 after the other. */
  lemma {:induction false} Stack(s0: State, k: Key, n: nat) returns (t: Run)
    requires Initial(s0) && 0 < n <= s0.ppc && k != 0
    ensures t.Valid() && t.states[0] == s0 && Stacked(t.Last(), k, n) && t.Last().ppc == s0.ppc
  {
    if n == 1 {
      t := FirstRound(s0, k, ZERO_PAGE);
      FirstPageOf(s0, DropOf(0, s0.ppc));
    } else {
      var r := Stack(s0, k, n - 1);
      var d;
      TwoKeysFit(r.Last(), DropOf(0, s0.ppc), k, k);
      t, d := Round(r, FreshLock(k), DropOf(0, s0.ppc), ZERO_PAGE, 0);
      StacksOne(r.Last(), k, n - 1, DropOf(0, s0.ppc), d, t.Last());
    }
  }

  /** Memory after an undisturbed upgrade of page d that goes to slot wd. */
  ghost function AstrayMem(s: State, d: Desc, wd: Desc): Mem
    requires Shaped(s) && InRange(s.ppc, d) && InRange(s.ppc, wd)
  {
    var before := StorePage(s.mem, d, SlotPage(s, d));
    if SlotBit(s, wd) then before
    else StorePage(before, wd, WithTail(before.pages[wd], BitToTail(false, Tail(before.pages[wd]))))
  }

  lemma AstrayHappens(s: State, l: Lock, choice: Choice)
    requires Quiet(s) && LockOk(s, l) && KeyMatches(s, l) && Tail(SlotPage(s, l.head.desc)) != 0 && !IndexFits(l)
    ensures var t := s.(wlock := Some(WLock(LockedDesc(l), l.key)), mem := AstrayMem(s, l.head.desc, LockedDesc(l)));
            WriteLockStep(s, l, s.mem, choice, false, t) && Upgrades(s, l, s.mem)
  {
    var d, wd := l.head.desc, LockedDesc(l);
    var before := StorePage(s.mem, d, SlotPage(s, d));
    if !SlotBit(s, wd) {
      assert TailCleared(before, wd, Tail(before.pages[wd]), before, AstrayMem(s, d, wd));
    }
    assert s.(mem := s.mem) == s;
  }

  /** An upgrade that a run from s0 makes possible. */
  ghost predicate UpgradeReached(s0: State, t: Run, l: Lock, m: Mem, choice: Choice, stored: bool, s': State) {
    && t.Valid() && t.states[0] == s0 && Shaped(t.Last()) && LockOk(t.Last(), l)
    && WriteLockStep(t.Last(), l, m, choice, stored, s') && Upgrades(t.Last(), l, m)
  }

  /**
   With more than 65536 pages in a chunk, some lock on slot 65536 is upgraded to a write lock
   of slot 0, while the index leads its key to slot 65536: what is then written is not what
   the next lookup finds.
   */
  lemma UpgradeGoesAstray(s0: State, k: Key) returns (t: Run, l: Lock, choice: Choice, s': State)
    requires Initial(s0) && s0.ppc > INDEX_MODULUS && k != 0
    ensures t.Valid() && UpgradeReached(s0, t, l, t.Last().mem, choice, false, s')
    ensures l.head == At(Desc(0, INDEX_MODULUS)) && s'.wlock == Some(WLock(Desc(0, 0), k))
    ensures k in s'.index && s'.index[k] == Desc(0, INDEX_MODULUS)
  {
    var r := Stack(s0, k, INDEX_MODULUS + 1);
    var s, d := r.Last(), Desc(0, INDEX_MODULUS);
    t := ReadLockHappens(r, k, d);
    l, choice := LockOn(s, k, d), DropOf(0, s.ppc);
    s' := s.(wlock := Some(WLock(LockedDesc(l), l.key)), mem := AstrayMem(s, d, LockedDesc(l)));
    AstrayHappens(s, l, choice);
  }

  lemma {:induction false} SamePpc(states: seq<State>, ops: seq<ApiOp>, n: nat)
    requires ApiRun(states, ops) && InvAt(states, 0) && n <= |ops|
    ensures InvAt(states, n) && states[n].ppc == states[0].ppc
  {
    if n > 0 {
      SamePpc(states, ops, n - 1);
      assert ApiStepAt(states, ops, n - 1);
      StepKeeps(states[n - 1], ops[n - 1], states[n]);
    }
  }

  lemma SmallChunksFit(s0: State, t: Run, l: Lock, m: Mem, choice: Choice, stored: bool, s': State)
    requires Initial(s0) && s0.ppc <= INDEX_MODULUS && UpgradeReached(s0, t, l, m, choice, stored, s')
    ensures s'.wlock == Some(WLock(l.head.desc, l.key))
  {
    InitialInv(s0);
    SamePpc(t.states, t.ops, |t.ops|);
    UpgradeLocksOwnPageIff(t.Last(), l, m, choice, stored, s');
  }

  /** Every upgrade in every run locks the page its lock is on if and only if chunks have at most 65536 pages. */
  lemma UpgradesLockOwnPageIff(s0: State, k: Key)
    requires Initial(s0) && k != 0
    ensures (forall t: Run, l: Lock, m: Mem, choice: Choice, stored: bool, s': State ::
               UpgradeReached(s0, t, l, m, choice, stored, s') ==> s'.wlock == Some(WLock(l.head.desc, l.key)))
            <==> s0.ppc <= INDEX_MODULUS
  {
    if s0.ppc > INDEX_MODULUS {
      var t, l, choice, s' := UpgradeGoesAstray(s0, k);
      assert UpgradeReached(s0, t, l, t.Last().mem, choice, false, s');
    } else {
      forall t: Run, l: Lock, m: Mem, choice: Choice, stored: bool, s': State
        | UpgradeReached(s0, t, l, m, choice, stored, s') ensures s'.wlock == Some(WLock(l.head.desc, l.key))
      {
        SmallChunksFit(s0, t, l, m, choice, stored, s');
      }
    }
  }
}
