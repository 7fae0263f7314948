/** Whole runs of the lock protocol, under every placement of kernel reclaims. */
module ProtocolRuns {
  import opened ProbeTable
  import opened CacheState
  import opened CacheSteps
  import opened CacheInvariant
  import opened CacheSafety

  lemma {:induction false} SumOfBlank(ppc: nat, chunks: seq<Chunk>)
    requires forall c :: 0 <= c < |chunks| ==> chunks[c].len == 0 && chunks[c].free == []
    ensures SumSpace(ppc, chunks) == |chunks| * ppc
  {
    if |chunks| > 0 {
      assert forall c :: 0 <= c < |chunks[1..]| ==> chunks[1..][c] == chunks[c + 1];
      SumOfBlank(ppc, chunks[1..]);
      assert |chunks| * ppc == ppc + |chunks[1..]| * ppc;
    }
  }

  lemma InitialInv(s: State)
    requires Initial(s)
    ensures Inv(s)
  {
    SumOfBlank(s.ppc, s.chunks);
  }

  ghost predicate ApiStepAt(states: seq<State>, ops: seq<ApiOp>, i: nat)
    requires i < |ops| && |states| == |ops| + 1
  {
    ApiStep(states[i], ops[i], states[i + 1])
  }

  ghost predicate ApiRun(states: seq<State>, ops: seq<ApiOp>) {
    |states| == |ops| + 1 && forall i :: 0 <= i < |ops| ==> ApiStepAt(states, ops, i)
  }

  ghost predicate InvAt(states: seq<State>, i: nat) { i < |states| && Inv(states[i]) }

  lemma StepKeepsInv(states: seq<State>, ops: seq<ApiOp>, i: nat)
    requires ApiRun(states, ops) && i < |ops| && InvAt(states, i)
    ensures InvAt(states, i + 1)
  {
    assert ApiStepAt(states, ops, i);
    StepKeeps(states[i], ops[i], states[i + 1]);
  }

  /** The invariant holds in every state of every run, whatever the kernel and the clients do. */
  lemma {:induction false} RunKeepsInv(states: seq<State>, ops: seq<ApiOp>, n: nat)
    requires ApiRun(states, ops) && InvAt(states, 0) && n <= |ops|
    ensures InvAt(states, n)
  {
    if n > 0 {
      RunKeepsInv(states, ops, n - 1);
      StepKeepsInv(states, ops, n - 1);
    }
  }

  /** So whenever a key is found in the index, the slot it leads to is the key's: the mismatch test never fires. */
  lemma LookupNeverMismatches(states: seq<State>, ops: seq<ApiOp>, n: nat, k: Key)
    requires ApiRun(states, ops) && Initial(states[0]) && n <= |ops|
    ensures InvAt(states, n)
    ensures var s := states[n]; k in s.index ==> k != 0 && Live(s, s.index[k]) && SlotKey(s, s.index[k]) == k
  {
    InitialInv(states[0]);
    RunKeepsInv(states, ops, n);
  }

  ghost predicate LockOkAt(states: seq<State>, i: nat, l: Lock) { InvAt(states, i) && LockOk(states[i], l) }

  lemma StepKeepsLockOk(states: seq<State>, ops: seq<ApiOp>, i: nat, l: Lock)
    requires ApiRun(states, ops) && i < |ops| && LockOkAt(states, i, l)
    ensures LockOkAt(states, i + 1, l)
  {
    assert ApiStepAt(states, ops, i);
    StepKeepsSeen(states[i], ops[i], states[i + 1]);
  }

  /** A lock stays one that may be passed, whatever happens meanwhile. */
  lemma {:induction false} LockStaysOk(states: seq<State>, ops: seq<ApiOp>, n: nat, l: Lock)
    requires ApiRun(states, ops) && LockOkAt(states, 0, l) && n <= |ops|
    ensures LockOkAt(states, n, l)
  {
    if n > 0 {
      LockStaysOk(states, ops, n - 1, l);
      StepKeepsLockOk(states, ops, n - 1, l);
    }
  }

  /** What `lazyfree_read_lock` hands out may be passed on. */
  lemma ReadLockIsOk(s: State, key: Key, l: Lock, s': State)
    requires Inv(s) && key != 0 && ReadLockStep(s, key, l, s')
    ensures LockOk(s', l)
  {
  }

  /** If key k still owns slot d, its bit is unchanged and its page is unchanged or all zero. */
  ghost predicate UnchangedOrLost(s: State, t: State, d: Desc, k: Key)
    requires Shaped(s) && Shaped(t) && t.ppc == s.ppc
  {
    Live(t, d) && SlotKey(t, d) == k ==>
      && Live(s, d) && SlotKey(s, d) == k
      && SlotBit(t, d) == SlotBit(s, d)
      && (SlotPage(t, d) == SlotPage(s, d) || SlotPage(t, d) == ZERO_PAGE)
  }

  /** The operation is not one of a write for key k. Read locks and unlocks of k, dropping ones included, are none. */
  predicate WritesNot(s: State, op: ApiOp, k: Key) {
    OpKey(s, op) != k || op.Kernel? || op.ReadLock? || op.ReadUnlock?
  }

  /** No operation of the run writes for key k. */
  ghost predicate Unwritten(states: seq<State>, ops: seq<ApiOp>, k: Key)
    requires |states| == |ops| + 1
  {
    forall i :: 0 <= i < |ops| ==> WritesNot(states[i], ops[i], k)
  }

  ghost predicate UntouchedAt(states: seq<State>, i: nat, d: Desc, k: Key) {
    && InvAt(states, 0) && InvAt(states, i) && states[i].ppc == states[0].ppc
    && UnchangedOrLost(states[0], states[i], d, k)
  }

  /** A lock or unlock for reading gives no slot new data, whatever its key. */
  lemma NoWriteKeeps(s: State, op: ApiOp, t: State)
    requires Inv(s) && ApiStep(s, op, t) && (op.Kernel? || op.ReadLock? || op.ReadUnlock?)
    ensures Inv(t) && OthersKept(s, t, 0)
  {
    if op.ReadUnlock? {
      ReadUnlockKeeps(s, op.lock, op.drop, op.valid, t, 0);
    } else {
      ReclaimKeeps(s, t, 0);
    }
  }

  lemma UnwrittenIsUntouchedAt(states: seq<State>, ops: seq<ApiOp>, i: nat, d: Desc, k: Key)
    requires ApiRun(states, ops) && Unwritten(states, ops, k)
    requires i < |ops| && UntouchedAt(states, i, d, k)
    ensures UntouchedAt(states, i + 1, d, k)
  {
    var s, op, t := states[i], ops[i], states[i + 1];
    assert ApiStepAt(states, ops, i);
    StepKeeps(s, op, t);
    if OpKey(s, op) != k {
      NextUnchanged(states[0], s, t, d, k, OpKey(s, op));
    } else {
      NoWriteKeeps(s, op, t);
      NextUnchanged(states[0], s, t, d, k, 0);
    }
  }

  lemma NextUnchanged(s0: State, s: State, t: State, d: Desc, k: Key, q: Key)
    requires Shaped(s0) && Shaped(s) && Shaped(t) && s.ppc == s0.ppc && (k != q || k == 0)
    requires UnchangedOrLost(s0, s, d, k) && OthersKept(s, t, q)
    ensures t.ppc == s0.ppc && UnchangedOrLost(s0, t, d, k)
  {
  }

  lemma {:induction false} UnwrittenIsUntouched(states: seq<State>, ops: seq<ApiOp>, n: nat, d: Desc, k: Key)
    requires ApiRun(states, ops) && InvAt(states, 0) && n <= |ops|
    requires Unwritten(states, ops, k)
    ensures UntouchedAt(states, n, d, k)
  {
    if n > 0 {
      UnwrittenIsUntouched(states, ops, n - 1, d, k);
      UnwrittenIsUntouchedAt(states, ops, n - 1, d, k);
    }
  }

  lemma SubRun(states: seq<State>, ops: seq<ApiOp>, i: nat, j: nat)
    requires ApiRun(states, ops) && i <= j <= |ops|
    ensures ApiRun(states[i..j + 1], ops[i..j])
  {
    var sub, subOps := states[i..j + 1], ops[i..j];
    forall m | 0 <= m < |subOps| ensures ApiStepAt(sub, subOps, m) {
      assert ApiStepAt(states, ops, i + m);
    }
  }

  /** Nothing is written for key k between steps i and j. */
  ghost predicate UnwrittenBetween(states: seq<State>, ops: seq<ApiOp>, i: nat, j: nat, k: Key)
    requires |states| == |ops| + 1 && i <= j <= |ops|
  {
    Unwritten(states[i..j + 1], ops[i..j], k)
  }

  lemma UntouchedBetween(states: seq<State>, ops: seq<ApiOp>, i: nat, j: nat, d: Desc, k: Key)
    requires ApiRun(states, ops) && i <= j <= |ops| && InvAt(states, i) && UnwrittenBetween(states, ops, i, j, k)
    ensures InvAt(states, j) && states[j].ppc == states[i].ppc && UnchangedOrLost(states[i], states[j], d, k)
  {
    var mid, midOps := states[i..j + 1], ops[i..j];
    SubRun(states, ops, i, j);
    UnwrittenIsUntouched(mid, midOps, j - i, d, k);
    assert mid[0] == states[i] && mid[j - i] == states[j];
  }

  lemma WithinUnwritten(states: seq<State>, ops: seq<ApiOp>, i: nat, j: nat, m: nat, n: nat, k: Key)
    requires |states| == |ops| + 1 && i <= j <= m <= n <= |ops| && UnwrittenBetween(states, ops, i, n, k)
    ensures UnwrittenBetween(states, ops, j, m, k)
  {
    forall x | 0 <= x < m - j
      ensures WritesNot(states[j..m + 1][x], ops[j..m][x], k)
    {
      assert ops[i..n][x + j - i] == ops[j..m][x] && states[i..n + 1][x + j - i] == states[j..m + 1][x];
    }
  }

  /** Slot d is the key's, intact with bytes p, of which the lock carries the decoded last one. */
  ghost predicate LockGood(s: State, d: Desc, key: Key, l: Lock, p: Page)
    requires Shaped(s)
  {
    && Live(s, d) && SlotKey(s, d) == key && SlotPage(s, d) == p && p != ZERO_PAGE
    && l.tail == BitToTail(SlotBit(s, d), Tail(p))
  }

  /** A read lock of slot d is good, unless the page was lost meanwhile. */
  lemma LockedIsGood(s: State, op: ApiOp, s1: State, key: Key, l: Lock, d: Desc)
    requires Inv(s) && op == ReadLock(key, l) && ApiStep(s, op, s1) && l.head == At(d)
    ensures key != 0 && l.key == key && d in s.mem.pages && d in s1.mem.pages
    ensures s1.mem.pages[d] != ZERO_PAGE ==>
              s1.mem.pages[d] == s.mem.pages[d] && LockGood(s, d, key, l, s.mem.pages[d]) && s1.chunks == s.chunks
  {
    NotZeroMeansSame(s.mem, s1.mem, d);
  }

  /** A slot of which an unlock reports success is in use by the key, and intact. */
  lemma UnlockedIsIntact(s: State, op: ApiOp, t: State, l: Lock, d: Desc)
    requires Inv(s) && op.ReadUnlock? && op.lock == l && op.valid && ApiStep(s, op, t) && l.head == At(d)
    ensures Live(s, d) && SlotKey(s, d) == l.key && SlotPage(s, d) != ZERO_PAGE
    ensures d in t.mem.pages && t.mem.pages[d] == SlotPage(s, d)
  {
    NotZeroMeansSame(s.mem, t.mem, d);
  }

  /** Key k's page, seen by a lock at the beginning, is the page that the unlock saw at the end. */
  lemma LockedPageIsSame(s0: State, op0: ApiOp, s1: State, s: State, op: ApiOp, t: State, key: Key, l: Lock, d: Desc)
    requires Inv(s0) && Inv(s1) && Inv(s) && l.head == At(d)
    requires op0 == ReadLock(key, l) && ApiStep(s0, op0, s1)
    requires op.ReadUnlock? && op.lock == l && op.valid && ApiStep(s, op, t)
    requires s.ppc == s1.ppc && UnchangedOrLost(s1, s, d, key)
    ensures d in s0.mem.pages && d in t.mem.pages && t.mem.pages[d] == s0.mem.pages[d]
    ensures LockGood(s0, d, key, l, s0.mem.pages[d]) && LockGood(s, d, key, l, s0.mem.pages[d])
  {
    LockedIsGood(s0, op0, s1, key, l, d);
    UnlockedIsIntact(s, op, t, l, d);
  }

  /** Step i is a read lock of slot d, and the run ends with an unlock of it that reports success. */
  ghost predicate ReadSession(states: seq<State>, ops: seq<ApiOp>, i: nat, key: Key, l: Lock, d: Desc) {
    && ApiRun(states, ops) && i + 1 < |ops| && InvAt(states, 0)
    && ops[i] == ReadLock(key, l) && l.head == At(d)
    && UnwrittenBetween(states, ops, i + 1, |ops| - 1, key)
    && ops[|ops| - 1].ReadUnlock? && ops[|ops| - 1].lock == l && ops[|ops| - 1].valid
  }

  ghost predicate LockGoodAt(states: seq<State>, i: nat, d: Desc, key: Key, l: Lock, p: Page) {
    InvAt(states, i) && LockGood(states[i], d, key, l, p)
  }

  lemma UnlockedPageIsSame(states: seq<State>, ops: seq<ApiOp>, i: nat, key: Key, l: Lock, d: Desc)
    requires |states| == |ops| + 1 && i + 1 < |ops| && l.head == At(d) && ops[i] == ReadLock(key, l)
    requires ApiStepAt(states, ops, i) && ApiStepAt(states, ops, |ops| - 1)
    requires ops[|ops| - 1].ReadUnlock? && ops[|ops| - 1].lock == l && ops[|ops| - 1].valid
    requires InvAt(states, i) && InvAt(states, i + 1) && InvAt(states, |ops| - 1)
    requires var s, t := states[i + 1], states[|ops| - 1]; t.ppc == s.ppc && UnchangedOrLost(s, t, d, key)
    ensures var p, q := states[i].mem.pages, states[|ops|].mem.pages; d in p && d in q && q[d] == p[d]
    ensures LockGoodAt(states, i, d, key, l, states[i].mem.pages[d])
    ensures LockGoodAt(states, |ops| - 1, d, key, l, states[i].mem.pages[d])
  {
    var s0, op0, s1 := states[i], ops[i], states[i + 1];
    var s, op, t := states[|ops| - 1], ops[|ops| - 1], states[|ops|];
    assert ApiStep(s0, op0, s1) && ApiStep(s, op, t);
    LockedPageIsSame(s0, op0, s1, s, op, t, key, l, d);
  }

  /** The page at the end of the session is the one at its start, and is intact. */
  lemma SessionEnds(states: seq<State>, ops: seq<ApiOp>, i: nat, key: Key, l: Lock, d: Desc)
    requires ReadSession(states, ops, i, key, l, d)
    ensures InvAt(states, i) && d in states[i].mem.pages && d in states[|ops|].mem.pages
    ensures states[|ops|].mem.pages[d] == states[i].mem.pages[d]
    ensures LockGoodAt(states, i, d, key, l, states[i].mem.pages[d])
    ensures LockGoodAt(states, |ops| - 1, d, key, l, states[i].mem.pages[d])
  {
    RunKeepsInv(states, ops, i);
    StepKeepsInv(states, ops, i);
    UntouchedBetween(states, ops, i + 1, |ops| - 1, d, key);
    UnlockedPageIsSame(states, ops, i, key, l, d);
  }

  /** If a lock is good, it was before. */
  lemma GoodBefore(s: State, t: State, d: Desc, key: Key, l: Lock, p: Page)
    requires Shaped(s) && Shaped(t) && t.ppc == s.ppc && UnchangedOrLost(s, t, d, key) && LockGood(t, d, key, l, p)
    ensures LockGood(s, d, key, l, p)
  {
  }

  lemma GoodWithin(states: seq<State>, ops: seq<ApiOp>, key: Key, l: Lock, d: Desc, i: nat, j: nat, n: nat, p: Page)
    requires ApiRun(states, ops) && i <= j <= n <= |ops| && InvAt(states, 0) && UnwrittenBetween(states, ops, i, n, key)
    requires LockGoodAt(states, n, d, key, l, p)
    ensures LockGoodAt(states, j, d, key, l, p)
  {
    RunKeepsInv(states, ops, j);
    WithinUnwritten(states, ops, i, j, n, n, key);
    UntouchedBetween(states, ops, j, n, d, key);
    GoodBefore(states[j], states[n], d, key, l, p);
  }

  /**
   Unlock soundness without ABA: however many writes and drops other keys cause after a read
   lock, and whatever other sessions of the key read or drop, if the unlock reports success
   then in every state of the session the slot was the key's, with the bytes it had when it
   was locked, and the lock's tail is its decoded last byte.
   */
  lemma UnlockSound(states: seq<State>, ops: seq<ApiOp>, i: nat, key: Key, l: Lock, d: Desc, j: nat)
    requires ReadSession(states, ops, i, key, l, d) && i <= j < |ops|
    ensures InvAt(states, i) && d in states[i].mem.pages
    ensures LockGoodAt(states, j, d, key, l, states[i].mem.pages[d])
    ensures d in states[|ops|].mem.pages && states[|ops|].mem.pages[d] == states[i].mem.pages[d]
  {
    SessionEnds(states, ops, i, key, l, d);
    if j > i {
      SessionWithin(states, ops, i, key, l, d, j, states[i].mem.pages[d]);
    }
  }

  lemma SessionWithin(states: seq<State>, ops: seq<ApiOp>, i: nat, key: Key, l: Lock, d: Desc, j: nat, p: Page)
    requires ReadSession(states, ops, i, key, l, d) && i < j < |ops| && LockGoodAt(states, |ops| - 1, d, key, l, p)
    ensures LockGoodAt(states, j, d, key, l, p)
  {
    GoodWithin(states, ops, key, l, d, i + 1, j, |ops| - 1, p);
  }

  lemma NotZeroMeansSame(m: Mem, m': Mem, d: Desc)
    requires Evicts(m, m') && d in m.pages
    ensures m'.pages[d] != ZERO_PAGE ==> m'.pages[d] == m.pages[d]
    ensures Tail(m'.pages[d]) != 0 ==> m'.pages[d] == m.pages[d]
  {
  }
}
