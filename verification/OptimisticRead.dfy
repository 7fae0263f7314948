/** What a client of the lock protocol reads through a lock: the published page, or another key's. */
module OptimisticRead {
  import opened Words
  import opened ProbeTable
  import opened CacheState
  import opened CacheSteps
  import opened CacheInvariant
  import opened ProtocolRuns
  import opened Publication
  import opened UndisturbedRuns
  import opened GenericCache

  // ---- A read that succeeds gives the published bytes ----

  /** A page with the lock's tail put in decodes as the page does, so every slice read is one of the decoded page. */
  lemma ReadIsDecoded(p: Page, bit: bool, offset: nat, size: nat)
    requires offset + size <= PAGE_SIZE
    ensures Read(p, BitToTail(bit, Tail(p)), offset, size) == Slice(Decoded(p, bit), offset, size)
  {
  }

  /** A lock taken on slot d, when the slot is unchanged and not lost since, carries the decoded last byte. */
  lemma LockCarriesTail(s: State, key: Key, l: Lock, s1: State, t: State, d: Desc)
    requires Shaped(s) && Shaped(s1) && Shaped(t) && ReadLockStep(s, key, l, s1) && l.head == At(d) && InRange(s.ppc, d)
    requires t.ppc == s1.ppc && UnchangedOrLost(s1, t, d, key) && Live(t, d)
    requires SlotKey(t, d) == key && Tail(SlotPage(t, d)) != 0
    ensures l.tail == BitToTail(SlotBit(t, d), Tail(SlotPage(t, d)))
  {
  }

  /** The lock that the i-th step of the run hands out. */
  ghost predicate LockedAt(states: seq<State>, ops: seq<ApiOp>, i: nat, k: Key, l: Lock, d: Desc) {
    ApiRun(states, ops) && 0 < i < |ops| && ops[i] == ReadLock(k, l) && l.head == At(d)
  }

  lemma LockedTail(states: seq<State>, ops: seq<ApiOp>, i: nat, d: Desc, k: Key, l: Lock)
    requires LastPublished(states, ops, |ops|, d, k) && LockedAt(states, ops, i, k, l, d)
    ensures InvAt(states, |ops|)
    ensures var t := states[|ops|];
            Live(t, d) && SlotKey(t, d) == k && Tail(SlotPage(t, d)) != 0 ==>
              l.tail == BitToTail(SlotBit(t, d), Tail(SlotPage(t, d)))
  {
    var n := |ops|;
    RunKeepsInv(states, ops, i);
    StepKeepsInv(states, ops, i);
    WithinUnwritten(states, ops, 1, i + 1, n, n, k);
    UntouchedBetween(states, ops, i + 1, n, d, k);
    assert ApiStepAt(states, ops, i);
    LockedTailAt(states[i], ops[i], states[i + 1], states[n], d, k, l);
  }

  lemma LockedTailAt(s: State, op: ApiOp, s1: State, t: State, d: Desc, k: Key, l: Lock)
    requires Inv(s) && Inv(s1) && Inv(t) && op == ReadLock(k, l) && ApiStep(s, op, s1) && l.head == At(d)
    requires t.ppc == s1.ppc && UnchangedOrLost(s1, t, d, k)
    ensures Live(t, d) && SlotKey(t, d) == k && Tail(SlotPage(t, d)) != 0 ==>
              l.tail == BitToTail(SlotBit(t, d), Tail(SlotPage(t, d)))
  {
    if Live(t, d) && SlotKey(t, d) == k && Tail(SlotPage(t, d)) != 0 {
      LockCarriesTail(s, k, l, s1, t, d);
    }
  }

  /**
   What was published is what is read: key k publishes a page in slot d; then, while other
   keys write, all keys read and drop, chunks are dropped and the kernel evicts, k takes a
   read lock. If at the end the slot is still k's and the check succeeds, every slice read through the
   lock is that slice of the published page, its last byte included.
   */
  lemma PublishThenRead(states: seq<State>, ops: seq<ApiOp>, i: nat, d: Desc, k: Key, l: Lock, offset: nat, size: nat)
    requires LastPublished(states, ops, |ops|, d, k) && LockedAt(states, ops, i, k, l, d)
    requires offset + size <= PAGE_SIZE
    ensures InvAt(states, |ops|) && d in states[0].mem.pages
    ensures var t := states[|ops|];
            Live(t, d) && SlotKey(t, d) == k && Tail(SlotPage(t, d)) != 0 ==>
              Read(SlotPage(t, d), l.tail, offset, size) == Slice(states[0].mem.pages[d], offset, size)
  {
    PublishedSurvives(states, ops, |ops|, d, k);
    LockedTail(states, ops, i, d, k, l);
    var t := states[|ops|];
    if Live(t, d) && SlotKey(t, d) == k && Tail(SlotPage(t, d)) != 0 {
      ReadIsDecoded(SlotPage(t, d), SlotBit(t, d), offset, size);
    }
  }

  /**
   A read session that ends well read well, be it the first since the publication or a later
   one: key k publishes a page in slot d; then, while other keys write, all keys read and
   drop, chunks are dropped and the kernel evicts, k takes a read lock, and at last an
   unlock of it reports success. In every state of the session every slice
   read through the lock is that slice of the published page, its last byte included.
   */
  lemma SessionReadsPublished(states: seq<State>, ops: seq<ApiOp>, i: nat, j: nat, d: Desc, k: Key, l: Lock,
        offset: nat, size: nat)
    requires 0 < i < j < |ops| && offset + size <= PAGE_SIZE
    requires LastPublished(states, ops, |ops| - 1, d, k) && ReadSession(states, ops, i, k, l, d)
    ensures j < |states| && d in states[0].mem.pages
    ensures ReadsAs(states[j].mem, d, l, offset, size, states[0].mem.pages[d])
  {
    var p := SessionGood(states, ops, i, k, l, d, j);
    PublishedUntil(states, ops, j, |ops| - 1, d, k);
    GoodLockReads(states[j], d, k, l, p, states[0].mem.pages[d], offset, size);
  }

  /** Reading a slice of page d through the lock gives that slice of pg. */
  ghost predicate ReadsAs(m: Mem, d: Desc, l: Lock, offset: nat, size: nat, pg: Page) {
    d in m.pages && Read(m.pages[d], l.tail, offset, size) == Slice(pg, offset, size)
  }

  lemma SessionGood(states: seq<State>, ops: seq<ApiOp>, i: nat, k: Key, l: Lock, d: Desc, j: nat) returns (p: Page)
    requires ReadSession(states, ops, i, k, l, d) && i <= j < |ops|
    ensures j < |states| && Shaped(states[j]) && LockGood(states[j], d, k, l, p)
  {
    UnlockSound(states, ops, i, k, l, d, j);
    p := states[i].mem.pages[d];
  }

  lemma PublishedUntil(states: seq<State>, ops: seq<ApiOp>, j: nat, n: nat, d: Desc, k: Key)
    requires LastPublished(states, ops, n, d, k) && 0 < j <= n
    ensures j < |states| && Shaped(states[j]) && d in states[0].mem.pages
    ensures HoldsOrLost(states[j], d, k, states[0].mem.pages[d])
  {
    PublishedBefore(states, ops, j, n, d, k);
    PublishedSurvives(states, ops, j, d, k);
  }

  lemma GoodLockReads(s: State, d: Desc, k: Key, l: Lock, p: Page, pg: Page, offset: nat, size: nat)
    requires Shaped(s) && LockGood(s, d, k, l, p) && HoldsOrLost(s, d, k, pg) && offset + size <= PAGE_SIZE
    ensures ReadsAs(s.mem, d, l, offset, size, pg)
  {
    ReadIsDecoded(p, SlotBit(s, d), offset, size);
  }

  // ---- The check alone is not enough ----

  /** The lock on slot d, taken for key k, passes its check although the slot holds key q's page pq. */
  ghost predicate CheckFooled(s: State, l: Lock, k: Key, d: Desc, q: Key, pq: Page) {
    && Quiet(s) && l.key == k && l.head == At(d) && LockShaped(s, l)
    && Holds(s, d, q, pq) && Tail(SlotPage(s, d)) != 0 && q != k
    && (forall offset: nat, size: nat :: offset + size < PAGE_SIZE ==>
         Read(SlotPage(s, d), l.tail, offset, size) == Slice(pq, offset, size))
  }

  /** The key comparison of `lazyfree_read_unlock` is what gives such a read away. */
  lemma UnlockIsNotFooled(s: State, l: Lock, k: Key, d: Desc, q: Key, pq: Page, drop: bool, valid: bool, s': State)
    requires CheckFooled(s, l, k, d, q, pq) && ReadUnlockStep(s, l, drop, valid, s')
    ensures !valid && s' == s.(mem := s'.mem)
  {
  }

  lemma OtherBytesSame(p: Page, bit: bool, tail: byte, offset: nat, size: nat)
    requires offset + size < PAGE_SIZE
    ensures Read(p, tail, offset, size) == Slice(Decoded(p, bit), offset, size)
  {
  }

  lemma HoldingFoolsTheCheck(s: State, l: Lock, k: Key, d: Desc, q: Key, pq: Page)
    requires Quiet(s) && l.key == k && l.head == At(d) && LockShaped(s, l) && Holds(s, d, q, pq) && q != k
    ensures CheckFooled(s, l, k, d, q, pq)
  {
    forall offset: nat, size: nat | offset + size < PAGE_SIZE
      ensures Read(SlotPage(s, d), l.tail, offset, size) == Slice(pq, offset, size)
    {
      OtherBytesSame(SlotPage(s, d), SlotBit(s, d), l.tail, offset, size);
    }
  }

  /**
   From every new cache: k publishes, and takes a read lock; key q fills the cache; with no page
   free, k's chunk is dropped and q publishes into k's old page. Nothing is done for k after
   it took its lock, yet the lock passes its check, and reads q's bytes.
   */
  lemma ReusedPagePassesCheck(s0: State, k: Key, q: Key, pk: Page, pq: Page) returns (locked: Run, t: Run, l: Lock)
    requires Initial(s0) && s0.ppc > 0 && k != 0 && q != 0 && k != q
    ensures GoesOnWithout(locked, t, k) && locked.states[0] == s0
    ensures |locked.ops| > 0 && locked.ops[|locked.ops| - 1] == ReadLock(k, l)
    ensures CheckFooled(t.Last(), l, k, Desc(0, 0), q, pq)
  {
    var d := Desc(0, 0);
    var r := FirstRound(s0, k, pk);
    locked := ReadLockHappens(r, k, d);
    l := LockOn(r.Last(), k, d);
    var full := FillUp(locked, q, pq, k);
    t := TakeOver(full, q, pq, k);
    GoesOnTransitive(locked, full, t, k);
    HoldingFoolsTheCheck(t.Last(), l, k, d, q, pq);
  }

  /** With no page free, chunk 0 is dropped, and its first page goes to key q. */
  lemma TakeOver(r: Run, q: Key, pq: Page, k: Key) returns (t: Run)
    requires r.Valid() && TwoKeys(r.Last(), k, q) && r.Last().totalFree == 0
    ensures GoesOnWithout(r, t, k) && Quiet(t.Last())
    ensures t.Last().ppc == r.Last().ppc && Holds(t.Last(), Desc(0, 0), q, pq)
  {
    var s := r.Last();
    var choice := DropOf(0, s.ppc);
    TwoKeysFit(s, choice, k, q);
    FirstPageOf(s, choice);
    var d;
    t, d := Round(r, FreshLock(q), choice, pq, k);
  }
}
