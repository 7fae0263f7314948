/** What the two unlocks release, and when the read unlock reports success. */
module UnlockEffects {
  import opened Words
  import opened Options
  import opened ProbeTable
  import opened CacheState
  import opened CacheSteps
  import opened CacheInvariant
  import opened CacheSafety
  import opened FallthroughSteps
  import opened FallthroughHits

  /** Key k's slot d is free again, k is not in the index, and nothing else changed but what the kernel took. */
  ghost predicate Freed(s: State, d: Desc, k: Key, s': State)
    requires Shaped(s)
  {
    && Idle(s') && s'.ppc == s.ppc && !Live(s', d) && s'.index == s.index - {k}
    && s'.totalFree == s.totalFree + 1 && Evicts(s.mem, s'.mem)
    && forall x :: x != d ==> SlotSame(s, s', x)
  }

  lemma DropFields(s: State, d: Desc)
    requires Shaped(s) && InRange(s.ppc, d)
    ensures var s' := CacheDrop(s.(wlock := None), d);
            && s'.index == s.index - {SlotKey(s, d)} && s'.totalFree == s.totalFree + 1
            && s'.mem == s.mem && s'.wlock.None? && s'.ppc == s.ppc
  {
  }

  lemma DropFrees(s: State, d: Desc)
    requires Inv(s) && Live(s, d) && (s.wlock.None? || Held(s, d))
    ensures Freed(s, d, SlotKey(s, d), CacheDrop(s.(wlock := None), d))
    ensures CacheDrop(s.(wlock := None), d).mem == s.mem
  {
    var s' := CacheDrop(s.(wlock := None), d);
    CacheDropKeeps(s, d, 0);
    DropFields(s, d);
    CacheDropChunks(s, d);
    IsFreed(s, d, SlotKey(s, d), s');
  }

  lemma IsFreed(s: State, d: Desc, k: Key, s': State)
    requires Shaped(s) && Idle(s') && s'.ppc == s.ppc && !Live(s', d) && s'.index == s.index - {k}
    requires s'.totalFree == s.totalFree + 1 && s'.mem == s.mem && forall x :: x != d ==> SlotSame(s, s', x)
    ensures Freed(s, d, k, s')
  {
  }

  // ---- Write unlock ----

  /** A write unlock that drops its page releases it, unpublished, and takes its key out of the index. */
  lemma WriteUnlockDrops(s: State, m: Mem, t1: byte, t2: byte, s': State)
    requires Inv(s) && WriteUnlockStep(s, true, m, t1, t2, s')
    ensures Freed(s, s.wlock.value.desc, s.wlock.value.key, s') && s'.mem == s.mem
  {
    DropFrees(s, s.wlock.value.desc);
  }

  /** So the next lookup of the key finds nothing. */
  lemma DroppedIsNotFound(s: State, m: Mem, t1: byte, t2: byte, s': State, l: Lock, s'': State)
    requires Inv(s) && WriteUnlockStep(s, true, m, t1, t2, s') && s.wlock.value.key != 0
    requires Shaped(s') && ReadLockStep(s', s.wlock.value.key, l, s'')
    ensures l.head == EmptyPage
  {
    WriteUnlockDrops(s, m, t1, t2, s');
    GoneLookupFails(s', s.wlock.value.key, l, s'');
  }

  /** One that does not drop keeps the page in use by its key, and the index. */
  lemma WriteUnlockPublishes(s: State, m: Mem, t1: byte, t2: byte, s': State)
    requires Inv(s) && WriteUnlockStep(s, false, m, t1, t2, s')
    ensures var d := s.wlock.value.desc;
            && Idle(s') && s'.ppc == s.ppc && Live(s', d) && SlotKey(s', d) == s.wlock.value.key
            && s'.index == s.index && s'.totalFree == s.totalFree
            && forall x :: x != d ==> SlotSame(s, s', x)
  {
    var d, a := s.wlock.value.desc, s.(mem := m);
    WriteUnlockKeeps(s, false, m, t1, t2, s');
    ReclaimKeeps(s, a, 0);
    PublishFields(a, d, t1, t2);
    PublishSlots(a, d, t1, t2);
    SlotsSameAfterReclaim(s, a, d, s');
  }

  lemma PublishFields(s: State, d: Desc, t1: byte, t2: byte)
    requires Shaped(s) && InRange(s.ppc, d)
    ensures var s' := Publish(s, d, t1, t2);
            s'.index == s.index && s'.totalFree == s.totalFree && s'.wlock.None? && s'.ppc == s.ppc
  {
  }

  lemma PublishSlots(s: State, d: Desc, t1: byte, t2: byte)
    requires Inv(s) && Live(s, d)
    ensures var s' := Publish(s, d, t1, t2);
            && Live(s', d) && SlotKey(s', d) == SlotKey(s, d) && forall x :: x != d ==> SlotSame(s, s', x)
  {
    PublishChunks(s, d, t1, t2);
  }

  lemma SlotsSameAfterReclaim(s: State, a: State, d: Desc, s': State)
    requires Shaped(s) && Shaped(a) && a == s.(mem := a.mem) && Shaped(s') && s'.ppc == s.ppc
    requires forall x :: x != d ==> SlotSame(a, s', x)
    ensures forall x :: x != d ==> SlotSame(s, s', x)
  {
    forall x | x != d ensures SlotSame(s, s', x) { assert SlotSame(a, s', x); }
  }

  // ---- Read unlock ----

  /** A read unlock reports success if and only if the lock's page is in use by the lock's key. */
  lemma UnlockValidIff(s: State, l: Lock, drop: bool, valid: bool, s': State)
    requires Inv(s) && LockOk(s, l) && ReadUnlockStep(s, l, drop, valid, s')
    ensures valid <==> l.head.At? && Live(s, l.head.desc) && SlotKey(s, l.head.desc) == l.key
  {
    if l.head.At? && SlotKey(s, l.head.desc) == l.key { MatchedIsLive(s, l); }
  }

  /** It releases the page if it is to be dropped and the unlock succeeds, and otherwise changes nothing. */
  lemma ReadUnlockFrees(s: State, l: Lock, drop: bool, valid: bool, s': State)
    requires Inv(s) && LockOk(s, l) && ReadUnlockStep(s, l, drop, valid, s')
    ensures valid && drop ==> l.head.At? && Freed(s, l.head.desc, l.key, s')
    ensures !valid || !drop ==> Evicts(s.mem, s'.mem) && s' == s.(mem := s'.mem)
  {
    if valid && drop {
      var d, a := l.head.desc, s.(mem := s'.mem);
      ReclaimKeeps(s, a, 0);
      MatchedIsLive(a, l);
      assert a.(wlock := None) == a;
      DropFrees(a, d);
      FreedAfterReclaim(s, a, d, l.key, s');
    }
  }

  lemma FreedAfterReclaim(s: State, a: State, d: Desc, k: Key, s': State)
    requires Shaped(s) && Shaped(a) && a == s.(mem := a.mem) && Evicts(s.mem, a.mem)
    requires Freed(a, d, k, s') && s'.mem == a.mem
    ensures Freed(s, d, k, s')
  {
    SlotsSameAfterReclaim(s, a, d, s');
  }

  /** A lock of a lookup that found nothing stays invalid: its unlock reports failure, in any later state. */
  lemma MissedLockIsInvalid(s: State, key: Key, l: Lock, s1: State, t: State, drop: bool, valid: bool, t': State)
    requires Idle(s) && key != 0 && Gone(s, key) && ReadLockStep(s, key, l, s1)
    requires Shaped(t) && LockShaped(t, l) && ReadUnlockStep(t, l, drop, valid, t')
    ensures !valid && t' == t
  {
    GoneLookupFails(s, key, l, s1);
  }
}
