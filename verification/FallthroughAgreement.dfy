/** When the index and the reverse table keep saying the same. */
module FallthroughAgreement {
  import opened Words
  import opened ProbeTable
  import opened CacheState
  import opened CacheSteps
  import opened CacheInvariant
  import opened CacheSafety
  import opened FallthroughSteps
  import opened FallthroughRuns

  /** Every slot in use is where the index sends its key. */
  ghost predicate Agree(s: State)
    requires Shaped(s)
  {
    forall d :: Live(s, d) ==> SlotKey(s, d) in s.index && s.index[SlotKey(s, d)] == d
  }

  ghost predicate Agreed(s: State) { Idle(s) && Agree(s) }

  /** The index and the reverse table then say exactly the same. */
  lemma AgreementBothWays(s: State, k: Key, d: Desc)
    requires Agreed(s) && k != 0
    ensures (k in s.index && s.index[k] == d) <==> (Live(s, d) && SlotKey(s, d) == k)
  {
  }

  // ---- Calls that keep the agreement ----

  lemma DropChunkAgrees(s: State, choice: Choice)
    requires Agreed(s) && ChoiceOk(s, choice)
    ensures var s' := DropChunk(s, choice);
            && Agreed(s') && s'.index.Keys <= s.index.Keys
            && forall k :: k in s.index ==> (k in s'.index <==> s.index[k].chunk != choice.victim)
  {
    var s' := DropChunk(s, choice);
    DropChunkKeeps(s, choice, 0);
    DropChunkChunks(s, choice);
    forall k | k in s.index ensures k in s'.index <==> s.index[k].chunk != choice.victim {
      DropChunkUnmaps(s, choice, k);
    }
    forall x | Live(s', x) ensures SlotKey(s', x) in s'.index && s'.index[SlotKey(s', x)] == x {
      assert x.chunk != choice.victim && SlotSame(s, s', x);
    }
  }

  lemma DropChunkUnmaps(s: State, choice: Choice, k: Key)
    requires Agreed(s) && ChoiceOk(s, choice) && k in s.index
    ensures k in DropChunk(s, choice).index <==> s.index[k].chunk != choice.victim
  {
    var ch := s.chunks[choice.victim];
    LookupAgrees(s, k);
    if s.index[k].chunk == choice.victim {
      assert ch.keys[s.index[k].index] == k;
    } else {
      forall i | 0 <= i < ch.len ensures ch.keys[i] != k {
        assert ch.keys[i] != 0 ==> Live(s, Desc(choice.victim, i)) && SlotKey(s, Desc(choice.victim, i)) == ch.keys[i];
      }
    }
  }

  /** The same slots are in use, by the same keys, and the index is the same. */
  ghost predicate UseSame(s: State, t: State)
    requires Shaped(s) && Shaped(t)
  {
    && t.ppc == s.ppc && t.index == s.index
    && (forall x :: Live(t, x) <==> Live(s, x))
    && (forall x :: Live(s, x) ==> SlotKey(t, x) == SlotKey(s, x))
  }

  lemma UseSameAgrees(s: State, t: State)
    requires Shaped(s) && Shaped(t) && UseSame(s, t)
    ensures Agree(s) <==> Agree(t)
  {
  }

  /** A page taken for a key agrees with the index exactly when it is indexed and the key had no slot. */
  lemma TakenAgreesIff(s: State, key: Key, stored: bool)
    requires Agreed(s) && key != 0 && AllocCurrent(s).1.Some?
    ensures Agree(Taken(s, key, stored)) <==> stored && key !in s.index
  {
    var d, s' := AllocCurrent(s).1.value, Taken(s, key, stored);
    TakenFrame(s, key, stored);
    TakenSlots(s, key, stored);
    if stored && key !in s.index {
      forall x | Live(s', x) ensures SlotKey(s', x) in s'.index && s'.index[SlotKey(s', x)] == x {
        assert x != d ==> SlotSame(s, s', x);
      }
    } else {
      TwoSlotsDisagree(s, key, stored);
    }
  }

  /** The key's other slot, or its only one, is not where the index leads. */
  lemma TwoSlotsDisagree(s: State, key: Key, stored: bool)
    requires Agreed(s) && key != 0 && AllocCurrent(s).1.Some? && (stored ==> key in s.index)
    ensures !Agree(Taken(s, key, stored))
  {
    var d, s' := AllocCurrent(s).1.value, Taken(s, key, stored);
    TakenFrame(s, key, stored);
    TakenSlots(s, key, stored);
    assert Live(s', d) && SlotKey(s', d) == key;
    if key in s.index {
      var d0 := s.index[key];
      LookupAgrees(s, key);
      assert SlotSame(s, s', d0) && Live(s', d0) && SlotKey(s', d0) == key && d0 != d;
    }
  }

  lemma MakeRoomAgrees(s: State, choice: Choice)
    requires Agreed(s) && ChoiceOk(s, choice)
    ensures var r := MakeRoom(s, choice);
            && Agreed(r) && r.index.Keys <= s.index.Keys
            && forall k :: k in s.index ==> (k in r.index <==> s.totalFree != 0 || s.index[k].chunk != choice.victim)
  {
    if s.totalFree == 0 { DropChunkAgrees(s, choice); }
  }

  lemma AllocAgreesIff(s: State, key: Key, choice: Choice, stored: bool)
    requires Agreed(s) && key != 0 && ChoiceOk(s, choice) && WriteAlloc(s, key, choice, stored).1.Some?
    ensures var s' := WriteAlloc(s, key, choice, stored).0;
            && Inv(s') && s'.index.Keys <= s.index.Keys + {key}
            && (Agree(s') <==> stored && key !in MakeRoom(s, choice).index)
  {
    var r, t := MakeRoom(s, choice), AllocSite(s, choice);
    WriteAllocTakes(s, key, choice, stored);
    WriteAllocKeeps(s, key, choice, stored);
    MakeRoomAgrees(s, choice);
    WalkStopsAtEnd(r, |s.chunks|);
    UseSameAgrees(r, t);
    TakenAgreesIff(t, key, stored);
    TakenFrame(t, key, stored);
  }

  lemma StoreUsesSame(s: State, page: Page, m: Mem, s': State)
    requires Inv(s) && UserStoreStep(s, page, m, s')
    ensures Inv(s') && UseSame(s, s')
  {
    StoreKeptBut(s, page, m, s');
  }

  /** The end of a miss changes no key and no slot's use. */
  lemma UnlockUsesSame(s: State, m: Mem, t1: byte, t2: byte, s': State)
    requires Inv(s) && WriteUnlockStep(s, false, m, t1, t2, s')
    ensures Idle(s') && UseSame(s, s')
  {
    var a := s.(mem := m);
    UnlockKeptBut(s, m, t1, t2, s');
    ReclaimKeeps(s, a, 0);
    PublishChunks(a, s.wlock.value.desc, t1, t2);
    assert forall x :: Live(a, x) <==> Live(s, x);
  }

  /** A miss of a key that still has a slot, evicted, in a chunk that is not dropped: the slot goes stale. */
  ghost predicate LeavesStale(s: State, e: Event)
    requires e.Miss?
  {
    e.key in s.index && (s.totalFree != 0 || s.index[e.key].chunk != e.choice.victim)
  }

  lemma MissAgreesIff(cfg: Config, s: State, e: Event, s': State)
    requires ConfigOk(cfg) && Agreed(s) && e.Miss? && e.key != 0 && MissStep(cfg, s, e, s')
    ensures Idle(s') && s'.ppc == s.ppc && s'.index.Keys <= s.index.Keys + {e.key}
    ensures Agree(s') <==> e.stored && !LeavesStale(s, e)
  {
    var z := MissSite(e);
    MissAllocates(cfg, s, e, s');
    assert UseSame(s, z);
    UseSameAgrees(s, z);
    MakeRoomAgrees(z, e.choice);
    AllocAgreesIff(z, e.key, e.choice, e.stored);
    StoreUsesSame(e.s2, e.page, e.m2, e.s3);
    UseSameAgrees(e.s2, e.s3);
    UnlockUsesSame(e.s3, e.m3, e.t1, e.t2, s');
    UseSameAgrees(e.s3, s');
    MissFills(cfg, s, e, s');
  }

  lemma ReleaseAgrees(s: State, s': State, k: Key)
    requires Agreed(s) && Idle(s') && s'.ppc == s.ppc && k in s.index
    requires s'.index == s.index - {k} && !Live(s', s.index[k])
    requires forall x :: x != s.index[k] ==> SlotSame(s, s', x)
    ensures Agreed(s')
  {
    forall x | Live(s', x) ensures SlotKey(s', x) in s'.index && s'.index[SlotKey(s', x)] == x {
      assert x != s.index[k] && SlotSame(s, s', x);
    }
  }

  /**
   The index and the reverse table agree after a call except in two cases: a refill whose
   insertion into the index failed, and one of a key whose evicted page keeps its slot, which
   then stays owned by the key although the index has moved on.
   */
  lemma AgreementKeptIff(cfg: Config, s: State, e: Event, s': State)
    requires ConfigOk(cfg) && Agreed(s) && e.key != 0 && FtStep(cfg, s, e, s')
    ensures Idle(s') && s'.ppc == s.ppc && s'.index.Keys <= s.index.Keys + {e.key}
    ensures Agree(s') <==> (e.Miss? ==> e.stored && !LeavesStale(s, e))
  {
    match e
    case Hit(_, _, _, _) => HitReads(cfg, s, e, s'); UseSameAgrees(s, s');
    case Miss(_, _, _, _, _, _, _, _, _, _, _, _, _, _) => MissAgreesIff(cfg, s, e, s');
    case Dropped(_, _, _, _) => DropReleases(s, e, s'); ReleaseAgrees(s, s', e.key);
    case NotFound(key, l) => ReadLockKeeps(s, key, l, s'); UseSameAgrees(s, s');
  }

  /** Dropping the chunk of a stale slot takes the key out of the index, although its new slot is in use and intact. */
  lemma StaleSlotUnmapsKey(s: State, choice: Choice, k: Key, stale: Desc)
    requires Idle(s) && ChoiceOk(s, choice) && k in s.index
    requires Live(s, stale) && SlotKey(s, stale) == k
    requires stale.chunk == choice.victim && s.index[k].chunk != choice.victim
    ensures var s' := DropChunk(s, choice);
            && k !in s'.index
            && Live(s', s.index[k]) && SlotKey(s', s.index[k]) == k
            && SlotPage(s', s.index[k]) == SlotPage(s, s.index[k])
  {
    DropChunkChunks(s, choice);
    LookupAgrees(s, k);
    assert s.chunks[choice.victim].keys[stale.index] == k;
    assert SlotSame(s, DropChunk(s, choice), s.index[k]);
  }
}
