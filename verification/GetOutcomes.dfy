/** What a get of a key can come to, told from the state before the call. */
module GetOutcomes {
  import opened Options
  import opened ProbeTable
  import opened CacheState
  import opened CacheSteps
  import opened CacheInvariant
  import opened CacheSafety
  import opened FallthroughSteps
  import opened FallthroughHits
  import opened FallthroughAgreement
  import opened UndisturbedRuns

  // ---- A get can miss exactly when the key is not protected ----

  /** The key's page, if it has one, is evicted by now. */
  ghost function Lost(s: State, key: Key): State
    requires Idle(s)
  {
    if key in s.index && Tail(SlotPage(s, s.index[key])) != 0 then AfterEviction(s, s.index[key]) else s
  }

  /** The lock of a lookup that fails. */
  ghost function FailedLock(s: State, key: Key): Lock {
    if key !in s.index then Lock(key, EmptyPage, 0, None, 0)
    else Lock(key, EmptyPage, 0, Some(s.index[key].chunk), s.index[key].index % INDEX_MODULUS)
  }

  lemma LookupCanFail(s: State, key: Key)
    requires Idle(s) && key != 0 && !Protected(s, key)
    ensures var s1, l := Lost(s, key), FailedLock(s, key);
            && Idle(s1) && s1.ppc == s.ppc && s1 == s.(mem := s1.mem) && LockShaped(s1, l)
            && ReadLockStep(s, key, l, s1) && CheckFails(s1, l)
  {
    if key in s.index { LookupAgrees(s, key); }
    ReclaimKeeps(s, Lost(s, key), 0);
  }

  /** Whatever the index looks like, the allocation for a key has some outcome. */
  lemma AllocationHappens(s: State, key: Key, choice: Choice) returns (stored: bool, t: State)
    requires Quiet(s) && key != 0 && ChoiceOk(s, choice)
    ensures AllocStep(s, key, choice, stored, t) && Inv(t) && t.wlock.Some?
  {
    stored := key in KeysAtPut(s, choice) || Uncrowded(s.hasher, KeysAtPut(s, choice), key);
    t := WriteAlloc(s, key, choice, stored).0;
    OverfullIsCrowded(s.hasher, KeysAtPut(s, choice), key);
    AllocationFailsIffNoPages(s, choice);
    WriteAllocKeeps(s, key, choice, stored);
  }

  /** While the call is at work, the kernel takes no page after the lookup. */
  ghost predicate Calm(e: Event) {
    e.Miss? && e.m1 == e.s1.mem && e.m2 == e.s2.mem && e.m3 == e.s3.mem
  }

  /** A get of an unprotected key can miss, and the refill complete, whichever chunk is dropped. */
  lemma GetMisses(cfg: Config, s: State, key: Key, choice: Choice) returns (e: Event, t: State)
    requires ConfigOk(cfg) && Idle(s) && s.ppc > 0 && key != 0 && !Protected(s, key) && ChoiceOk(s, choice)
    ensures FtStep(cfg, s, e, t) && e.Miss? && e.key == key && e.choice == choice && e.s1 == Lost(s, key)
    ensures Calm(e)
  {
    var s1, l, pg := Lost(s, key), FailedLock(s, key), EntryPage(cfg, key);
    LookupCanFail(s, key);
    var stored, s2 := AllocationHappens(s1, key, choice);
    PublishHappens(s2, pg);
    var s3 := Stored(s2, pg);
    t := AfterPublish(s2, pg);
    e := Miss(key, cfg.refill(key), l, s1, s1.mem, choice, stored, s2, pg, s2.mem, s3, s3.mem, Tail(pg), Tail(pg));
    assert s1.(mem := s1.mem) == s1 && Payload(pg, cfg.entrySize) == cfg.refill(key);
  }

  /** A get of the key that misses. */
  ghost predicate Misses(cfg: Config, s: State, key: Key, e: Event, t: State)
    requires ConfigOk(cfg)
  {
    FtStep(cfg, s, e, t) && e.Miss? && e.key == key
  }

  /** A get can miss if and only if the key is not indexed, or its page is evicted, or may be. */
  lemma GetCanMissIff(cfg: Config, s: State, key: Key)
    requires ConfigOk(cfg) && Idle(s) && s.ppc > 0 && key != 0
    ensures (exists e: Event, t: State :: Misses(cfg, s, key, e, t)) <==> !Protected(s, key)
  {
    if Protected(s, key) {
      forall e: Event, t: State | Misses(cfg, s, key, e, t) ensures false {
        ProtectedIsFound(cfg, s, e, t);
      }
    } else {
      var e, t := GetMisses(cfg, s, key, DropOf(0, s.ppc));
      assert Misses(cfg, s, key, e, t);
    }
  }

  // ---- When a get keeps the index and the reverse table in agreement ----

  ghost predicate GetStep(cfg: Config, s: State, k: Key, e: Event, t: State)
    requires ConfigOk(cfg)
  {
    e.IsGet() && e.key == k && FtStep(cfg, s, e, t)
  }

  /**
   Told before the call, in a full cache as in any other: if k is indexed or uncrowded, every
   get of k keeps index and reverse table in agreement if and only if k is not indexed, or is
   out of the kernel's reach with its page intact.
   */
  lemma GetKeepsAgreementIff(cfg: Config, s: State, k: Key)
    requires ConfigOk(cfg) && Agreed(s) && k != 0
    requires k in s.index || Uncrowded(s.hasher, s.index.Keys, k)
    ensures (forall e: Event, t: State :: GetStep(cfg, s, k, e, t) ==> Shaped(t) && Agree(t))
            <==> k !in s.index || Protected(s, k)
  {
    if k !in s.index || Protected(s, k) {
      forall e: Event, t: State | GetStep(cfg, s, k, e, t) ensures Shaped(t) && Agree(t) {
        SafeGetAgrees(cfg, s, k, e, t);
      }
    } else {
      var e, t := GetMisses(cfg, s, k, DropOf(if s.index[k].chunk == 0 then 1 else 0, s.ppc));
      AgreementKeptIff(cfg, s, e, t);
      assert GetStep(cfg, s, k, e, t) && LeavesStale(s, e) && !Agree(t);
    }
  }

  lemma SafeGetAgrees(cfg: Config, s: State, k: Key, e: Event, t: State)
    requires ConfigOk(cfg) && Agreed(s) && k != 0 && (k in s.index || Uncrowded(s.hasher, s.index.Keys, k))
    requires GetStep(cfg, s, k, e, t) && (k !in s.index || Protected(s, k))
    ensures Shaped(t) && Agree(t)
  {
    AgreementKeptIff(cfg, s, e, t);
    if e.Miss? {
      if k in s.index { ProtectedIsFound(cfg, s, e, t); } else { UncrowdedIsStored(cfg, s, e, t); }
    }
  }
}
