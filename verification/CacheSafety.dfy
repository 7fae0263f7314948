/** Every step keeps the invariant, and harms no other key's data. */
module CacheSafety {
  import opened Words
  import opened Options
  import opened ProbeTable
  import opened CacheState
  import opened CacheSteps
  import opened CacheInvariant

  // ---- Memory ----

  /** Steps that change only memory, and pages of key k only in ways its holder or the kernel may. */
  lemma MemoryChangeKeeps(s: State, s': State, k: Key)
    requires Inv(s) && s' == s.(mem := s'.mem, current := s'.current) && s'.current < NUMBER_OF_CHUNKS
    requires s'.mem.pages.Keys == s.mem.pages.Keys && (Shaped(s') ==> EvictableOk(s'))
    requires forall d :: d in s.mem.pages ==>
               || s'.mem.pages[d] == s.mem.pages[d]
               || (s'.mem.pages[d] == ZERO_PAGE && s.chunks[d.chunk].kind == LazyFree)
               || (SlotKey(s, d) == k && (Held(s, d) || PageOk(s.chunks[d.chunk].kind, s'.mem.pages[d])))
    ensures Inv(s') && OthersKept(s, s', k)
  {
    assert Shaped(s') && ChunksOk(s');
    assert forall d :: Live(s', d) ==> Live(s, d) && SlotKey(s', d) == SlotKey(s, d);
  }

  lemma ReclaimKeeps(s: State, s': State, k: Key)
    requires Inv(s) && Reclaims(s, s')
    ensures Inv(s') && OthersKept(s, s', k)
  {
    MemoryChangeKeeps(s, s', k);
  }

  /** Storing into a page: harmless when the page is write-locked or what is stored is a proper page. */
  lemma StoreKeeps(s: State, d: Desc, pg: Page, m: Mem)
    requires Inv(s) && Evicts(s.mem, m) && InRange(s.ppc, d)
    requires Held(s, d) || PageOk(s.chunks[d.chunk].kind, pg)
    ensures Inv(s.(mem := StorePage(m, d, pg)))
    ensures OthersKept(s, s.(mem := StorePage(m, d, pg)), SlotKey(s, d))
  {
    MemoryChangeKeeps(s, s.(mem := StorePage(m, d, pg)), SlotKey(s, d));
  }

  lemma AdvanceKeeps(s: State, k: Key)
    requires Inv(s)
    ensures Inv(Advance(s)) && OthersKept(s, Advance(s), k)
  {
    MemoryChangeKeeps(s, Advance(s), k);
  }

  // ---- Pages once allocated ----

  lemma CacheDropSeen(s: State, d: Desc)
    requires Shaped(s) && InRange(s.ppc, d)
    ensures SeenKept(s, CacheDrop(s.(wlock := None), d))
  {
  }

  lemma DropChunkSeen(s: State, choice: Choice)
    requires Shaped(s) && ChoiceOk(s, choice)
    ensures SeenKept(s, DropChunk(s, choice))
  {
  }

  lemma TakenSeen(s: State, key: Key, stored: bool)
    requires Inv(s) && key != 0 && AllocCurrent(s).1.Some?
    ensures SeenKept(s, Taken(s, key, stored))
  {
    TakenFrame(s, key, stored);
    TakenChunk(s, key, stored);
  }

  lemma MakeRoomSeen(s: State, choice: Choice)
    requires Shaped(s) && ChoiceOk(s, choice)
    ensures SeenKept(s, MakeRoom(s, choice))
  {
    if s.totalFree == 0 { DropChunkSeen(s, choice); }
  }

  lemma SeenKeptTransitive(s: State, t: State, u: State)
    requires Shaped(s) && Shaped(t) && Shaped(u) && SeenKept(s, t) && SeenKept(t, u)
    ensures SeenKept(s, u)
  {
  }

  lemma WriteAllocSeen(s: State, key: Key, choice: Choice, stored: bool)
    requires Inv(s) && s.wlock.None? && ChoiceOk(s, choice) && key != 0
    requires WriteAlloc(s, key, choice, stored).1.Some?
    ensures SeenKept(s, WriteAlloc(s, key, choice, stored).0)
  {
    var r, t := MakeRoom(s, choice), AllocSite(s, choice);
    WriteAllocTakes(s, key, choice, stored);
    MakeRoomSeen(s, choice);
    WalkStopsAtEnd(r, |s.chunks|);
    assert SeenKept(r, t);
    TakenSeen(t, key, stored);
    SeenKeptTransitive(s, r, t);
    SeenKeptTransitive(s, t, Taken(t, key, stored));
  }

  // ---- Slots ----

  /** Slot x is used, or unused, as before. */
  ghost predicate SlotSame(s: State, s': State, x: Desc)
    requires Shaped(s) && Shaped(s') && s'.ppc == s.ppc
  {
    && (Live(s', x) <==> Live(s, x))
    && (Live(s, x) ==> SlotKey(s', x) == SlotKey(s, x) && SlotBit(s', x) == SlotBit(s, x))
  }

  /** One chunk changed, and in it one slot. */
  lemma OneSlotChanged(s: State, s': State, d: Desc)
    requires Shaped(s) && Shaped(s') && s'.ppc == s.ppc && InRange(s.ppc, d)
    requires s'.chunks == s.chunks[d.chunk := s'.chunks[d.chunk]]
    requires var ch, ch' := s.chunks[d.chunk], s'.chunks[d.chunk];
             forall i :: 0 <= i < s.ppc && i != d.index ==>
               ch'.keys[i] == ch.keys[i] && ch'.bits[i] == ch.bits[i] && (i < ch'.len <==> i < ch.len)
    ensures forall x :: x != d ==> SlotSame(s, s', x)
  {
    forall x | x != d ensures SlotSame(s, s', x) {
      assert x.chunk == d.chunk ==> x.index != d.index;
    }
  }

  // ---- Releasing pages ----

  lemma CacheDropChunks(s: State, d: Desc)
    requires Inv(s) && Live(s, d)
    ensures var s' := CacheDrop(s.(wlock := None), d);
            && |s.chunks[d.chunk].free| + 1 <= s.chunks[d.chunk].len
            && ChunksOk(s') && s'.totalFree == SumSpace(s'.ppc, s'.chunks) && EvictableOk(s')
            && !Live(s', d) && forall x :: x != d ==> SlotSame(s, s', x)
  {
    var s' := CacheDrop(s.(wlock := None), d);
    PushKeepsChunk(s.ppc, s.chunks[d.chunk], d.index);
    SumUpdate(s.ppc, s.chunks, d.chunk, s'.chunks[d.chunk]);
    OneSlotChanged(s, s', d);
  }

  /** `cache_drop` of an owned slot, which is the write-locked one if there is one. */
  lemma CacheDropKeeps(s: State, d: Desc, k: Key)
    requires Inv(s) && Live(s, d) && (s.wlock.None? || Held(s, d))
    ensures |s.chunks[d.chunk].free| + 1 <= s.chunks[d.chunk].len
    ensures Inv(CacheDrop(s.(wlock := None), d))
    ensures OthersKept(s, CacheDrop(s.(wlock := None), d), k)
  {
    var s' := CacheDrop(s.(wlock := None), d);
    CacheDropChunks(s, d);
    assert forall x :: Live(s', x) ==> x != d && SlotSame(s, s', x);
    forall k | k in s'.index ensures Live(s', s'.index[k]) && SlotKey(s', s'.index[k]) == k {
      assert s.index[k] != d && SlotSame(s, s', s.index[k]);
    }
  }

  lemma DropChunkChunks(s: State, choice: Choice)
    requires Inv(s) && s.wlock.None? && ChoiceOk(s, choice)
    ensures var s' := DropChunk(s, choice);
            && ChunksOk(s') && s'.totalFree == SumSpace(s'.ppc, s'.chunks) && EvictableOk(s')
            && (forall x: Desc :: x.chunk == choice.victim ==> !Live(s', x))
            && (forall x: Desc :: x.chunk != choice.victim ==> SlotSame(s, s', x))
            && (forall x :: Live(s', x) ==> SlotPage(s', x) == SlotPage(s, x))
  {
    var s' := DropChunk(s, choice);
    assert ChunkOk(s.ppc, s'.chunks[choice.victim]);
    SumUpdate(s.ppc, s.chunks, choice.victim, s'.chunks[choice.victim]);
  }

  lemma DropChunkKeeps(s: State, choice: Choice, k: Key)
    requires Inv(s) && s.wlock.None? && ChoiceOk(s, choice)
    ensures Inv(DropChunk(s, choice)) && OthersKept(s, DropChunk(s, choice), k)
  {
    var s' := DropChunk(s, choice);
    DropChunkChunks(s, choice);
    assert forall x :: Live(s', x) ==> x.chunk != choice.victim && SlotSame(s, s', x);
    forall q | q in s'.index ensures Live(s', s'.index[q]) && SlotKey(s', s'.index[q]) == q {
      assert SlotKey(s, s.index[q]) == q;
      assert SlotSame(s, s', s.index[q]);
    }
  }

  // ---- Allocating pages ----

  /** The chunk in which the loop of `alloc_new_page` stops. */
  function WalkEnd(s: State, left: nat): (t: State)
    requires Shaped(s) && left > 0
    ensures Shaped(t) && t.ppc == s.ppc
    decreases left
  {
    if AllocCurrent(s).1.Some? || left == 1 then s else WalkEnd(Advance(s), left - 1)
  }

  lemma {:induction false} WalkStopsAtEnd(s: State, left: nat)
    requires Shaped(s) && left > 0
    ensures Walk(s, left).1.Some? ==> Walk(s, left) == AllocCurrent(WalkEnd(s, left))
    ensures WalkEnd(s, left) == s.(mem := WalkEnd(s, left).mem, current := WalkEnd(s, left).current)
    decreases left
  {
    if AllocCurrent(s).1.None? && left > 1 {
      WalkStopsAtEnd(Advance(s), left - 1);
    }
  }

  lemma {:induction false} WalkKeeps(s: State, left: nat, k: Key)
    requires Inv(s) && left > 0
    ensures Inv(WalkEnd(s, left)) && OthersKept(s, WalkEnd(s, left), k)
    decreases left
  {
    if AllocCurrent(s).1.None? && left > 1 {
      AdvanceKeeps(s, k);
      WalkKeeps(Advance(s), left - 1, k);
      OthersKeptTransitive(s, Advance(s), WalkEnd(Advance(s), left - 1), k);
    }
  }

  /** The j-th chunk from `current`, in circular order. */
  function Nth(current: nat, j: nat): nat
    requires current < NUMBER_OF_CHUNKS
  {
    if current + j < NUMBER_OF_CHUNKS then current + j else current + j - NUMBER_OF_CHUNKS
  }

  ghost predicate Full(s: State, c: nat)
    requires |s.chunks| == NUMBER_OF_CHUNKS && c < NUMBER_OF_CHUNKS
  {
    Space(s.ppc, s.chunks[c]) == 0
  }

  lemma CurrentIsFull(s: State)
    requires Shaped(s) && AllocCurrent(s).1.None?
    ensures Full(s, s.current)
  {
  }

  lemma AdvanceGoesRound(s: State)
    requires Shaped(s)
    ensures Advance(s).current == Nth(s.current, 1) && Advance(s).chunks == s.chunks
  {
  }

  lemma NthShift(current: nat, j: nat)
    requires current < NUMBER_OF_CHUNKS && 0 < j < NUMBER_OF_CHUNKS
    ensures Nth(Nth(current, 1), j - 1) == Nth(current, j)
  {
  }

  lemma {:induction false} WalkFailsOnlyWhenFull(s: State, left: nat)
    requires Shaped(s) && 0 < left <= NUMBER_OF_CHUNKS && Walk(s, left).1.None?
    ensures forall j :: 0 <= j < left ==> Full(s, Nth(s.current, j))
    decreases left
  {
    CurrentIsFull(s);
    assert Nth(s.current, 0) == s.current;
    if left > 1 {
      var a := Advance(s);
      AdvanceGoesRound(s);
      WalkFailsOnlyWhenFull(a, left - 1);
      forall j | 1 <= j < left ensures Full(s, Nth(s.current, j)) {
        NthShift(s.current, j);
        assert Full(a, Nth(a.current, j - 1));
      }
    }
  }

  lemma AllFullIsNoSpace(s: State)
    requires Shaped(s) && forall j :: 0 <= j < NUMBER_OF_CHUNKS ==> Full(s, Nth(s.current, j))
    ensures SumSpace(s.ppc, s.chunks) == 0
  {
    forall c | 0 <= c < NUMBER_OF_CHUNKS ensures Space(s.ppc, s.chunks[c]) == 0 {
      var j := if s.current <= c then c - s.current else c - s.current + NUMBER_OF_CHUNKS;
      assert Nth(s.current, j) == c && Full(s, Nth(s.current, j));
    }
    SumBounds(s.ppc, s.chunks);
  }

  /** With a free page left, the walk over all chunks finds one. */
  lemma WalkFinds(s: State)
    requires Inv(s) && s.totalFree > 0
    ensures Walk(s, |s.chunks|).1.Some?
  {
    if Walk(s, |s.chunks|).1.None? {
      WalkFailsOnlyWhenFull(s, |s.chunks|);
      AllFullIsNoSpace(s);
      assert false;
    }
  }

  lemma SpaceBounds(s: State)
    requires Inv(s)
    ensures forall c :: 0 <= c < NUMBER_OF_CHUNKS ==>
              0 <= Space(s.ppc, s.chunks[c]) <= s.totalFree && Space(s.ppc, s.chunks[c]) <= s.ppc
    ensures s.ppc == 0 ==> s.totalFree == 0
  {
    forall c | 0 <= c < NUMBER_OF_CHUNKS ensures 0 <= Space(s.ppc, s.chunks[c]) <= s.ppc {
      FreeFits(s.ppc, s.chunks[c]);
    }
    SumBounds(s.ppc, s.chunks);
  }

  lemma MakeRoomKeeps(s: State, choice: Choice, k: Key)
    requires Inv(s) && s.wlock.None? && ChoiceOk(s, choice)
    ensures Inv(MakeRoom(s, choice)) && OthersKept(s, MakeRoom(s, choice), k)
    ensures MakeRoom(s, choice).totalFree > 0 <==> s.ppc > 0
    ensures MakeRoom(s, choice).wlock.None?
  {
    SpaceBounds(s);
    if s.totalFree == 0 {
      DropChunkKeeps(s, choice, k);
      SpaceBounds(DropChunk(s, choice));
    }
  }

  /** "Failed to find free page" is reached exactly by a cache with no page per chunk. */
  lemma AllocationFailsIffNoPages(s: State, choice: Choice)
    requires Inv(s) && s.wlock.None? && ChoiceOk(s, choice)
    ensures AllocNewPage(s, choice).1.None? <==> s.ppc == 0
  {
    MakeRoomKeeps(s, choice, 0);
    if s.ppc > 0 {
      WalkFinds(MakeRoom(s, choice));
    } else {
      NoPagesNoSlot(MakeRoom(s, choice), |s.chunks|);
    }
  }

  lemma {:induction false} NoPagesNoSlot(s: State, left: nat)
    requires Inv(s) && s.ppc == 0 && left > 0
    ensures Walk(s, left).1.None?
    decreases left
  {
    FreeFits(s.ppc, s.chunks[s.current]);
    if left > 1 {
      AdvanceKeeps(s, 0);
      NoPagesNoSlot(Advance(s), left - 1);
    }
  }

  /** A page of the current chunk, taken for a key. */
  function Taken(s: State, key: Key, stored: bool): (r: State)
    requires Shaped(s) && AllocCurrent(s).1.Some?
    ensures Shaped(r) && r.ppc == s.ppc
  {
    Claim(AllocCurrent(s).0, AllocCurrent(s).1.value, key, stored)
  }

  lemma TakenChunk(s: State, key: Key, stored: bool)
    requires Inv(s) && key != 0 && AllocCurrent(s).1.Some?
    ensures var ch, ch', d := s.chunks[s.current], Taken(s, key, stored).chunks[s.current], AllocCurrent(s).1.value;
            && ChunkOk(s.ppc, ch') && Space(s.ppc, ch') == Space(s.ppc, ch) - 1
            && d.index < ch'.len && (d.index < ch.len ==> ch.keys[d.index] == 0)
            && ch'.bits == ch.bits && ch'.keys == ch.keys[d.index := key] && ch'.kind == ch.kind
            && (ch'.len == ch.len || (ch'.len == ch.len + 1 && d.index == ch.len))
  {
    var ch := s.chunks[s.current];
    if |ch.free| > 0 {
      PopKeepsChunk(s.ppc, ch, key);
    } else {
      BumpKeepsChunk(s.ppc, ch, key);
    }
  }

  lemma TakenFrame(s: State, key: Key, stored: bool)
    requires Shaped(s) && key != 0 && AllocCurrent(s).1.Some?
    ensures var d, s' := AllocCurrent(s).1.value, Taken(s, key, stored);
            && s' == s.(chunks := s.chunks[s.current := s'.chunks[s.current]], totalFree := s.totalFree - 1,
                        index := if stored then s.index[key := d] else s.index, wlock := Some(WLock(d, key)))
            && d.chunk == s.current
  {
    assert Taken(s, key, stored).chunks == s.chunks[s.current := Taken(s, key, stored).chunks[s.current]];
  }

  lemma TakenSlots(s: State, key: Key, stored: bool)
    requires Inv(s) && key != 0 && AllocCurrent(s).1.Some?
    ensures var d, s' := AllocCurrent(s).1.value, Taken(s, key, stored);
            && ChunksOk(s') && s'.totalFree == SumSpace(s'.ppc, s'.chunks)
            && !Live(s, d) && Live(s', d) && SlotKey(s', d) == key
            && forall x :: x != d ==> SlotSame(s, s', x)
  {
    var s' := Taken(s, key, stored);
    TakenChunk(s, key, stored);
    TakenFrame(s, key, stored);
    SumUpdate(s.ppc, s.chunks, s.current, s'.chunks[s.current]);
    OneSlotChanged(s, s', AllocCurrent(s).1.value);
  }

  lemma TakenIndex(s: State, key: Key, stored: bool)
    requires Inv(s) && key != 0 && AllocCurrent(s).1.Some?
    ensures IndexOk(Taken(s, key, stored))
  {
    var d, s' := AllocCurrent(s).1.value, Taken(s, key, stored);
    TakenFrame(s, key, stored);
    TakenSlots(s, key, stored);
    forall q | q in s'.index ensures q != 0 && Live(s', s'.index[q]) && SlotKey(s', s'.index[q]) == q {
      assert s'.index[q] != d ==> SlotSame(s, s', s.index[q]);
    }
  }

  lemma TakenKeeps(s: State, key: Key, stored: bool)
    requires Inv(s) && s.wlock.None? && key != 0 && AllocCurrent(s).1.Some?
    ensures Inv(Taken(s, key, stored)) && OthersKept(s, Taken(s, key, stored), key)
  {
    var d, s' := AllocCurrent(s).1.value, Taken(s, key, stored);
    TakenFrame(s, key, stored);
    TakenSlots(s, key, stored);
    TakenIndex(s, key, stored);
    TakenPages(s, key, stored);
    assert forall x :: Live(s', x) && x != d ==> SlotSame(s, s', x);
  }

  lemma TakenPages(s: State, key: Key, stored: bool)
    requires Inv(s) && s.wlock.None? && key != 0 && AllocCurrent(s).1.Some?
    ensures PagesOk(Taken(s, key, stored)) && EvictableOk(Taken(s, key, stored))
  {
    var s' := Taken(s, key, stored);
    TakenFrame(s, key, stored);
    TakenChunk(s, key, stored);
    TakenSlots(s, key, stored);
    forall x | Live(s', x) && !Held(s', x) ensures PageOk(s'.chunks[x.chunk].kind, SlotPage(s', x)) {
      assert SlotSame(s, s', x);
    }
  }

  // ---- lazyfree_write_alloc ----

  /** The state in which `alloc_new_page` takes its page. */
  function AllocSite(s: State, choice: Choice): (t: State)
    requires Shaped(s) && ChoiceOk(s, choice)
    ensures Shaped(t) && t.ppc == s.ppc
  {
    WalkEnd(MakeRoom(s, choice), |s.chunks|)
  }

  lemma WriteAllocTakes(s: State, key: Key, choice: Choice, stored: bool)
    requires Inv(s) && s.wlock.None? && ChoiceOk(s, choice)
    requires WriteAlloc(s, key, choice, stored).1.Some?
    ensures var t := AllocSite(s, choice);
            && Inv(t) && t.wlock.None?
            && AllocCurrent(t).1 == WriteAlloc(s, key, choice, stored).1
            && WriteAlloc(s, key, choice, stored).0 == Taken(t, key, stored)
  {
    MakeRoomKeeps(s, choice, 0);
    WalkKeeps(MakeRoom(s, choice), |s.chunks|, 0);
    WalkStopsAtEnd(MakeRoom(s, choice), |s.chunks|);
  }

  lemma WriteAllocKeeps(s: State, key: Key, choice: Choice, stored: bool)
    requires Inv(s) && s.wlock.None? && key != 0 && ChoiceOk(s, choice)
    requires WriteAlloc(s, key, choice, stored).1.Some?
    ensures var s' := WriteAlloc(s, key, choice, stored).0; Inv(s') && OthersKept(s, s', key)
  {
    var r, t := MakeRoom(s, choice), AllocSite(s, choice);
    WriteAllocTakes(s, key, choice, stored);
    MakeRoomKeeps(s, choice, key);
    WalkKeeps(r, |s.chunks|, key);
    TakenKeeps(t, key, stored);
    OthersKeptTransitive(s, r, t, key);
    OthersKeptTransitive(s, t, Taken(t, key, stored), key);
  }

  ghost predicate KindsSame(s: State, t: State)
    requires Shaped(s) && Shaped(t)
  {
    forall c :: 0 <= c < NUMBER_OF_CHUNKS ==> t.chunks[c].kind == s.chunks[c].kind
  }

  lemma AllocKeepsKinds(s: State, key: Key, choice: Choice, stored: bool)
    requires Inv(s) && s.wlock.None? && key != 0 && ChoiceOk(s, choice) && WriteAlloc(s, key, choice, stored).1.Some?
    ensures var s' := WriteAlloc(s, key, choice, stored).0; Shaped(s') && KindsSame(s, s')
  {
    WriteAllocTakes(s, key, choice, stored);
    WalkStopsAtEnd(MakeRoom(s, choice), |s.chunks|);
    TakenFrame(AllocSite(s, choice), key, stored);
    TakenChunk(AllocSite(s, choice), key, stored);
  }

  // ---- Every step ----

  lemma HoldKeeps(s: State, d: Desc)
    requires Inv(s) && s.wlock.None? && Live(s, d)
    ensures Inv(s.(wlock := Some(WLock(d, SlotKey(s, d)))))
  {
    var s' := s.(wlock := Some(WLock(d, SlotKey(s, d))));
    assert forall x :: Live(s', x) ==> Live(s, x);
  }

  lemma UpgradeStateKeeps(s: State, d: Desc)
    requires Inv(s) && s.wlock.None? && Live(s, d)
    ensures var s' := Upgrade(s, d, SlotKey(s, d)); Inv(s') && OthersKept(s, s', SlotKey(s, d))
  {
    HoldKeeps(s, d);
    MemoryChangeKeeps(s.(wlock := Some(WLock(d, SlotKey(s, d)))), Upgrade(s, d, SlotKey(s, d)), SlotKey(s, d));
  }

  lemma MatchedIsLive(s: State, l: Lock)
    requires Shaped(s) && LockOk(s, l) && KeyMatches(s, l)
    ensures Live(s, l.head.desc) && SlotKey(s, l.head.desc) == l.key
  {
  }

  lemma UpgradeKeeps(s: State, l: Lock, m: Mem)
    requires Inv(s) && s.wlock.None? && LockOk(s, l) && KeyMatches(s, l) && Evicts(s.mem, m)
    ensures var s' := Upgrade(s.(mem := m), l.head.desc, l.key); Inv(s') && OthersKept(s, s', l.key)
  {
    var a, d := s.(mem := m), l.head.desc;
    MatchedIsLive(s, l);
    ReclaimKeeps(s, a, l.key);
    assert Live(a, d) && SlotKey(a, d) == l.key;
    var s' := Upgrade(a, d, l.key);
    assert Inv(s') && OthersKept(a, s', l.key) by { UpgradeStateKeeps(a, d); }
    OthersKeptTransitive(s, a, s', l.key);
  }

  lemma FallbackPage(s: State, d: Desc, m: Mem)
    requires Inv(s) && s.wlock.None? && Live(s, d) && Evicts(s.mem, m) && Tail(m.pages[d]) == 0
    ensures m.pages[d] == ZERO_PAGE && m.pages[d][0 := 0] == ZERO_PAGE
    ensures s.chunks[d.chunk].kind == LazyFree
  {
    assert PageOk(s.chunks[d.chunk].kind, SlotPage(s, d));
  }

  /** Falling back is allocating in a state in which the evicted page is all zero. */
  lemma FallbackAllocates(s: State, l: Lock, m: Mem, choice: Choice, stored: bool, s': State)
    requires Inv(s) && LockOk(s, l) && KeyMatches(s, l) && WriteLockStep(s, l, m, choice, stored, s')
    requires Tail(m.pages[l.head.desc]) == 0
    ensures var z := s.(mem := StorePage(m, l.head.desc, ZERO_PAGE));
            && Inv(z) && OthersKept(s, z, l.key) && ChoiceOk(z, choice) && SeenKept(s, z)
            && WriteAlloc(z, l.key, choice, stored).1.Some? && s' == WriteAlloc(z, l.key, choice, stored).0
  {
    FallbackPage(s, l.head.desc, m);
    StoreKeeps(s, l.head.desc, ZERO_PAGE, m);
  }

  lemma WriteLockKeeps(s: State, l: Lock, m: Mem, choice: Choice, stored: bool, s': State)
    requires Inv(s) && LockOk(s, l)
    requires WriteLockStep(s, l, m, choice, stored, s') && (Upgrades(s, l, m) ==> IndexFits(l))
    ensures Inv(s') && OthersKept(s, s', l.key)
  {
    if !KeyMatches(s, l) {
      WriteAllocKeeps(s, l.key, choice, stored);
    } else if Tail(m.pages[l.head.desc]) != 0 {
      FittingUpgrade(s, l, m, choice, stored, s');
      UpgradeKeeps(s, l, m);
    } else {
      var z := s.(mem := StorePage(m, l.head.desc, ZERO_PAGE));
      FallbackAllocates(s, l, m, choice, stored, s');
      WriteAllocKeeps(z, l.key, choice, stored);
      OthersKeptTransitive(s, z, s', l.key);
    }
  }

  lemma PublishChunks(s: State, d: Desc, t1: byte, t2: byte)
    requires Inv(s) && InRange(s.ppc, d)
    ensures var s' := Publish(s, d, t1, t2);
            && ChunksOk(s') && s'.totalFree == SumSpace(s'.ppc, s'.chunks) && EvictableOk(s')
            && (forall x :: Live(s', x) <==> Live(s, x))
            && (forall x :: Live(s, x) ==> SlotKey(s', x) == SlotKey(s, x))
            && (forall x :: Live(s, x) && x != d ==> SlotBit(s', x) == SlotBit(s, x))
  {
    var s' := Publish(s, d, t1, t2);
    assert ChunkOk(s.ppc, s'.chunks[d.chunk]);
    SumUpdate(s.ppc, s.chunks, d.chunk, s'.chunks[d.chunk]);
  }

  lemma PublishKeeps(s: State, d: Desc, t1: byte, t2: byte)
    requires Inv(s) && Held(s, d)
    ensures Inv(Publish(s, d, t1, t2)) && OthersKept(s, Publish(s, d, t1, t2), SlotKey(s, d))
  {
    var s' := Publish(s, d, t1, t2);
    PublishChunks(s, d, t1, t2);
    StolenBitRoundTrip(t2);
    assert forall x: Desc :: x != d && x in s.mem.pages ==> s'.mem.pages[x] == s.mem.pages[x];
    assert PageOk(s'.chunks[d.chunk].kind, SlotPage(s', d));
  }

  lemma WriteUnlockKeeps(s: State, drop: bool, m: Mem, t1: byte, t2: byte, s': State)
    requires Inv(s) && WriteUnlockStep(s, drop, m, t1, t2, s')
    ensures Inv(s') && OthersKept(s, s', s.wlock.value.key)
  {
    var d := s.wlock.value.desc;
    if drop {
      CacheDropKeeps(s, d, SlotKey(s, d));
    } else {
      var a := s.(mem := m);
      ReclaimKeeps(s, a, s.wlock.value.key);
      PublishKeeps(a, d, t1, t2);
      OthersKeptTransitive(s, a, s', s.wlock.value.key);
    }
  }

  /** A read unlock, whether it drops its page or not, gives no slot new data. */
  lemma ReadUnlockKeeps(s: State, l: Lock, drop: bool, valid: bool, s': State, k: Key)
    requires Inv(s) && LockOk(s, l) && ReadUnlockStep(s, l, drop, valid, s')
    ensures Inv(s') && OthersKept(s, s', k)
  {
    if l.head.At? {
      var a := s.(mem := s'.mem);
      ReclaimKeeps(s, a, k);
      if valid && drop {
        CacheDropKeeps(a, l.head.desc, k);
        OthersKeptTransitive(s, a, s', k);
      }
    }
  }

  /** Every step of the protocol keeps the invariant and leaves the other keys' data alone. */
  lemma StepKeeps(s: State, op: ApiOp, s': State)
    requires Inv(s) && ApiStep(s, op, s')
    ensures Inv(s') && OthersKept(s, s', OpKey(s, op))
  {
    match op
    case Kernel => ReclaimKeeps(s, s', 0);
    case ReadLock(key, l) => ReclaimKeeps(s, s', key);
    case ReadUnlock(l, drop, valid) => ReadUnlockKeeps(s, l, drop, valid, s', l.key);
    case WriteLock(l, m, choice, stored) => WriteLockKeeps(s, l, m, choice, stored, s');
    case UserStore(page, m) => StoreKeeps(s, s.wlock.value.desc, page, m);
    case WriteUnlock(drop, m, t1, t2) => WriteUnlockKeeps(s, drop, m, t1, t2, s');
  }

  lemma StepKeepsSeen(s: State, op: ApiOp, s': State)
    requires Inv(s) && ApiStep(s, op, s')
    ensures Inv(s') && SeenKept(s, s')
  {
    StepKeeps(s, op, s');
    match op
    case Kernel =>
    case ReadLock(key, l) =>
    case ReadUnlock(l, drop, valid) =>
      if l.head.At? { CacheDropSeen(s.(mem := s'.mem), l.head.desc); }
    case WriteLock(l, m, choice, stored) => WriteLockSeen(s, l, m, choice, stored, s');
    case UserStore(page, m) =>
    case WriteUnlock(drop, m, t1, t2) =>
      CacheDropSeen(s, s.wlock.value.desc);
  }

  lemma UpgradeSeen(s: State, l: Lock, m: Mem)
    requires Inv(s) && s.wlock.None? && LockOk(s, l) && KeyMatches(s, l) && Evicts(s.mem, m)
    ensures var s' := Upgrade(s.(mem := m), l.head.desc, l.key); Shaped(s') && SeenKept(s, s')
  {
    UpgradeKeeps(s, l, m);
  }

  lemma FallbackSeen(s: State, l: Lock, m: Mem, choice: Choice, stored: bool, s': State)
    requires Inv(s) && LockOk(s, l) && KeyMatches(s, l) && WriteLockStep(s, l, m, choice, stored, s')
    requires Tail(m.pages[l.head.desc]) == 0
    ensures Shaped(s') && SeenKept(s, s')
  {
    var z := s.(mem := StorePage(m, l.head.desc, ZERO_PAGE));
    FallbackAllocates(s, l, m, choice, stored, s');
    WriteAllocKeeps(z, l.key, choice, stored);
    WriteAllocSeen(z, l.key, choice, stored);
    SeenKeptTransitive(s, z, s');
  }

  lemma WriteLockSeen(s: State, l: Lock, m: Mem, choice: Choice, stored: bool, s': State)
    requires Inv(s) && LockOk(s, l)
    requires WriteLockStep(s, l, m, choice, stored, s') && (Upgrades(s, l, m) ==> IndexFits(l))
    ensures Shaped(s') && SeenKept(s, s')
  {
    if !KeyMatches(s, l) {
      WriteAllocKeeps(s, l.key, choice, stored);
      WriteAllocSeen(s, l.key, choice, stored);
    } else if Tail(m.pages[l.head.desc]) != 0 {
      FittingUpgrade(s, l, m, choice, stored, s');
      UpgradeSeen(s, l, m);
    } else {
      FallbackSeen(s, l, m, choice, stored, s');
    }
  }
}
