/** Conservation of pages, and how full the index can get. */
module Occupancy {
  import opened ProbeTable
  import opened CacheState
  import opened CacheSteps
  import opened CacheInvariant
  import opened CacheSafety

  /** The slots in use. */
  ghost function Owned(s: State): set<Desc>
    requires Shaped(s)
  {
    set d | d in s.mem.pages && Live(s, d)
  }

  // ---- Cardinalities ----

  ghost function Below(n: nat): (b: set<nat>)
    ensures |b| == n && forall x: nat :: x in b <==> x < n
  {
    if n == 0 then {} else Below(n - 1) + {n - 1}
  }

  ghost function Elements(s: seq<nat>): set<nat> { set x | x in s }

  lemma {:induction false} DistinctSize(s: seq<nat>)
    requires Distinct(s)
    ensures |Elements(s)| == |s|
  {
    if |s| > 0 {
      var last := |s| - 1;
      DistinctSize(s[..last]);
      assert Elements(s) == Elements(s[..last]) + {s[last]};
      assert s[last] !in s[..last];
    }
  }

  ghost function Place(c: nat, ix: set<nat>): set<Desc> { set i | i in ix :: Desc(c, i) }

  lemma {:induction false} PlaceSize(c: nat, ix: set<nat>)
    ensures |Place(c, ix)| == |ix|
  {
    if ix != {} {
      var x :| x in ix;
      PlaceSize(c, ix - {x});
      assert Place(c, ix) == Place(c, ix - {x}) + {Desc(c, x)};
    }
  }

  // ---- One chunk, then all ----

  ghost function OwnedIndexes(ch: Chunk): set<nat>
    requires ch.len <= |ch.keys|
  {
    set i | i in Below(ch.len) && ch.keys[i] != 0
  }

  lemma OwnedIndexesSize(ppc: nat, ch: Chunk)
    requires ChunkOk(ppc, ch)
    ensures |OwnedIndexes(ch)| == ch.len - |ch.free|
  {
    var below := Below(ch.len);
    DistinctSize(ch.free);
    assert OwnedIndexes(ch) == below - Elements(ch.free);
    assert Elements(ch.free) <= below;
  }

  ghost function OwnedFrom(s: State, c: nat): set<Desc>
    requires Shaped(s)
  {
    set d | d in s.mem.pages && Live(s, d) && c <= d.chunk
  }

  lemma OwnedHere(s: State, c: nat)
    requires Inv(s) && c < NUMBER_OF_CHUNKS
    ensures var here := Place(c, OwnedIndexes(s.chunks[c]));
            OwnedFrom(s, c) == here + OwnedFrom(s, c + 1) && here !! OwnedFrom(s, c + 1)
  {
    var here := Place(c, OwnedIndexes(s.chunks[c]));
    forall d ensures d in OwnedFrom(s, c) <==> d in here || d in OwnedFrom(s, c + 1) {
      assert d in here <==> d.chunk == c && d.index in OwnedIndexes(s.chunks[c]);
    }
  }

  lemma OwnedSplit(s: State, c: nat)
    requires Inv(s) && c < NUMBER_OF_CHUNKS
    ensures |OwnedFrom(s, c)| == s.chunks[c].len - |s.chunks[c].free| + |OwnedFrom(s, c + 1)|
  {
    OwnedIndexesSize(s.ppc, s.chunks[c]);
    PlaceSize(c, OwnedIndexes(s.chunks[c]));
    OwnedHere(s, c);
  }

  lemma SplitProduct(n: int, p: int)
    ensures n * p == p + (n - 1) * p
  {
  }

  lemma {:induction false} OwnedFromSize(s: State, c: nat)
    requires Inv(s) && c <= NUMBER_OF_CHUNKS
    ensures |OwnedFrom(s, c)| == (NUMBER_OF_CHUNKS - c) * s.ppc - SumSpace(s.ppc, s.chunks[c..])
    decreases NUMBER_OF_CHUNKS - c
  {
    if c < NUMBER_OF_CHUNKS {
      OwnedSplit(s, c);
      OwnedFromSize(s, c + 1);
      assert s.chunks[c..][1..] == s.chunks[c + 1..];
      SplitProduct(NUMBER_OF_CHUNKS - c, s.ppc);
    } else {
      assert OwnedFrom(s, c) == {};
    }
  }

  /** `total_free_pages` is the capacity less the slots in use. */
  lemma Conservation(s: State)
    requires Inv(s)
    ensures s.totalFree == NUMBER_OF_CHUNKS * s.ppc - |Owned(s)|
  {
    OwnedFromSize(s, 0);
    assert OwnedFrom(s, 0) == Owned(s);
    assert s.chunks[0..] == s.chunks;
  }

  // ---- The index ----

  lemma {:induction false} InjectionSize(m: map<Key, Desc>, a: set<Desc>)
    requires forall k :: k in m ==> m[k] in a
    requires forall k, q :: k in m && q in m && k != q ==> m[k] != m[q]
    ensures |m| <= |a|
    decreases |m|
  {
    if |m| > 0 {
      var k :| k in m;
      var rest := m - {k};
      assert m.Keys == rest.Keys + {k};
      InjectionSize(rest, a - {m[k]});
    }
  }

  /** Keys of the index have slots of their own. */
  lemma IndexedSlotsDiffer(s: State)
    requires Inv(s)
    ensures |s.index| <= |Owned(s)|
  {
    forall k, q | k in s.index && q in s.index && k != q ensures s.index[k] != s.index[q] {
      assert SlotKey(s, s.index[k]) == k && SlotKey(s, s.index[q]) == q;
    }
    InjectionSize(s.index, Owned(s));
  }

  /**
   The index never holds more keys than the cache has pages, and strictly fewer when
   `lazyfree_write_alloc` inserts: of the two reasons for a rehash only a full probe window remains.
   */
  lemma IndexBelowCapacityAtPut(s: State, key: Key, choice: Choice, stored: bool)
    requires Inv(s) && s.wlock.None? && ChoiceOk(s, choice) && WriteAlloc(s, key, choice, stored).1.Some?
    ensures |s.index| <= NUMBER_OF_CHUNKS * s.ppc
    ensures |AllocNewPage(s, choice).0.index| < NUMBER_OF_CHUNKS * s.ppc
  {
    var t := AllocSite(s, choice);
    Conservation(s);
    IndexedSlotsDiffer(s);
    SpaceBounds(s);
    WriteAllocTakes(s, key, choice, stored);
    Conservation(t);
    IndexedSlotsDiffer(t);
    SpaceBounds(t);
    WalkStopsAtEnd(MakeRoom(s, choice), |s.chunks|);
    assert Space(t.ppc, t.chunks[t.current]) > 0 by { FreeFits(t.ppc, t.chunks[t.current]); }
  }

  /** So a table with a slot for every page is never full when the cache inserts. */
  lemma NeverFullAtPut(s: State, n: nat)
    requires Inv(s) && s.wlock.None? && NUMBER_OF_CHUNKS * s.ppc <= n && n > 0
    ensures IndexBelow(s, n)
  {
    forall choice | ChoiceOk(s, choice) ensures |MakeRoom(s, choice).index| < n {
      var r := MakeRoom(s, choice);
      MakeRoomKeeps(s, choice, 0);
      Conservation(r);
      IndexedSlotsDiffer(r);
    }
  }
}
