/**
 The slot array behind src/include/hashmap.h as a value: open addressing with an
 8-slot probe window, no wrap-around and no tombstones.
 */
module ProbeTable {
  import opened Words

  type Key = uint64
  type Hasher = Key -> uint32

  const HASHMAP_LINEAR_PROBE_LENGTH := 8

  /** A zeroed slot is Blank (`in_use == 0`). */
  datatype Element<V> = Blank | Entry(key: Key, data: V)

  function Capacity(log2: nat): nat { Pow2(log2) }

  function Scramble(hash: uint32): uint32 { (hash * 2654435769) % TWO_TO_THE_32 }

  /** The multiplier is odd, and 340573321 its inverse: scrambling loses nothing of the hash. */
  lemma ScrambleInverts(hash: uint32)
    ensures (Scramble(hash) * 340573321) % TWO_TO_THE_32 == hash
  {
    var q := LowWord(hash * 2654435769);
    WordOf(hash, 210485888 * hash - 340573321 * q);
    assert Scramble(hash) * 340573321 == hash + TWO_TO_THE_32 * (210485888 * hash - 340573321 * q);
  }

  /** So different hashes have different scrambles. */
  lemma ScrambleInjective(a: uint32, b: uint32)
    requires Scramble(a) == Scramble(b)
    ensures a == b
  {
    ScrambleInverts(a);
    ScrambleInverts(b);
  }

  /** First slot of a hash's window: a 32-bit multiply, then the top log2 bits. */
  function Home(hash: uint32, log2: nat): nat
    requires 1 <= log2 <= 31
  {
    Quotient(Scramble(hash), Pow2(32 - log2))
  }

  /** The window starts at the number that the top log2 bits of the scramble spell. */
  lemma HomeIsTopBits(hash: uint32, log2: nat)
    requires 1 <= log2 <= 31
    ensures Pow2(32 - log2) * Home(hash, log2) <= Scramble(hash) < Pow2(32 - log2) * (Home(hash, log2) + 1)
  {
    QuotientIsFloor(Scramble(hash), Pow2(32 - log2));
  }

  lemma HomeInRange(hash: uint32, log2: nat)
    requires 1 <= log2 <= 31
    ensures Home(hash, log2) < Capacity(log2) < 0x1_0000_0000 - HASHMAP_LINEAR_PROBE_LENGTH
  {
    Pow2Values();
    Pow2Sum(32 - log2, log2);
    Pow2Monotone(log2, 31);
    QuotientBound(Scramble(hash), Pow2(32 - log2), Pow2(log2));
  }

  /** Doubling the capacity sends home h to 2h or 2h + 1. */
  lemma HomeDoubles(hash: uint32, log2: nat)
    requires 1 <= log2 <= 30
    ensures Home(hash, log2 + 1) / 2 == Home(hash, log2)
  {
    QuotientDoubles(Scramble(hash), Pow2(31 - log2));
    assert Pow2(32 - log2) == 2 * Pow2(31 - log2);
  }

  ghost predicate KeysDistinct<V>(t: seq<Element<V>>) {
    forall i, j :: 0 <= i < j < |t| && t[i].Entry? && t[j].Entry? ==> t[i].key != t[j].key
  }

  ghost predicate InWindow(hash: uint32, log2: nat, i: int)
    requires 1 <= log2 <= 31
  {
    Home(hash, log2) <= i < Home(hash, log2) + HASHMAP_LINEAR_PROBE_LENGTH
  }

  /** Every entry sits in its key's window, under a key that is not NULL. */
  ghost predicate Placed<V>(t: seq<Element<V>>, log2: nat, hash: Hasher)
    requires 1 <= log2 <= 31
  {
    forall i :: 0 <= i < |t| && t[i].Entry? ==> t[i].key != 0 && InWindow(hash(t[i].key), log2, i)
  }

  ghost predicate WellFormed<V>(t: seq<Element<V>>, log2: nat, hash: Hasher) {
    && 1 <= log2 <= 31
    && |t| == Capacity(log2) + HASHMAP_LINEAR_PROBE_LENGTH
    && KeysDistinct(t)
    && Placed(t, log2, hash)
  }

  /** m is the finite map that t stands for. */
  ghost predicate Represents<V>(t: seq<Element<V>>, m: map<Key, V>) {
    && (forall i :: 0 <= i < |t| && t[i].Entry? ==> t[i].key in m && m[t[i].key] == t[i].data)
    && (forall k :: k in m ==> Stores(t, k))
  }

  ghost predicate Stores<V>(t: seq<Element<V>>, key: Key) {
    exists i :: 0 <= i < |t| && HoldsKey(t[i], key)
  }

  lemma RepresentsOnce<V>(t: seq<Element<V>>, m: map<Key, V>, m': map<Key, V>)
    requires Represents(t, m) && Represents(t, m')
    ensures m == m'
  {
    forall k ensures k in m <==> k in m' {
      assert k in m || k in m' ==> Stores(t, k);
    }
    forall k | k in m ensures m[k] == m'[k] {
      assert Stores(t, k);
    }
  }

  // ---- Where a probe for a key lands ----

  predicate HoldsKey<V>(e: Element<V>, key: Key) { e.Entry? && e.key == key }

  /** All eight slots of the window are taken by other keys. */
  ghost predicate WindowFull<V>(t: seq<Element<V>>, hash: uint32, log2: nat, key: Key)
    requires 1 <= log2 <= 31 && |t| == Capacity(log2) + HASHMAP_LINEAR_PROBE_LENGTH
  {
    HomeInRange(hash, log2);
    forall i :: 0 <= i < |t| && InWindow(hash, log2, i) ==> t[i].Entry? && t[i].key != key
  }

  /** Slot i is the one a put of `key` uses: the slot holding it, else the first blank of the window. */
  ghost predicate Lands<V>(t: seq<Element<V>>, hash: uint32, log2: nat, key: Key, i: int)
    requires 1 <= log2 <= 31
  {
    && 0 <= i < |t| && InWindow(hash, log2, i)
    && (HoldsKey(t[i], key)
        || (&& t[i].Blank?
            && (forall j :: Home(hash, log2) <= j < i ==> t[j].Entry?)
            && (forall j :: 0 <= j < |t| && InWindow(hash, log2, j) ==> !HoldsKey(t[j], key))))
  }

  lemma RoomLands<V>(t: seq<Element<V>>, hash: uint32, log2: nat, key: Key)
    requires 1 <= log2 <= 31 && |t| == Capacity(log2) + HASHMAP_LINEAR_PROBE_LENGTH
    requires !WindowFull(t, hash, log2, key)
    ensures exists i: nat :: Lands(t, hash, log2, key, i)
  {
    HomeInRange(hash, log2);
    var curr := Home(hash, log2);
    if i :| 0 <= i < |t| && InWindow(hash, log2, i) && HoldsKey(t[i], key) {
      assert Lands(t, hash, log2, key, i);
    } else {
      var i :| 0 <= i < |t| && InWindow(hash, log2, i) && t[i].Blank?;
      while i > curr && !(forall j :: curr <= j < i ==> t[j].Entry?)
        invariant curr <= i < curr + HASHMAP_LINEAR_PROBE_LENGTH && t[i].Blank?
      {
        var j :| curr <= j < i && t[j].Blank?;
        i := j;
      }
      assert Lands(t, hash, log2, key, i);
    }
  }

  // ---- Point updates of the table are point updates of the map ----

  /** A key is in the map exactly when its own window holds it. */
  lemma LookupInWindow<V>(t: seq<Element<V>>, log2: nat, hash: Hasher, m: map<Key, V>, key: Key)
    requires WellFormed(t, log2, hash) && Represents(t, m)
    ensures key in m <==> exists i :: 0 <= i < |t| && InWindow(hash(key), log2, i) && HoldsKey(t[i], key)
  {
    if key in m {
      assert Stores(t, key);
      var i :| 0 <= i < |t| && HoldsKey(t[i], key);
      assert InWindow(hash(key), log2, i);
    }
  }

  lemma OtherSlotsOtherKeys<V>(t: seq<Element<V>>, log2: nat, hash: Hasher, key: Key, i: nat)
    requires WellFormed(t, log2, hash) && Lands(t, hash(key), log2, key, i)
    ensures forall j :: 0 <= j < |t| && j != i && t[j].Entry? ==> t[j].key != key
  {
    forall j | 0 <= j < |t| && j != i && t[j].Entry? ensures t[j].key != key {
      assert t[j].key == key ==> InWindow(hash(key), log2, j) && HoldsKey(t[j], key);
    }
  }

  lemma WriteKeepsWellFormed<V>(t: seq<Element<V>>, log2: nat, hash: Hasher, key: Key, value: V, i: nat)
    requires WellFormed(t, log2, hash) && key != 0
    requires Lands(t, hash(key), log2, key, i)
    ensures WellFormed(t[i := Entry(key, value)], log2, hash)
  {
    OtherSlotsOtherKeys(t, log2, hash, key, i);
  }

  lemma WriteUpdatesMap<V>(t: seq<Element<V>>, log2: nat, hash: Hasher, m: map<Key, V>, key: Key, value: V, i: nat)
    requires WellFormed(t, log2, hash) && Represents(t, m)
    requires Lands(t, hash(key), log2, key, i)
    ensures Represents(t[i := Entry(key, value)], m[key := value])
    ensures t[i].Blank? <==> key !in m
  {
    OtherSlotsOtherKeys(t, log2, hash, key, i);
    var t', m' := t[i := Entry(key, value)], m[key := value];
    assert key in m ==> Stores(t, key);
    assert HoldsKey(t'[i], key);
    forall k | k in m' && k != key ensures Stores(t', k) {
      assert Stores(t, k);
      var j :| 0 <= j < |t| && HoldsKey(t[j], k);
      assert HoldsKey(t'[j], k);
    }
  }

  lemma EraseUpdatesMap<V>(t: seq<Element<V>>, log2: nat, hash: Hasher, m: map<Key, V>, i: nat)
    requires WellFormed(t, log2, hash) && Represents(t, m) && i < |t| && t[i].Entry?
    ensures WellFormed(t[i := Blank], log2, hash)
    ensures Represents(t[i := Blank], m - {t[i].key})
  {
    var t', m' := t[i := Blank], m - {t[i].key};
    forall k | k in m' ensures Stores(t', k) {
      assert Stores(t, k);
      var j :| 0 <= j < |t| && HoldsKey(t[j], k);
      assert HoldsKey(t'[j], k);
    }
  }

  /** The map of the entries below position p, extended by one position. */
  lemma ExtendUpdatesMap<V>(t: seq<Element<V>>, p: nat, m: map<Key, V>)
    requires p < |t| && KeysDistinct(t) && Represents(t[..p], m)
    ensures t[p].Blank? ==> Represents(t[..p + 1], m)
    ensures t[p].Entry? ==> t[p].key !in m && Represents(t[..p + 1], m[t[p].key := t[p].data])
  {
    var a, b := t[..p], t[..p + 1];
    forall k | k in m ensures Stores(b, k) && (t[p].Entry? ==> k != t[p].key) {
      assert Stores(a, k);
      var j :| 0 <= j < |a| && HoldsKey(a[j], k);
      assert HoldsKey(b[j], k) && HoldsKey(t[j], k);
    }
    assert t[p].Entry? ==> HoldsKey(b[p], t[p].key);
    assert forall i :: 0 <= i < p ==> b[i] == a[i];
  }

  // ---- One doubling always suffices ----

  /** No slot between an entry's home and the entry is blank: true of a table that never saw a remove. */
  ghost predicate FirstFit<V>(t: seq<Element<V>>, log2: nat, hash: Hasher)
    requires 1 <= log2 <= 31
  {
    forall i, j :: 0 <= i < |t| && t[i].Entry? && Home(hash(t[i].key), log2) <= j < i ==> t[j].Entry?
  }

  lemma FirstFitWrite<V>(t: seq<Element<V>>, log2: nat, hash: Hasher, key: Key, value: V, i: nat)
    requires WellFormed(t, log2, hash) && FirstFit(t, log2, hash)
    requires Lands(t, hash(key), log2, key, i)
    ensures FirstFit(t[i := Entry(key, value)], log2, hash)
  {
  }

  /** Start of the maximal run of entries that ends at g. */
  ghost function RunStart<V>(t: seq<Element<V>>, g: nat): (r: nat)
    requires g < |t| && t[g].Entry?
    ensures r <= g
    ensures forall i :: r <= i <= g ==> t[i].Entry?
    ensures r == 0 || t[r - 1].Blank?
  {
    if g == 0 || t[g - 1].Blank? then g else RunStart(t, g - 1)
  }

  /** Every entry of `t` came from a position of `old` below p. */
  ghost predicate CameFrom<V>(t: seq<Element<V>>, was: seq<Element<V>>, p: nat)
    requires p <= |was|
  {
    forall q :: 0 <= q < |t| && t[q].Entry? ==> exists o :: 0 <= o < p && HoldsKey(was[o], t[q].key)
  }

  /** Old positions of the entries in t[lo..hi), in order. */
  ghost function Origins<V>(t: seq<Element<V>>, was: seq<Element<V>>, p: nat, lo: nat, hi: nat): (s: seq<int>)
    requires lo <= hi <= |t| && p <= |was| && CameFrom(t, was, p)
    requires forall q :: lo <= q < hi ==> t[q].Entry?
    ensures |s| == hi - lo
    ensures forall i :: 0 <= i < |s| ==> 0 <= s[i] < p && HoldsKey(was[s[i]], t[lo + i].key)
  {
    seq(hi - lo, i requires 0 <= i < hi - lo => var o :| 0 <= o < p && HoldsKey(was[o], t[lo + i].key); o)
  }

  /** In a first-fit table an entry right of a blank slot has its home right of it too. */
  lemma RunStaysRight<V>(t: seq<Element<V>>, log2: nat, hash: Hasher, r: nat, q: nat)
    requires WellFormed(t, log2, hash) && FirstFit(t, log2, hash)
    requires r <= q < |t| && t[q].Entry? && (r == 0 || t[r - 1].Blank?)
    ensures r <= Home(hash(t[q].key), log2)
  {
    assert r > 0 ==> t[r - 1].Blank?;
    assert InWindow(hash(t[q].key), log2, q);
  }

  /** A run of the new table that starts after a blank came from old positions at or after r / 2. */
  lemma OriginsBound<V>(was: seq<Element<V>>, log2: nat, hash: Hasher, p: nat, t: seq<Element<V>>, r: nat, hi: nat)
    requires log2 <= 30 && WellFormed(was, log2, hash) && p <= |was|
    requires WellFormed(t, log2 + 1, hash) && FirstFit(t, log2 + 1, hash) && CameFrom(t, was, p)
    requires r <= hi <= |t| && (r == 0 || t[r - 1].Blank?) && (forall q :: r <= q < hi ==> t[q].Entry?)
    ensures forall i :: 0 <= i < hi - r ==> r / 2 <= Origins(t, was, p, r, hi)[i] < p
  {
    var s := Origins(t, was, p, r, hi);
    forall i | 0 <= i < hi - r ensures r / 2 <= s[i] < p {
      RunStaysRight(t, log2 + 1, hash, r, r + i);
      HomeDoubles(hash(t[r + i].key), log2);
      assert InWindow(hash(t[r + i].key), log2, s[i]);
    }
  }

  /**
   Reinserting a well-formed table's entries in index order into a table of twice the
   capacity never meets a full window: the occupied run ending at the window would hold
   more entries than there are old positions they can have come from.
   */
  lemma DoublingFits<V>(was: seq<Element<V>>, log2: nat, hash: Hasher, p: nat, t: seq<Element<V>>)
    requires log2 <= 30 && WellFormed(was, log2, hash) && p < |was| && was[p].Entry?
    requires WellFormed(t, log2 + 1, hash) && FirstFit(t, log2 + 1, hash) && CameFrom(t, was, p)
    ensures !WindowFull(t, hash(was[p].key), log2 + 1, was[p].key)
  {
    var key := was[p].key;
    var h, g := Home(hash(key), log2), Home(hash(key), log2 + 1);
    HomeInRange(hash(key), log2 + 1);
    HomeDoubles(hash(key), log2);
    assert InWindow(hash(key), log2, p);
    if WindowFull(t, hash(key), log2 + 1, key) {
      assert forall i :: g <= i < g + 8 ==> InWindow(hash(key), log2 + 1, i) && t[i].Entry?;
      var r := RunStart(t, g);
      OriginsBound(was, log2, hash, p, t, r, g + 8);
      Pigeonhole(Origins(t, was, p, r, g + 8), r / 2, p);
      assert false;
    }
  }

  // ---- When an insertion succeeds ----

  /** The keys in n slots from lo on. */
  ghost function KeysIn<V>(t: seq<Element<V>>, lo: nat, n: nat): set<Key>
    requires lo + n <= |t|
  {
    set i | lo <= i < lo + n && t[i].Entry? :: t[i].key
  }

  lemma KeysInNext<V>(t: seq<Element<V>>, lo: nat, n: nat)
    requires lo + n < |t|
    ensures KeysIn(t, lo, n + 1) == KeysIn(t, lo, n) + if t[lo + n].Entry? then {t[lo + n].key} else {}
    ensures KeysDistinct(t) && t[lo + n].Entry? ==> t[lo + n].key !in KeysIn(t, lo, n)
  {
  }

  lemma {:induction false} KeysInSize<V>(t: seq<Element<V>>, lo: nat, n: nat)
    requires lo + n <= |t|
    ensures |KeysIn(t, lo, n)| <= n
    ensures KeysDistinct(t) && (forall i :: lo <= i < lo + n ==> t[i].Entry?) ==> |KeysIn(t, lo, n)| == n
  {
    if n > 0 {
      KeysInSize(t, lo, n - 1);
      KeysInNext(t, lo, n - 1);
    }
  }

  /** At most eight keys of a table share a home. */
  lemma AtMostEightPerHome<V>(t: seq<Element<V>>, log2: nat, hash: Hasher, m: map<Key, V>, keys: set<Key>, home: nat)
    requires WellFormed(t, log2, hash) && Represents(t, m)
    requires keys <= m.Keys && home < Capacity(log2) && forall k :: k in keys ==> Home(hash(k), log2) == home
    ensures |keys| <= HASHMAP_LINEAR_PROBE_LENGTH
  {
    forall k | k in keys ensures k in KeysIn(t, home, HASHMAP_LINEAR_PROBE_LENGTH) {
      assert Stores(t, k);
      var i :| 0 <= i < |t| && HoldsKey(t[i], k);
      assert InWindow(hash(k), log2, i);
    }
    KeysInSize(t, home, HASHMAP_LINEAR_PROBE_LENGTH);
    SubsetSize(keys, KeysIn(t, home, HASHMAP_LINEAR_PROBE_LENGTH));
  }

  /** Home in a table of the largest capacity, 2^31. */
  function LastHome(hash: Hasher, k: Key): nat { Home(hash(k), 31) }

  /** The other keys that may sit in slots a to b of k's window in the largest table. */
  ghost function Candidates(hash: Hasher, keys: set<Key>, k: Key, a: nat, b: nat): set<Key> {
    set q | q in keys && q != k
            && LastHome(hash, k) + a - 7 <= LastHome(hash, q) <= LastHome(hash, k) + b
  }

  /** The other keys with k's last home. */
  ghost function Colliding(hash: Hasher, keys: set<Key>, k: Key): set<Key> {
    set q | q in keys && q != k && LastHome(hash, q) == LastHome(hash, k)
  }

  /** The others cannot fill k's window in the largest table: for some stretch of it there are too few of them. */
  ghost predicate Uncrowded(hash: Hasher, keys: set<Key>, k: Key) {
    exists a: nat, b: nat :: a <= b < HASHMAP_LINEAR_PROBE_LENGTH && |Candidates(hash, keys, k, a, b)| < b - a + 1
  }

  ghost predicate Overfull(hash: Hasher, keys: set<Key>, k: Key) {
    k !in keys && |Colliding(hash, keys, k)| >= HASHMAP_LINEAR_PROBE_LENGTH
  }

  /** What the hashes of the keys say about inserting k into an index of the given keys. */
  ghost predicate InsertionOutcome(hash: Hasher, keys: set<Key>, k: Key, stored: bool) {
    (k in keys || Uncrowded(hash, keys, k) ==> stored) && (Overfull(hash, keys, k) ==> !stored)
  }

  /** No key of the set can be crowded out by the others. */
  ghost predicate Spread(hash: Hasher, keys: set<Key>) {
    forall k :: k in keys ==> Uncrowded(hash, keys, k)
  }

  lemma FewerKeysUncrowded(hash: Hasher, some: set<Key>, all: set<Key>, k: Key)
    requires some <= all && Uncrowded(hash, all, k)
    ensures Uncrowded(hash, some, k)
  {
    var a: nat, b: nat :| a <= b < HASHMAP_LINEAR_PROBE_LENGTH && |Candidates(hash, all, k, a, b)| < b - a + 1;
    SubsetSize(Candidates(hash, some, k, a, b), Candidates(hash, all, k, a, b));
  }

  /** The other keys whose last home is less than a window away from k's. */
  ghost function Neighbours(hash: Hasher, keys: set<Key>, k: Key): set<Key> {
    set q | q in keys && q != k && -8 < LastHome(hash, q) - LastHome(hash, k) < 8
  }

  /** With fewer than eight neighbours a key is uncrowded. */
  lemma FewNeighboursUncrowded(hash: Hasher, keys: set<Key>, k: Key)
    requires |Neighbours(hash, keys, k)| < HASHMAP_LINEAR_PROBE_LENGTH
    ensures Uncrowded(hash, keys, k)
  {
    assert Candidates(hash, keys, k, 0, 7) == Neighbours(hash, keys, k);
  }

  /** Whatever the hasher, eight keys are always spread. */
  lemma FewKeysSpread(hash: Hasher, keys: set<Key>, k: Key)
    requires |keys + {k}| <= HASHMAP_LINEAR_PROBE_LENGTH
    ensures Uncrowded(hash, keys, k) && !Overfull(hash, keys, k)
  {
    SubsetSize(Candidates(hash, keys, k, 0, 7), keys + {k} - {k});
    SubsetSize(Colliding(hash, keys, k), keys + {k} - {k});
  }

  /** Some outcome is always possible: a new key that eight others collide with is not uncrowded. */
  lemma OverfullIsCrowded(hash: Hasher, keys: set<Key>, k: Key)
    ensures InsertionOutcome(hash, keys, k, k in keys || Uncrowded(hash, keys, k))
  {
    forall a: nat, b: nat | a <= b < HASHMAP_LINEAR_PROBE_LENGTH
      ensures |Candidates(hash, keys, k, a, b)| >= |Colliding(hash, keys, k)|
    {
      SubsetSize(Colliding(hash, keys, k), Candidates(hash, keys, k, a, b));
    }
  }

  /** In the largest table a full window means a crowded key. */
  lemma FullWindowIsCrowded<V>(t: seq<Element<V>>, hash: Hasher, m: map<Key, V>, key: Key)
    requires WellFormed(t, 31, hash) && Represents(t, m) && WindowFull(t, hash(key), 31, key)
    ensures key !in m && !Uncrowded(hash, m.Keys, key)
  {
    forall a: nat, b: nat | a <= b < HASHMAP_LINEAR_PROBE_LENGTH
      ensures |Candidates(hash, m.Keys, key, a, b)| >= b - a + 1
    {
      FullStretch(t, hash, m, key, a, b);
    }
    LookupInWindow(t, 31, hash, m, key);
  }

  /** The keys in slots a to b of a full window are that many candidates for them. */
  lemma FullStretch<V>(t: seq<Element<V>>, hash: Hasher, m: map<Key, V>, key: Key, a: nat, b: nat)
    requires WellFormed(t, 31, hash) && Represents(t, m) && WindowFull(t, hash(key), 31, key)
    requires a <= b < HASHMAP_LINEAR_PROBE_LENGTH
    ensures |Candidates(hash, m.Keys, key, a, b)| >= b - a + 1
  {
    HomeInRange(hash(key), 31);
    var lo := LastHome(hash, key) + a;
    forall i | lo <= i < lo + (b - a + 1)
      ensures t[i].Entry? && t[i].key in Candidates(hash, m.Keys, key, a, b)
    {
      assert InWindow(hash(key), 31, i);
      assert InWindow(hash(t[i].key), 31, i);
    }
    KeysInSize(t, lo, b - a + 1);
    SubsetSize(KeysIn(t, lo, b - a + 1), Candidates(hash, m.Keys, key, a, b));
  }

  lemma {:induction false} SameHomeBelow(a: uint32, b: uint32, log2: nat)
    requires 1 <= log2 <= 31 && Home(a, 31) == Home(b, 31)
    ensures Home(a, log2) == Home(b, log2)
    decreases 31 - log2
  {
    if log2 < 31 {
      SameHomeBelow(a, b, log2 + 1);
      HomeDoubles(a, log2);
      HomeDoubles(b, log2);
    }
  }

  /** A ninth key with the same last home is in no table, however large. */
  lemma NinthKeyIsNowhere<V>(t: seq<Element<V>>, log2: nat, hash: Hasher, m: map<Key, V>, keys: set<Key>, key: Key)
    requires WellFormed(t, log2, hash) && Represents(t, m) && keys <= m.Keys && Overfull(hash, keys, key)
    ensures key !in m
  {
    if key in m {
      var nine := Colliding(hash, keys, key) + {key};
      forall k | k in nine ensures Home(hash(k), log2) == Home(hash(key), log2) {
        SameHomeBelow(hash(k), hash(key), log2);
      }
      HomeInRange(hash(key), log2);
      AtMostEightPerHome(t, log2, hash, m, nine, Home(hash(key), log2));
    }
  }
}
