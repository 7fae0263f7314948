/** src/include/hashmap.h: the index of the cache, refining a finite map. */
module HashMap {
  import opened Words
  import opened Options
  import opened ProbeTable

  class HashMap<V(0)> {
    var log2Capacity: nat
    var size: nat
    const hasher: Hasher
    var data: array<Element<V>>
    ghost var model: map<Key, V>

    ghost predicate Valid()
      reads this, data
    {
      && WellFormed(data[..], log2Capacity, hasher)
      && Represents(data[..], model)
      && size == |model| <= Capacity(log2Capacity)
    }

    /** `hashmap_create_ex`; the bit trick x & (x - 1) is written as the power-of-two test it is. */
    constructor (initialCapacity: uint32, hasher: Hasher)
      requires initialCapacity <= 0x8000_0000
      ensures Valid() && model == map[] && this.hasher == hasher && fresh(data)
      ensures log2Capacity >= 1 && Capacity(log2Capacity) >= initialCapacity
      ensures if initialCapacity >= 2 then Capacity(log2Capacity) < 2 * initialCapacity else Capacity(log2Capacity) == 2
      ensures forall i :: 0 <= i < data.Length ==> data[i].Blank?
    {
      var capacity: uint32 := RoundCapacity(initialCapacity);
      log2Capacity := Log2(capacity);
      size := 0;
      this.hasher := hasher;
      data := new Element<V>[capacity + HASHMAP_LINEAR_PROBE_LENGTH](_ => Blank);
      model := map[];
    }

    /** `hashmap_hash_helper`: where a put of this key goes, if anywhere. */
    method HashHelper(key: Key) returns (found: bool, outIndex: uint32)
      requires Valid()
      ensures found <==> size != Capacity(log2Capacity) && !WindowFull(data[..], hasher(key), log2Capacity, key)
      ensures found ==> Lands(data[..], hasher(key), log2Capacity, key, outIndex)
    {
      outIndex := 0;
      if size == Capacity(log2Capacity) {
        return false, outIndex;
      }
      HomeInRange(hasher(key), log2Capacity);
      var curr: uint32 := Home(hasher(key), log2Capacity);
      var firstFree: uint32 := ALL_ONES;
      var i := 0;
      while i < HASHMAP_LINEAR_PROBE_LENGTH
        invariant 0 <= i <= HASHMAP_LINEAR_PROBE_LENGTH
        invariant forall j :: curr <= j < curr + i ==> !HoldsKey(data[j], key)
        invariant firstFree == ALL_ONES ==> forall j :: curr <= j < curr + i ==> data[j].Entry?
        invariant firstFree != ALL_ONES ==> curr <= firstFree < curr + i && data[firstFree].Blank?
                                            && forall j :: curr <= j < firstFree ==> data[j].Entry?
      {
        var index: uint32 := curr + i;
        if data[index].Blank? {
          firstFree := if firstFree < index then firstFree else index;
        } else if data[index].key == key {
          assert InWindow(hasher(key), log2Capacity, index);
          return true, index;
        }
        i := i + 1;
      }
      if firstFree == ALL_ONES {
        return false, outIndex;
      }
      assert InWindow(hasher(key), log2Capacity, firstFree);
      return true, firstFree;
    }

    /** `hashmap_get`. */
    method Get(key: Key) returns (r: Option<V>)
      requires Valid()
      ensures r == if key in model then Some(model[key]) else None
    {
      if key == 0 {
        NullIsNoKey();
        return None;
      }
      HomeInRange(hasher(key), log2Capacity);
      LookupInWindow(data[..], log2Capacity, hasher, model, key);
      var curr := Home(hasher(key), log2Capacity);
      for i := 0 to HASHMAP_LINEAR_PROBE_LENGTH
        invariant forall j :: curr <= j < curr + i ==> !HoldsKey(data[j], key)
      {
        var index := curr + i;
        if data[index].Entry? {
          if data[index].key == key {
            return Some(data[index].data);
          }
        }
      }
      return None;
    }

    /** `hashmap_remove`. */
    method Remove(key: Key) returns (r: nat)
      requires Valid()
      modifies this`size, this`model, data
      ensures Valid()
      ensures model == old(model) - {key}
      ensures r == if key in old(model) then 0 else 1
    {
      if key == 0 {
        NullIsNoKey();
        return 1;
      }
      HomeInRange(hasher(key), log2Capacity);
      LookupInWindow(data[..], log2Capacity, hasher, model, key);
      var curr := Home(hasher(key), log2Capacity);
      for i := 0 to HASHMAP_LINEAR_PROBE_LENGTH
        invariant Valid() && data[..] == old(data[..]) && model == old(model)
        invariant forall j :: curr <= j < curr + i ==> !HoldsKey(data[j], key)
      {
        var index := curr + i;
        if data[index].Entry? {
          if data[index].key == key {
            Erase(index);
            return 0;
          }
        }
      }
      return 1;
    }

    /** Blank an entry's fields, and reduce the size. */
    method Erase(index: nat)
      requires Valid() && index < data.Length && data[index].Entry?
      modifies this`size, this`model, data
      ensures Valid() && model == old(model) - {old(data[index]).key}
    {
      EraseUpdatesMap(data[..], log2Capacity, hasher, model, index);
      RemovedKeySize(model, data[index].key);
      model := model - {data[index].key};
      data[index] := Blank;
      size := size - 1;
      assert data[..] == old(data[..])[index := Blank];
    }

    lemma NullIsNoKey()
      requires Valid()
      ensures 0 !in model
    {
      assert 0 in model ==> Stores(data[..], 0);
    }

    ghost predicate Same(array_: array<Element<V>>, contents: seq<Element<V>>, log2: nat)
      reads this, data
    {
      data == array_ && data[..] == contents && log2Capacity == log2
    }

    /** A put of this key needs no rehash. */
    ghost predicate HasRoom(key: Key)
      requires WellFormed(data[..], log2Capacity, hasher)
      reads this, data
    {
      size != Capacity(log2Capacity) && !WindowFull(data[..], hasher(key), log2Capacity, key)
    }

    /** At 2^31 slots, a table that is not full has no room only for a key that the stored ones crowd out. */
    lemma NoRoomIsCrowded(key: Key)
      requires Valid() && log2Capacity == 31 && !HasRoom(key)
      ensures size < Capacity(31) ==> key !in model && !Uncrowded(hasher, model.Keys, key)
    {
      if size < Capacity(31) {
        FullWindowIsCrowded(data[..], hasher, model, key);
      }
    }

    lemma StoredIsNotOverfull(keys: set<Key>, key: Key)
      requires Valid() && keys <= model.Keys && key in model
      ensures !Overfull(hasher, keys, key)
    {
      if Overfull(hasher, keys, key) {
        NinthKeyIsNowhere(data[..], log2Capacity, hasher, model, keys, key);
      }
    }

    /**
     `hashmap_put`. It fails only at 2^31 slots and for want of room. Whether it will can be
     told beforehand: it succeeds for a key that is there already or that the others cannot
     crowd out, and fails for a new key that collides with eight others.
     */
    method Put(key: Key, value: V) returns (r: nat)
      requires Valid()
      modifies this, data
      ensures Valid() && (data == old(data) || fresh(data))
      ensures r == 0 ==> key != 0 && model == old(model)[key := value]
      ensures r != 0 ==> r == 1 && model == old(model)
      ensures r != 0 && key != 0 ==> log2Capacity == 31 && !HasRoom(key)
      ensures key != 0 && old(log2Capacity) == 31 ==> (r == 0 <==> old(HasRoom(key)))
      ensures key != 0 && old(size) < Capacity(31) ==> InsertionOutcome(hasher, old(model).Keys, key, r == 0)
      ensures key == 0 ==> r == 1 && Same(old(data), old(data[..]), old(log2Capacity))
      ensures log2Capacity >= old(log2Capacity)
      ensures key != 0 && old(HasRoom(key)) ==> r == 0 && data == old(data) && log2Capacity == old(log2Capacity)
      ensures key != 0 && old(HasRoom(key)) ==> forall i: int ::
                Lands(old(data[..]), hasher(key), log2Capacity, key, i) ==>
                  data[..] == old(data[..])[i := Entry(key, value)]
      decreases 31 - log2Capacity, 3
    {
      if key == 0 {
        return 1;
      }
      var found, index := HashHelper(key);
      while !found
        invariant Valid() && (data == old(data) || fresh(data))
        invariant model == old(model) && log2Capacity >= old(log2Capacity)
        invariant found <==> HasRoom(key)
        invariant found ==> Lands(data[..], hasher(key), log2Capacity, key, index)
        invariant old(HasRoom(key)) ==> found && Same(old(data), old(data[..]), old(log2Capacity))
        invariant old(log2Capacity) == 31 ==> Same(old(data), old(data[..]), old(log2Capacity)) && size == old(size)
        decreases 31 - log2Capacity
      {
        var flag := RehashHelper();
        if flag != 0 {
          NoRoomIsCrowded(key);
          return 1;
        }
        found, index := HashHelper(key);
      }
      Store(index, key, value);
      StoredIsNotOverfull(old(model).Keys, key);
      r := 0;
    }

    /** The last step of `hashmap_put`: set the data, and count a slot that was not in use. */
    method Store(index: uint32, key: Key, value: V)
      requires Valid() && key != 0 && size != Capacity(log2Capacity)
      requires Lands(data[..], hasher(key), log2Capacity, key, index)
      modifies this`size, this`model, data
      ensures Valid() && model == old(model)[key := value]
      ensures data[..] == old(data[..])[index := Entry(key, value)]
    {
      WriteKeepsWellFormed(data[..], log2Capacity, hasher, key, value, index);
      WriteUpdatesMap(data[..], log2Capacity, hasher, model, key, value, index);
      var inUse := data[index].Entry?;
      data[index] := Entry(key, value);
      if !inUse {
        size := size + 1;
      }
      AddedKeySize(model, key, value);
      model := model[key := value];
      assert data[..] == old(data[..])[index := Entry(key, value)];
    }

    /** `hashmap_rehash_helper`: never fails below 2^31 slots, and loses nothing. */
    method RehashHelper() returns (flag: int)
      requires Valid()
      modifies this, data
      ensures Valid() && model == old(model)
      ensures flag == if old(log2Capacity) == 31 then 1 else 0
      ensures flag == 0 ==> log2Capacity == old(log2Capacity) + 1 && fresh(data)
      ensures flag != 0 ==> Same(old(data), old(data[..]), old(log2Capacity))
      decreases 31 - log2Capacity, 2
    {
      var newCapacity: uint32 := DoubledCapacity(log2Capacity);
      if newCapacity == 0 {
        return 1;
      }
      var newMap := new HashMap<V>(newCapacity, hasher);
      Pow2Squeeze(log2Capacity + 1, newMap.log2Capacity);
      flag := IteratePairs(newMap);
      if flag != 0 {
        return flag;
      }
      log2Capacity := newMap.log2Capacity;
      size := newMap.size;
      data := newMap.data;
      model := newMap.model;
    }

    static ghost predicate Source(was: seq<Element<V>>, log2: nat, hash: Hasher, m: map<Key, V>) {
      log2 <= 30 && WellFormed(was, log2, hash) && Represents(was, m) && |m| <= Capacity(log2)
    }

    /** The entries of `was` below i have been moved to `dst`, in order and by first fit. */
    static ghost predicate Moved(was: seq<Element<V>>, i: nat, log2: nat, m: map<Key, V>, dst: HashMap<V>)
      requires i <= |was| && 1 <= log2 <= 30
      reads dst, dst.data
    {
      && dst.log2Capacity == log2 + 1
      && dst.Valid()
      && FirstFit(dst.data[..], log2 + 1, dst.hasher)
      && Represents(was[..i], dst.model)
      && dst.model.Keys <= m.Keys
    }

    /** `hashmap_iterate_pairs` as its one caller uses it, with the callback `hashmap_rehash_iterator`. */
    method IteratePairs(newMap: HashMap<V>) returns (flag: int)
      requires Valid() && log2Capacity <= 30
      requires newMap.Valid() && newMap.model == map[] && newMap != this && newMap.data != data
      requires newMap.log2Capacity == log2Capacity + 1 && newMap.hasher == hasher
      modifies this`size, data, newMap, newMap.data
      ensures flag == 0
      ensures newMap.Valid() && newMap.model == model
      ensures newMap.log2Capacity == log2Capacity + 1 && newMap.data == old(newMap.data)
      decreases 31 - log2Capacity, 1
    {
      ghost var was := data[..];
      var i := 0;
      while i < Capacity(log2Capacity) + HASHMAP_LINEAR_PROBE_LENGTH
        invariant 0 <= i <= |was| == data.Length
        invariant forall j :: i <= j < |was| ==> data[j] == was[j]
        invariant Moved(was, i, log2Capacity, model, newMap) && newMap.data == old(newMap.data)
        invariant size == |model| - newMap.size
      {
        var r := VisitPair(newMap, i, was);
        if r > 0 {
          return 1;
        }
        i := i + 1;
      }
      assert was[..i] == was;
      RepresentsOnce(was, model, newMap.model);
      flag := 0;
    }

    /** One turn of the iteration: hand the element to the callback, and blank it when told to. */
    method VisitPair(newMap: HashMap<V>, i: nat, ghost was: seq<Element<V>>) returns (r: int)
      requires i < data.Length == |was| && data[i] == was[i]
      requires newMap != this && newMap.data != data
      requires Source(was, log2Capacity, newMap.hasher, model) && Moved(was, i, log2Capacity, model, newMap)
      requires size == |model| - newMap.size
      modifies this`size, data, newMap, newMap.data
      ensures r <= 0
      ensures Moved(was, i + 1, log2Capacity, model, newMap) && newMap.data == old(newMap.data)
      ensures size == |model| - newMap.size
      ensures forall j :: 0 <= j < data.Length && j != i ==> data[j] == old(data[j])
      decreases 31 - log2Capacity, 0
    {
      var p := data[i];
      r := 0;
      if p.Entry? {
        r := RehashIterator(newMap, p, was, i, log2Capacity, model);
        if r == -1 {
          data[i] := Blank;
          size := size - 1;
        }
      } else {
        ExtendUpdatesMap(was, i, newMap.model);
      }
    }

    /** `hashmap_rehash_iterator`: move one entry; -1 tells the caller to blank the old one. */
    static method RehashIterator(newMap: HashMap<V>, e: Element<V>,
        ghost was: seq<Element<V>>, ghost i: nat, ghost log2: nat, ghost m: map<Key, V>)
      returns (r: int)
      requires i < |was| && e == was[i] && e.Entry?
      requires Source(was, log2, newMap.hasher, m) && Moved(was, i, log2, m, newMap)
      modifies newMap, newMap.data
      ensures r == -1
      ensures Moved(was, i + 1, log2, m, newMap)
      ensures newMap.data == old(newMap.data) && newMap.size == old(newMap.size) + 1 <= |m|
      decreases 31 - newMap.log2Capacity, 4
    {
      EntryFits(newMap, was, i, log2, m);
      ghost var at := LandingOf(newMap, e.key);
      FirstFitWrite(newMap.data[..], log2 + 1, newMap.hasher, e.key, e.data, at);
      AddedKeySize(newMap.model, e.key, e.data);
      var temp := newMap.Put(e.key, e.data);
      assert newMap.data[..] == old(newMap.data[..])[at := Entry(e.key, e.data)];
      if 0 < temp {
        return 1;
      }
      r := -1;
    }

    /** The next entry of the old table is new to the new one and needs no rehash there. */
    static lemma EntryFits(dst: HashMap<V>, was: seq<Element<V>>, i: nat, log2: nat, m: map<Key, V>)
      requires i < |was| && was[i].Entry? && Source(was, log2, dst.hasher, m) && Moved(was, i, log2, m, dst)
      ensures dst.HasRoom(was[i].key)
      ensures was[i].key !in dst.model && dst.size < |m| && was[i].key in m
      ensures Represents(was[..i + 1], dst.model[was[i].key := was[i].data])
    {
      var t := dst.data[..];
      ExtendUpdatesMap(was, i, dst.model);
      OneMoreKey(dst.model, m, was[i].key);
      forall q | 0 <= q < |t| && t[q].Entry? ensures exists o :: 0 <= o < i && HoldsKey(was[o], t[q].key) {
        assert Stores(was[..i], t[q].key);
        var o :| 0 <= o < i && HoldsKey(was[..i][o], t[q].key);
        assert HoldsKey(was[o], t[q].key);
      }
      DoublingFits(was, log2, dst.hasher, i, t);
      Pow2Monotone(log2, log2 + 1);
    }

    /** The slot a put would use, when there is room. */
    static ghost function LandingOf(m: HashMap<V>, key: Key): (i: nat)
      requires m.Valid() && m.HasRoom(key)
      reads m, m.data
      ensures Lands(m.data[..], m.hasher(key), m.log2Capacity, key, i)
    {
      RoomLands(m.data[..], m.hasher(key), m.log2Capacity, key);
      var i: nat :| Lands(m.data[..], m.hasher(key), m.log2Capacity, key, i);
      i
    }
  }

  /** `initial_capacity` as `hashmap_create_ex` rounds it: the least power of two that is at least 2 and at least x. */
  function RoundCapacity(x: uint32): (c: uint32)
    requires x <= 0x8000_0000
    ensures 2 <= c == Pow2(Log2(c)) && x <= c && 1 <= Log2(c) <= 31
    ensures if x >= 2 then c < 2 * x else c == 2
  {
    if x < 2 then 2
    else
      var n := Log2(x);
      Pow2Below(n); Pow2Below(n + 1); Log2OfPow2(n + 1);
      if x == Pow2(n) then x else Pow2(n + 1)
  }

  /** `hashmap_capacity(m) * 2` in 32 bits: zero exactly when the table has 2^31 slots. */
  function DoubledCapacity(log2: nat): (c: uint32)
    requires log2 <= 31
    ensures c == if log2 == 31 then 0 else Pow2(log2 + 1)
    ensures log2 < 31 ==> 2 <= c <= 0x8000_0000
  {
    Pow2Below(log2);
    (Capacity(log2) * 2) % TWO_TO_THE_32
  }

  lemma OneMoreKey<K, V>(small: map<K, V>, big: map<K, V>, key: K)
    requires small.Keys <= big.Keys && key !in small && key in big
    ensures |small| < |big|
  {
    SubsetSize(small.Keys + {key}, big.Keys);
  }

  lemma RemovedKeySize<K, V>(m: map<K, V>, key: K)
    requires key in m
    ensures |m - {key}| == |m| - 1
  {
    assert m.Keys == (m - {key}).Keys + {key};
  }

  lemma AddedKeySize<K, V>(m: map<K, V>, key: K, value: V)
    ensures |m[key := value]| == if key in m then |m| else |m| + 1
  {
    assert m[key := value].Keys == m.Keys + {key};
  }
}
