/** src/cache/lazyfree_cache.c: the page cache, refining the steps of its lock protocol. */
module LazyfreeCache {
  import opened Words
  import opened Options
  import opened ProbeTable
  import opened CacheState
  import opened CacheSteps
  import opened GenericCache
  import HashMap
  import PageAccess
  import MappedChunk

  class LazyfreeCache {
    const pagesPerChunk: nat
    const chunks: seq<MappedChunk.MappedChunk>
    const mem: Memory.Memory
    const index: HashMap.HashMap<Desc>
    ghost const chunkObjects: set<object>
    var currentChunkIdx: nat
    var key0: Option<Desc>
    var totalFreePages: int
    var wlockChunk: int
    var wlockIndex: nat
    var wlockKey: Key

    // ---- Abstraction ----

    ghost function Repr(): set<object>
      reads index
    {
      {this, mem, index, index.data} + chunkObjects
    }

    /** The parts of the cache do not overlap. */
    ghost predicate Apart()
      reads index
    {
      && (forall i, j :: 0 <= i < j < |chunks| ==> chunks[i].Repr() !! chunks[j].Repr())
      && this !in chunkObjects && mem !in chunkObjects && index !in chunkObjects && index.data !in chunkObjects
      && this as object != mem && this as object != index && mem as object != index
    }

    ghost predicate ChunksValid()
      reads chunkObjects
    {
      && |chunks| == NUMBER_OF_CHUNKS
      && forall i :: 0 <= i < |chunks| ==>
           chunks[i].Repr() <= chunkObjects && chunks[i].Valid() && chunks[i].ppc == pagesPerChunk
    }

    ghost function ChunkView(i: nat): Chunk
      requires ChunksValid() && i < |chunks|
      reads chunkObjects
    {
      chunks[i].View()
    }

    ghost function Chunks(): seq<Chunk>
      requires ChunksValid()
      reads chunkObjects
    {
      seq(|chunks|, i requires ChunksValid() && 0 <= i < |chunks| reads chunkObjects => ChunkView(i))
    }

    ghost function WLockView(): Option<WLock>
      reads this
    {
      if wlockChunk < 0 then None else Some(WLock(Desc(wlockChunk, wlockIndex), wlockKey))
    }

    ghost function Abs(): State
      requires ChunksValid()
      reads this, mem, index, chunkObjects
    {
      State(pagesPerChunk, index.hasher, Chunks(), currentChunkIdx, index.model, key0,
            totalFreePages, WLockView(), mem.View())
    }

    /** The objects fit together, without the invariant of the protocol. */
    ghost predicate Wired()
      reads Repr()
    {
      && Apart() && ChunksValid() && index.Valid()
      && Shaped(Abs())
    }

    /** The index has a slot for every page. */
    ghost predicate Roomy()
      reads index
    {
      ProbeTable.Capacity(index.log2Capacity) >= NUMBER_OF_CHUNKS * pagesPerChunk
    }

    // ---- Construction ----

    /** More chunks, of one kind, until there are n: one of the three loops of `lazyfree_cache_new_ex`. */
    static method GrowTo(n: nat, kind: Kind, ppc: nat, some: seq<MappedChunk.MappedChunk>, ghost known: set<object>)
      returns (cs: seq<MappedChunk.MappedChunk>, ghost objects: set<object>)
      requires |some| <= n && NewChunks(some, known, ppc)
      ensures |cs| == n && some <= cs && fresh(objects - known) && known <= objects && NewChunks(cs, objects, ppc)
      ensures forall i :: |some| <= i < n ==> cs[i].kind == kind
    {
      cs, objects := some, known;
      while |cs| < n
        invariant |some| <= |cs| <= n && some <= cs && fresh(objects - known) && known <= objects
        invariant NewChunks(cs, objects, ppc)
        invariant forall i :: |some| <= i < |cs| ==> cs[i].kind == kind
        decreases n - |cs|
      {
        var c := new MappedChunk.MappedChunk(kind, ppc);
        cs, objects := cs + [c], objects + c.Repr();
      }
    }

    /** The lazyfree chunks first, then the anonymous ones, then the file-backed ones. */
    static method DealChunks(lazyfreeChunks: nat, anonChunks: nat, diskChunks: nat, ppc: nat)
      returns (cs: seq<MappedChunk.MappedChunk>, ghost objects: set<object>)
      ensures |cs| == lazyfreeChunks + anonChunks + diskChunks && fresh(objects) && NewChunks(cs, objects, ppc)
      ensures forall i :: 0 <= i < |cs| ==>
                && (cs[i].kind == LazyFree <==> i < lazyfreeChunks)
                && (cs[i].kind == Disk <==> i >= lazyfreeChunks + anonChunks)
    {
      cs, objects := GrowTo(lazyfreeChunks, LazyFree, ppc, [], {});
      cs, objects := GrowTo(lazyfreeChunks + anonChunks, Anon, ppc, cs, objects);
      cs, objects := GrowTo(lazyfreeChunks + anonChunks + diskChunks, Disk, ppc, cs, objects);
    }

    static lemma PagesFit(cacheCapacity: nat)
      ensures var ppc := cacheCapacity / NUMBER_OF_CHUNKS / PAGE_SIZE;
              PAGE_SIZE * NUMBER_OF_CHUNKS * ppc <= cacheCapacity < PAGE_SIZE * NUMBER_OF_CHUNKS * (ppc + 1)
    {
    }

    /** Empty chunks of the given size that do not overlap. */
    static ghost predicate NewChunks(cs: seq<MappedChunk.MappedChunk>, objects: set<object>, ppc: nat)
      reads objects
    {
      && (forall i :: 0 <= i < |cs| ==>
            && cs[i].Repr() <= objects && cs[i].Valid() && cs[i].ppc == ppc
            && cs[i].len == 0 && cs[i].freePagesCount == 0)
      && (forall i, j :: 0 <= i < j < |cs| ==> cs[i].Repr() !! cs[j].Repr())
    }

    /** `lazyfree_cache_new_ex`. */
    constructor (cacheCapacity: nat, lazyfreeChunks: nat, anonChunks: nat, diskChunks: nat, hasher: Hasher)
      requires lazyfreeChunks + anonChunks + diskChunks == NUMBER_OF_CHUNKS
      requires NUMBER_OF_CHUNKS * (cacheCapacity / NUMBER_OF_CHUNKS / PAGE_SIZE) <= 0x8000_0000
      ensures Wired() && Roomy() && fresh(Repr()) && Initial(Abs()) && Abs().hasher == hasher
      ensures ProbeTable.Capacity(index.log2Capacity) <= 2 * NUMBER_OF_CHUNKS * Abs().ppc || Abs().ppc == 0
      ensures PAGE_SIZE * NUMBER_OF_CHUNKS * Abs().ppc <= cacheCapacity
      ensures cacheCapacity < PAGE_SIZE * NUMBER_OF_CHUNKS * (Abs().ppc + 1)
      ensures forall c :: 0 <= c < NUMBER_OF_CHUNKS ==>
                && (Abs().chunks[c].kind == LazyFree <==> c < lazyfreeChunks)
                && (Abs().chunks[c].kind == Disk <==> c >= lazyfreeChunks + anonChunks)
    {
      var ppc := cacheCapacity / NUMBER_OF_CHUNKS / PAGE_SIZE;
      PagesFit(cacheCapacity);
      var cs, objects := DealChunks(lazyfreeChunks, anonChunks, diskChunks, ppc);
      var m := new Memory.Memory(ppc);
      var h := new HashMap.HashMap<Desc>(NUMBER_OF_CHUNKS * ppc, hasher);
      pagesPerChunk := ppc;
      chunks := cs;
      chunkObjects := objects;
      mem := m;
      index := h;
      currentChunkIdx := 0;
      key0 := None;
      totalFreePages := NUMBER_OF_CHUNKS * ppc;
      wlockChunk := -1;
      wlockIndex := 0;
      wlockKey := 0;
      new;
      assert ChunksValid() && Apart();
      BlankIsInitial();
    }

    lemma BlankIsInitial()
      requires Apart() && ChunksValid() && index.Valid() && index.model == map[]
      requires forall i :: 0 <= i < |chunks| ==> chunks[i].len == 0 && chunks[i].freePagesCount == 0
      requires mem.pages.Keys == Memory.AllPages(pagesPerChunk) && mem.evictable == {}
      requires currentChunkIdx == 0 && key0.None? && wlockChunk < 0
      requires totalFreePages == NUMBER_OF_CHUNKS * pagesPerChunk
      ensures Wired() && Initial(Abs())
      ensures forall c :: 0 <= c < NUMBER_OF_CHUNKS ==> Abs().chunks[c].kind == chunks[c].kind
    {
      forall c | 0 <= c < NUMBER_OF_CHUNKS
        ensures ChunkShaped(pagesPerChunk, Abs().chunks[c]) && Abs().chunks[c].len == 0 && Abs().chunks[c].free == []
      {
        ChunkCounts(c);
        assert Abs().chunks[c] == chunks[c].View();
      }
    }

    // ---- Frames ----

    /** Only chunk c changed. */
    twostate lemma ChunkFrame(c: nat)
      requires old(Apart()) && old(ChunksValid()) && c < |chunks|
      requires forall o :: o in chunkObjects && o !in chunks[c].Repr() ==> unchanged(o)
      requires chunks[c].Valid()
      ensures ChunksValid() && Chunks() == old(Chunks())[c := chunks[c].View()]
    {
      forall i | 0 <= i < |chunks| && i != c ensures chunks[i].Valid() && chunks[i].View() == old(chunks[i].View()) {
        assert chunks[i].Repr() !! chunks[c].Repr();
        assert forall o :: o in chunks[i].Repr() ==> unchanged(o);
      }
      assert forall i :: 0 <= i < |chunks| && i != c ==> Chunks()[i] == old(Chunks())[i];
    }

    /** No chunk changed. */
    twostate lemma ChunksFrame()
      requires old(ChunksValid()) && forall o :: o in chunkObjects ==> unchanged(o)
      ensures ChunksValid() && Chunks() == old(Chunks())
    {
    }

    static lemma ShapedWithMem(s: State, m: Mem)
      requires Shaped(s) && m.pages.Keys == s.mem.pages.Keys
      ensures Shaped(s.(mem := m))
    {
    }

    /** Only memory changed. */
    twostate lemma MemFrame()
      requires old(Wired()) && unchanged(this, index) && unchanged(old(index.data))
      requires forall o :: o in chunkObjects ==> unchanged(o)
      requires mem.pages.Keys == old(mem.pages.Keys)
      ensures Wired() && Abs() == old(Abs()).(mem := mem.View()) && Repr() == old(Repr())
    {
      ChunksFrame();
      ShapedWithMem(old(Abs()), mem.View());
    }

    static lemma ShapedWithIndex(s: State, index: map<Key, Desc>, key0: Option<Desc>)
      requires Shaped(s) && (key0.Some? ==> InRange(s.ppc, key0.value))
      requires forall k :: k in index ==> InRange(s.ppc, index[k])
      ensures Shaped(s.(index := index, key0 := key0))
    {
    }

    /** Only the table changed. */
    twostate lemma IndexFrame()
      requires old(Wired()) && unchanged(this, mem) && forall o :: o in chunkObjects ==> unchanged(o)
      requires index.Valid() && Apart() && forall k :: k in index.model ==> InRange(pagesPerChunk, index.model[k])
      ensures Wired() && Abs() == old(Abs()).(index := index.model)
    {
      ChunksFrame();
      ShapedWithIndex(old(Abs()), index.model, key0);
      assert Abs() == old(Abs()).(index := index.model, key0 := key0);
    }

    // ---- Index helpers ----

    /** `hmap_get`. */
    method HmapGet(key: Key) returns (d: Option<Desc>)
      requires Wired()
      ensures d == CacheState.HmapGet(Abs(), key)
    {
      if key == 0 {
        return key0;
      }
      d := index.Get(key);
    }

    /** `hashmap_put` on a table that is not full: whether it succeeds depends on the hashes of the keys. */
    static method PutEntry(table: HashMap.HashMap<Desc>, key: Key, d: Desc) returns (ghost stored: bool)
      requires table.Valid() && key != 0 && table.size < ProbeTable.Capacity(table.log2Capacity)
      modifies table, table.data
      ensures table.Valid() && (table.data == old(table.data) || fresh(table.data))
      ensures table.log2Capacity >= old(table.log2Capacity)
      ensures table.model == if stored then old(table.model)[key := d] else old(table.model)
      ensures InsertionOutcome(table.hasher, old(table.model).Keys, key, stored)
    {
      Pow2Monotone(table.log2Capacity, 31);
      var r := table.Put(key, d);
      stored := r == 0;
    }

    /** The table, for a key other than 0. */
    method IndexPut(key: Key, d: Desc) returns (ghost stored: bool)
      requires Wired() && InRange(pagesPerChunk, d) && key != 0
      requires index.size < ProbeTable.Capacity(index.log2Capacity)
      modifies index, index.data
      ensures Wired() && Abs() == CacheState.HmapPut(old(Abs()), key, d, stored)
      ensures (index.data == old(index.data) || fresh(index.data)) && index.log2Capacity >= old(index.log2Capacity)
      ensures InsertionOutcome(index.hasher, old(index.model).Keys, key, stored)
    {
      stored := PutEntry(index, key, d);
      IndexFrame();
    }

    /** `hmap_put`, which ignores whether the insertion succeeded. */
    method HmapPut(key: Key, d: Desc) returns (ghost stored: bool)
      requires Wired() && InRange(pagesPerChunk, d)
      requires key != 0 ==> index.size < ProbeTable.Capacity(index.log2Capacity)
      modifies this`key0, index, index.data
      ensures Wired() && Abs() == CacheState.HmapPut(old(Abs()), key, d, stored)
      ensures (index.data == old(index.data) || fresh(index.data)) && index.log2Capacity >= old(index.log2Capacity)
      ensures key != 0 ==> InsertionOutcome(index.hasher, old(index.model).Keys, key, stored)
    {
      if key == 0 {
        key0 := Some(d);
        ChunksFrame();
        ShapedWithIndex(old(Abs()), index.model, key0);
        return true;
      }
      stored := IndexPut(key, d);
    }

    /** `hmap_remove`: never touches key0. */
    method HmapRemove(key: Key)
      requires Wired()
      modifies index`size, index`model, index.data
      ensures Wired() && Abs() == old(Abs()).(index := old(Abs()).index - {key})
    {
      var _ := index.Remove(key);
      IndexFrame();
    }

    // ---- Page accesses: the kernel may act before each ----

    method LoadByte(d: Desc, i: nat) returns (b: byte)
      requires Wired() && InRange(pagesPerChunk, d) && i < PAGE_SIZE
      modifies mem
      ensures Wired() && Reclaims(old(Abs()), Abs()) && b == SlotPage(Abs(), d)[i]
    {
      b := mem.ReadByte(d, i);
      MemFrame();
    }

    /** `LAZYFREE_LOCK_CHECK`. */
    method LockCheck(lock: RLock) returns (ok: bool)
      requires Wired() && lock.head != Null && LockShaped(Abs(), lock.View())
      modifies mem
      ensures Wired() && Reclaims(old(Abs()), Abs())
      ensures ok <==> lock.head.At? && Tail(SlotPage(Abs(), lock.head.desc)) != 0
    {
      ok := GenericCache.LockCheck(mem, lock);
      MemFrame();
    }

    // ---- Single changes of a chunk ----

    lemma ChunkCounts(c: nat)
      requires ChunksValid() && c < |chunks|
      ensures |Abs().chunks[c].free| == chunks[c].freePagesCount && Abs().chunks[c].len == chunks[c].len
      ensures |Abs().chunks[c].keys| == pagesPerChunk && Abs().chunks[c].keys == chunks[c].keys[..]
      ensures Abs().chunks[c].kind == chunks[c].kind
    {
      assert Abs().chunks[c] == chunks[c].View();
    }

    static lemma ShapedWithChunk(s: State, c: nat, ch: Chunk)
      requires Shaped(s) && c < NUMBER_OF_CHUNKS && ChunkShaped(s.ppc, ch)
      ensures Shaped(SetChunk(s, c, ch))
    {
    }

    method PushFree(d: Desc)
      requires Wired() && InRange(pagesPerChunk, d) && |Abs().chunks[d.chunk].free| < pagesPerChunk
      modifies chunks[d.chunk], chunks[d.chunk].freePages
      ensures Wired()
      ensures Abs() == var ch := old(Abs()).chunks[d.chunk];
              SetChunk(old(Abs()), d.chunk, ch.(free := ch.free + [d.index]))
    {
      var chunk := chunks[d.chunk];
      chunk.PushFree(d.index);
      ChunkFrame(d.chunk);
      ShapedWithChunk(old(Abs()), d.chunk, chunk.View());
    }

    method SetKey(d: Desc, key: Key)
      requires Wired() && InRange(pagesPerChunk, d)
      modifies chunks[d.chunk].keys
      ensures Wired()
      ensures Abs() == var ch := old(Abs()).chunks[d.chunk];
              SetChunk(old(Abs()), d.chunk, ch.(keys := ch.keys[d.index := key]))
    {
      var chunk := chunks[d.chunk];
      assert ChunkShaped(pagesPerChunk, Abs().chunks[d.chunk]) && Abs().chunks[d.chunk] == chunk.View();
      chunk.SetKey(d.index, key);
      ChunkFrame(d.chunk);
      ShapedWithChunk(old(Abs()), d.chunk, chunk.View());
    }

    method PopFree(c: nat) returns (i: nat)
      requires Wired() && c < NUMBER_OF_CHUNKS && |Abs().chunks[c].free| > 0
      modifies chunks[c]
      ensures Wired()
      ensures var ch := old(Abs()).chunks[c]; var last := |ch.free| - 1;
              i == ch.free[last] && Abs() == SetChunk(old(Abs()), c, ch.(free := ch.free[..last]))
    {
      var chunk := chunks[c];
      ChunkCounts(c);
      assert ChunkShaped(pagesPerChunk, Abs().chunks[c]) && Abs().chunks[c] == chunk.View();
      i := chunk.PopFree();
      ChunkFrame(c);
      ShapedWithChunk(old(Abs()), c, chunk.View());
    }

    method BumpLen(c: nat) returns (i: nat)
      requires Wired() && c < NUMBER_OF_CHUNKS && Abs().chunks[c].len < pagesPerChunk
      modifies chunks[c]
      ensures Wired()
      ensures var ch := old(Abs()).chunks[c];
              i == ch.len && Abs() == SetChunk(old(Abs()), c, ch.(len := ch.len + 1))
    {
      var chunk := chunks[c];
      ChunkCounts(c);
      assert ChunkShaped(pagesPerChunk, Abs().chunks[c]) && Abs().chunks[c] == chunk.View();
      i := chunk.Bump();
      ChunkFrame(c);
      ShapedWithChunk(old(Abs()), c, chunk.View());
    }

    method ResetChunk(c: nat)
      requires Wired() && c < NUMBER_OF_CHUNKS
      modifies chunks[c], chunks[c].keys
      ensures Wired()
      ensures var ch := old(Abs()).chunks[c];
              Abs() == SetChunk(old(Abs()), c, ch.(keys := Zeroed(ch.keys, ch.len), free := [], len := 0))
    {
      var chunk := chunks[c];
      ChunkCounts(c);
      assert ChunkShaped(pagesPerChunk, Abs().chunks[c]) && Abs().chunks[c] == chunk.View();
      chunk.Reset();
      ChunkFrame(c);
      ShapedWithChunk(old(Abs()), c, chunk.View());
    }

    method PutBit(d: Desc, bit: bool)
      requires Wired() && InRange(pagesPerChunk, d)
      modifies chunks[d.chunk].bit0
      ensures Wired()
      ensures Abs() == var ch := old(Abs()).chunks[d.chunk];
              SetChunk(old(Abs()), d.chunk, ch.(bits := ch.bits[d.index := bit]))
    {
      var chunk := chunks[d.chunk];
      assert ChunkShaped(pagesPerChunk, Abs().chunks[d.chunk]) && Abs().chunks[d.chunk] == chunk.View();
      chunk.PutBit(d.index, bit);
      ChunkFrame(d.chunk);
      ShapedWithChunk(old(Abs()), d.chunk, chunk.View());
    }

    // ---- Releasing pages ----

    /** The four updates of `cache_drop`, one after the other. */
    static lemma DropInSteps(s: State, d: Desc)
      requires Shaped(s) && InRange(s.ppc, d)
      ensures var ch := s.chunks[d.chunk];
              var pushed := SetChunk(s, d.chunk, ch.(free := ch.free + [d.index]));
              var counted := pushed.(totalFree := s.totalFree + 1, index := s.index - {ch.keys[d.index]});
              && pushed.chunks[d.chunk] == ch.(free := ch.free + [d.index])
              && CacheState.CacheDrop(s, d)
                 == SetChunk(counted, d.chunk, pushed.chunks[d.chunk].(keys := ch.keys[d.index := 0]))
    {
    }

    /** `cache_drop`. */
    method CacheDrop(d: Desc) returns (exited: bool)
      requires Wired() && InRange(pagesPerChunk, d) && |Abs().chunks[d.chunk].free| < pagesPerChunk
      modifies this`totalFreePages, index`size, index`model, index.data, chunks[d.chunk].Repr()
      ensures exited <==> |old(Abs()).chunks[d.chunk].free| + 1 > old(Abs()).chunks[d.chunk].len
      ensures !exited ==> Wired() && Abs() == CacheState.CacheDrop(old(Abs()), d)
    {
      DropInSteps(Abs(), d);
      PushFree(d);
      var chunk := chunks[d.chunk];
      ChunkCounts(d.chunk);
      if chunk.freePagesCount > chunk.len {
        return true;
      }
      CountFree(1);
      ForgetKey(d);
      exited := false;
    }

    /** Take the slot's key out of the index and out of the reverse table. */
    method ForgetKey(d: Desc)
      requires Wired() && InRange(pagesPerChunk, d)
      modifies index`size, index`model, index.data, chunks[d.chunk].keys
      ensures Wired()
      ensures var s := old(Abs());
              var ch := s.chunks[d.chunk];
              Abs() == SetChunk(s.(index := s.index - {ch.keys[d.index]}), d.chunk, ch.(keys := ch.keys[d.index := 0]))
    {
      ChunkCounts(d.chunk);
      HmapRemove(chunks[d.chunk].keys[d.index]);
      SetKey(d, 0);
    }

    method CountFree(n: int)
      requires Wired()
      modifies this`totalFreePages
      ensures Wired() && Abs() == old(Abs()).(totalFree := old(Abs()).totalFree + n)
    {
      totalFreePages := totalFreePages + n;
      ChunksFrame();
    }

    // ---- Allocating pages ----

    /** `alloc_current_chunk`. */
    method AllocCurrentChunk() returns (d: Option<Desc>)
      requires Wired()
      modifies this`totalFreePages, chunks[currentChunkIdx]
      ensures Wired()
      ensures d == AllocCurrent(old(Abs())).1
      ensures Abs() == AllocCurrent(old(Abs())).0
    {
      var c := currentChunkIdx;
      ChunkCounts(c);
      if chunks[c].freePagesCount > 0 {
        d := TakeFree(c);
      } else if chunks[c].len < pagesPerChunk {
        d := TakeBlank(c);
      } else {
        d := None;
      }
    }

    method TakeFree(c: nat) returns (d: Option<Desc>)
      requires Wired() && c == currentChunkIdx && |Abs().chunks[c].free| > 0
      modifies this`totalFreePages, chunks[c]
      ensures Wired()
      ensures d == AllocCurrent(old(Abs())).1
      ensures Abs() == AllocCurrent(old(Abs())).0
    {
      var idx := PopFree(c);
      CountFree(-1);
      d := Some(Desc(c, idx));
    }

    /** Chunk c with one page more below its bump pointer, and one less counted as free. */
    static ghost function Bumped(s: State, c: nat): State
      requires Shaped(s) && c < NUMBER_OF_CHUNKS
    {
      SetChunk(s, c, s.chunks[c].(len := s.chunks[c].len + 1)).(totalFree := s.totalFree - 1)
    }

    static lemma BumpedIsAllocated(s: State)
      requires Shaped(s) && |s.chunks[s.current].free| == 0 && s.chunks[s.current].len < s.ppc
      ensures AllocCurrent(s) == (Bumped(s, s.current), Some(Desc(s.current, s.chunks[s.current].len)))
    {
    }

    method BumpAndCount(c: nat) returns (i: nat)
      requires Wired() && c < NUMBER_OF_CHUNKS && Abs().chunks[c].len < pagesPerChunk
      modifies this`totalFreePages, chunks[c]
      ensures Wired() && i == old(Abs()).chunks[c].len && Abs() == Bumped(old(Abs()), c)
    {
      i := BumpLen(c);
      CountFree(-1);
    }

    method TakeBlank(c: nat) returns (d: Option<Desc>)
      requires Wired() && c == currentChunkIdx && |Abs().chunks[c].free| == 0 && Abs().chunks[c].len < pagesPerChunk
      modifies this`totalFreePages, chunks[c]
      ensures Wired()
      ensures d == AllocCurrent(old(Abs())).1
      ensures Abs() == AllocCurrent(old(Abs())).0
    {
      BumpedIsAllocated(Abs());
      var idx := BumpAndCount(c);
      d := Some(Desc(c, idx));
    }

    method SetCurrent(c: nat)
      requires Wired() && c < NUMBER_OF_CHUNKS
      modifies this`currentChunkIdx
      ensures Wired() && Abs() == old(Abs()).(current := c)
    {
      currentChunkIdx := c;
      ChunksFrame();
    }

    /** The state after `madv_impl` of chunk c: MADV_FREE for a lazyfree one, nothing for the others. */
    static ghost function Advised(s: State, c: nat): State
      requires Shaped(s) && c < NUMBER_OF_CHUNKS
    {
      if s.chunks[c].kind != LazyFree then s else s.(mem := s.mem.(evictable := s.mem.evictable + PagesOf(c, s.ppc)))
    }

    method Madvise(c: nat)
      requires Wired() && c < NUMBER_OF_CHUNKS
      modifies mem
      ensures Wired() && Abs() == Advised(old(Abs()), c)
    {
      ChunkCounts(c);
      if chunks[c].kind == LazyFree {
        mem.MadviseFree(c, pagesPerChunk);
        MemFrame();
      }
    }

    static lemma AdvanceInSteps(s: State, t: State)
      requires Shaped(s) && t == Advised(s, s.current).(current := (s.current + 1) % NUMBER_OF_CHUNKS)
      ensures t == Advance(s)
    {
    }

    /** `advance_chunk`. */
    method AdvanceChunk()
      requires Wired()
      modifies this`currentChunkIdx, mem
      ensures Wired() && Abs() == Advance(old(Abs()))
    {
      ghost var s := Abs();
      Madvise(currentChunkIdx);
      SetCurrent((currentChunkIdx + 1) % NUMBER_OF_CHUNKS);
      assert Abs() == Advised(s, s.current).(current := (s.current + 1) % NUMBER_OF_CHUNKS);
      AdvanceInSteps(s, Abs());
    }

    static lemma RemoveNext(index: map<Key, Desc>, keys: seq<Key>, n: nat)
      requires n < |keys|
      ensures index - KeysBelow(keys, n) - {keys[n]} == index - KeysBelow(keys, n + 1)
    {
      KeysBelowNext(keys, n);
    }

    /** Of state s, the keys of chunk c's first i slots are out of the index. */
    ghost predicate RemovedUpTo(s: State, c: nat, i: nat)
      reads Repr()
    {
      && Wired() && Shaped(s) && c < NUMBER_OF_CHUNKS && i <= s.chunks[c].len
      && Abs() == s.(index := s.index - KeysBelow(s.chunks[c].keys, i))
    }

    /** The loop of `drop_next_chunk` over the chunk's keys. */
    method RemoveKeys(c: nat)
      requires Wired() && c < NUMBER_OF_CHUNKS
      modifies index`size, index`model, index.data
      ensures Wired()
      ensures var ch := old(Abs()).chunks[c];
              Abs() == old(Abs()).(index := old(Abs()).index - KeysBelow(ch.keys, ch.len))
    {
      ghost var s := Abs();
      ChunkCounts(c);
      var n := chunks[c].len;
      assert s.index - KeysBelow(s.chunks[c].keys, 0) == s.index;
      var i := 0;
      while i < n
        invariant 0 <= i <= n && RemovedUpTo(s, c, i)
      {
        RemoveKeyAt(c, i, s);
        i := i + 1;
      }
    }

    method RemoveKeyAt(c: nat, i: nat, ghost s: State)
      requires RemovedUpTo(s, c, i) && i < s.chunks[c].len
      modifies index`size, index`model, index.data
      ensures RemovedUpTo(s, c, i + 1)
    {
      ChunkCounts(c);
      assert ChunkShaped(s.ppc, s.chunks[c]);
      RemoveNext(s.index, s.chunks[c].keys, i);
      HmapRemove(chunks[c].keys[i]);
    }

    /** `madvise(MADV_DONTNEED)` on a chunk. */
    method DontNeedChunk(c: nat) returns (ghost filePages: map<Desc, Page>)
      requires Wired() && c < NUMBER_OF_CHUNKS
      modifies mem
      ensures Wired() && PagesOf(c, pagesPerChunk) <= filePages.Keys
      ensures Abs() == old(Abs()).(mem :=
                DontNeed(old(Abs()).mem, old(Abs()).chunks[c].kind, PagesOf(c, pagesPerChunk), filePages))
    {
      ChunkCounts(c);
      filePages := mem.MadviseDontNeed(c, pagesPerChunk, chunks[c].kind);
      MemFrame();
    }

    /** The state after the keys are out of the index and the pages are gone. */
    static ghost function Vacated(s: State, choice: Choice): State
      requires Shaped(s) && ChoiceOk(s, choice)
    {
      var c, ch := choice.victim, s.chunks[choice.victim];
      s.(current := c, index := s.index - KeysBelow(ch.keys, ch.len),
         mem := DontNeed(s.mem, ch.kind, PagesOf(c, s.ppc), choice.filePages))
    }

    /** The state after chunk c has been counted as free, and emptied. */
    static ghost function Recounted(s: State, c: nat): State
      requires Shaped(s) && c < NUMBER_OF_CHUNKS
    {
      var ch := s.chunks[c];
      SetChunk(s.(totalFree := s.totalFree + (ch.len - |ch.free|)),
               c, ch.(keys := Zeroed(ch.keys, ch.len), free := [], len := 0))
    }

    static lemma DropChunkInSteps(s: State, choice: Choice)
      requires Shaped(s) && ChoiceOk(s, choice) && Shaped(Vacated(s, choice))
      ensures DropChunk(s, choice) == Recounted(Vacated(s, choice), choice.victim)
    {
    }

    /** `drop_next_chunk`, on a victim that could be any chunk. */
    method DropNextChunk() returns (ghost choice: Choice)
      requires Wired()
      modifies this`currentChunkIdx, this`totalFreePages, index`size, index`model, index.data, mem, chunkObjects
      ensures Wired()
      ensures ChoiceOk(old(Abs()), choice) && Abs() == DropChunk(old(Abs()), choice)
    {
      var c: nat :| c < NUMBER_OF_CHUNKS;
      choice := DropVictim(c);
    }

    method DropVictim(c: nat) returns (ghost choice: Choice)
      requires Wired() && c < NUMBER_OF_CHUNKS
      modifies this`currentChunkIdx, this`totalFreePages, index`size, index`model, index.data, mem
      modifies chunks[c], chunks[c].keys
      ensures Wired()
      ensures ChoiceOk(old(Abs()), choice) && Abs() == DropChunk(old(Abs()), choice)
    {
      choice := EvictChunk(c);
      RecountChunk(c);
      DropChunkInSteps(old(Abs()), choice);
    }

    method EvictChunk(c: nat) returns (ghost choice: Choice)
      requires Wired() && c < NUMBER_OF_CHUNKS
      modifies this`currentChunkIdx, index`size, index`model, index.data, mem
      ensures Wired()
      ensures choice.victim == c && ChoiceOk(old(Abs()), choice) && Abs() == Vacated(old(Abs()), choice)
    {
      SetCurrent(c);
      RemoveKeys(c);
      ghost var filePages := DontNeedChunk(c);
      choice := Choice(c, filePages);
    }

    method RecountChunk(c: nat)
      requires Wired() && c < NUMBER_OF_CHUNKS
      modifies this`totalFreePages, chunks[c], chunks[c].keys
      ensures Wired() && Abs() == Recounted(old(Abs()), c)
    {
      ChunkCounts(c);
      CountFree(chunks[c].len - chunks[c].freePagesCount);
      ResetChunk(c);
    }

    /** The drop that `alloc_new_page` begins with when no page is free. */
    method DropIfFull() returns (ghost choice: Choice)
      requires Wired()
      modifies this`currentChunkIdx, this`totalFreePages, index`size, index`model, index.data, mem, chunkObjects
      ensures Wired() && ChoiceOk(old(Abs()), choice) && Abs() == MakeRoom(old(Abs()), choice)
    {
      if totalFreePages == 0 {
        choice := DropNextChunk();
      } else {
        choice := DropOf(0, pagesPerChunk);
      }
    }

    /** The walk from s, with `left` visits to make, ends in `end`. */
    static ghost predicate EndsIn(s: State, left: nat, end: (State, Option<Desc>)) {
      Shaped(s) && left > 0 && Walk(s, left) == end
    }

    static lemma WalkOn(s: State, left: nat, end: (State, Option<Desc>))
      requires EndsIn(s, left, end)
      ensures AllocCurrent(s).1.Some? ==> end == AllocCurrent(s)
      ensures AllocCurrent(s).1.None? ==> AllocCurrent(s).0 == s
      ensures AllocCurrent(s).1.None? ==>
                if left == 1 then end == (Advance(s), None) else EndsIn(Advance(s), left - 1, end)
    {
    }

    /** One turn of the loop: try the current chunk, and leave it behind if it is full. */
    method VisitChunk(ghost left: nat, ghost end: (State, Option<Desc>)) returns (d: Option<Desc>)
      requires Wired() && EndsIn(Abs(), left, end)
      modifies this`currentChunkIdx, this`totalFreePages, mem, chunkObjects
      ensures Wired()
      ensures d.Some? || left == 1 ==> end == (Abs(), d)
      ensures d.None? && left > 1 ==> EndsIn(Abs(), left - 1, end)
    {
      ghost var s := Abs();
      WalkOn(s, left, end);
      d := AllocCurrentChunk();
      assert (Abs(), d) == AllocCurrent(s);
      if d.None? {
        assert Abs() == s;
        AdvanceChunk();
        assert Abs() == Advance(s);
      }
    }

    /** The loop of `alloc_new_page`, over at most n chunks. */
    method FindPage(n: nat) returns (d: Option<Desc>)
      requires Wired() && n > 0
      modifies this`currentChunkIdx, this`totalFreePages, mem, chunkObjects
      ensures Wired() && (Abs(), d) == Walk(old(Abs()), n)
    {
      var chunksVisited := 0;
      d := None;
      ghost var end, left := Walk(Abs(), n), n;
      while d.None?
        invariant 0 <= chunksVisited < n && left == n - chunksVisited && Wired()
        invariant d.Some? ==> end == (Abs(), d)
        invariant d.None? ==> EndsIn(Abs(), left, end)
        decreases d.None?, left
      {
        d := VisitChunk(left, end);
        if d.None? {
          chunksVisited := chunksVisited + 1;
          if chunksVisited >= n {
            return;
          }
          assert left > 1 && EndsIn(Abs(), left - 1, end);
          left := left - 1;
        }
      }
    }

    /** `alloc_new_page`; None stands for its "Failed to find free page" exit. */
    method AllocNewPage() returns (d: Option<Desc>, ghost choice: Choice)
      requires Wired()
      modifies this`currentChunkIdx, this`totalFreePages, index`size, index`model, index.data, mem, chunkObjects
      ensures Wired() && ChoiceOk(old(Abs()), choice)
      ensures (Abs(), d) == CacheState.AllocNewPage(old(Abs()), choice)
      ensures Abs().index == MakeRoom(old(Abs()), choice).index
    {
      choice := DropIfFull();
      WalkKeepsIndex(Abs(), |Abs().chunks|);
      d := FindPage(|chunks|);
    }

    // ---- Write lock ----

    method SetWLock(chunk: int, idx: nat, key: Key)
      requires Wired()
      modifies this`wlockChunk, this`wlockIndex, this`wlockKey
      ensures Wired()
      ensures Abs() == old(Abs()).(wlock := if chunk < 0 then None else Some(WLock(Desc(chunk, idx), key)))
    {
      wlockChunk := chunk;
      wlockIndex := idx;
      wlockKey := key;
      ChunksFrame();
    }

    static lemma ClaimInSteps(s: State, d: Desc, key: Key, stored: bool)
      requires Shaped(s) && InRange(s.ppc, d)
      ensures var locked := s.(wlock := Some(WLock(d, key)));
              var put := CacheState.HmapPut(locked, key, d, stored);
              && put.chunks == s.chunks
              && Claim(s, d, key, stored)
                 == SetChunk(put, d.chunk, put.chunks[d.chunk].(keys := put.chunks[d.chunk].keys[d.index := key]))
    {
    }

    /** The end of `lazyfree_write_alloc`. */
    method ClaimPage(d: Desc, key: Key) returns (ghost stored: bool)
      requires Wired() && InRange(pagesPerChunk, d) && |Abs().index| < ProbeTable.Capacity(index.log2Capacity)
      modifies this, index, index.data, chunks[d.chunk].keys
      ensures Wired() && Abs() == Claim(old(Abs()), d, key, stored)
      ensures (index.data == old(index.data) || fresh(index.data)) && index.log2Capacity >= old(index.log2Capacity)
      ensures key != 0 ==> InsertionOutcome(index.hasher, old(Abs()).index.Keys, key, stored)
    {
      SetWLock(d.chunk, d.index, key);
      stored := HmapPut(key, d);
      ClaimInSteps(old(Abs()), d, key, stored);
      SetKey(d, key);
    }

    /** `lazyfree_write_alloc`; None stands for its exit. */
    method WriteAlloc(key: Key) returns (d: Option<Desc>, ghost choice: Choice, ghost stored: bool)
      requires Wired() && Roomy() && wlockChunk < 0 && IndexBelow(Abs(), ProbeTable.Capacity(index.log2Capacity))
      modifies Repr()
      ensures Wired() && Roomy() && (index.data == old(index.data) || fresh(index.data))
      ensures ChoiceOk(old(Abs()), choice) && (Abs(), d) == CacheState.WriteAlloc(old(Abs()), key, choice, stored)
      ensures d.Some? ==> AllocStep(old(Abs()), key, choice, stored, Abs())
    {
      ghost var s, log2 := Abs(), index.log2Capacity;
      d, choice := AllocNewPage();
      stored := false;
      if d.Some? {
        ghost var r := Abs();
        assert chunks[d.value.chunk].Repr() <= chunkObjects;
        stored := ClaimPage(d.value, key);
        ClaimedIsAllocated(s, key, choice, stored, r, d, Abs());
        StillRoom(log2);
      }
    }

    static lemma ClaimedIsAllocated(s: State, key: Key, choice: Choice, stored: bool,
        r: State, d: Option<Desc>, t: State)
      requires Shaped(s) && ChoiceOk(s, choice) && d.Some? && (r, d) == CacheState.AllocNewPage(s, choice)
      requires r.index == MakeRoom(s, choice).index && t == Claim(r, d.value, key, stored)
      requires key != 0 ==> InsertionOutcome(s.hasher, r.index.Keys, key, stored)
      ensures (t, d) == CacheState.WriteAlloc(s, key, choice, stored) && AllocStep(s, key, choice, stored, t)
    {
    }

    lemma StillRoom(log2: nat)
      requires log2 <= index.log2Capacity && ProbeTable.Capacity(log2) >= NUMBER_OF_CHUNKS * pagesPerChunk
      ensures ProbeTable.Capacity(index.log2Capacity) >= NUMBER_OF_CHUNKS * pagesPerChunk
    {
      Pow2Monotone(log2, index.log2Capacity);
    }

    // ---- Read lock ----

    /** Nothing of the cache changed. */
    twostate lemma SameCache()
      requires old(Wired()) && unchanged(this, mem, index) && unchanged(old(index.data))
      requires forall o :: o in chunkObjects ==> unchanged(o)
      ensures Wired() && Abs() == old(Abs()) && Repr() == old(Repr())
    {
      ChunksFrame();
      assert index.Valid() && Apart();
    }

    /** `lazyfree_read_lock`. */
    method ReadLock(lock: RLock)
      requires Wired() && wlockChunk < 0 && lock !in Repr()
      modifies lock, mem
      ensures Wired() && ReadLockStep(old(Abs()), old(lock.key), lock.View(), Abs())
    {
      lock.Clear();
      SameCache();
      var desc := HmapGet(lock.key);
      if desc.None? {
        return;
      }
      ChunkCounts(desc.value.chunk);
      if chunks[desc.value.chunk].keys[desc.value.index] != lock.key {
        return;
      }
      LockPage(lock, desc.value);
    }

    /** `bit_to_tail`, on a byte read before. */
    method TailOf(d: Desc, t: byte) returns (r: byte)
      requires Wired() && InRange(pagesPerChunk, d)
      ensures r == BitToTail(SlotBit(Abs(), d), t)
    {
      var bit := chunks[d.chunk].GetBit(d.index);
      assert Abs().chunks[d.chunk] == chunks[d.chunk].View();
      r := if bit then t else t & !1;
    }

    /** Reading a byte that is not 0, then reading it again for the lock. */
    static lemma LookedTwice(s: State, s1: State, s2: State, d: Desc, l: Lock)
      requires Shaped(s) && Shaped(s1) && Shaped(s2) && InRange(s.ppc, d) && Reclaims(s, s1) && Reclaims(s1, s2)
      requires Tail(SlotPage(s1, d)) != 0
      requires l.head == At(d) && l.tail == BitToTail(SlotBit(s, d), Tail(SlotPage(s2, d)))
      ensures Reclaims(s, s2) && PageLocked(s, d, l, s2)
    {
      assert s2.mem.pages[d] == s.mem.pages[d] || s2.mem.pages[d] == ZERO_PAGE;
    }

    /** The two reads of the page's last byte in `lazyfree_read_lock`. */
    method LookAtPage(d: Desc) returns (found: bool, t: byte)
      requires Wired() && InRange(pagesPerChunk, d)
      modifies mem
      ensures Wired() && Reclaims(old(Abs()), Abs())
      ensures PageLocked(old(Abs()), d, Lock(0, if found then At(d) else EmptyPage, t, None, 0), Abs())
    {
      t := LoadByte(d, PAGE_SIZE - 1);
      found := t != 0;
      if found {
        ghost var s1 := Abs();
        t := LoadByte(d, PAGE_SIZE - 1);
        t := TailOf(d, t);
        LookedTwice(old(Abs()), s1, Abs(), d, Lock(0, At(d), t, None, 0));
      }
    }

    method LockPage(lock: RLock, d: Desc)
      requires Wired() && lock !in Repr() && InRange(pagesPerChunk, d) && lock.head == EmptyPage && lock.tail == 0
      modifies lock, mem
      ensures Wired() && Reclaims(old(Abs()), Abs())
      ensures lock.View() == old(lock.View()).(head := lock.head, tail := lock.tail,
                                               chunk := Some(d.chunk), index := d.index % INDEX_MODULUS)
      ensures PageLocked(old(Abs()), d, lock.View(), Abs())
    {
      var found, t := LookAtPage(d);
      label Looked:
      lock.Settle(d, found, t);
      SameCache@Looked();
    }

    /** `rlock_check_key`. */
    method CheckKey(lock: RLock) returns (ok: bool)
      requires Wired() && lock.head.At? && LockShaped(Abs(), lock.View())
      ensures ok == KeyMatches(Abs(), lock.View())
    {
      var d := lock.head.desc;
      ChunkCounts(d.chunk);
      ok := chunks[d.chunk].keys[d.index] == lock.key;
    }

    /** Releasing the lock's page leaves room on its chunk's free stack, as it does whenever the slot is in use. */
    ghost predicate CanRelease(lock: RLock)
      requires Wired() && LockShaped(Abs(), lock.View())
      reads Repr(), lock
    {
      KeyMatches(Abs(), lock.View()) ==>
        |Abs().chunks[lock.head.desc.chunk].free| < Abs().chunks[lock.head.desc.chunk].len
    }

    /** `lazyfree_read_unlock`; exited stands for its exit after a failed lock check. */
    method ReadUnlock(lock: RLock, drop: bool) returns (valid: bool, exited: bool)
      requires Wired() && wlockChunk < 0 && lock !in Repr()
      requires lock.head != Null && LockShaped(Abs(), lock.View()) && CanRelease(lock)
      modifies this`totalFreePages, index`size, index`model, index.data, mem, chunkObjects
      ensures Wired()
      ensures exited ==> Reclaims(old(Abs()), Abs()) && lock.head.At? && Tail(SlotPage(Abs(), lock.head.desc)) == 0
      ensures !exited ==> ReadUnlockStep(old(Abs()), lock.View(), drop, valid, Abs())
    {
      if lock.head == EmptyPage {
        return false, false;
      }
      var ok := LockCheck(lock);
      if !ok {
        return false, true;
      }
      valid := UnlockPage(lock, lock.head.desc, drop);
      exited := false;
    }

    /** The end of `lazyfree_read_unlock`: was the page dropped already, and is it to be dropped? */
    method UnlockPage(lock: RLock, d: Desc, drop: bool) returns (valid: bool)
      requires Wired() && lock.head == At(d) && InRange(pagesPerChunk, d) && LockShaped(Abs(), lock.View())
      requires SlotKey(Abs(), d) == lock.key ==> |Abs().chunks[d.chunk].free| < Abs().chunks[d.chunk].len
      modifies this`totalFreePages, index`size, index`model, index.data, chunks[d.chunk].Repr()
      ensures Wired() && valid == (SlotKey(old(Abs()), d) == old(lock.key))
      ensures Abs() == if valid && drop then CacheState.CacheDrop(old(Abs()), d) else old(Abs())
    {
      valid := CheckKey(lock);
      ChunkCounts(d.chunk);
      if valid && drop {
        var exited := CacheDrop(d);
      }
    }

    // ---- Write lock: upgrade ----

    /** `lazyfree_write_lock`, the race for the page. */
    method TryUpgrade(d: Desc) returns (ok: bool, ghost m: Mem)
      requires Wired() && InRange(pagesPerChunk, d)
      modifies mem
      ensures Evicts(old(Abs()).mem, m) && d in m.pages && ok == (Tail(m.pages[d]) != 0)
      ensures Wired()
      ensures Abs() == old(Abs()).(mem := StorePage(m, d, if ok then m.pages[d] else m.pages[d][0 := 0]))
    {
      ok, m := PageAccess.TakePage(mem, d);
      MemFrame();
    }

    /** `bit_to_tail(chunk, index, &entry->tail)`. */
    method RestoreTail(d: Desc) returns (ghost m: Mem, ghost t: byte)
      requires Wired() && InRange(pagesPerChunk, d)
      modifies mem
      ensures Wired() && Abs() == old(Abs()).(mem := Abs().mem)
      ensures TailRestored(old(Abs()), d, t, m, Abs().mem)
    {
      var bit := chunks[d.chunk].GetBit(d.index);
      assert Abs().chunks[d.chunk] == chunks[d.chunk].View();
      m, t := Abs().mem, 0;
      if !bit {
        m, t := PageAccess.ClearTail(mem, d);
      }
      MemFrame();
    }

    static ghost predicate TailRestored(s: State, d: Desc, t: byte, m: Mem, after: Mem)
      requires Shaped(s) && InRange(s.ppc, d)
    {
      if SlotBit(s, d) then after == s.mem else TailCleared(s.mem, d, t, m, after)
    }

    /** What the caller of `lazyfree_write_lock` gets: a step of the protocol and its page, or the failed allocation. */
    static ghost predicate Locked(s: State, l: Lock, d: Option<Desc>, m: Mem, choice: Choice, stored: bool, s': State) {
      && Shaped(s) && LockShaped(s, l) && Evicts(s.mem, m)
      && match d
         case Some(page) =>
           WriteLockStep(s, l, m, choice, stored, s') && s'.wlock == Some(WLock(page, l.key))
           && InRange(s.ppc, page) && s'.ppc == s.ppc
         case None =>
           var site := FallbackState(s, l, m);
           Shaped(site) && ChoiceOk(site, choice) && CacheState.AllocNewPage(site, choice).1.None?
    }

    static ghost predicate Lockable(s: State, l: Lock) {
      Shaped(s) && LockShaped(s, l) && s.wlock.None?
    }

    /** The lock's page is gone, or there is none. */
    static ghost predicate MustAlloc(s: State, l: Lock, m: Mem) {
      && Lockable(s, l) && Evicts(s.mem, m)
      && if KeyMatches(s, l) then Tail(m.pages[l.head.desc]) == 0 else m == s.mem
    }

    static lemma AllocIsLocked(s: State, l: Lock, d: Option<Desc>, m: Mem, choice: Choice, stored: bool, s': State)
      requires MustAlloc(s, l, m)
      requires var site := FallbackState(s, l, m);
               && Shaped(site) && ChoiceOk(site, choice)
               && (s', d) == CacheState.WriteAlloc(site, l.key, choice, stored)
               && (d.Some? ==> AllocStep(site, l.key, choice, stored, s'))
      ensures Locked(s, l, d, m, choice, stored, s')
    {
    }

    /** The lock is on its key's page, which the first store found intact as m1 has it. */
    static ghost predicate PageTaken(s: State, l: Lock, m1: Mem) {
      Lockable(s, l) && Evicts(s.mem, m1) && Upgrades(s, l, m1)
    }

    /** The state once byte 0 is restored and the write lock is set. */
    static ghost function Holding(s: State, l: Lock, m1: Mem): State
      requires PageTaken(s, l, m1)
    {
      s.(wlock := Some(WLock(LockedDesc(l), l.key)), mem := StorePage(m1, l.head.desc, m1.pages[l.head.desc]))
    }

    /** Memory when the first store was made, with the reclaims of other pages until the last one put before it. */
    static ghost function FirstFound(s: State, l: Lock, m1: Mem, m2: Mem): Mem
      requires PageTaken(s, l, m1)
    {
      if LockedDesc(l) == l.head.desc && !SlotBit(s, l.head.desc) then Merge(m1, m2, l.head.desc) else m1
    }

    static ghost predicate TailDone(s: State, l: Lock, m1: Mem, t: byte, m2: Mem, s': State) {
      && PageTaken(s, l, m1) && Shaped(Holding(s, l, m1)) && s' == Holding(s, l, m1).(mem := s'.mem)
      && TailRestored(Holding(s, l, m1), LockedDesc(l), t, m2, s'.mem)
    }

    static lemma HeldInPlace(s: State, l: Lock, m1: Mem, t: byte, m2: Mem, s': State)
      requires TailDone(s, l, m1, t, m2, s') && LockedDesc(l) == l.head.desc
      ensures var m := FirstFound(s, l, m1, m2);
              && Evicts(s.mem, m) && m.pages[l.head.desc] == m1.pages[l.head.desc]
              && s' == Upgrade(s.(mem := m), l.head.desc, l.key)
    {
      var d, pg, m := l.head.desc, m1.pages[l.head.desc], FirstFound(s, l, m1, m2);
      assert Decoded(pg, true) == pg;
      if !SlotBit(s, d) {
        assert m2.pages[d] == pg && t == Tail(pg);
        StoreThenReclaim(s.mem, m1, d, pg, m2);
        StoreTwice(m, d, pg, Decoded(pg, false));
      }
    }

    static lemma HeldElsewhere(s: State, l: Lock, m1: Mem, t: byte, m2: Mem, s': State)
      requires TailDone(s, l, m1, t, m2, s') && LockedDesc(l) != l.head.desc
      ensures UpgradedElsewhere(s.(mem := m1), l.head.desc, LockedDesc(l), l.key, s')
    {
      var before := StorePage(m1, l.head.desc, m1.pages[l.head.desc]);
      assert !SlotBit(s, LockedDesc(l)) ==> TailCleared(before, LockedDesc(l), t, m2, s'.mem);
    }

    static lemma HeldIsLocked(s: State, l: Lock, m1: Mem, t: byte, m2: Mem, s': State)
      requires TailDone(s, l, m1, t, m2, s')
      ensures Locked(s, l, Some(LockedDesc(l)), FirstFound(s, l, m1, m2), Choice(0, map[]), false, s')
      ensures Upgrades(s, l, FirstFound(s, l, m1, m2))
    {
      if LockedDesc(l) == l.head.desc {
        HeldInPlace(s, l, m1, t, m2, s');
      } else {
        HeldElsewhere(s, l, m1, t, m2, s');
      }
    }

    method AllocFor(key: Key, ghost s: State, ghost l: Lock, ghost m: Mem)
      returns (d: Option<Desc>, ghost choice: Choice, ghost stored: bool)
      requires Wired() && Roomy() && wlockChunk < 0 && IndexBelow(Abs(), ProbeTable.Capacity(index.log2Capacity))
      requires MustAlloc(s, l, m) && key == l.key && Abs() == FallbackState(s, l, m)
      modifies Repr()
      ensures Wired() && Roomy() && (index.data == old(index.data) || fresh(index.data))
      ensures Locked(s, l, d, m, choice, stored, Abs())
    {
      d, choice, stored := WriteAlloc(key);
      AllocIsLocked(s, l, d, m, choice, stored, Abs());
    }

    /** Forget the lock's page, and allocate another. */
    method AllocInstead(lock: RLock, ghost s: State, ghost l: Lock, ghost m: Mem)
      returns (d: Option<Desc>, ghost choice: Choice, ghost stored: bool)
      requires Wired() && Roomy() && wlockChunk < 0 && lock !in Repr()
      requires IndexBelow(Abs(), ProbeTable.Capacity(index.log2Capacity))
      requires MustAlloc(s, l, m) && lock.key == l.key && Abs() == FallbackState(s, l, m)
      modifies Repr(), lock
      ensures Wired() && Roomy() && (index.data == old(index.data) || fresh(index.data))
      ensures Locked(s, l, d, m, choice, stored, Abs())
      ensures lock.View() == old(lock.View()).(head := Null)
    {
      lock.Detach();
      SameCache();
      d, choice, stored := AllocFor(lock.key, s, l, m);
    }

    /** The branch of `lazyfree_write_lock` that keeps the page: take the write lock, and decode the last byte. */
    method HoldPage(lock: RLock, ghost s: State, ghost m1: Mem) returns (page: Desc, ghost m: Mem)
      requires Wired() && PageTaken(s, lock.View(), m1)
      requires Abs() == s.(mem := StorePage(m1, lock.head.desc, m1.pages[lock.head.desc]))
      modifies this`wlockChunk, this`wlockIndex, this`wlockKey, mem
      ensures Wired() && Locked(s, lock.View(), Some(page), m, Choice(0, map[]), false, Abs())
      ensures Upgrades(s, lock.View(), m)
    {
      ghost var l := lock.View();
      page := HoldLock(lock, s, m1);
      ghost var m2, t;
      m2, t := RestoreTail(page);
      m := FirstFound(s, l, m1, m2);
      assert TailDone(s, l, m1, t, m2, Abs());
      HeldIsLocked(s, l, m1, t, m2, Abs());
    }

    /** Take the write lock of the slot that the lock names with its 16 bits. */
    method HoldLock(lock: RLock, ghost s: State, ghost m1: Mem) returns (page: Desc)
      requires Wired() && PageTaken(s, lock.View(), m1)
      requires Abs() == s.(mem := StorePage(m1, lock.head.desc, m1.pages[lock.head.desc]))
      modifies this`wlockChunk, this`wlockIndex, this`wlockKey
      ensures Wired() && Abs() == Holding(s, lock.View(), m1)
      ensures page == LockedDesc(lock.View()) && InRange(pagesPerChunk, page)
    {
      LockedInRange(s, lock.View(), m1);
      page := Desc(lock.chunk.value, lock.index);
      SetWLock(page.chunk, page.index, lock.key);
    }

    static lemma LockedInRange(s: State, l: Lock, m1: Mem)
      requires PageTaken(s, l, m1)
      ensures l.chunk.Some? && InRange(s.ppc, LockedDesc(l))
    {
    }

    /**
     `lazyfree_write_lock`; None stands for the exit of `alloc_new_page`. A lock that was on a
     page which the call does not upgrade points to no page afterwards.
     */
    method WriteLock(lock: RLock) returns (d: Option<Desc>, ghost m: Mem, ghost choice: Choice, ghost stored: bool)
      requires Wired() && Roomy() && lock !in Repr() && Lockable(Abs(), lock.View())
      requires IndexBelow(Abs(), ProbeTable.Capacity(index.log2Capacity))
      modifies Repr(), lock
      ensures Wired() && Roomy() && (index.data == old(index.data) || fresh(index.data))
      ensures Locked(old(Abs()), old(lock.View()), d, m, choice, stored, Abs())
      ensures lock.View() == old(lock.View()).(head := lock.head)
      ensures old(lock.head).At? && !Upgrades(old(Abs()), old(lock.View()), m) ==> lock.head == Null
      ensures old(lock.head).At? && Upgrades(old(Abs()), old(lock.View()), m) ==> lock.head == old(lock.head)
      ensures !old(lock.head).At? ==> lock.head == old(lock.head)
    {
      ghost var s, l := Abs(), lock.View();
      m := s.mem;
      if lock.head == Null {
        d, choice, stored := AllocFor(lock.key, s, l, m);
        return;
      }
      if lock.head == EmptyPage {
        d, choice, stored := AllocFor(lock.key, s, l, m);
        return;
      }
      var mine := CheckKey(lock);
      if !mine {
        d, choice, stored := AllocInstead(lock, s, l, m);
        return;
      }
      d, m, choice, stored := UpgradeOrAlloc(lock, lock.head.desc);
    }

    /** The end of `lazyfree_write_lock`, for a page that is still the key's. */
    method UpgradeOrAlloc(lock: RLock, page: Desc)
      returns (d: Option<Desc>, ghost m: Mem, ghost choice: Choice, ghost stored: bool)
      requires Wired() && Roomy() && lock !in Repr() && Lockable(Abs(), lock.View())
      requires IndexBelow(Abs(), ProbeTable.Capacity(index.log2Capacity))
      requires lock.head == At(page) && KeyMatches(Abs(), lock.View())
      modifies Repr(), lock
      ensures Wired() && Roomy() && (index.data == old(index.data) || fresh(index.data))
      ensures Locked(old(Abs()), old(lock.View()), d, m, choice, stored, Abs())
      ensures lock.View() == old(lock.View()).(head := lock.head)
      ensures lock.head == if Upgrades(old(Abs()), old(lock.View()), m) then At(page) else Null
    {
      ghost var s, l := Abs(), lock.View();
      var ok;
      ok, m := TryUpgrade(page);
      if ok {
        var held;
        held, m := HoldPage(lock, s, m);
        d, choice, stored := Some(held), Choice(0, map[]), false;
      } else {
        IndexBelowForAnyMemory(s, Abs().mem, ProbeTable.Capacity(index.log2Capacity));
        d, choice, stored := AllocInstead(lock, s, l, m);
      }
    }

    // ---- Write unlock ----

    /** The end of `bit_from_tail`. */
    method MarkPage(d: Desc) returns (ghost m: Mem, ghost t: byte)
      requires Wired() && InRange(pagesPerChunk, d)
      modifies mem
      ensures Evicts(old(Abs()).mem, m) && d in m.pages && Sees(old(Abs()).mem, d, t)
      ensures Wired() && Abs() == old(Abs()).(mem := StorePage(m, d, WithTail(m.pages[d], Marked(t))))
    {
      m, t := PageAccess.MarkTail(mem, d);
      MemFrame();
    }

    /** Reading the byte twice, with the bit put aside in between. */
    static lemma PublishInSteps(s: State, d: Desc, m1: Mem, t1: byte, m: Mem, t2: byte)
      requires Shaped(s) && InRange(s.ppc, d) && s.wlock.None?
      requires Evicts(s.mem, m1) && t1 == Tail(m1.pages[d]) && Evicts(m1, m) && Sees(m1, d, t2)
      ensures Evicts(s.mem, m) && Sees(s.mem, d, t1) && Sees(s.mem, d, t2)
      ensures var ch := s.chunks[d.chunk];
              Publish(s.(mem := m), d, t1, t2)
              == SetChunk(s.(mem := m1), d.chunk, ch.(bits := ch.bits[d.index := Odd(t1)]))
                 .(mem := StorePage(m, d, WithTail(m.pages[d], Marked(t2))))
    {
    }

    /** `bit_from_tail`. */
    method BitFromTail(d: Desc) returns (ghost m: Mem, ghost t1: byte, ghost t2: byte)
      requires Wired() && InRange(pagesPerChunk, d) && wlockChunk < 0
      modifies mem, chunks[d.chunk].bit0
      ensures Evicts(old(Abs()).mem, m) && Sees(old(Abs()).mem, d, t1) && Sees(old(Abs()).mem, d, t2)
      ensures Wired() && Abs() == Publish(old(Abs()).(mem := m), d, t1, t2)
    {
      var tail := LoadByte(d, PAGE_SIZE - 1);
      t1 := tail;
      ghost var m1 := Abs().mem;
      PutBit(d, Odd(tail));
      m, t2 := MarkPage(d);
      PublishInSteps(old(Abs()), d, m1, t1, m, t2);
    }

    /** `lazyfree_write_unlock`. */
    method WriteUnlock(drop: bool) returns (ghost m: Mem, ghost t1: byte, ghost t2: byte)
      requires Wired() && wlockChunk >= 0 && InRange(pagesPerChunk, Desc(wlockChunk, wlockIndex))
      requires drop ==> |Abs().chunks[wlockChunk].free| < Abs().chunks[wlockChunk].len
      modifies this`wlockChunk, this`wlockIndex, this`wlockKey, this`totalFreePages
      modifies index`size, index`model, index.data, mem, chunkObjects
      ensures Wired() && WriteUnlockStep(old(Abs()), drop, m, t1, t2, Abs())
    {
      var d := Desc(wlockChunk, wlockIndex);
      SetWLock(-1, wlockIndex, wlockKey);
      if drop {
        m, t1, t2 := Abs().mem, 0, 0;
        ChunkCounts(d.chunk);
        var exited := CacheDrop(d);
        return;
      }
      m, t1, t2 := BitFromTail(d);
    }
  }
}
