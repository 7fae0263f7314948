/** The state of the page cache (src/cache/lazyfree_cache.c) as a value, and its metadata operations. */
module CacheState {
  import opened Words
  import opened Options
  import opened ProbeTable

  const PAGE_SIZE := 4096
  const NUMBER_OF_CHUNKS := 32

  // ---- Pages and the kernel ----

  type Page = p: seq<byte> | |p| == PAGE_SIZE witness Zeros()

  /** What an evicted page reads as. */
  function Zeros(): (p: seq<byte>)
    ensures |p| == PAGE_SIZE && forall i :: 0 <= i < PAGE_SIZE ==> p[i] == 0
  {
    seq(PAGE_SIZE, _ => 0)
  }

  const ZERO_PAGE: Page := Zeros()

  function Tail(p: Page): byte { p[PAGE_SIZE - 1] }

  function WithTail(p: Page, t: byte): Page { p[PAGE_SIZE - 1 := t] }

  /** `struct entry_descriptor`: a chunk and a page of it. */
  datatype Desc = Desc(chunk: nat, index: nat)

  /** The first slot of the cache. */
  const FIRST := Desc(0, 0)

  /** Page contents, and the pages under MADV_FREE that the kernel may still reclaim. */
  datatype Mem = Mem(pages: map<Desc, Page>, evictable: set<Desc>)

  /** Any number of kernel reclaims: each replaces an evictable page by zeros. */
  ghost predicate Evicts(m: Mem, m': Mem) {
    && m'.evictable == m.evictable
    && m'.pages.Keys == m.pages.Keys
    && forall d :: d in m.pages ==>
         m'.pages[d] == m.pages[d] || (d in m.evictable && m'.pages[d] == ZERO_PAGE)
  }

  /** A store to page d: the page becomes pg, and a written page is no longer reclaimable. */
  function StorePage(m: Mem, d: Desc, pg: Page): Mem {
    Mem(m.pages[d := pg], m.evictable - {d})
  }

  // ---- Cache state ----

  /** How a chunk is mapped and what happens when the current chunk moves past it. */
  datatype Kind = LazyFree | Anon | Disk

  /** `struct chunk` without its pages: reverse table, stolen bits, free-page stack, bump pointer. */
  datatype Chunk = Chunk(kind: Kind, keys: seq<Key>, bits: seq<bool>, free: seq<nat>, len: nat)

  datatype WLock = WLock(desc: Desc, key: Key)

  /** The hash function of the index never changes. */
  datatype State = State(
    ppc: nat,
    hasher: Hasher,
    chunks: seq<Chunk>,
    current: nat,
    index: map<Key, Desc>,
    key0: Option<Desc>,
    totalFree: int,
    wlock: Option<WLock>,
    mem: Mem)

  predicate InRange(ppc: nat, d: Desc) { d.chunk < NUMBER_OF_CHUNKS && d.index < ppc }

  ghost predicate ChunkShaped(ppc: nat, ch: Chunk) {
    && |ch.keys| == ppc && |ch.bits| == ppc && ch.len <= ppc
    && forall i :: 0 <= i < |ch.free| ==> ch.free[i] < ppc
  }

  ghost predicate Shaped(s: State) {
    && |s.chunks| == NUMBER_OF_CHUNKS && s.current < NUMBER_OF_CHUNKS
    && (forall c :: 0 <= c < NUMBER_OF_CHUNKS ==> ChunkShaped(s.ppc, s.chunks[c]))
    && (forall d :: d in s.mem.pages <==> InRange(s.ppc, d))
    && (s.key0.Some? ==> InRange(s.ppc, s.key0.value))
    && (forall k :: k in s.index ==> InRange(s.ppc, s.index[k]))
  }

  function SlotKey(s: State, d: Desc): Key
    requires Shaped(s) && InRange(s.ppc, d)
  {
    s.chunks[d.chunk].keys[d.index]
  }

  function SlotBit(s: State, d: Desc): bool
    requires Shaped(s) && InRange(s.ppc, d)
  {
    s.chunks[d.chunk].bits[d.index]
  }

  function SlotPage(s: State, d: Desc): Page
    requires Shaped(s) && InRange(s.ppc, d)
  {
    s.mem.pages[d]
  }

  /** A slot in use: below the bump pointer and owned by a key. */
  ghost predicate Live(s: State, d: Desc)
    requires Shaped(s)
  {
    InRange(s.ppc, d) && d.index < s.chunks[d.chunk].len && SlotKey(s, d) != 0
  }

  /** The kernel reclaimed page d. */
  function AfterEviction(s: State, d: Desc): State
    requires d in s.mem.pages
  {
    s.(mem := Mem(s.mem.pages[d := ZERO_PAGE], s.mem.evictable))
  }

  // ---- Index helpers: hmap_get, hmap_put, hmap_remove ----

  function HmapGet(s: State, key: Key): Option<Desc> {
    if key == 0 then s.key0 else if key in s.index then Some(s.index[key]) else None
  }

  /** The result of hashmap_put is ignored: `stored` says whether it succeeded. */
  function HmapPut(s: State, key: Key, d: Desc, stored: bool): State {
    if key == 0 then s.(key0 := Some(d)) else if stored then s.(index := s.index[key := d]) else s
  }

  // ---- The stolen bit ----

  /** `bit_to_tail`: the byte the user stored, given the bit kept aside. */
  function BitToTail(bit: bool, tail: byte): byte { if bit then tail else tail & !1 }

  predicate Odd(t: byte) { t & 1 != 0 }

  /** `bit_from_tail` keeps Odd(t) aside and leaves this byte in the page. */
  function Marked(t: byte): byte { t | 1 }

  /** The page as its writer left it. */
  function Decoded(p: Page, bit: bool): Page { WithTail(p, BitToTail(bit, Tail(p))) }

  /** Publishing a byte and decoding it again gives the byte back; a published byte is never 0. */
  lemma StolenBitRoundTrip(t: byte)
    ensures BitToTail(Odd(t), Marked(t)) == t
    ensures Odd(Marked(t)) && Marked(t) != 0
  {
  }

  // ---- Allocation and release ----

  function SetChunk(s: State, c: nat, ch: Chunk): State
    requires c < |s.chunks|
  {
    s.(chunks := s.chunks[c := ch])
  }

  /** `cache_drop`. */
  function CacheDrop(s: State, d: Desc): (r: State)
    requires Shaped(s) && InRange(s.ppc, d)
    ensures Shaped(r) && r.ppc == s.ppc
  {
    var ch := s.chunks[d.chunk];
    SetChunk(s, d.chunk, ch.(free := ch.free + [d.index], keys := ch.keys[d.index := 0]))
      .(totalFree := s.totalFree + 1, index := s.index - {ch.keys[d.index]})
  }

  /** `alloc_current_chunk`. */
  function AllocCurrent(s: State): (r: (State, Option<Desc>))
    requires Shaped(s)
    ensures Shaped(r.0) && r.0.ppc == s.ppc && (r.1.Some? ==> InRange(s.ppc, r.1.value))
  {
    var ch := s.chunks[s.current];
    if |ch.free| > 0 then
      var last := |ch.free| - 1;
      (SetChunk(s, s.current, ch.(free := ch.free[..last])).(totalFree := s.totalFree - 1),
       Some(Desc(s.current, ch.free[last])))
    else if ch.len < s.ppc then
      (SetChunk(s, s.current, ch.(len := ch.len + 1)).(totalFree := s.totalFree - 1),
       Some(Desc(s.current, ch.len)))
    else
      (s, None)
  }

  function PagesOf(c: nat, ppc: nat): (ds: set<Desc>)
    ensures forall d: Desc :: d in ds <==> d.chunk == c && d.index < ppc
  {
    set i | 0 <= i < ppc :: Desc(c, i)
  }

  /** `advance_chunk`: a lazyfree chunk is handed to the kernel, page by page reclaimable. */
  function Advance(s: State): (r: State)
    requires Shaped(s)
    ensures Shaped(r) && r.ppc == s.ppc
  {
    var evictable := if s.chunks[s.current].kind == LazyFree
                     then s.mem.evictable + PagesOf(s.current, s.ppc) else s.mem.evictable;
    s.(mem := s.mem.(evictable := evictable), current := (s.current + 1) % NUMBER_OF_CHUNKS)
  }

  /** What the environment decides when a chunk is dropped: the victim, and what a file-backed page reads as. */
  datatype Choice = Choice(victim: nat, filePages: map<Desc, Page>)

  /** Chunk c would be the victim, and read as zeros. */
  function DropOf(c: nat, ppc: nat): Choice { Choice(c, map d | d in PagesOf(c, ppc) :: ZERO_PAGE) }

  ghost predicate ChoiceOk(s: State, ch: Choice) {
    ch.victim < NUMBER_OF_CHUNKS && PagesOf(ch.victim, s.ppc) <= ch.filePages.Keys
  }

  /** MADV_DONTNEED on a chunk: zeros for anonymous memory, unspecified contents for a file. */
  function DontNeed(m: Mem, kind: Kind, gone: set<Desc>, filePages: map<Desc, Page>): Mem
    requires gone <= filePages.Keys
  {
    Mem(map d | d in m.pages :: PageAfter(m, kind, gone, filePages, d), m.evictable - gone)
  }

  function PageAfter(m: Mem, kind: Kind, gone: set<Desc>, filePages: map<Desc, Page>, d: Desc): Page
    requires d in m.pages && gone <= filePages.Keys
  {
    if d !in gone then m.pages[d] else if kind == Disk then filePages[d] else ZERO_PAGE
  }

  /** `drop_next_chunk`. */
  function DropChunk(s: State, choice: Choice): (r: State)
    requires Shaped(s) && ChoiceOk(s, choice)
    ensures Shaped(r) && r.ppc == s.ppc
  {
    var c := choice.victim;
    var ch := s.chunks[c];
    SetChunk(s, c, ch.(keys := Zeroed(ch.keys, ch.len), free := [], len := 0))
      .(current := c,
        totalFree := s.totalFree + (ch.len - |ch.free|),
        index := s.index - KeysBelow(ch.keys, ch.len),
        mem := DontNeed(s.mem, ch.kind, PagesOf(c, s.ppc), choice.filePages))
  }

  function KeysBelow(keys: seq<Key>, n: nat): set<Key>
    requires n <= |keys|
  {
    set i | 0 <= i < n :: keys[i]
  }

  lemma KeysBelowNext(keys: seq<Key>, n: nat)
    requires n < |keys|
    ensures KeysBelow(keys, n + 1) == KeysBelow(keys, n) + {keys[n]}
  {
  }

  /** memset of the first n keys. */
  function Zeroed(keys: seq<Key>, n: nat): (z: seq<Key>)
    requires n <= |keys|
    ensures |z| == |keys|
    ensures forall i :: 0 <= i < |keys| ==> z[i] == if i < n then 0 else keys[i]
  {
    seq(n, _ => 0) + keys[n..]
  }

  /** The loop of `alloc_new_page`, with `left` of the NUMBER_OF_CHUNKS visits still to make. */
  function Walk(s: State, left: nat): (r: (State, Option<Desc>))
    requires Shaped(s) && left > 0
    ensures Shaped(r.0) && r.0.ppc == s.ppc && (r.1.Some? ==> InRange(s.ppc, r.1.value))
    decreases left
  {
    var r := AllocCurrent(s);
    if r.1.Some? then r
    else if left == 1 then (Advance(s), None)
    else Walk(Advance(s), left - 1)
  }

  /** `alloc_new_page`; None is its "Failed to find free page" exit. */
  function AllocNewPage(s: State, choice: Choice): (r: (State, Option<Desc>))
    requires Shaped(s) && ChoiceOk(s, choice)
    ensures Shaped(r.0) && r.0.ppc == s.ppc && (r.1.Some? ==> InRange(s.ppc, r.1.value))
  {
    Walk(MakeRoom(s, choice), |s.chunks|)
  }

  /** The chunk drop that `alloc_new_page` may begin with. */
  function MakeRoom(s: State, choice: Choice): (r: State)
    requires Shaped(s) && ChoiceOk(s, choice)
    ensures Shaped(r) && r.ppc == s.ppc
  {
    if s.totalFree == 0 then DropChunk(s, choice) else s
  }

  /** `lazyfree_write_alloc`. */
  function WriteAlloc(s: State, key: Key, choice: Choice, stored: bool): (State, Option<Desc>)
    requires Shaped(s) && ChoiceOk(s, choice)
  {
    var r := AllocNewPage(s, choice);
    if r.1.None? then r else (Claim(r.0, r.1.value, key, stored), r.1)
  }

  /** The end of `lazyfree_write_alloc`: take the write lock, index the key, set the reverse entry. */
  function Claim(s: State, d: Desc, key: Key, stored: bool): (r: State)
    requires Shaped(s) && InRange(s.ppc, d)
    ensures Shaped(r) && r.ppc == s.ppc
  {
    var ch := s.chunks[d.chunk];
    SetChunk(HmapPut(s, key, d, stored), d.chunk, ch.(keys := ch.keys[d.index := key]))
      .(wlock := Some(WLock(d, key)))
  }
}
