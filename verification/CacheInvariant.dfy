/** What every step of the lock protocol keeps. */
module CacheInvariant {
  import opened Words
  import opened ProbeTable
  import opened CacheState
  import opened CacheSteps

  // ---- One chunk: the free stack is exactly the unowned slots below the bump pointer ----

  ghost predicate Distinct(s: seq<nat>) {
    forall i, j :: 0 <= i < j < |s| ==> s[i] != s[j]
  }

  ghost predicate ChunkOk(ppc: nat, ch: Chunk) {
    && ChunkShaped(ppc, ch)
    && Distinct(ch.free)
    && (forall j :: 0 <= j < |ch.free| ==> ch.free[j] < ch.len && ch.keys[ch.free[j]] == 0)
    && (forall i :: 0 <= i < ch.len && ch.keys[i] == 0 ==> i in ch.free)
  }

  /** Pages a chunk can still hand out. */
  function Space(ppc: nat, ch: Chunk): int { ppc - ch.len + |ch.free| }

  /** The free stack never outgrows the slots below the bump pointer. */
  lemma FreeFits(ppc: nat, ch: Chunk)
    requires ChunkOk(ppc, ch)
    ensures |ch.free| <= ch.len && Space(ppc, ch) >= 0
  {
    Pigeonhole(ch.free, 0, ch.len);
  }

  /** Releasing an owned slot leaves room on the stack: the `free_pages_count > len` exit cannot be taken. */
  lemma PushKeepsChunk(ppc: nat, ch: Chunk, i: nat)
    requires ChunkOk(ppc, ch) && i < ch.len && ch.keys[i] != 0
    ensures |ch.free| + 1 <= ch.len
    ensures ChunkOk(ppc, ch.(free := ch.free + [i], keys := ch.keys[i := 0]))
  {
    var ch' := ch.(free := ch.free + [i], keys := ch.keys[i := 0]);
    forall x | 0 <= x < ch.len && ch'.keys[x] == 0 ensures x in ch'.free {
      assert x != i ==> x in ch.free;
      assert ch'.free[|ch.free|] == i;
    }
    Pigeonhole(ch'.free, 0, ch.len);
  }

  lemma PopKeepsChunk(ppc: nat, ch: Chunk, key: Key)
    requires ChunkOk(ppc, ch) && |ch.free| > 0 && key != 0
    ensures ch.free[|ch.free| - 1] < ch.len && ch.keys[ch.free[|ch.free| - 1]] == 0
    ensures ChunkOk(ppc, ch.(free := ch.free[..|ch.free| - 1], keys := ch.keys[ch.free[|ch.free| - 1] := key]))
  {
    var last := |ch.free| - 1;
    var ch' := ch.(free := ch.free[..last], keys := ch.keys[ch.free[last] := key]);
    forall x | 0 <= x < ch.len && ch'.keys[x] == 0 ensures x in ch'.free {
      assert x in ch.free;
      var j :| 0 <= j < |ch.free| && ch.free[j] == x;
      assert ch'.free[j] == x;
    }
  }

  lemma BumpKeepsChunk(ppc: nat, ch: Chunk, key: Key)
    requires ChunkOk(ppc, ch) && ch.len < ppc && key != 0
    ensures ChunkOk(ppc, ch.(len := ch.len + 1, keys := ch.keys[ch.len := key]))
  {
    var ch' := ch.(len := ch.len + 1, keys := ch.keys[ch.len := key]);
    forall x | 0 <= x < ch'.len && ch'.keys[x] == 0 ensures x in ch'.free {
      assert x in ch.free;
    }
  }

  // ---- The whole cache ----

  function SumSpace(ppc: nat, chunks: seq<Chunk>): int {
    if |chunks| == 0 then 0 else Space(ppc, chunks[0]) + SumSpace(ppc, chunks[1..])
  }

  lemma {:induction false} SumUpdate(ppc: nat, chunks: seq<Chunk>, c: nat, ch: Chunk)
    requires c < |chunks|
    ensures SumSpace(ppc, chunks[c := ch]) == SumSpace(ppc, chunks) - Space(ppc, chunks[c]) + Space(ppc, ch)
  {
    if c == 0 {
      assert chunks[0 := ch][1..] == chunks[1..];
    } else {
      assert chunks[c := ch][1..] == chunks[1..][c - 1 := ch];
      SumUpdate(ppc, chunks[1..], c - 1, ch);
    }
  }

  lemma {:induction false} SumBounds(ppc: nat, chunks: seq<Chunk>)
    requires forall c :: 0 <= c < |chunks| ==> Space(ppc, chunks[c]) >= 0
    ensures SumSpace(ppc, chunks) >= 0
    ensures forall c :: 0 <= c < |chunks| ==> SumSpace(ppc, chunks) >= Space(ppc, chunks[c])
    ensures (forall c :: 0 <= c < |chunks| ==> Space(ppc, chunks[c]) == 0) ==> SumSpace(ppc, chunks) == 0
  {
    if |chunks| > 0 {
      assert forall c :: 0 <= c < |chunks[1..]| ==> chunks[1..][c] == chunks[c + 1];
      SumBounds(ppc, chunks[1..]);
      forall c | 0 <= c < |chunks| ensures SumSpace(ppc, chunks) >= Space(ppc, chunks[c]) {
        assert c > 0 ==> chunks[1..][c - 1] == chunks[c];
      }
    }
  }

  ghost predicate ChunksOk(s: State) {
    |s.chunks| == NUMBER_OF_CHUNKS && forall c :: 0 <= c < NUMBER_OF_CHUNKS ==> ChunkOk(s.ppc, s.chunks[c])
  }

  /** The index leads to a slot in use that its key owns. The converse fails: see AgreementKeptIff. */
  ghost predicate IndexOk(s: State)
    requires Shaped(s)
  {
    forall k :: k in s.index ==> k != 0 && Live(s, s.index[k]) && SlotKey(s, s.index[k]) == k
  }

  ghost predicate Held(s: State, d: Desc) { s.wlock.Some? && s.wlock.value.desc == d }

  ghost predicate LockHeld(s: State)
    requires Shaped(s)
  {
    s.wlock.Some? ==> Live(s, s.wlock.value.desc) && SlotKey(s, s.wlock.value.desc) == s.wlock.value.key
  }

  /** A published page is intact, with an odd last byte, or was evicted as a whole, which only lazyfree pages are. */
  ghost predicate PageOk(kind: Kind, p: Page) { Odd(Tail(p)) || (p == ZERO_PAGE && kind == LazyFree) }

  ghost predicate PagesOk(s: State)
    requires Shaped(s)
  {
    forall d :: Live(s, d) && !Held(s, d) ==> PageOk(s.chunks[d.chunk].kind, SlotPage(s, d))
  }

  ghost predicate EvictableOk(s: State)
    requires Shaped(s)
  {
    forall d :: d in s.mem.evictable ==> InRange(s.ppc, d) && s.chunks[d.chunk].kind == LazyFree
  }

  ghost predicate Inv(s: State) {
    && Shaped(s)
    && ChunksOk(s)
    && IndexOk(s)
    && s.totalFree == SumSpace(s.ppc, s.chunks)
    && LockHeld(s)
    && PagesOk(s)
    && EvictableOk(s)
  }

  /** No slot gained or changed the data of a key other than k; such data can only be lost. */
  ghost predicate OthersKept(s: State, s': State, k: Key)
    requires Shaped(s) && Shaped(s')
  {
    && s'.ppc == s.ppc && s'.hasher == s.hasher
    && (forall d :: Live(s', d) && SlotKey(s', d) != k ==>
          && Live(s, d) && SlotKey(s, d) == SlotKey(s', d) && SlotBit(s, d) == SlotBit(s', d)
          && (SlotPage(s', d) == SlotPage(s, d) || SlotPage(s', d) == ZERO_PAGE))
    && (forall q :: q in s'.index && q != k ==> q in s.index && s'.index[q] == s.index[q])
  }

  /** A page once allocated stays a page that may be named in a lock. */
  ghost predicate SeenKept(s: State, s': State)
    requires Shaped(s) && Shaped(s')
  {
    s'.ppc == s.ppc && forall d :: InRange(s.ppc, d) && Seen(s, d) ==> Seen(s', d)
  }

  lemma OthersKeptTransitive(s: State, t: State, u: State, k: Key)
    requires Shaped(s) && Shaped(t) && Shaped(u)
    requires OthersKept(s, t, k) && OthersKept(t, u, k)
    ensures OthersKept(s, u, k)
  {
  }
}
