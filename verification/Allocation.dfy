/** Where an allocation takes its page, and what it gives to the kernel on the way there. */
module Allocation {
  import opened Options
  import opened ProbeTable
  import opened CacheState
  import opened CacheInvariant
  import opened CacheSafety
  import opened Publication
  import opened FallthroughSteps

  // ---- With a page free: the nearest chunk ahead that has one ----

  /** How many steps chunk c lies ahead of another, in circular order. */
  function Steps(from: nat, c: nat): nat { (c - from) % NUMBER_OF_CHUNKS }

  /** How many steps chunk c lies ahead of the current one. */
  function Ahead(s: State, c: nat): nat { Steps(s.current, c) }

  function Next(c: nat): nat { (c + 1) % NUMBER_OF_CHUNKS }

  lemma OneStepLess(from: nat, c: nat)
    requires from < NUMBER_OF_CHUNKS && c < NUMBER_OF_CHUNKS
    ensures c != from ==> Steps(from, c) == Steps(Next(from), c) + 1
    ensures Steps(from, from) == 0 && Steps(Next(from), from) == NUMBER_OF_CHUNKS - 1
  {
  }

  /** On the way from a chunk to a later one lie the chunk itself, and what lies on the way from the next. */
  lemma WayFrom(from: nat, end: nat, c: nat)
    requires from < NUMBER_OF_CHUNKS && end < NUMBER_OF_CHUNKS && c < NUMBER_OF_CHUNKS
    requires Steps(Next(from), end) < NUMBER_OF_CHUNKS - 1
    ensures Steps(from, end) == Steps(Next(from), end) + 1
    ensures Steps(from, c) < Steps(from, end) <==> c == from || Steps(Next(from), c) < Steps(Next(from), end)
  {
    OneStepLess(from, c);
    OneStepLess(from, end);
  }

  /** What the loop passes from chunk `from` on, until it stops at chunk `end`. */
  ghost predicate Passes(passed: set<nat>, from: nat, end: nat) {
    forall c :: 0 <= c < NUMBER_OF_CHUNKS ==> (c in passed <==> Steps(from, c) < Steps(from, end))
  }

  lemma PassesOneMore(passed: set<nat>, from: nat, end: nat)
    requires from < NUMBER_OF_CHUNKS && end < NUMBER_OF_CHUNKS && Steps(Next(from), end) < NUMBER_OF_CHUNKS - 1
    requires Passes(passed, Next(from), end)
    ensures Steps(from, end) == Steps(Next(from), end) + 1 && Passes({from} + passed, from, end)
  {
    WayFrom(from, end, from);
    forall c | 0 <= c < NUMBER_OF_CHUNKS ensures c in {from} + passed <==> Steps(from, c) < Steps(from, end) {
      WayFrom(from, end, c);
    }
  }

  lemma AdvanceIsNext(s: State)
    requires Shaped(s)
    ensures Advance(s).current == Next(s.current)
  {
  }

  lemma {:induction false} WalkPasses(s: State, left: nat)
    requires Shaped(s) && 0 < left <= NUMBER_OF_CHUNKS && Walk(s, left).1.Some?
    ensures var end := WalkEnd(s, left).current;
            end < NUMBER_OF_CHUNKS && Ahead(s, end) < left && Passes(PassedBy(s, left), s.current, end)
    decreases left
  {
    if AllocCurrent(s).1.None? {
      WalkPasses(Advance(s), left - 1);
      AdvanceIsNext(s);
      var passed, from, end := PassedBy(Advance(s), left - 1), s.current, WalkEnd(s, left).current;
      assert from < NUMBER_OF_CHUNKS && WalkEnd(s, left) == WalkEnd(Advance(s), left - 1);
      assert Passes(passed, Next(from), end) && Steps(Next(from), end) < left - 1;
      PassesOneMore(passed, from, end);
      assert PassedBy(s, left) == {from} + passed;
    } else {
      OneStepLess(s.current, s.current);
    }
  }

  /** Chunk c is the nearest one ahead that has a page to give; on the way there lie full chunks only. */
  ghost predicate Nearest(s: State, c: nat)
    requires Shaped(s)
  {
    && c < NUMBER_OF_CHUNKS && !Full(s, c)
    && forall b :: 0 <= b < NUMBER_OF_CHUNKS && Ahead(s, b) < Ahead(s, c) ==> Full(s, b)
  }

  /** The kernel may reclaim what it could before, and the pages of lazyfree chunks on the way to chunk c. */
  ghost predicate GivesUpTo(s: State, c: nat, m: Mem)
    requires Shaped(s)
  {
    && m.pages == s.mem.pages
    && forall x :: x in m.evictable <==>
         x in s.mem.evictable
         || (InRange(s.ppc, x) && s.chunks[x.chunk].kind == LazyFree && Ahead(s, x.chunk) < Ahead(s, c))
  }

  lemma SomeIsNotFull(s: State)
    requires Inv(s) && AllocCurrent(s).1.Some?
    ensures !Full(s, s.current)
  {
    FreeFits(s.ppc, s.chunks[s.current]);
  }

  lemma WalkIsNearest(s: State)
    requires Idle(s) && s.totalFree > 0
    ensures var t := WalkEnd(s, |s.chunks|); Nearest(s, t.current) && GivesUpTo(s, t.current, t.mem)
  {
    var t := WalkEnd(s, |s.chunks|);
    WalkFinds(s);
    WalkPasses(s, |s.chunks|);
    WalkMemory(s, |s.chunks|);
    WalkStopsAtEnd(s, |s.chunks|);
    WalkKeeps(s, |s.chunks|, 0);
    SomeIsNotFull(t);
    forall b | 0 <= b < NUMBER_OF_CHUNKS && Ahead(s, b) < Ahead(s, t.current) ensures Full(s, b) {
      PassedChunksAreFull(s, |s.chunks|, b);
    }
  }

  // ---- With no page free: the first page of the victim ----

  /**
   An allocation takes its page from the nearest chunk ahead that has one, if any page is
   free, and gives the lazyfree chunks that it passes to the kernel; else it takes the first
   page of the victim, and gives nothing.
   */
  lemma AllocationPlace(s: State, key: Key, choice: Choice, stored: bool)
    requires Idle(s) && key != 0 && ChoiceOk(s, choice) && WriteAlloc(s, key, choice, stored).1.Some?
    ensures var (t, d) := WriteAlloc(s, key, choice, stored);
            && t.current == d.value.chunk
            && (s.totalFree > 0 ==> Nearest(s, t.current) && GivesUpTo(s, t.current, t.mem))
            && (s.totalFree == 0 ==> d == Some(Desc(choice.victim, 0)))
            && (s.totalFree == 0 ==> t.mem.evictable == s.mem.evictable - PagesOf(choice.victim, s.ppc))
  {
    SpaceBounds(s);
    AllocationFailsIffNoPages(s, choice);
    WriteAllocTakes(s, key, choice, stored);
    TakenFrame(AllocSite(s, choice), key, stored);
    if s.totalFree > 0 {
      WalkIsNearest(s);
    } else {
      VictimIsEmpty(s, choice);
    }
  }

  // ---- The last page released is the first one reused ----

  /** A release in the current chunk, and then an allocation: the same slot, and the free stack as before. */
  lemma ReleasedIsReused(s: State, d: Desc)
    requires Shaped(s) && InRange(s.ppc, d) && d.chunk == s.current
    ensures var t := CacheDrop(s, d);
            && AllocCurrent(t).1 == Some(d) && AllocCurrent(t).0.totalFree == s.totalFree
            && AllocCurrent(t).0.chunks[d.chunk].free == s.chunks[d.chunk].free
            && AllocCurrent(t).0.chunks[d.chunk].len == s.chunks[d.chunk].len
  {
  }
}
