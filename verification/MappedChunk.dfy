/** `struct chunk`, with its buffers. */
module MappedChunk {
  import opened Words
  import opened ProbeTable
  import CacheState
  import Bitset

  class MappedChunk {
    const kind: CacheState.Kind
    const ppc: nat
    const keys: array<Key>
    const bit0: array<byte>
    const freePages: array<nat>
    var freePagesCount: nat
    var len: nat

    /** Everything a chunk may read or change. */
    ghost function Repr(): set<object> { {this, keys, bit0, freePages} }

    ghost predicate Valid()
      reads this
    {
      && keys.Length == ppc && freePages.Length == ppc && bit0.Length == Bitset.BytesFor(ppc)
      && freePagesCount <= ppc && len <= ppc
      && keys as object != freePages && keys as object != bit0 && freePages as object != bit0
    }

    ghost function View(): CacheState.Chunk
      requires Valid()
      reads this, Repr()
    {
      CacheState.Chunk(kind, keys[..], Bitset.View(bit0[..], ppc), freePages[..freePagesCount], len)
    }

    /** Buffers come from malloc with arbitrary contents. */
    constructor (kind: CacheState.Kind, ppc: nat)
      ensures Valid() && this.kind == kind && this.ppc == ppc && fresh(Repr())
      ensures freePagesCount == 0 && len == 0
    {
      var bits := Bitset.New(ppc);
      this.kind := kind;
      this.ppc := ppc;
      bit0 := bits;
      freePages := new nat[ppc];
      keys := new Key[ppc];
      freePagesCount := 0;
      len := 0;
    }

    /** `chunk->free_pages[chunk->free_pages_count++] = index`. */
    method PushFree(index: nat)
      requires Valid() && freePagesCount < ppc
      modifies this`freePagesCount, freePages
      ensures Valid() && View() == old(View()).(free := old(View()).free + [index])
    {
      freePages[freePagesCount] := index;
      freePagesCount := freePagesCount + 1;
      assert freePages[..freePagesCount] == old(freePages[..freePagesCount]) + [index];
    }

    /** `chunk->free_pages[--chunk->free_pages_count]`. */
    method PopFree() returns (index: nat)
      requires Valid() && freePagesCount > 0
      modifies this`freePagesCount
      ensures Valid() && index == old(View()).free[|old(View()).free| - 1]
      ensures View() == old(View()).(free := old(View()).free[..|old(View()).free| - 1])
    {
      freePagesCount := freePagesCount - 1;
      index := freePages[freePagesCount];
      assert freePages[..freePagesCount + 1][..freePagesCount] == freePages[..freePagesCount];
    }

    /** `chunk->len++`. */
    method Bump() returns (index: nat)
      requires Valid() && len < ppc
      modifies this`len
      ensures Valid() && index == old(len) && View() == old(View()).(len := old(len) + 1)
    {
      index := len;
      len := len + 1;
    }

    method SetKey(index: nat, key: Key)
      requires Valid() && index < ppc
      modifies keys
      ensures Valid() && View() == old(View()).(keys := old(View()).keys[index := key])
    {
      keys[index] := key;
      assert keys[..] == old(keys[..])[index := key];
    }

    /** memset of the keys in use, and empty counters. */
    method Reset()
      requires Valid()
      modifies this`freePagesCount, this`len, keys
      ensures Valid()
      ensures View() == old(View()).(keys := CacheState.Zeroed(old(View()).keys, old(len)), free := [], len := 0)
    {
      var i := 0;
      while i < len
        invariant 0 <= i <= len && len == old(len) && freePagesCount == old(freePagesCount)
        invariant keys[..] == CacheState.Zeroed(old(keys[..]), i)
      {
        keys[i] := 0;
        i := i + 1;
      }
      len := 0;
      freePagesCount := 0;
    }

    method GetBit(index: nat) returns (bit: bool)
      requires Valid() && index < ppc
      ensures bit == View().bits[index]
    {
      bit := Bitset.Get(bit0, index, ppc);
    }

    method PutBit(index: nat, bit: bool)
      requires Valid() && index < ppc
      modifies bit0
      ensures Valid() && View() == old(View()).(bits := old(View()).bits[index := bit])
    {
      Bitset.Put(bit0, index, bit, ppc);
    }
  }
}
