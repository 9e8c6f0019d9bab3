/** The bit masks of a slab: 32-bit words, one bit for each object, and a count of the bits set.
    A word is written out as its 32 bits. */
module CacheMask {

  const BITS_PER_ULONG := 32

  class Mask {
    const size: nat
    const words: array2<bool>
    var count: nat
    ghost var bits: set<nat>

    ghost predicate Valid()
      reads this, words
    {
      && size <= BITS_PER_ULONG * words.Length0 && words.Length1 == BITS_PER_ULONG
      && (forall b :: b in bits ==> b < size)
      && (forall b :: 0 <= b < size ==> (b in bits <==> words[b / BITS_PER_ULONG, b % BITS_PER_ULONG]))
      && count == |bits|
    }

    constructor (size: nat)
      ensures Valid() && bits == {} && this.size == size && fresh(words)
    {
      this.size := size;
      words := new bool[(size + BITS_PER_ULONG - 1) / BITS_PER_ULONG, BITS_PER_ULONG]((i, j) => false);
      count, bits := 0, {};
    }

    /** A bit's word and its place there determine the bit. */
    lemma SameBit(a: nat, b: nat)
      ensures a / BITS_PER_ULONG == b / BITS_PER_ULONG && a % BITS_PER_ULONG == b % BITS_PER_ULONG <==> a == b
    {
    }

    method CacheMaskSet(bit: nat)
      requires Valid() && bit < size && bit !in bits
      modifies this, words
      ensures Valid() && bits == old(bits) + {bit} && count == old(count) + 1
    {
      forall b | 0 <= b < size
        ensures bit / BITS_PER_ULONG == b / BITS_PER_ULONG && bit % BITS_PER_ULONG == b % BITS_PER_ULONG <==> bit == b
      {
        SameBit(bit, b);
      }
      words[bit / BITS_PER_ULONG, bit % BITS_PER_ULONG] := true;
      count := count + 1;
      bits := bits + {bit};
    }

    method CacheMaskTest(bit: nat) returns (r: bool)
      requires Valid() && bit < size
      ensures r <==> bit in bits
    {
      r := words[bit / BITS_PER_ULONG, bit % BITS_PER_ULONG];
    }

    method CacheMaskClear(bit: nat)
      requires Valid() && bit < size && bit in bits
      modifies this, words
      ensures Valid() && bits == old(bits) - {bit} && count == old(count) - 1
    {
      forall b | 0 <= b < size
        ensures bit / BITS_PER_ULONG == b / BITS_PER_ULONG && bit % BITS_PER_ULONG == b % BITS_PER_ULONG <==> bit == b
      {
        SameBit(bit, b);
      }
      words[bit / BITS_PER_ULONG, bit % BITS_PER_ULONG] := false;
      count := count - 1;
      bits := bits - {bit};
    }
  }
}
