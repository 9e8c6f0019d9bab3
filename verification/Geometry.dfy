/** Rounding to a power of two, and where the objects of a slab lie. */
module Geometry {

  // ---- P2ROUNDUP on 32-bit unsigned integers ----

  function P2RoundUp(x: bv32, a: bv32): bv32 {
    0 - ((0 - x) & (0 - a))
  }

  predicate PowerOfTwo(a: bv32) {
    a != 0 && a & (a - 1) == 0
  }

  /** m is a multiple of the power of two a. */
  predicate Multiple(m: bv32, a: bv32) {
    m & (a - 1) == 0
  }

  /** The result is a multiple, less than a above x, unless it would be 2^32; then it is 0. */
  lemma P2RoundUpMultiple(x: bv32, a: bv32)
    requires PowerOfTwo(a)
    ensures Multiple(P2RoundUp(x, a), a)
    ensures x <= P2RoundUp(x, a) <==> x <= 0 - a || x == 0
    ensures x <= P2RoundUp(x, a) ==> P2RoundUp(x, a) - x < a
  {
  }

  /** Whenever a 32-bit multiple at or above x exists, the result is the least one. */
  lemma P2RoundUpLeast(x: bv32, a: bv32, m: bv32)
    requires PowerOfTwo(a) && Multiple(m, a) && x <= m
    ensures x <= P2RoundUp(x, a) <= m
  {
  }

  // ---- Slabs ----

  const PAGE_SIZE: nat := 4096

  /** The least multiple of the page size at or above n. */
  function PageRoundUp(n: nat): nat {
    (n + PAGE_SIZE - 1) / PAGE_SIZE * PAGE_SIZE
  }

  function PageAlign(address: nat): nat {
    address / PAGE_SIZE * PAGE_SIZE
  }

  /** A slab header of `header` bytes is followed by as many objects of `size` bytes as fit in
      whole pages with at least one object. */
  function SlabBytes(header: nat, size: nat): nat {
    PageRoundUp(header + size)
  }

  function SlabCount(header: nat, size: nat): nat
    requires size > 0
  {
    Fits(header, size);
    (SlabBytes(header, size) - header) / size
  }

  function ObjectAddress(slab: nat, header: nat, size: nat, i: nat): nat {
    slab + header + i * size
  }

  function ObjectIndex(slab: nat, header: nat, size: nat, address: nat): nat
    requires size > 0 && slab + header <= address
  {
    (address - (slab + header)) / size
  }

  lemma Fits(header: nat, size: nat)
    ensures header + size <= SlabBytes(header, size) < header + size + PAGE_SIZE
  {
  }

  lemma DivideBounds(n: nat, d: nat)
    requires d > 0
    ensures n / d * d <= n < n / d * d + d
  {
    assert n == n / d * d + n % d;
  }

  lemma DivideExact(i: nat, d: nat)
    requires d > 0
    ensures i * d / d == i
  {
    DivideBounds(i * d, d);
    var q := i * d / d;
    if q < i {
      OneMore(q, i, d);
    } else if i < q {
      OneMore(i, q, d);
    }
  }

  lemma AtLeast(n: nat, k: nat, d: nat)
    requires d > 0 && k * d <= n
    ensures k <= n / d
  {
    DivideBounds(n, d);
    if n / d < k {
      OneMore(n / d, k, d);
    }
  }

  lemma AtMost(n: nat, k: nat, d: nat)
    requires d > 0 && n < (k + 1) * d
    ensures n / d <= k
  {
    DivideBounds(n, d);
  }

  lemma OneMore(i: nat, j: nat, d: nat)
    requires i < j
    ensures i * d + d <= j * d
  {
    assert (j - i - 1) * d >= 0;
  }

  /** A new slab holds at least one object; every object lies inside the slab, clear of the
      header and of the other objects; and dividing an object's offset gives back its index. */
  lemma ObjectsInSlab(slab: nat, header: nat, size: nat, i: nat, j: nat)
    requires size > 0
    requires i < j < SlabCount(header, size) || i == j < SlabCount(header, size)
    ensures slab + header <= ObjectAddress(slab, header, size, i)
    ensures ObjectAddress(slab, header, size, j) + size <= slab + SlabBytes(header, size)
    ensures i < j ==> ObjectAddress(slab, header, size, i) + size <= ObjectAddress(slab, header, size, j)
    ensures ObjectIndex(slab, header, size, ObjectAddress(slab, header, size, i)) == i
  {
    var count := SlabCount(header, size);
    Fits(header, size);
    DivideBounds(SlabBytes(header, size) - header, size);
    OneMore(j, count, size);
    if i < j {
      OneMore(i, j, size);
    }
    assert i * size >= 0;
    DivideExact(i, size);
  }

  /** The number of objects is the most that fit in the pages taken. */
  lemma SlabIsFilled(header: nat, size: nat)
    requires size > 0
    ensures SlabCount(header, size) >= 1
    ensures header + SlabCount(header, size) * size <= SlabBytes(header, size)
    ensures SlabBytes(header, size) < header + (SlabCount(header, size) + 1) * size
  {
    Fits(header, size);
    var room := SlabBytes(header, size) - header;
    DivideBounds(room, size);
    AtLeast(room, 1, size);
  }

  /** Page-aligning the address of any object gives its slab. */
  ghost predicate AlignsToSlab(slab: nat, header: nat, size: nat)
    requires size > 0
  {
    forall i :: 0 <= i < SlabCount(header, size) ==> PageAlign(ObjectAddress(slab, header, size, i)) == slab
  }

  /** It does exactly when a first object fits beside the header in one page, or two do not
      fit in two: for sizes between those, a slab of two pages starts a second object in its
      second page, and that object is put back to the wrong address. */
  lemma AlignsToSlabIff(slab: nat, header: nat, size: nat)
    requires slab % PAGE_SIZE == 0 && 0 < header < PAGE_SIZE && size > 0
    ensures AlignsToSlab(slab, header, size) <==> header + size <= PAGE_SIZE || header + 2 * size > 2 * PAGE_SIZE
  {
    SlabIsFilled(header, size);
    var count := SlabCount(header, size);
    if header + size <= PAGE_SIZE {
      forall i | 0 <= i < count ensures PageAlign(ObjectAddress(slab, header, size, i)) == slab {
        ObjectsInSlab(slab, header, size, i, i);
        InPage(slab, ObjectAddress(slab, header, size, i));
      }
    } else if header + 2 * size > 2 * PAGE_SIZE {
      OneObject(header, size);
      assert ObjectAddress(slab, header, size, 0) == slab + header;
      InPage(slab, slab + header);
    } else {
      Fits(header, size);
      AtLeast(SlabBytes(header, size) - header, 2, size);
      assert ObjectAddress(slab, header, size, 1) == slab + header + size;
      assert PageAlign(ObjectAddress(slab, header, size, 1)) >= slab + PAGE_SIZE;
    }
  }

  lemma InPage(slab: nat, address: nat)
    requires slab % PAGE_SIZE == 0 && slab <= address < slab + PAGE_SIZE
    ensures PageAlign(address) == slab
  {
  }

  lemma OneObject(header: nat, size: nat)
    requires size > 0 && header + size > PAGE_SIZE && header + 2 * size > 2 * PAGE_SIZE
    requires header < PAGE_SIZE
    ensures SlabCount(header, size) == 1
  {
    SlabIsFilled(header, size);
    Fits(header, size);
    assert SlabBytes(header, size) < header + 2 * size;
    AtMost(SlabBytes(header, size) - header, 1, size);
  }

  /** With the 48 byte header of a 64-bit build, a size of 4072 gives two objects to a slab,
      and the second lies in the slab's second page. */
  lemma SecondObjectStrays(slab: nat)
    requires slab % PAGE_SIZE == 0
    ensures SlabCount(48, 4072) == 2
    ensures PageAlign(ObjectAddress(slab, 48, 4072, 1)) == slab + PAGE_SIZE
  {
  }
}
