/** The console rings: a byte buffer shared by a writer and a reader in different domains, with
    free-running 32-bit indices of which only the low bits select a place. */
module Console {

  const M: nat := 0x1_0000_0000

  // ---- Selecting a place by masking ----

  lemma MaskIsRemainder(index: bv32)
    ensures index & 1023 == index % 1024
    ensures index & 2047 == index % 2048
  {
  }

  // ---- Arithmetic of wrapping indices ----

  /** An index, from the count it stands for. */
  function Wrapped(x: int): nat {
    x % M
  }

  lemma DivMod(x: nat, m: nat)
    requires m > 0
    ensures x == m * (x / m) + x % m
  {
  }

  lemma Multiples(m: nat, a: nat, b: nat)
    requires a < b
    ensures m * a + m <= m * b
  {
    assert m * (b - a - 1) >= 0;
  }

  /** A number below m is its own remainder, whatever multiple of m is added. */
  lemma RemainderOf(x: nat, q: nat, r: nat, m: nat)
    requires m > 0 && r < m && x == m * q + r
    ensures x % m == r
  {
    var d, e := x / m, x % m;
    DivMod(x, m);
    assert x == m * d + e;
    SameQuotient(m, q, r, d, e);
  }

  lemma SameQuotient(m: nat, q: nat, r: nat, d: nat, e: nat)
    requires r < m && e < m && m * q + r == m * d + e
    ensures r == e
  {
    if d < q {
      Multiples(m, d, q);
    } else if q < d {
      Multiples(m, q, d);
    }
  }

  /** The difference of two indices survives their wrapping. */
  lemma WrappedDifference(hi: nat, lo: nat)
    requires lo <= hi < lo + M
    ensures Wrapped(Wrapped(hi) - Wrapped(lo)) == hi - lo
  {
    DivMod(hi, M);
    DivMod(lo, M);
  }

  lemma WrappedSum(x: int, n: int)
    ensures Wrapped(Wrapped(x) + n) == Wrapped(x + n)
  {
  }

  /** Where a byte goes, from its count. */
  function Place(x: nat, size: nat): (r: nat)
    requires size > 0
    ensures r < size
  {
    x % size
  }

  /** Masking the wrapped index selects the same place as masking the whole count. */
  lemma WrappedPlace(x: nat, size: nat)
    requires size > 0 && Divides(size)
    ensures Place(Wrapped(x), size) == Place(x, size)
  {
    DivMod(M, size);
    DivMod(x, M);
    var k := M / size;
    DivMod(x % M, size);
    calc {
      x;
      M * (x / M) + x % M;
      size * k * (x / M) + size * (x % M / size) + x % M % size;
      { Distribute(size, k * (x / M), x % M / size); assert size * k * (x / M) == size * (k * (x / M)); }
      size * (k * (x / M) + x % M / size) + x % M % size;
    }
    RemainderOf(x, k * (x / M) + x % M / size, x % M % size, size);
  }

  lemma Distribute(a: nat, b: nat, c: nat)
    ensures a * (b + c) == a * b + a * c
  {
  }

  /** Consecutive bytes have consecutive places up to the end of the buffer. */
  lemma PlaceAfter(x: nat, i: nat, size: nat)
    requires size > 0 && i < size - Place(x, size)
    ensures Place(x + i, size) == Place(x, size) + i
  {
    DivMod(x, size);
    RemainderOf(x + i, x / size, x % size + i, size);
  }

  /** Bytes less than a ring apart have different places. */
  lemma PlacesDiffer(x: nat, y: nat, size: nat)
    requires size > 0 && x < y < x + size
    ensures Place(x, size) != Place(y, size)
  {
    DivMod(x, size);
    DivMod(y, size);
    if x / size < y / size {
      Multiples(size, x / size, y / size);
    } else if y / size < x / size {
      Multiples(size, y / size, x / size);
    }
  }

  // ---- The ring ----

  function Byte(b: seq<char>, x: nat): char
    requires b != []
  {
    b[Place(x, |b|)]
  }

  /** The bytes of s from k on are in their places, s being counted from start. */
  ghost predicate Holds(b: seq<char>, start: nat, s: seq<char>, k: nat) {
    b != [] && forall j :: k <= j < |s| ==> Byte(b, start + j) == s[j]
  }

  function Stored(b: seq<char>, index: nat, chunk: seq<char>): seq<char>
    requires index + |chunk| <= |b|
  {
    b[..index] + chunk + b[index + |chunk|..]
  }

  lemma StoredByte(b: seq<char>, index: nat, chunk: seq<char>, from: nat, x: nat)
    requires index + |chunk| <= |b| && b != [] && index == Place(from, |b|)
    ensures from <= x < from + |chunk| ==> Byte(Stored(b, index, chunk), x) == chunk[x - from]
    ensures x < from && from + |chunk| <= x + |b| ==> Byte(Stored(b, index, chunk), x) == Byte(b, x)
  {
    hide Place;
    if from <= x < from + |chunk| {
      PlaceAfter(from, x - from, |b|);
    } else if x < from && from + |chunk| <= x + |b| {
      var q := Place(x, |b|);
      if index <= q < index + |chunk| {
        PlacesDiffer(x, from + (q - index), |b|);
        PlaceAfter(from, q - index, |b|);
      }
    }
  }

  /** A chunk stored just after the bytes of s, with room for it, leaves them in place. */
  lemma StoreHolds(b: seq<char>, start: nat, s: seq<char>, k: nat, index: nat, chunk: seq<char>)
    requires Holds(b, start, s, k) && k <= |s| && |s| + |chunk| <= k + |b|
    requires index + |chunk| <= |b| && index == Place(start + |s|, |b|)
    ensures Holds(Stored(b, index, chunk), start, s + chunk, k)
  {
    hide Byte, Stored, Place;
    StoredSize(b, index, chunk);
    forall j | k <= j < |s + chunk| ensures Byte(Stored(b, index, chunk), start + j) == (s + chunk)[j] {
      StoredByte(b, index, chunk, start + |s|, start + j);
    }
  }

  lemma StoredSize(b: seq<char>, index: nat, chunk: seq<char>)
    requires index + |chunk| <= |b|
    ensures |Stored(b, index, chunk)| == |b|
  {
  }

  lemma HoldsPart(b: seq<char>, start: nat, s: seq<char>, t: seq<char>, k: nat, n: nat)
    requires Holds(b, start, s + t, k) && k <= n
    ensures Holds(b, start, s, k) && Holds(b, start, s + t, n)
  {
    forall j | k <= j < |s| ensures Byte(b, start + j) == s[j] {
      assert s[j] == (s + t)[j];
    }
  }

  lemma HoldsFrom(b: seq<char>, start: nat, s: seq<char>, k: nat, n: nat)
    requires Holds(b, start, s, k) && k <= n
    ensures Holds(b, start, s, n)
  {
  }

  /** A chunk of the buffer is what was written there. */
  lemma ChunkIs(b: seq<char>, start: nat, s: seq<char>, k: nat, n: nat, index: nat, length: nat)
    requires Holds(b, start, s, k) && k <= n && n + length <= |s|
    requires index == Place(start + n, |b|) && index + length <= |b|
    ensures b[index..index + length] == s[n..n + length]
  {
    hide Place;
    var stored, expected := b[index..index + length], s[n..n + length];
    forall i | 0 <= i < length ensures stored[i] == expected[i] {
      PlaceAfter(start + n, i, |b|);
      assert start + (n + i) == start + n + i;
      assert Byte(b, start + (n + i)) == s[n + i];
    }
  }

  lemma PublishedMeans(x: nat, n: nat)
    ensures Wrapped(x + n) == (x % 0x1_0000_0000 + n) % 0x1_0000_0000
  {
    WrappedSum(x, n);
  }

  /** The place of a byte by the wrapped index of an earlier one. */
  lemma IndexPlaces(x: nat, i: nat, size: nat)
    requires size > 0 && Divides(size)
    ensures (x % 0x1_0000_0000 + i) % size == Place(x + i, size)
  {
    WrappedSum(x, i);
    WrappedPlace(x + i, size);
    WrappedPlace(Wrapped(x) + i, size);
  }

  /** Where bytes are by the wrapped index of the first. */
  lemma SitsMeans(b: seq<char>, from: nat, data: seq<char>)
    requires Holds(b, from, data, 0) && Divides(|b|)
    ensures forall i :: 0 <= i < |data| ==> b[(from % 0x1_0000_0000 + i) % |b|] == data[i]
  {
    hide Divides, Place;
    forall i | 0 <= i < |data| ensures b[(from % 0x1_0000_0000 + i) % |b|] == data[i] {
      IndexPlaces(from, i, |b|);
      assert Byte(b, from + i) == data[i];
    }
  }

  lemma HoldsTail(b: seq<char>, start: nat, s: seq<char>, t: seq<char>, k: nat)
    requires Holds(b, start, s + t, k) && k <= |s|
    ensures Holds(b, start + |s|, t, 0)
  {
    forall j | 0 <= j < |t| ensures Byte(b, start + |s| + j) == t[j] {
      assert (s + t)[|s| + j] == t[j];
    }
  }

  function Min(a: nat, b: nat): nat {
    if a < b then a else b
  }

  lemma MinIs(a: nat, b: nat)
    ensures Min(a, b) == a <= b || Min(a, b) == b < a
  {
  }

  /** Sizes whose places wrapping indices do not disturb: the powers of two. */
  predicate Divides(size: nat)
    requires size > 0
  {
    M % size == 0
  }

  function Pow2(k: nat): nat {
    if k == 0 then 1 else 2 * Pow2(k - 1)
  }

  lemma {:induction false} PowerSum(j: nat, k: nat)
    ensures Pow2(j) * Pow2(k) == Pow2(j + k)
  {
    if j > 0 {
      PowerSum(j - 1, k);
      assert 2 * Pow2(j - 1) * Pow2(k) == 2 * (Pow2(j - 1) * Pow2(k));
    }
  }

  lemma PowersDivide(k: nat)
    requires k < 32
    ensures 0 < Pow2(k) < M && Divides(Pow2(k))
  {
    PowerSum(k, 32 - k);
    PowerLess(k);
    RemainderOf(M, Pow2(32 - k), 0, Pow2(k));
  }

  lemma PowerLess(k: nat)
    requires k < 32
    ensures Pow2(32) == M && 0 < Pow2(k) < M
  {
    assert Pow2(8) == 256;
    PowerSum(8, 8);
    PowerSum(16, 16);
    Grows(k, 31);
    assert Pow2(32) == 2 * Pow2(31);
  }

  lemma {:induction false} Grows(j: nat, k: nat)
    requires j <= k
    ensures 0 < Pow2(j) <= Pow2(k)
    decreases k
  {
    if j < k {
      Grows(j, k - 1);
    } else if j > 0 {
      Grows(j - 1, k - 1);
    }
  }

  lemma NextChunk(before: seq<char>, after: seq<char>, first: nat, n: nat, chunk: seq<char>)
    requires before <= after && first + n + |chunk| <= |before|
    requires chunk == after[first + n..first + n + |chunk|]
    ensures before[first..first + n] + chunk == before[first..first + n + |chunk|]
  {
  }

  lemma AllTaken(before: seq<char>, after: seq<char>, read: seq<char>, data: seq<char>)
    requires read <= before <= after && |read| + |data| <= |before|
    requires data == before[|read|..|read| + |data|]
    ensures read + data <= after && after + [] == after
  {
    assert before[..|read| + |data|] == before[..|read|] + data;
  }

  lemma Joined(s: seq<char>, data: seq<char>, i: nat, n: nat)
    requires i + n <= |data|
    ensures s + data[..i] + data[i..i + n] == s + data[..i + n]
  {
  }

  class Ring {
    const size: nat
    const buf: array<char>
    var prod: nat
    var cons: nat
    ghost var start: nat           // the count at which the indices began
    ghost var written: seq<char>   // every byte published so far
    ghost var read: seq<char>      // every byte taken so far

    ghost function Produced(): nat
      reads this
    {
      start + |written|
    }

    ghost function Consumed(): nat
      reads this
    {
      start + |read|
    }

    ghost predicate Shape()
      reads this
    {
      0 < size < M && Divides(size) && buf.Length == size
    }

    /** What is read is a prefix of what is written, and the rest is in the buffer. */
    ghost predicate Valid()
      reads this, buf
    {
      && Shape()
      && prod == Wrapped(Produced()) && cons == Wrapped(Consumed())
      && read <= written && |written| <= |read| + size
      && Holds(buf[..], start, written, |read|)
    }

    constructor (bytes: nat, index: nat)
      requires 0 < bytes < M && Divides(bytes) && index < M
      ensures Valid() && fresh(buf) && size == bytes && written == [] && read == [] && prod == cons == index
    {
      size := bytes;
      buf := new char[bytes](_ => ' ');
      prod, cons, start, written, read := index, index, index, [], [];
    }

    /** The indices are the counts modulo 2^32, and what is unread sits from the reader's on. */
    lemma ValidMeans()
      requires Valid()
      ensures 0 < size == buf.Length && Divides(size) && |read| <= |written| <= |read| + size && read <= written
      ensures prod == Produced() % 0x1_0000_0000 && cons == Consumed() % 0x1_0000_0000
      ensures Holds(buf[..], Consumed(), written[|read|..], 0)
    {
      assert written == read + written[|read|..];
      HoldsTail(buf[..], start, read, written[|read|..], |read|);
    }

    lemma ValidCounts()
      requires Valid()
      ensures prod == Wrapped(Produced()) && cons == Wrapped(Consumed())
      ensures |read| <= |written| < |read| + M && read <= written
    {
    }

    /** The number of bytes that the ring has room for. */
    method ConsoleOutAvailable() returns (n: nat)
      requires Valid()
      ensures n == size - (|written| - |read|)
    {
      n := Room(cons, prod, size, Consumed(), Produced());
    }

    method ConsoleInAvailable() returns (n: nat)
      requires Valid()
      ensures n == |written| - |read|
    {
      WrappedDifference(Produced(), Consumed());
      n := Wrapped(prod - cons);
    }

    /** The reader takes any number of the bytes published; it sees nothing of those that are
        in the buffer but not yet published. */
    method PeerReads(ghost unpublished: seq<char>)
      requires Valid() && Holds(buf[..], start, written + unpublished, |read|)
      modifies this`cons, this`read
      ensures Valid() && Holds(buf[..], start, written + unpublished, |read|) && old(read) <= read
    {
      hide Holds, Place, Stored, Wrapped, Divides;
      var more: bool := *;
      WrappedDifference(Produced(), Consumed());
      while more && prod != cons
        invariant Valid() && Holds(buf[..], start, written + unpublished, |read|) && old(read) <= read
        decreases |written| - |read|
      {
        WrappedDifference(Produced(), Consumed());
        WrappedSum(Consumed(), 1);
        var chunk := GetChunk(0, cons, 1);
        HoldsPart(buf[..], start, written, unpublished, |read|, |read| + 1);
        SetConsumed(Wrapped(cons + 1), chunk);
        more := *;
      }
    }

    method CopyMemory(index: nat, chunk: seq<char>)
      requires index + |chunk| <= buf.Length
      modifies buf
      ensures buf[..] == Stored(old(buf[..]), index, chunk)
    {
      forall i | 0 <= i < |chunk| {
        buf[index + i] := chunk[i];
      }
    }

    /** Put the next chunk of the data, as far as the end of the buffer, after the unpublished
        part that is already there. */
    method PutChunk(data: seq<char>, offset: nat, p: nat, limit: nat, ghost seen: nat) returns (n: nat)
      requires Valid() && offset + limit <= |data| && p == Wrapped(Produced() + offset)
      requires limit > 0 && seen <= |read| && |written| + offset + limit <= seen + size
      requires Holds(buf[..], start, written + data[..offset], seen)
      modifies buf
      ensures 0 < n <= limit && Valid()
      ensures Holds(buf[..], start, written + data[..offset + n], seen)
    {
      hide Holds, Place, Stored, Wrapped, Divides;
      WrappedPlace(Produced() + offset, size);
      var index := Place(p, size);
      n := Min(limit, size - index);
      Joined(written, data, offset, n);
      StoreHolds(buf[..], start, written + data[..offset], seen, index, data[offset..offset + n]);
      CopyMemory(index, data[offset..offset + n]);
      HoldsPart(buf[..], start, written, data[..offset + n], seen, |read|);
      HoldsFrom(buf[..], start, written, seen, |read|);
    }

    /** Write as much of the data as there was room for when the indices were read, while the
        reader may go on reading. */
    method ConsoleCopyToOut(data: seq<char>) returns (offset: nat)
      requires Valid()
      modifies this`prod, this`cons, this`read, this`written, buf
      ensures Valid() && old(read) <= read
      ensures offset == if |data| < size - (|old(written)| - |old(read)|) then |data| else size - (|old(written)| - |old(read)|)
      ensures written == old(written) + data[..offset]
      ensures prod == (old(prod) + offset) % 0x1_0000_0000
      ensures forall i :: 0 <= i < offset ==> buf[(old(prod) + i) % size] == data[i]
    {
      hide Valid, Holds, Place, Stored, Wrapped, Divides;
      ghost var from := Produced();
      ValidMeans();
      offset := CopyOut(data);
      PublishedMeans(from, offset);
      SitsMeans(buf[..], from, data[..offset]);
    }

    /** The loop: the bytes go where their counts say. */
    method CopyOut(data: seq<char>) returns (offset: nat)
      requires Valid()
      modifies this`prod, this`cons, this`read, this`written, buf
      ensures Valid()
      ensures offset == Min(|data|, size - (|old(written)| - |old(read)|)) <= |data|
      ensures written == old(written) + data[..offset] && prod == Wrapped(old(Produced()) + offset)
      ensures Holds(buf[..], old(Produced()), data[..offset], 0)
      ensures old(read) <= read
    {
      hide Holds, Place, Stored, Wrapped, Divides;
      ghost var consumed, seen := Consumed(), |read|;
      var p, c := prod, cons;
      offset := 0;
      var length: nat := |data|;
      assert written + data[..0] == written;
      while length != 0
        invariant Valid() && written == old(written) && old(read) <= read
        invariant offset + length == |data| && Produced() + offset <= consumed + size
        invariant p == Wrapped(Produced() + offset)
        invariant Holds(buf[..], start, written + data[..offset], seen)
        decreases length
      {
        HoldsFrom(buf[..], start, written + data[..offset], seen, |read|);
        PeerReads(data[..offset]);
        var available := Room(c, p, size, consumed, Produced() + offset);
        if available == 0 {
          break;
        }
        var copyLength := PutChunk(data, offset, p, Min(length, available), seen);
        WrappedSum(Produced() + offset, copyLength);
        offset := offset + copyLength;
        length := length - copyLength;
        p := Wrapped(p + copyLength);
      }
      HoldsFrom(buf[..], start, written + data[..offset], seen, |read|);
      HoldsTail(buf[..], start, written, data[..offset], seen);
      prod := p;
      written := written + data[..offset];
    }

    /** The writer adds bytes wherever it finds room by the published indices. */
    method PeerWrites()
      requires Valid()
      modifies this`prod, this`written, buf
      ensures Valid() && old(written) <= written
    {
      hide Holds, Place, Stored, Wrapped, Divides;
      var more: bool := *;
      var n := Room(cons, prod, size, Consumed(), Produced());
      while more && n > 0
        invariant Valid() && old(written) <= written && n == size - (|written| - |read|)
        decreases n
      {
        var c: char := *;
        WrappedPlace(Produced(), size);
        WrappedSum(Produced(), 1);
        var index := Place(prod, size);
        StoreHolds(buf[..], start, written, |read|, index, [c]);
        CopyMemory(index, [c]);
        prod := Wrapped(prod + 1);
        written := written + [c];
        n := n - 1;
        more := *;
      }
    }

    /** Get the next chunk, as far as the end of the buffer, of what has been written. */
    method GetChunk(n: nat, c: nat, limit: nat) returns (chunk: seq<char>)
      requires Valid() && c == Wrapped(Consumed() + n)
      requires limit > 0 && |read| + n + limit <= |written|
      ensures 0 < |chunk| <= limit && chunk == written[|read| + n..|read| + n + |chunk|]
    {
      hide Holds, Place, Stored, Wrapped, Divides;
      WrappedPlace(Consumed() + n, size);
      var index := Place(c, size);
      var length := Min(limit, size - index);
      chunk := buf[index..index + length];
      assert Consumed() + n == start + (|read| + n);
      ChunkIs(buf[..], start, written, |read|, |read| + n, index, length);
    }

    /** The next chunk, and the index after it. */
    method NextBytes(n: nat, c: nat, limit: nat) returns (chunk: seq<char>, next: nat)
      requires Valid() && c == Wrapped(Consumed() + n)
      requires limit > 0 && |read| + n + limit <= |written|
      ensures 0 < |chunk| <= limit && chunk == written[|read| + n..|read| + n + |chunk|]
      ensures next == Wrapped(Consumed() + (n + |chunk|))
    {
      hide Holds, Place, Stored, Wrapped, Divides;
      chunk := GetChunk(n, c, limit);
      var copyLength := |chunk|;
      WrappedSum(Consumed() + n, copyLength);
      next := Wrapped(c + copyLength);
    }

    /** Read as many bytes as there were when the indices were read, up to a limit, while the
        writer may go on writing. */
    method ConsoleCopyFromIn(limit: nat) returns (data: seq<char>)
      requires Valid()
      modifies this`prod, this`cons, this`read, this`written, buf
      ensures Valid() && old(written) <= written
      ensures |data| == if limit < |old(written)| - |old(read)| then limit else |old(written)| - |old(read)|
      ensures read == old(read) + data
      ensures cons == (old(cons) + |data|) % 0x1_0000_0000
      ensures forall i :: 0 <= i < |data| ==> data[i] == old(buf[..])[(old(cons) + i) % size]
    {
      hide Valid, Holds, Place, Stored, Wrapped, Divides;
      ValidMeans();
      ghost var from, unread := Consumed(), written[|read|..];
      SitsMeans(buf[..], from, unread);
      data := CopyIn(limit);
      PublishedMeans(from, |data|);
      assert data == unread[..|data|];
    }

    /** The loop: the bytes taken are those written, in order. */
    method CopyIn(limit: nat) returns (data: seq<char>)
      requires Valid()
      modifies this`prod, this`cons, this`read, this`written, buf
      ensures Valid()
      ensures |data| == Min(limit, |old(written)| - |old(read)|)
      ensures read == old(read) + data && old(written) <= written
      ensures cons == Wrapped(old(Consumed()) + |data|) && |old(read)| + |data| <= |old(written)|
      ensures data == old(written)[|old(read)|..|old(read)| + |data|]
    {
      hide Valid, Holds, Place, Stored, Wrapped, Divides, Min;
      ValidCounts();
      ghost var first := |read|;
      ghost var produced := Produced();
      var c: nat, p: int := cons, prod;
      data := [];
      var length: nat := limit;
      while length != 0
        invariant Valid() && read == old(read) && old(written) <= written
        invariant |data| + length == limit && first + |data| <= |old(written)|
        invariant c == Wrapped(Consumed() + |data|)
        invariant data == old(written)[first..first + |data|]
        decreases length
      {
        PeerWrites();
        WrappedDifference(produced, Consumed() + |data|);
        var available := Wrapped(p - c);
        if available == 0 {
          break;
        }
        MinIs(length, available);
        var chunk;
        chunk, c := NextBytes(|data|, c, Min(length, available));
        NextChunk(old(written), written, first, |data|, chunk);
        data := data + chunk;
        length := length - |chunk|;
      }
      MinIs(limit, |old(written)| - |old(read)|);
      SetConsumed(c, data);
    }

    /** Publish that the next bytes have been taken. */
    method SetConsumed(c: nat, ghost data: seq<char>)
      requires Valid() && |read| + |data| <= |written| && data == written[|read|..|read| + |data|]
      requires c == Wrapped(Consumed() + |data|)
      modifies this`cons, this`read
      ensures Valid() && read == old(read) + data && cons == c
    {
      hide Holds, Place, Stored, Wrapped, Divides;
      AllTaken(written, written, read, data);
      HoldsPart(buf[..], start, written, [], |read|, |read| + |data|);
      cons := c;
      read := read + data;
    }
  }

  /** The room in a ring, from its wrapped indices. */
  method Room(cons: nat, prod: nat, size: nat, ghost consumed: nat, ghost produced: nat) returns (n: nat)
    requires size < M && consumed <= produced <= consumed + size
    requires cons == Wrapped(consumed) && prod == Wrapped(produced)
    ensures n == consumed + size - produced
  {
    hide Wrapped;
    WrappedSum(consumed, size);
    WrappedSum(cons + size, 0 - prod);
    WrappedDifference(consumed + size, produced);
    n := Wrapped(cons + size - prod);
  }
}