/** One event word of the Xen FIFO event channel ABI: flag bits PENDING (31), MASKED (30),
    LINKED (29) and BUSY (28) and a 17-bit link, packed in 32 bits. The packed form is what
    the guest's compare-and-exchange loops work on; the decoded form is what the queue
    reasoning uses. */
module EventWord {

  /** A port number. The link field has 17 bits, so there are 2^17 ports; 0 is never a real
      port and ends a chain. */
  datatype Port = Port(bits: bv17)

  const NO_PORT := Port(0)

  datatype Word = Word(pending: bool, masked: bool, linked: bool, busy: bool, link: Port)

  function Decode(w: bv32): Word {
    Word(w & 0x8000_0000 != 0, w & 0x4000_0000 != 0, w & 0x2000_0000 != 0, w & 0x1000_0000 != 0,
         LinkOf(w))
  }

  function LinkOf(w: bv32): Port {
    Port((w & 0x1_FFFF) as bv17)
  }

  /** The value the guest's unlink loop writes: LINKED and the link cleared. */
  function Unlink(w: bv32): bv32 {
    w & 0xDFFE_0000
  }

  /** The value the guest's unmask loop expects to find: BUSY clear. */
  function NotBusy(w: bv32): bv32 {
    w & 0xEFFF_FFFF
  }

  /** The value the guest's unmask loop writes, and the mask bit cleared. */
  function NotMasked(w: bv32): bv32 {
    w & 0xBFFF_FFFF
  }

  /** The hypervisor raises an event and claims the word for a queue. */
  function Raise(w: bv32): bv32 {
    w | 0xA000_0000
  }

  /** The hypervisor writes the link of a queue's last word; BUSY is cleared with it. */
  function SetLink(w: bv32, link: bv32): bv32 {
    (w & 0xEFFE_0000) | link
  }

  /** A port as the low bits of a word. */
  function LinkBits(link: Port): (k: bv32)
    ensures k < 0x2_0000
  {
    link.bits as bv32
  }

  /** Any agent changes one of the flags that play no part in linking. */
  function SetFlags(w: bv32, flags: bv32): bv32 {
    (w & 0x2001_FFFF) | (flags & 0xD000_0000)
  }

  lemma PackedBits(flags: bv32, k: bv32)
    requires flags & 0x1_FFFF == 0 && k & 0x1_FFFF == k
    ensures (flags | k) & 0x8000_0000 == flags & 0x8000_0000
    ensures (flags | k) & 0x4000_0000 == flags & 0x4000_0000
    ensures (flags | k) & 0x2000_0000 == flags & 0x2000_0000
    ensures (flags | k) & 0x1000_0000 == flags & 0x1000_0000
    ensures (flags | k) & 0x1_FFFF == k
  {
  }

  /** Where the flags and the link are in a word, whatever its other bits. */
  lemma PackedDecodes(flags: bv32, k: bv32)
    requires flags & 0x1_FFFF == 0 && k < 0x2_0000
    ensures Decode(flags | k) == Word(flags & 0x8000_0000 != 0, flags & 0x4000_0000 != 0,
                                      flags & 0x2000_0000 != 0, flags & 0x1000_0000 != 0, Port(k as bv17))
  {
    assert k & 0x1_FFFF == k;
    PackedBits(flags, k);
  }

  /** Unlinking clears the linked bit and the link and touches nothing else. */
  lemma UnlinkDecodes(w: bv32)
    ensures Decode(Unlink(w)) == Decode(w).(linked := false, link := NO_PORT)
  {
    assert (w & 0xDFFE_0000) & 0x8000_0000 == w & 0x8000_0000;
    assert (w & 0xDFFE_0000) & 0x4000_0000 == w & 0x4000_0000;
    assert (w & 0xDFFE_0000) & 0x2000_0000 == 0;
    assert (w & 0xDFFE_0000) & 0x1000_0000 == w & 0x1000_0000;
    assert (w & 0xDFFE_0000) & 0x1_FFFF == 0;
  }

  lemma RaiseDecodes(w: bv32)
    ensures Decode(Raise(w)) == Decode(w).(pending := true, linked := true)
  {
    assert (w | 0xA000_0000) & 0x8000_0000 == 0x8000_0000;
    assert (w | 0xA000_0000) & 0x4000_0000 == w & 0x4000_0000;
    assert (w | 0xA000_0000) & 0x2000_0000 == 0x2000_0000;
    assert (w | 0xA000_0000) & 0x1000_0000 == w & 0x1000_0000;
    assert (w | 0xA000_0000) & 0x1_FFFF == w & 0x1_FFFF;
  }

  lemma SetLinkBits(w: bv32, k: bv32)
    requires k & 0x1_FFFF == k
    ensures ((w & 0xEFFE_0000) | k) & 0x8000_0000 == w & 0x8000_0000
    ensures ((w & 0xEFFE_0000) | k) & 0x4000_0000 == w & 0x4000_0000
    ensures ((w & 0xEFFE_0000) | k) & 0x2000_0000 == w & 0x2000_0000
    ensures ((w & 0xEFFE_0000) | k) & 0x1000_0000 == 0
    ensures ((w & 0xEFFE_0000) | k) & 0x1_FFFF == k
  {
  }

  lemma LinkFits(link: Port)
    ensures LinkBits(link) & 0x1_FFFF == LinkBits(link) && Port(LinkBits(link) as bv17) == link
  {
  }

  lemma SetLinkDecodes(w: bv32, link: Port)
    ensures Decode(SetLink(w, LinkBits(link))) == Decode(w).(busy := false, link := link)
  {
    LinkFits(link);
    SetLinkBits(w, LinkBits(link));
  }

  /** The unmask loop exchanges a word only when it is not busy, and then clears MASKED alone. */
  lemma NotMaskedDecodes(w: bv32)
    ensures Decode(NotMasked(w)) == Decode(w).(masked := false)
  {
    assert (w & 0xBFFF_FFFF) & 0x8000_0000 == w & 0x8000_0000;
    assert (w & 0xBFFF_FFFF) & 0x4000_0000 == 0;
    assert (w & 0xBFFF_FFFF) & 0x2000_0000 == w & 0x2000_0000;
    assert (w & 0xBFFF_FFFF) & 0x1000_0000 == w & 0x1000_0000;
    assert (w & 0xBFFF_FFFF) & 0x1_FFFF == w & 0x1_FFFF;
  }

  lemma SetFlagsBits(w: bv32, flags: bv32)
    ensures ((w & 0x2001_FFFF) | (flags & 0xD000_0000)) & 0x8000_0000 == flags & 0x8000_0000
    ensures ((w & 0x2001_FFFF) | (flags & 0xD000_0000)) & 0x4000_0000 == flags & 0x4000_0000
    ensures ((w & 0x2001_FFFF) | (flags & 0xD000_0000)) & 0x2000_0000 == w & 0x2000_0000
    ensures ((w & 0x2001_FFFF) | (flags & 0xD000_0000)) & 0x1000_0000 == flags & 0x1000_0000
    ensures ((w & 0x2001_FFFF) | (flags & 0xD000_0000)) & 0x1_FFFF == w & 0x1_FFFF
  {
  }

  lemma BusyBit(w: bv32)
    ensures NotBusy(w) == w <==> !Decode(w).busy
    ensures !Decode(w).busy ==> NotMasked(NotBusy(w)) == NotMasked(w)
  {
    assert w & 0x1000_0000 == 0 <==> w & 0xEFFF_FFFF == w;
  }

  /** A word shared with agents who will store the values in `writes`, in that order, at moments
      the guest does not control. */
  class EventCell {
    var bits: bv32
    var writes: seq<bv32>

    /** The word after the first n of the other agents' stores. */
    function After(n: nat): bv32
      requires n <= |writes|
      reads this
    {
      if n == 0 then bits else writes[n - 1]
    }

    /** At least `least` of the pending stores happen. */
    method Interfere(least: nat) returns (n: nat)
      requires least <= |writes|
      modifies this
      ensures least <= n <= |old(writes)| && writes == old(writes)[n..]
      ensures bits == old(After(n))
    {
      n := 0;
      var more: bool := *;
      while writes != [] && (n < least || more)
        invariant n <= |old(writes)| && writes == old(writes)[n..] && bits == old(After(n))
        decreases |writes|
      {
        more := *;
        bits, writes := writes[0], writes[1..];
        n := n + 1;
      }
    }

    /** Clear LINKED and the link by compare and exchange. The result is the link of the very
        value that was replaced, and no other agent's store is undone. */
    method UnlinkLoop() returns (link: Port, n: nat)
      modifies this
      ensures n <= |old(writes)| && writes == old(writes)[n..]
      ensures bits == Unlink(old(After(n))) && link == LinkOf(old(After(n)))
    {
      n := 0;
      while true
        invariant n <= |old(writes)| && writes == old(writes)[n..] && bits == old(After(n))
        decreases |writes|
      {
        var expected := bits;
        var replacement := Unlink(expected);
        var k := Interfere(0);
        var m := n + k;
        assert old(writes)[m..] == old(writes)[n..][k..];
        n := m;
        if bits == expected {
          bits := replacement;
          return LinkOf(expected), n;
        }
        assert k > 0;
      }
    }

    /** Clear MASKED by compare and exchange, waiting while the hypervisor holds the word busy.
        It ends because some later store clears BUSY. Others may store again before the pending
        bit is tested: the exchange follows n of their stores, the test m. */
    method UnmaskLoop() returns (pending: bool, n: nat, m: nat)
      requires !Decode(After(|writes|)).busy
      modifies this
      ensures n <= m <= |old(writes)| && writes == old(writes)[m..]
      ensures !Decode(old(After(n))).busy
      ensures Decode(NotMasked(old(After(n)))) == Decode(old(After(n))).(masked := false)
      ensures bits == if m == n then NotMasked(old(After(n))) else old(After(m))
      ensures pending == Decode(bits).pending
    {
      n := UnmaskExchange();
      var k := Interfere(0);
      m := n + k;
      assert old(writes)[m..] == old(writes)[n..][k..];
      pending := bits & 0x8000_0000 != 0;
    }

    /** The loop itself: the exchange that succeeds replaces a word that is not busy by the same
        word without MASKED. */
    method UnmaskExchange() returns (n: nat)
      requires !Decode(After(|writes|)).busy
      modifies this
      ensures n <= |old(writes)| && writes == old(writes)[n..]
      ensures !Decode(old(After(n))).busy && bits == NotMasked(old(After(n)))
      ensures Decode(bits) == Decode(old(After(n))).(masked := false)
    {
      n := 0;
      while true
        invariant n <= |old(writes)| && writes == old(writes)[n..] && bits == old(After(n))
        decreases |writes|
      {
        var expected := NotBusy(bits);
        var replacement := NotMasked(expected);
        BusyBit(bits);
        // A busy word stays busy until somebody stores to it.
        var k := Interfere(if expected != bits then 1 else 0);
        var m := n + k;
        assert old(writes)[m..] == old(writes)[n..][k..];
        n := m;
        BusyBit(bits);
        if bits == expected {
          NotMaskedDecodes(bits);
          bits := replacement;
          return n;
        }
      }
    }
  }
}
