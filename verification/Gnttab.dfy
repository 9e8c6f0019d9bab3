/** Grant references: frames of entries shared with the hypervisor, the free references and
    the references of constructed entries. */
module Gnttab {
  import opened RangeSet

  const RESERVED: nat := 32
  const PER_FRAME: nat := 512

  datatype Flags = Flags(permit: bool, readOnly: bool, reading: bool, writing: bool)

  /** One slot of a shared frame. */
  datatype Grant = Grant(flags: Flags, domid: nat, frame: nat)

  const NO_GRANT := Grant(Flags(false, false, false, false), 0, 0)

  /** A constructed entry: its reference and its own copy of the grant. */
  datatype Entry = Entry(reference: nat, grant: Grant)

  datatype Answer = Found(pfn: nat, readOnly: bool) | InvalidParameter

  /** All the references that n frames make available. */
  function Space(n: nat): (r: set<int>)
    ensures forall x :: x in r <==> 32 <= x < 512 * n
  {
    if n == 0 then {} else Interval(RESERVED, PER_FRAME * n - RESERVED)
  }

  /** The first reference of a frame that may be given out. */
  function FirstOf(index: nat): nat {
    if RESERVED > index * PER_FRAME then RESERVED else index * PER_FRAME
  }

  /** The references that frame `index` adds. */
  lemma SpaceGrows(index: nat)
    ensures FirstOf(index) < PER_FRAME * (index + 1)
    ensures Interval(FirstOf(index), PER_FRAME * (index + 1) - FirstOf(index)) !! Space(index)
    ensures Space(index + 1) == Space(index) + Interval(FirstOf(index), PER_FRAME * (index + 1) - FirstOf(index))
    ensures Space(index) == Space(index + 1) - Interval(FirstOf(index), PER_FRAME * (index + 1) - FirstOf(index))
  {
  }

  ghost function Refs(entry: map<nat, Entry>): set<int> {
    set id | id in entry :: entry[id].reference
  }

  ghost predicate Injective(entry: map<nat, Entry>) {
    forall a, b :: a in entry && b in entry && entry[a].reference == entry[b].reference ==> a == b
  }

  /** Every reference is free or belongs to exactly one entry. */
  ghost predicate Partition(free: set<int>, entry: map<nat, Entry>, frames: nat) {
    Injective(entry) && free !! Refs(entry) && free + Refs(entry) == Space(frames)
  }

  lemma AddEntry(free: set<int>, entry: map<nat, Entry>, frames: nat, id: nat, r: nat)
    requires Partition(free, entry, frames) && id !in entry && r in free
    ensures Partition(free - {r}, entry[id := Entry(r, NO_GRANT)], frames)
  {
    var after := entry[id := Entry(r, NO_GRANT)];
    assert forall x :: x in Refs(after) <==> x in Refs(entry) || x == r by {
      forall x | x in Refs(entry) ensures x in Refs(after) {
        var a :| a in entry && entry[a].reference == x;
        assert after[a].reference == x;
      }
      assert after[id].reference == r;
    }
    forall a | a in entry ensures entry[a].reference != r {
      assert entry[a].reference in Refs(entry);
    }
  }

  lemma DropEntry(free: set<int>, entry: map<nat, Entry>, frames: nat, id: nat)
    requires Partition(free, entry, frames) && id in entry
    ensures entry[id].reference !in free
    ensures Partition(free + {entry[id].reference}, entry - {id}, frames)
  {
    var r := entry[id].reference;
    var after := entry - {id};
    assert r in Refs(entry);
    forall x ensures x in Refs(after) <==> x in Refs(entry) && x != r {
      if x in Refs(entry) && x != r {
        var a :| a in entry && entry[a].reference == x;
        assert after[a].reference == x;
      }
      if x in Refs(after) {
        var a :| a in after && after[a].reference == x;
        assert entry[a].reference == x;
      }
    }
    assert free + {r} + Refs(after) == free + Refs(entry);
  }

  lemma SameRefs(entry: map<nat, Entry>, id: nat, e: Entry)
    requires id in entry && e.reference == entry[id].reference
    ensures Refs(entry[id := e]) == Refs(entry)
    ensures Injective(entry) ==> Injective(entry[id := e])
  {
    var after := entry[id := e];
    forall x ensures x in Refs(after) <==> x in Refs(entry) {
      if x in Refs(entry) {
        var a :| a in entry && entry[a].reference == x;
        assert after[a].reference == x;
      }
      if x in Refs(after) {
        var a :| a in after && after[a].reference == x;
        assert entry[a].reference == x;
      }
    }
  }

  // ---- The shared frames ----

  ghost predicate WholeFrames(frame: seq<seq<Grant>>) {
    forall i :: 0 <= i < |frame| ==> |frame[i]| == PER_FRAME
  }

  ghost function Slot(frame: seq<seq<Grant>>, r: nat): Grant
    requires WholeFrames(frame) && r < PER_FRAME * |frame|
  {
    frame[r / PER_FRAME][r % PER_FRAME]
  }

  function Written(frame: seq<seq<Grant>>, r: nat, g: Grant): seq<seq<Grant>>
    requires r / PER_FRAME < |frame| && |frame[r / PER_FRAME]| == PER_FRAME
  {
    frame[r / PER_FRAME := frame[r / PER_FRAME][r % PER_FRAME := g]]
  }

  /** References name different slots: writing one leaves all others alone. */
  lemma SlotWritten(frame: seq<seq<Grant>>, r: nat, g: Grant)
    requires WholeFrames(frame) && r < PER_FRAME * |frame|
    ensures WholeFrames(Written(frame, r, g))
    ensures forall q: nat :: q < PER_FRAME * |frame| ==>
      Slot(Written(frame, r, g), q) == if q == r then g else Slot(frame, q)
  {
    forall q: nat | q < PER_FRAME * |frame|
      ensures Slot(Written(frame, r, g), q) == if q == r then g else Slot(frame, q)
    {
      assert q == q / PER_FRAME * PER_FRAME + q % PER_FRAME;
      assert r == r / PER_FRAME * PER_FRAME + r % PER_FRAME;
    }
  }

  lemma SlotAppended(frame: seq<seq<Grant>>, contents: seq<Grant>)
    requires WholeFrames(frame) && |contents| == PER_FRAME
    ensures WholeFrames(frame + [contents])
    ensures forall q: nat :: q < PER_FRAME * |frame| ==> Slot(frame + [contents], q) == Slot(frame, q)
  {
  }

  function QueryOf(g: Grant): Answer {
    Found(g.frame, g.flags.readOnly)
  }

  /** A slot holds what an entry records, but for what the peer's accesses and the end of the
      grant do to the other flags. */
  predicate Agrees(slot: Grant, grant: Grant) {
    slot.domid == grant.domid && slot.frame == grant.frame && slot.flags.readOnly == grant.flags.readOnly
  }

  /** The entries handed out are shown to the hypervisor in their own slots. */
  ghost predicate Shared(frame: seq<seq<Grant>>, entry: map<nat, Entry>, inUse: set<nat>)
    requires WholeFrames(frame)
  {
    forall id :: id in inUse ==>
      id in entry && entry[id].reference < PER_FRAME * |frame|
      && Agrees(Slot(frame, entry[id].reference), entry[id].grant)
  }

  /** The attempt, out of those from `attempt` to 100, at which the exchange succeeds: the first
      one to find the peer neither reading nor writing; 101 if there is none. */
  function FirstQuiet(busy: nat -> bool, attempt: nat): (n: nat)
    requires attempt <= 101
    ensures attempt <= n <= 101 && (n <= 100 ==> !busy(n))
    ensures forall i :: attempt <= i < n ==> busy(i)
    decreases 101 - attempt
  {
    if attempt == 101 || !busy(attempt) then attempt else FirstQuiet(busy, attempt + 1)
  }

  class GnttabContext {
    const maximumFrameCount: nat
    const rangeSet: RangeSetContext
    var frameIndex: int
    var frame: seq<seq<Grant>>      // the frames mapped, 0 to frameIndex
    var holes: nat                  // pages of address space held for them
    var entry: map<nat, Entry>      // the constructed entries
    var inUse: set<nat>             // those that the entry cache has handed out

    ghost predicate Valid()
      reads this, rangeSet
    {
      && rangeSet.Valid()
      && Mapped()
      && Partition(rangeSet.items, entry, |frame|)
      && Shared(frame, entry, inUse)
    }

    ghost predicate Mapped()
      reads this
    {
      frameIndex == |frame| - 1 && holes == |frame| <= maximumFrameCount && WholeFrames(frame)
    }

    constructor (maximum: nat)
      ensures Valid() && fresh(rangeSet) && maximumFrameCount == maximum && frameIndex == -1
    {
      maximumFrameCount := maximum;
      rangeSet := new RangeSetContext();
      frameIndex, frame, holes, entry, inUse := -1, [], 0, map[], {};
    }

    /** Make the references of a new frame free. */
    method PutFrame(index: nat, memory: bool) returns (ok: bool)
      requires rangeSet.Valid() && Partition(rangeSet.items, entry, index)
      modifies rangeSet
      ensures ok <==> old(rangeSet.spare) || memory
      ensures ok ==> rangeSet.Valid() && rangeSet.items != {}
      ensures ok ==> Partition(rangeSet.items, entry, index + 1) && rangeSet.items == Space(index + 1) - Refs(entry)
      ensures !ok ==> rangeSet.items == old(rangeSet.items)
      ensures !ok ==> (rangeSet.CursorSet() ==> rangeSet.Valid())
      ensures !ok && rangeSet.items == {} ==> rangeSet.CursorSet()
    {
      hide Space, Refs, Partition, RangeSetContext.CursorSet, RangeSetContext.Represents, Interval, FirstOf;
      SpaceGrows(index);
      var start := FirstOf(index);
      var end := (index + 1) * PER_FRAME - 1;
      Filled(rangeSet.items, entry, index, start);
      ok := rangeSet.Put(start, end + 1 - start, memory);
    }

    /** Map one more frame and free its references. When no page of address space can be had,
        the hypervisor refuses or the range set has no memory, everything is put back. Only a
        range set without memory could be left unusable, and not when it was empty. */
    method GnttabExpand(hole: bool, maps: bool, memory: bool, contents: seq<Grant>) returns (ok: bool)
      requires Valid() && |contents| == PER_FRAME
      modifies this`frameIndex, this`frame, this`holes, rangeSet
      ensures ok <==> |old(frame)| < maximumFrameCount && hole && maps && (old(rangeSet.spare) || memory)
      ensures ok ==> frame == old(frame) + [contents] && rangeSet.items == Space(|frame|) - Refs(entry)
      ensures ok ==> rangeSet.items != {}
      ensures !ok ==> frame == old(frame) && rangeSet.items == old(rangeSet.items)
      ensures Mapped() && (ok || old(rangeSet.items) == {} || rangeSet.CursorSet() ==> Valid())
    {
      hide Space, Refs, Partition, RangeSetContext.Valid, RangeSetContext.CursorSet;
      SlotAppended(frame, contents);
      frameIndex := frameIndex + 1;
      var index: nat := frameIndex;
      ok := false;
      if index < maximumFrameCount {
        if hole {
          holes := holes + 1;
          frame := frame + [contents];
          if maps {
            ok := PutFrame(index, memory);
          }
          if !ok {
            frame := frame[..index];
            holes := holes - 1;
            assert frame == old(frame);
          }
        }
      }
      if !ok {
        frameIndex := frameIndex - 1;
      }
    }

    method PopReference() returns (ok: bool, reference: nat)
      requires rangeSet.Valid() && (forall x :: x in rangeSet.items ==> 0 <= x)
      modifies rangeSet
      ensures rangeSet.Valid() && (ok <==> old(rangeSet.items) != {})
      ensures !ok ==> rangeSet.items == old(rangeSet.items) && rangeSet.spare == old(rangeSet.spare)
      ensures ok ==> Least(reference, old(rangeSet.items)) && rangeSet.items == old(rangeSet.items) - {reference}
    {
      hide RangeSetContext.Valid;
      ghost var free := rangeSet.items;
      Ones(free);
      if free != {} {
        HasMember(free);
      }
      var popped: int;
      ok, popped := rangeSet.Pop(1);
      if ok {
        One(popped);
        assert popped in free;
        reference := popped;
      } else {
        reference := 0;
      }
    }

    /** Give a new entry the least free reference, mapping another frame if there is none. */
    method GnttabEntryCtor(id: nat, hole: bool, maps: bool, memory: bool, contents: seq<Grant>) returns (ok: bool)
      requires Valid() && id !in entry && |contents| == PER_FRAME
      modifies this`frameIndex, this`frame, this`holes, this`entry, rangeSet
      ensures Valid()
      ensures old(rangeSet.items) != {} ==> ok
      ensures old(rangeSet.items) == {} ==>
        (ok <==> |old(frame)| < maximumFrameCount && hole && maps && (old(rangeSet.spare) || memory))
      ensures frame == if ok && old(rangeSet.items) == {} then old(frame) + [contents] else old(frame)
      ensures !ok ==> entry == old(entry) && rangeSet.items == old(rangeSet.items)
      ensures ok ==> id in entry && entry == old(entry)[id := Entry(entry[id].reference, NO_GRANT)]
      ensures ok ==>
        var r := entry[id].reference;
        && 32 <= r < 512 * |frame| && (forall a :: a in old(entry) ==> old(entry)[a].reference != r)
        && forall x :: x in Space(|frame|) && x < r ==> exists a :: a in old(entry) && old(entry)[a].reference == x
    {
      hide Space, Refs, Partition, RangeSetContext.Valid, RangeSetContext.CursorSet, Shared, WholeFrames;
      var reference: nat;
      Rest(rangeSet.items, entry, |frame|);
      ok, reference := PopReference();
      while !ok
        invariant ok ==> frame == if old(rangeSet.items) == {} then old(frame) + [contents] else old(frame)
        invariant ok && old(rangeSet.items) == {} ==>
          |old(frame)| < maximumFrameCount && hole && maps && (old(rangeSet.spare) || memory)
        invariant ok ==> Least(reference, Space(|frame|) - Refs(entry))
        invariant ok ==> rangeSet.Valid() && rangeSet.items == Space(|frame|) - Refs(entry) - {reference}
        invariant !ok ==> Valid() && rangeSet.items == {} && rangeSet.items == old(rangeSet.items)
        invariant !ok ==> frame == old(frame) && rangeSet.spare == old(rangeSet.spare)
        invariant Mapped() && Shared(frame, entry, inUse)
        invariant Partition(Space(|frame|) - Refs(entry), entry, |frame|)
        invariant entry == old(entry)
        decreases !ok
      {
        ok := GnttabExpand(hole, maps, memory, contents);
        if !ok {
          return;
        }
        Rest(rangeSet.items, entry, |frame|);
        ok, reference := PopReference();
      }
      LeastMeans(reference, entry, |frame|);
      AddEntry(Space(|frame|) - Refs(entry), entry, |frame|, id, reference);
      SharedWithout(frame, entry, inUse, id, Entry(reference, NO_GRANT));
      entry := entry[id := Entry(reference, NO_GRANT)];
    }

    /** Destroy an entry that is not handed out: its reference is free again. */
    method GnttabEntryDtor(id: nat)
      requires Valid() && id in entry && id !in inUse
      modifies this`entry, rangeSet
      ensures Valid() && entry == old(entry) - {id}
      ensures rangeSet.items == old(rangeSet.items) + {old(entry[id].reference)}
    {
      hide Space, Refs, Partition, RangeSetContext.Valid, RangeSetContext.CursorSet;
      DropEntry(rangeSet.items, entry, |frame|, id);
      One(entry[id].reference);
      var ok := rangeSet.Put(entry[id].reference, 1, true);
      entry := entry - {id};
    }

    /** Unmap all the frames once no entry is left. Taking their references out of the range
        set cannot fail, even with no memory, because it goes from the last frame down. */
    method GnttabContract()
      requires Valid() && entry == map[]
      modifies this`frameIndex, this`frame, this`holes, rangeSet
      ensures Valid() && frameIndex == -1 && frame == [] && holes == 0 && rangeSet.items == {}
    {
      hide Space, RangeSetContext.Valid, RangeSetContext.CursorSet;
      AllFree(rangeSet.items, entry, |frame|);
      var index := frameIndex;
      while index >= 0
        invariant -1 <= index && rangeSet.Valid() && rangeSet.items == Space(index + 1)
        invariant index == |frame| - 1 && holes == |frame| <= maximumFrameCount && WholeFrames(frame)
        decreases index
      {
        SpaceGrows(index);
        var start := FirstOf(index);
        var end := (index + 1) * PER_FRAME - 1;
        LastPart(index);
        var ok := rangeSet.Get(start, end + 1 - start, false);
        frame := frame[..index];
        holes := holes - 1;
        index := index - 1;
      }
      frameIndex := -1;
      NoSpace();
    }

    method GnttabQueryReference(reference: nat) returns (answer: Answer)
      requires Mapped()
      ensures answer == if reference < PER_FRAME * |frame| then QueryOf(Slot(frame, reference)) else InvalidParameter
      ensures reference < 512 * |frame| ==>
        answer == Found(frame[reference / 512][reference % 512].frame, frame[reference / 512][reference % 512].flags.readOnly)
      ensures reference >= 512 * |frame| ==> answer == InvalidParameter
    {
      if reference >= (frameIndex + 1) * PER_FRAME {
        return InvalidParameter;
      }
      var g := frame[reference / PER_FRAME][reference % PER_FRAME];
      return Found(g.frame, g.flags.readOnly);
    }

    method Write(r: nat, g: Grant)
      requires Mapped() && r < PER_FRAME * |frame|
      modifies this`frame
      ensures Mapped() && |frame| == |old(frame)| && SlotIs(frame, r, g) && SameBut(old(frame), frame, r)
    {
      SlotWritten(frame, r, g);
      frame := Written(frame, r, g);
    }

    /** Grant a domain access to a page through the entry that the cache picks (`id`, which it
        constructs if it has to). What a query of the reference then finds is the page's number
        modulo 2^32; nothing that any other reference shows changes. */
    method GnttabPermitForeignAccess(id: nat, domain: nat, pfn: nat, readOnly: bool,
                                     hole: bool, maps: bool, memory: bool, contents: seq<Grant>) returns (ok: bool)
      requires Valid() && id !in inUse && |contents| == PER_FRAME
      modifies this, rangeSet
      ensures Valid() && (id in old(entry) ==> ok)
      ensures inUse == if ok then old(inUse) + {id} else old(inUse)
      ensures ok ==> id in entry && OthersStay(old(entry), entry, id)
      ensures ok ==> SlotIs(frame, entry[id].reference, Grant(Flags(true, readOnly, false, false), domain, pfn % 0x1_0000_0000))
      ensures ok ==> SameBut(old(frame), frame, entry[id].reference)
      ensures !ok ==> frame == old(frame) && entry == old(entry)
    {
      hide Space, Refs, Partition, WholeFrames, Slot, Shared, SameBut, SlotIs;
      hide RangeSetContext.Valid, RangeSetContext.CursorSet;
      ok := true;
      if id !in entry {
        ok := GnttabEntryCtor(id, hole, maps, memory, contents);
        if !ok {
          return;
        }
      }
      FramesGrow(old(frame), contents, entry[id].reference);
      ghost var middle := frame;
      var r := entry[id].reference;
      KnownReference(rangeSet.items, entry, |frame|, id);
      var g := Grant(Flags(false, readOnly, false, false), domain, pfn % 0x1_0000_0000);
      SetGrant(rangeSet.items, entry, |frame|, id, g);
      Write(r, g);
      ghost var written := frame;
      Write(r, g.(flags := g.flags.(permit := true)));
      SameChain(old(frame), middle, written, frame, r);
      SharedNow(middle, frame, entry, inUse, id, g);
      entry := entry[id := Entry(r, g)];
      inUse := inUse + {id};
    }

    /** End a grant, trying at most 100 times; at attempt n the peer is using the page if
        busy(n). Success is reported unless it is the hundredth attempt that succeeds. So the
        report is right exactly when an earlier one does: at the hundredth the grant has ended
        but the entry stays, and if none succeeds the slot is cleared all the same. */
    method GnttabRevokeForeignAccess(id: nat, busy: nat -> bool) returns (ok: bool, revoked: bool)
      requires Valid() && id in inUse
      modifies this`frame, this`entry, this`inUse
      ensures Valid()
      ensures revoked <==> FirstQuiet(busy, 1) <= 100
      ensures ok <==> FirstQuiet(busy, 1) != 100
      ensures (ok <==> revoked) <==> FirstQuiet(busy, 1) < 100
      ensures revoked <==> exists n: nat :: 1 <= n <= 100 && !busy(n)
      ensures !ok <==> !busy(100) && forall n: nat :: 1 <= n < 100 ==> busy(n)
      ensures inUse == if ok then old(inUse) - {id} else old(inUse)
      ensures id in entry && entry[id].reference == old(entry)[id].reference && OthersStay(old(entry), entry, id)
      ensures ok ==> entry[id].grant == NO_GRANT && SlotIs(frame, entry[id].reference, NO_GRANT)
      ensures !ok ==> Ended(frame, entry[id].reference)
      ensures SameBut(old(frame), frame, entry[id].reference)
    {
      hide Space, Refs, Partition, WholeFrames, Slot, Shared, SameBut, SlotIs, Ended, AgreesAt, Injective, OthersStay;
      hide RangeSetContext.Valid, RangeSetContext.CursorSet;
      InUseAgrees(frame, entry, inUse, id);
      KnownReference(rangeSet.items, entry, |frame|, id);
      ghost var before := frame;
      var attempt;
      attempt, revoked := Attempts(entry[id].reference, busy, entry[id].grant);
      SharedStill(before, frame, entry, inUse, id);
      OnlyThat(entry, id, entry[id]);
      ok := attempt != 100;
      if ok {
        ghost var tried := frame;
        ClearEntry(id);
        SameChain(before, before, tried, frame, entry[id].reference);
      }
    }

    /** The loop of exchanges. The counter ends at the attempt that succeeded, or at 101. */
    method Attempts(r: nat, busy: nat -> bool, grant: Grant) returns (attempt: nat, revoked: bool)
      requires Mapped() && AgreesAt(frame, r, grant)
      modifies this`frame
      ensures Mapped() && |frame| == |old(frame)| && AgreesAt(frame, r, grant) && SameBut(old(frame), frame, r)
      ensures attempt == FirstQuiet(busy, 1) && (revoked <==> attempt <= 100) && (revoked ==> Ended(frame, r))
    {
      hide WholeFrames, Slot, SameBut, Ended, AgreesAt;
      FramesGrow(frame, seq(PER_FRAME, _ => NO_GRANT), r);
      attempt, revoked := 1, false;
      while attempt <= 100 && !revoked
        invariant 1 <= attempt <= 101 && Mapped() && |frame| == |old(frame)|
        invariant SameBut(old(frame), frame, r) && AgreesAt(frame, r, grant)
        invariant FirstQuiet(busy, 1) == FirstQuiet(busy, attempt)
        invariant revoked ==> attempt <= 100 && !busy(attempt) && Ended(frame, r)
        decreases 101 - attempt, !revoked
      {
        ghost var before := frame;
        Exchange(r, busy(attempt), grant);
        SameChain(old(frame), old(frame), before, frame, r);
        if busy(attempt) {
          attempt := attempt + 1;
        } else {
          revoked := true;
        }
      }
    }

    /** Zero an entry's slot and its own copy, and let the cache have it back. */
    method ClearEntry(id: nat)
      requires Valid() && id in inUse
      modifies this`frame, this`entry, this`inUse
      ensures Valid() && |frame| == |old(frame)| && inUse == old(inUse) - {id}
      ensures id in entry && entry[id] == Entry(old(entry)[id].reference, NO_GRANT) && OthersStay(old(entry), entry, id)
      ensures SlotIs(frame, entry[id].reference, NO_GRANT) && SameBut(old(frame), frame, entry[id].reference)
    {
      hide Space, Refs, Partition, WholeFrames, Slot, Shared, SameBut, SlotIs, AgreesAt, Injective, OthersStay;
      hide RangeSetContext.Valid, RangeSetContext.CursorSet;
      InUseAgrees(frame, entry, inUse, id);
      var r := entry[id].reference;
      KnownReference(rangeSet.items, entry, |frame|, id);
      ghost var before := frame;
      Write(r, NO_GRANT);
      SetGrant(rangeSet.items, entry, |frame|, id, NO_GRANT);
      SharedOthers(before, frame, entry, inUse, id, NO_GRANT);
      OnlyThat(entry, id, Entry(r, NO_GRANT));
      entry := entry[id := Entry(r, NO_GRANT)];
      inUse := inUse - {id};
    }

    /** One exchange: it clears the flag that permits access, unless the peer has the page. */
    method Exchange(r: nat, busy: bool, grant: Grant)
      requires Mapped() && AgreesAt(frame, r, grant)
      modifies this`frame
      ensures Mapped() && |frame| == |old(frame)| && SameBut(old(frame), frame, r) && AgreesAt(frame, r, grant)
      ensures !busy ==> Ended(frame, r)
    {
      var slot := frame[r / PER_FRAME][r % PER_FRAME];
      if busy {
        Write(r, slot.(flags := slot.flags.(reading := true)));
      } else {
        Write(r, slot.(flags := Flags(false, slot.flags.readOnly, false, false)));
      }
    }
  }


  ghost predicate SlotIs(frame: seq<seq<Grant>>, r: nat, g: Grant) {
    WholeFrames(frame) && r < PER_FRAME * |frame| && Slot(frame, r) == g
  }

  /** What any reference but r shows is as before. */
  ghost predicate SameBut(before: seq<seq<Grant>>, after: seq<seq<Grant>>, r: nat) {
    WholeFrames(before) && WholeFrames(after) && |before| <= |after|
    && forall q: nat :: q < PER_FRAME * |before| && q != r ==> Slot(after, q) == Slot(before, q)
  }

  /** The slot no longer permits access. */
  ghost predicate Ended(frame: seq<seq<Grant>>, r: nat) {
    WholeFrames(frame) && r < PER_FRAME * |frame| && !Slot(frame, r).flags.permit
  }

  ghost predicate AgreesAt(frame: seq<seq<Grant>>, r: nat, grant: Grant) {
    WholeFrames(frame) && r < PER_FRAME * |frame| && Agrees(Slot(frame, r), grant)
  }

  ghost predicate OthersStay(before: map<nat, Entry>, after: map<nat, Entry>, id: nat) {
    forall other :: other in before && other != id ==> other in after && after[other] == before[other]
  }

  /** What the slots of the frames hold, by the frame and the place in it. */
  lemma SlotsMean(before: seq<seq<Grant>>, after: seq<seq<Grant>>, r: nat, g: Grant)
    ensures SlotIs(after, r, g) ==> r / 512 < |after| && r % 512 < |after[r / 512]| && after[r / 512][r % 512] == g
    ensures Ended(after, r) ==>
      r / 512 < |after| && r % 512 < |after[r / 512]| && !after[r / 512][r % 512].flags.permit
    ensures SameBut(before, after, r) ==>
      |before| <= |after| && forall i, k :: 0 <= i < |before| && 0 <= k < 512 && 512 * i + k != r ==>
        |before[i]| == |after[i]| == 512 && after[i][k] == before[i][k]
  {
    if SameBut(before, after, r) {
      forall i, k | 0 <= i < |before| && 0 <= k < 512 && 512 * i + k != r
        ensures |before[i]| == |after[i]| == 512 && after[i][k] == before[i][k]
      {
        assert Slot(after, 512 * i + k) == Slot(before, 512 * i + k);
      }
    }
  }

  lemma LeastMeans(r: nat, entry: map<nat, Entry>, frames: nat)
    requires Least(r, Space(frames) - Refs(entry))
    ensures 32 <= r < 512 * frames && forall a :: a in entry ==> entry[a].reference != r
    ensures forall x :: x in Space(frames) && x < r ==> exists a :: a in entry && entry[a].reference == x
  {
    forall a | a in entry ensures entry[a].reference != r {
      assert entry[a].reference in Refs(entry);
    }
    forall x | x in Space(frames) && x < r ensures exists a :: a in entry && entry[a].reference == x {
      assert x !in Space(frames) - Refs(entry);
    }
  }

  lemma AllFree(free: set<int>, entry: map<nat, Entry>, frames: nat)
    requires Partition(free, entry, frames) && entry == map[]
    ensures free == Space(frames)
  {
    assert Refs(entry) == {};
  }

  lemma LastPart(index: nat)
    ensures !Splits(Space(index + 1), FirstOf(index), PER_FRAME * (index + 1) - FirstOf(index))
  {
  }

  lemma NoSpace()
    ensures Space(0) == {} && Partition({}, map[], 0)
  {
    assert Refs(map[]) == {};
  }

  lemma SharedWithout(frame: seq<seq<Grant>>, entry: map<nat, Entry>, inUse: set<nat>, id: nat, e: Entry)
    requires WholeFrames(frame) && Shared(frame, entry, inUse) && id !in entry
    ensures Shared(frame, entry[id := e], inUse)
  {
  }

  /** What is free is what no entry has. */
  lemma Rest(free: set<int>, entry: map<nat, Entry>, frames: nat)
    requires Partition(free, entry, frames)
    ensures free == Space(frames) - Refs(entry) && forall x :: x in free ==> 0 <= x
  {
  }

  lemma One(x: int)
    ensures Interval(x, 1) == {x}
  {
    assert Interval(x, 0) == {};
  }

  lemma Ones(free: set<int>)
    ensures forall k :: Interval(k, 1) <= free <==> k in free
  {
    forall k ensures Interval(k, 1) <= free <==> k in free {
      One(k);
    }
  }

  predicate Least(r: nat, free: set<int>) {
    r in free && forall x :: x in free ==> r <= x
  }

  lemma Filled(free: set<int>, entry: map<nat, Entry>, index: nat, start: int)
    requires Partition(free, entry, index) && start == FirstOf(index)
    ensures var all := free + Interval(start, PER_FRAME * (index + 1) - start);
            Partition(all, entry, index + 1) && all == Space(index + 1) - Refs(entry) && start in all
    ensures Interval(start, PER_FRAME * (index + 1) - start) !! free
  {
    SpaceGrows(index);
  }

  lemma FramesGrow(frame: seq<seq<Grant>>, contents: seq<Grant>, r: nat)
    requires WholeFrames(frame) && |contents| == PER_FRAME
    ensures SameBut(frame, frame + [contents], r) && SameBut(frame, frame, r)
  {
  }

  lemma SameChain(a: seq<seq<Grant>>, b: seq<seq<Grant>>, c: seq<seq<Grant>>, d: seq<seq<Grant>>, r: nat)
    requires SameBut(a, b, r) && SameBut(b, c, r) && SameBut(c, d, r)
    ensures SameBut(a, d, r) && SameBut(b, d, r)
  {
  }

  lemma KnownReference(free: set<int>, entry: map<nat, Entry>, frames: nat, id: nat)
    requires Partition(free, entry, frames) && id in entry
    ensures RESERVED <= entry[id].reference < PER_FRAME * frames && Injective(entry)
  {
    assert entry[id].reference in Refs(entry);
  }

  lemma SetGrant(free: set<int>, entry: map<nat, Entry>, frames: nat, id: nat, g: Grant)
    requires Partition(free, entry, frames) && id in entry
    ensures Partition(free, entry[id := Entry(entry[id].reference, g)], frames)
  {
    SameRefs(entry, id, Entry(entry[id].reference, g));
  }

  lemma SharedNow(before: seq<seq<Grant>>, after: seq<seq<Grant>>, entry: map<nat, Entry>, inUse: set<nat>, id: nat, g: Grant)
    requires WholeFrames(before) && WholeFrames(after) && Shared(before, entry, inUse) && Injective(entry)
    requires id in entry && SameBut(before, after, entry[id].reference)
    requires entry[id].reference < PER_FRAME * |after| && Agrees(Slot(after, entry[id].reference), g)
    ensures Shared(after, entry[id := Entry(entry[id].reference, g)], inUse + {id})
  {
  }

  lemma InUseAgrees(frame: seq<seq<Grant>>, entry: map<nat, Entry>, inUse: set<nat>, id: nat)
    requires WholeFrames(frame) && Shared(frame, entry, inUse) && id in inUse
    ensures id in entry && AgreesAt(frame, entry[id].reference, entry[id].grant)
  {
  }

  lemma SharedStill(before: seq<seq<Grant>>, after: seq<seq<Grant>>, entry: map<nat, Entry>, inUse: set<nat>, id: nat)
    requires WholeFrames(before) && WholeFrames(after) && Shared(before, entry, inUse) && Injective(entry)
    requires id in entry && SameBut(before, after, entry[id].reference)
    requires AgreesAt(after, entry[id].reference, entry[id].grant)
    ensures Shared(after, entry, inUse)
  {
  }

  lemma SharedOthers(before: seq<seq<Grant>>, after: seq<seq<Grant>>, entry: map<nat, Entry>, inUse: set<nat>, id: nat, g: Grant)
    requires WholeFrames(before) && WholeFrames(after) && Shared(before, entry, inUse) && Injective(entry)
    requires id in entry && SameBut(before, after, entry[id].reference)
    ensures Shared(after, entry[id := Entry(entry[id].reference, g)], inUse - {id})
  {
  }

  lemma OnlyThat(entry: map<nat, Entry>, id: nat, e: Entry)
    requires id in entry
    ensures OthersStay(entry, entry[id := e], id) && OthersStay(entry, entry, id)
  {
  }

  /** Querying the reference of a grant gives back the page it was made for exactly when the
      page's number fits the 32 bits that a grant has for it. */
  lemma QueryRoundTrip(frame: seq<seq<Grant>>, r: nat, domain: nat, pfn: nat, readOnly: bool)
    requires SlotIs(frame, r, Grant(Flags(true, readOnly, false, false), domain, pfn % 0x1_0000_0000))
    ensures QueryOf(Slot(frame, r)) == Found(pfn, readOnly) <==> pfn < 0x1_0000_0000
  {
  }
}
