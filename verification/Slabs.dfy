/** Slabs of equally sized objects, the order the cache keeps them in, and the rules for taking
    an object from a slab and putting one back. */
module Slabs {

  /** An object is known by the slab it lies in and its index there; Geometry relates that to
      its address. */
  datatype Object = Object(base: nat, index: nat)

  /** `constructed` and `inUse` are the indices whose bits are set in the Constructed and the
      Allocated mask. */
  datatype Slab = Slab(base: nat, size: nat, constructed: set<nat>, inUse: set<nat>)

  predicate Full(s: Slab) {
    |s.inUse| == s.size
  }

  ghost predicate SlabOk(s: Slab, size: nat) {
    && s.size == size > 0 && s.inUse <= s.constructed
    && |s.constructed| <= size
    && forall i :: i in s.constructed <==> 0 <= i < |s.constructed|
  }

  // ---- Counting ----

  lemma {:induction false} SubsetSize(a: set<nat>, b: set<nat>)
    requires a <= b
    ensures |a| <= |b| && (|a| == |b| ==> a == b)
  {
    if a != {} {
      var x :| x in a;
      SubsetSize(a - {x}, b - {x});
    }
  }

  /** A mask with fewer bits than its slab has objects has a clear bit below the ones it has. */
  lemma AllocatedCount(s: Slab, size: nat)
    requires SlabOk(s, size)
    ensures |s.inUse| <= |s.constructed| <= size
    ensures |s.inUse| == |s.constructed| ==> s.inUse == s.constructed
  {
    SubsetSize(s.inUse, s.constructed);
  }

  lemma FreeIndex(s: Slab, size: nat)
    requires SlabOk(s, size) && |s.inUse| < |s.constructed|
    ensures exists i :: 0 <= i < |s.constructed| && i !in s.inUse
  {
    if forall i :: 0 <= i < |s.constructed| ==> i in s.inUse {
      assert s.constructed <= s.inUse;
      SubsetSize(s.constructed, s.inUse);
    }
  }

  // ---- One object out of a slab, one back in ----

  /** What taking index i makes of a slab; the constructor has run for it if it had to. */
  function Took(s: Slab, i: nat): Slab {
    s.(constructed := s.constructed + {i}, inUse := s.inUse + {i})
  }

  function Gave(s: Slab, i: nat): Slab {
    s.(inUse := s.inUse - {i})
  }

  lemma TookKeeps(s: Slab, size: nat, i: nat)
    requires SlabOk(s, size) && i !in s.inUse && i < size
    requires i in s.constructed || i == |s.constructed|
    ensures SlabOk(Took(s, i), size) && |Took(s, i).inUse| == |s.inUse| + 1
    ensures |Took(s, i).inUse| <= size
  {
    if i in s.constructed {
      assert s.constructed + {i} == s.constructed;
    }
    assert SlabOk(Took(s, i), size);
    SubsetSize(Took(s, i).inUse, Took(s, i).constructed);
  }

  lemma GaveKeeps(s: Slab, size: nat, i: nat)
    requires SlabOk(s, size) && i in s.inUse
    ensures SlabOk(Gave(s, i), size) && |Gave(s, i).inUse| == |s.inUse| - 1
    ensures |Gave(s, i).inUse| < size
  {
    SubsetSize(s.inUse, s.constructed);
  }

  /** The search of a slab for an object to hand out: the first that is not in use. That one is
      constructed already unless all those that are constructed are in use. */
  method CacheGetObjectFromSlab(s: Slab, size: nat, constructs: bool) returns (ok: bool, index: nat)
    requires SlabOk(s, size)
    ensures ok ==> index < size && index !in s.inUse && forall j :: 0 <= j < index ==> j in s.inUse
    ensures ok ==> (index in s.constructed <==> |s.inUse| < |s.constructed|)
    ensures ok && index !in s.constructed ==> index == |s.constructed| && constructs
    ensures ok <==> |s.inUse| != s.size && (|s.inUse| < |s.constructed| || constructs)
  {
    AllocatedCount(s, size);
    ok, index := false, 0;
    if |s.inUse| == s.size {
      return;
    }
    if |s.inUse| < |s.constructed| {
      FreeIndex(s, size);
    } else {
      index := |s.constructed|;
    }
    while index < s.size && index in s.inUse
      invariant index <= size
      invariant |s.inUse| < |s.constructed| ==> forall j :: 0 <= j < index ==> j in s.inUse
      invariant |s.inUse| == |s.constructed| ==> index == |s.constructed|
      invariant forall j :: 0 <= j < index ==> j in s.inUse
    {
      index := index + 1;
    }
    if index !in s.constructed && !constructs {
      return;
    }
    ok := true;
  }

  // ---- The list ----

  ghost predicate SlabsOk(list: seq<Slab>, size: nat) {
    && (forall k :: 0 <= k < |list| ==> SlabOk(list[k], size))
    && (forall j, k :: 0 <= j < k < |list| ==> list[j].base != list[k].base)
  }

  /** Most occupied first. */
  ghost predicate Ordered(list: seq<Slab>) {
    forall j, k :: 0 <= j < k < |list| ==> |list[j].inUse| >= |list[k].inUse|
  }

  /** The cursor is on the first slab that is not full, or on the anchor if all are full. */
  ghost predicate CursorOk(list: seq<Slab>, cursor: nat) {
    && cursor <= |list| && (forall k :: 0 <= k < cursor ==> Full(list[k]))
    && (cursor < |list| ==> !Full(list[cursor]))
  }

  /** An ordered list has its full slabs in front: behind a slab that is not full, none is. */
  lemma NoneFullBehind(list: seq<Slab>, size: nat, cursor: nat)
    requires SlabsOk(list, size) && Ordered(list) && CursorOk(list, cursor)
    ensures forall k :: cursor <= k < |list| ==> !Full(list[k])
  {
    forall k | cursor <= k < |list| ensures !Full(list[k]) {
      assert SlabOk(list[k], size) && SlabOk(list[cursor], size);
      AllocatedCount(list[k], size);
      AllocatedCount(list[cursor], size);
    }
  }

  /** An empty slab, if there is one, is at the end of an ordered list. */
  lemma LastIsEmptiest(list: seq<Slab>)
    requires Ordered(list) && list != [] && list[|list| - 1].inUse != {}
    ensures forall k :: 0 <= k < |list| ==> list[k].inUse != {}
  {
  }

  function Inserted(list: seq<Slab>, place: nat, s: Slab): seq<Slab>
    requires place <= |list|
  {
    list[..place] + [s] + list[place..]
  }

  function Removed(list: seq<Slab>, k: nat): seq<Slab>
    requires k < |list|
  {
    list[..k] + list[k + 1..]
  }

  /** Where a slab belongs, and where the cursor then is, in a list. */
  ghost predicate Placed(list: seq<Slab>, s: Slab, place: nat, cursor: nat) {
    && place <= |list| && cursor <= place
    && (forall k :: 0 <= k < place ==> |list[k].inUse| >= |s.inUse|)
    && (place < |list| ==> |list[place].inUse| < |s.inUse|)
    && (forall k :: 0 <= k < cursor ==> Full(list[k]))
    && (cursor < place ==> !Full(list[cursor]))
  }

  lemma InsertOrdered(list: seq<Slab>, s: Slab, place: nat, cursor: nat)
    requires Ordered(list) && Placed(list, s, place, cursor) && !Full(s)
    ensures Ordered(Inserted(list, place, s)) && CursorOk(Inserted(list, place, s), cursor)
  {
    var t := Inserted(list, place, s);
    assert forall j :: 0 <= j < |t| ==> t[j] == if j < place then list[j] else if j == place then s else list[j - 1];
  }

  lemma InsertOk(list: seq<Slab>, size: nat, s: Slab, place: nat)
    requires SlabsOk(list, size) && SlabOk(s, size) && place <= |list|
    requires forall k :: 0 <= k < |list| ==> list[k].base != s.base
    ensures SlabsOk(Inserted(list, place, s), size)
  {
    var t := Inserted(list, place, s);
    assert forall j :: 0 <= j < |t| ==> t[j] == if j < place then list[j] else if j == place then s else list[j - 1];
  }

  lemma RemoveOk(list: seq<Slab>, size: nat, k: nat)
    requires SlabsOk(list, size) && k < |list|
    ensures SlabsOk(Removed(list, k), size)
    ensures forall j :: 0 <= j < |Removed(list, k)| ==> Removed(list, k)[j].base != list[k].base
    ensures Ordered(list) ==> Ordered(Removed(list, k))
  {
    var t := Removed(list, k);
    assert forall j :: 0 <= j < |t| ==> t[j] == if j < k then list[j] else list[j + 1];
  }

  /** Taking an object from the slab under the cursor needs no reordering; the cursor moves on
      when that fills the slab. */
  lemma TakeAtCursor(list: seq<Slab>, size: nat, cursor: nat, i: nat)
    requires SlabsOk(list, size) && Ordered(list) && CursorOk(list, cursor) && cursor < |list|
    requires i !in list[cursor].inUse && i < size
    requires i in list[cursor].constructed || i == |list[cursor].constructed|
    ensures var t := list[cursor := Took(list[cursor], i)];
      && SlabsOk(t, size) && Ordered(t)
      && CursorOk(t, if Full(t[cursor]) then cursor + 1 else cursor)
  {
    assert SlabOk(list[cursor], size);
    TookKeeps(list[cursor], size, i);
    NoneFullBehind(list, size, cursor);
    forall k | 0 <= k < cursor ensures |list[k].inUse| == size {
      assert SlabOk(list[k], size);
    }
  }

  // ---- Sums ----

  function Capacity(list: seq<Slab>): nat {
    if list == [] then 0 else Capacity(list[..|list| - 1]) + list[|list| - 1].size
  }

  lemma {:induction false} CapacityConcat(a: seq<Slab>, b: seq<Slab>)
    ensures Capacity(a + b) == Capacity(a) + Capacity(b)
    decreases |b|
  {
    if b == [] {
      assert a + b == a;
    } else {
      assert (a + b)[..|a + b| - 1] == a + b[..|b| - 1];
      CapacityConcat(a, b[..|b| - 1]);
    }
  }

  lemma CapacityInsert(list: seq<Slab>, place: nat, s: Slab)
    requires place <= |list|
    ensures Capacity(Inserted(list, place, s)) == Capacity(list) + s.size
  {
    CapacityOne(s);
    hide Capacity;
    CapacityConcat(list[..place], [s]);
    CapacityConcat(list[..place] + [s], list[place..]);
    CapacityConcat(list[..place], list[place..]);
    assert list == list[..place] + list[place..];
  }

  lemma CapacityOne(s: Slab)
    ensures Capacity([s]) == s.size
  {
    assert [s][..0] == [];
  }

  lemma CapacityRemove(list: seq<Slab>, k: nat)
    requires k < |list|
    ensures Capacity(list) == Capacity(Removed(list, k)) + list[k].size
  {
    hide Capacity;
    CapacityInsert(Removed(list, k), k, list[k]);
    assert Inserted(Removed(list, k), k, list[k]) == list;
  }

  lemma CapacityUpdate(list: seq<Slab>, k: nat, s: Slab)
    requires k < |list| && s.size == list[k].size
    ensures Capacity(list[k := s]) == Capacity(list)
  {
    CapacityRemove(list, k);
    CapacityRemove(list[k := s], k);
    assert Removed(list[k := s], k) == Removed(list, k);
  }
}
