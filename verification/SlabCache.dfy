/** The slab cache: objects are handed out from per-CPU magazines or from slabs, and returned to
    magazines or to slabs. One operation is one step; the lock makes it so. */
module SlabCache {
  import opened Slabs

  const MAGAZINE_SLOTS := 6
  const ULONG_RANGE := 0x1_0000_0000

  datatype Slot = Empty | Holds(item: Object)

  datatype Option<T> = None | Some(value: T)

  // ---- Which objects the slabs say are in use, and which are constructed ----

  ghost predicate InUse(list: seq<Slab>, o: Object) {
    exists s :: s in list && s.base == o.base && o.index in s.inUse
  }

  ghost predicate Built(list: seq<Slab>, o: Object) {
    exists s :: s in list && s.base == o.base && o.index in s.constructed
  }

  lemma AtSlab(list: seq<Slab>, size: nat, k: nat, o: Object)
    requires SlabsOk(list, size) && k < |list| && o.base == list[k].base
    ensures InUse(list, o) <==> o.index in list[k].inUse
    ensures Built(list, o) <==> o.index in list[k].constructed
  {
    assert list[k] in list;
    forall s | s in list && s.base == o.base ensures s == list[k] {
    }
  }

  lemma UpdateMembers(list: seq<Slab>, size: nat, k: nat, s: Slab, o: Object)
    requires SlabsOk(list, size) && SlabOk(s, size) && k < |list| && s.base == list[k].base
    ensures InUse(list[k := s], o) <==> if o.base == s.base then o.index in s.inUse else InUse(list, o)
    ensures Built(list[k := s], o) <==> if o.base == s.base then o.index in s.constructed else Built(list, o)
  {
    var t := list[k := s];
    if o.base == s.base {
      AtSlab(t, size, k, o);
    } else {
      assert forall x: Slab :: x.base == o.base && x in t ==> x in list;
      forall x | x in list && x.base == o.base ensures x in t {
        var j :| 0 <= j < |list| && list[j] == x;
        assert t[j] == x;
      }
    }
  }

  lemma InsertMembers(list: seq<Slab>, place: nat, s: Slab, o: Object)
    requires place <= |list|
    ensures InUse(Inserted(list, place, s), o) <==> (o.base == s.base && o.index in s.inUse) || InUse(list, o)
    ensures Built(Inserted(list, place, s), o) <==> (o.base == s.base && o.index in s.constructed) || Built(list, o)
  {
    assert list == list[..place] + list[place..];
    assert forall x :: x in Inserted(list, place, s) <==> x == s || x in list;
    assert s in Inserted(list, place, s);
  }

  lemma RemoveMembers(list: seq<Slab>, k: nat, o: Object)
    requires k < |list|
    ensures InUse(list, o) <==> (o.base == list[k].base && o.index in list[k].inUse) || InUse(Removed(list, k), o)
    ensures Built(list, o) <==> (o.base == list[k].base && o.index in list[k].constructed) || Built(Removed(list, k), o)
  {
    InsertMembers(Removed(list, k), k, list[k], o);
    assert Inserted(Removed(list, k), k, list[k]) == list;
  }

  // ---- Magazines ----

  /** `at` says which slot of which magazine an object sits in; it sits in no other. */
  ghost predicate MagazinesOk(magazines: seq<seq<Slot>>, at: map<Object, (nat, nat)>) {
    && (forall c :: 0 <= c < |magazines| ==> |magazines[c]| == MAGAZINE_SLOTS)
    && (forall c, i :: 0 <= c < |magazines| && 0 <= i < |magazines[c]| && magazines[c][i].Holds? ==>
          magazines[c][i].item in at && at[magazines[c][i].item] == (c, i))
    && (forall o :: o in at ==>
          at[o].0 < |magazines| && at[o].1 < |magazines[at[o].0]| && magazines[at[o].0][at[o].1] == Holds(o))
  }

  predicate NoneHeld(magazine: seq<Slot>) {
    forall i :: 0 <= i < |magazine| ==> magazine[i] == Empty
  }

  predicate AllHeld(magazine: seq<Slot>) {
    forall i :: 0 <= i < |magazine| ==> magazine[i].Holds?
  }

  /** Take the object out of the first slot that holds one. `after` is the magazine then, and
      `index` that slot. */
  method CacheGetObjectFromMagazine(magazine: seq<Slot>)
    returns (got: Option<Object>, after: seq<Slot>, ghost index: nat)
    ensures got.None? <==> NoneHeld(magazine)
    ensures got.None? ==> after == magazine
    ensures got.Some? ==> index < |magazine| && NoneHeld(magazine[..index])
    ensures got.Some? ==> magazine[index] == Holds(got.value) && after == magazine[index := Empty]
  {
    got, after, index := None, magazine, 0;
    var i := 0;
    while i < |magazine|
      invariant i <= |magazine| && NoneHeld(magazine[..i])
    {
      if magazine[i] != Empty {
        return Some(magazine[i].item), magazine[i := Empty], i;
      }
      i := i + 1;
    }
    assert magazine[..i] == magazine;
  }

  /** Put an object into the first empty slot. */
  method CachePutObjectToMagazine(magazine: seq<Slot>, o: Object)
    returns (ok: bool, after: seq<Slot>, ghost index: nat)
    ensures !ok <==> AllHeld(magazine)
    ensures !ok ==> after == magazine
    ensures ok ==> index < |magazine| && AllHeld(magazine[..index])
    ensures ok ==> magazine[index] == Empty && after == magazine[index := Holds(o)]
  {
    ok, after, index := false, magazine, 0;
    var i := 0;
    while i < |magazine|
      invariant i <= |magazine| && AllHeld(magazine[..i])
    {
      if magazine[i] == Empty {
        return true, magazine[i := Holds(o)], i;
      }
      i := i + 1;
    }
    assert magazine[..i] == magazine;
  }

  lemma MagazineTake(magazines: seq<seq<Slot>>, at: map<Object, (nat, nat)>, c: nat, i: nat)
    requires MagazinesOk(magazines, at) && c < |magazines| && i < MAGAZINE_SLOTS && magazines[c][i].Holds?
    ensures magazines[c][i].item in at
    ensures MagazinesOk(magazines[c := magazines[c][i := Empty]], at - {magazines[c][i].item})
  {
  }

  lemma MagazineGive(magazines: seq<seq<Slot>>, at: map<Object, (nat, nat)>, c: nat, i: nat, o: Object)
    requires MagazinesOk(magazines, at) && c < |magazines| && i < MAGAZINE_SLOTS && magazines[c][i] == Empty
    requires o !in at
    ensures MagazinesOk(magazines[c := magazines[c][i := Holds(o)]], at[o := (c, i)])
  {
  }

  // ---- Conservation ----

  /** The objects in use are those held by callers and those in magazines, and none is both. */
  ghost predicate Conserved(list: seq<Slab>, held: set<Object>, at: map<Object, (nat, nat)>) {
    && held !! at.Keys
    && forall o :: InUse(list, o) <==> o in held || o in at
  }

  /** An object has been constructed once more than destroyed if it is constructed now, and
      otherwise equally often. */
  ghost predicate Lives(list: seq<Slab>, made: multiset<Object>, unmade: multiset<Object>) {
    forall o :: made[o] == unmade[o] + (if Built(list, o) then 1 else 0)
  }

  lemma TookConserves(list: seq<Slab>, size: nat, k: nat, i: nat, held: set<Object>, at: map<Object, (nat, nat)>)
    requires SlabsOk(list, size) && k < |list| && SlabOk(Took(list[k], i), size)
    requires Conserved(list, held, at) && i !in list[k].inUse
    ensures var o := Object(list[k].base, i);
      o !in held && o !in at && Conserved(list[k := Took(list[k], i)], held + {o}, at)
  {
    hide SlabsOk, InUse;
    var o := Object(list[k].base, i);
    AtSlab(list, size, k, o);
    forall x ensures InUse(list[k := Took(list[k], i)], x) <==> x in held + {o} || x in at {
      UpdateMembers(list, size, k, Took(list[k], i), x);
      if x.base == list[k].base {
        AtSlab(list, size, k, x);
      }
    }
  }

  lemma TookLives(list: seq<Slab>, size: nat, k: nat, i: nat, made: multiset<Object>, unmade: multiset<Object>)
    requires SlabsOk(list, size) && k < |list| && SlabOk(Took(list[k], i), size) && Lives(list, made, unmade)
    ensures Lives(list[k := Took(list[k], i)],
                  if i in list[k].constructed then made else made + multiset{Object(list[k].base, i)}, unmade)
  {
    hide SlabsOk, Built;
    var o := Object(list[k].base, i);
    var t := list[k := Took(list[k], i)];
    var made' := if i in list[k].constructed then made else made + multiset{o};
    forall x ensures made'[x] == unmade[x] + (if Built(t, x) then 1 else 0) {
      UpdateMembers(list, size, k, Took(list[k], i), x);
      if x.base == list[k].base {
        AtSlab(list, size, k, x);
      }
    }
  }

  lemma GaveConserves(list: seq<Slab>, size: nat, k: nat, i: nat, held: set<Object>, at: map<Object, (nat, nat)>)
    requires SlabsOk(list, size) && k < |list| && SlabOk(Gave(list[k], i), size)
    requires Conserved(list, held, at)
    ensures var o := Object(list[k].base, i);
      var t := list[k := Gave(list[k], i)];
      Conserved(t, held - {o}, at - {o})
  {
    hide SlabsOk, InUse;
    var o := Object(list[k].base, i);
    forall x ensures InUse(list[k := Gave(list[k], i)], x) <==> x in held - {o} || x in at - {o} {
      UpdateMembers(list, size, k, Gave(list[k], i), x);
      if x.base == list[k].base {
        AtSlab(list, size, k, x);
      }
    }
  }

  lemma GaveLives(list: seq<Slab>, size: nat, k: nat, i: nat, made: multiset<Object>, unmade: multiset<Object>)
    requires SlabsOk(list, size) && k < |list| && SlabOk(Gave(list[k], i), size) && Lives(list, made, unmade)
    ensures Lives(list[k := Gave(list[k], i)], made, unmade)
  {
    hide SlabsOk, Built;
    forall x ensures Built(list[k := Gave(list[k], i)], x) <==> Built(list, x) {
      UpdateMembers(list, size, k, Gave(list[k], i), x);
      if x.base == list[k].base {
        AtSlab(list, size, k, x);
      }
    }
  }

  /** Taking slab k out and putting it back elsewhere changes no object. */
  lemma MovedMembers(list: seq<Slab>, k: nat, place: nat, o: Object)
    requires k < |list| && place < |list|
    ensures InUse(Inserted(Removed(list, k), place, list[k]), o) <==> InUse(list, o)
    ensures Built(Inserted(Removed(list, k), place, list[k]), o) <==> Built(list, o)
  {
    hide InUse, Built;
    RemoveMembers(list, k, o);
    InsertMembers(Removed(list, k), place, list[k], o);
  }

  lemma MovedKeeps(list: seq<Slab>, k: nat, place: nat, held: set<Object>, at: map<Object, (nat, nat)>,
                   made: multiset<Object>, unmade: multiset<Object>)
    requires k < |list| && place < |list| && Conserved(list, held, at) && Lives(list, made, unmade)
    ensures Conserved(Inserted(Removed(list, k), place, list[k]), held, at)
    ensures Lives(Inserted(Removed(list, k), place, list[k]), made, unmade)
  {
    hide InUse, Built;
    forall o ensures InUse(Inserted(Removed(list, k), place, list[k]), o) <==> InUse(list, o)
      ensures Built(Inserted(Removed(list, k), place, list[k]), o) <==> Built(list, o)
    {
      MovedMembers(list, k, place, o);
    }
  }

  /** A new slab has nothing constructed and nothing in use. */
  lemma EmptyKeeps(list: seq<Slab>, place: nat, s: Slab, held: set<Object>, at: map<Object, (nat, nat)>,
                   made: multiset<Object>, unmade: multiset<Object>)
    requires place <= |list| && s.constructed == {} && s.inUse == {}
    requires Conserved(list, held, at) && Lives(list, made, unmade)
    ensures Conserved(Inserted(list, place, s), held, at) && Lives(Inserted(list, place, s), made, unmade)
  {
    hide InUse, Built, Inserted;
    forall o ensures InUse(Inserted(list, place, s), o) <==> InUse(list, o)
      ensures Built(Inserted(list, place, s), o) <==> Built(list, o)
    {
      InsertMembers(list, place, s, o);
    }
  }

  /** Each object of a slab that is constructed, from index `from` on, has been destroyed once
      more, and no other object has. */
  ghost predicate Destroyed(before: multiset<Object>, after: multiset<Object>, s: Slab, from: nat) {
    forall o :: after[o] == before[o] + (if Constructed(s, o) && o.index >= from then 1 else 0)
  }

  predicate Constructed(s: Slab, o: Object) {
    o.base == s.base && o.index in s.constructed
  }

  /** The list is sound and the counters agree with it. */
  ghost predicate Good(list: seq<Slab>, size: nat, cursor: nat, count: nat, slabs: nat) {
    SlabsOk(list, size) && cursor <= |list| && count == Capacity(list) && slabs == |list|
  }

  ghost predicate InOrder(list: seq<Slab>, cursor: nat) {
    Ordered(list) && CursorOk(list, cursor)
  }

  /** What the cache keeps about its list: the most occupied slabs come first, and the cursor is on
      the first that is not full, or past the last if there is none. */
  lemma InOrderMeans(list: seq<Slab>, cursor: nat)
    ensures InOrder(list, cursor) <==>
      && (forall j, k :: 0 <= j < k < |list| ==> |list[j].inUse| >= |list[k].inUse|)
      && cursor <= |list| && (forall k :: 0 <= k < cursor ==> |list[k].inUse| == list[k].size)
      && (cursor < |list| ==> |list[cursor].inUse| != list[cursor].size)
  {
    assert forall s: Slab :: Full(s) <==> |s.inUse| == s.size;
  }

  /** What is in use is what callers hold or a magazine holds, and no object is with both; each
      object has been constructed once more than destroyed just if it is constructed. */
  lemma KeptMeans(list: seq<Slab>, size: nat, held: set<Object>, at: map<Object, (nat, nat)>,
                  magazines: seq<seq<Slot>>, made: multiset<Object>, unmade: multiset<Object>, k: nat, i: nat)
    requires SlabsOk(list, size) && MagazinesOk(magazines, at) && Conserved(list, held, at) && Lives(list, made, unmade)
    requires k < |list|
    ensures i in list[k].inUse <==>
      Object(list[k].base, i) in held
      || exists c, j :: 0 <= c < |magazines| && 0 <= j < |magazines[c]| && magazines[c][j] == Holds(Object(list[k].base, i))
    ensures forall c, j :: 0 <= c < |magazines| && 0 <= j < |magazines[c]| && magazines[c][j].Holds? ==>
      magazines[c][j].item !in held
    ensures made[Object(list[k].base, i)] == unmade[Object(list[k].base, i)] + if i in list[k].constructed then 1 else 0
  {
    AtSlab(list, size, k, Object(list[k].base, i));
    hide InUse, Built;
  }

  lemma TakeKeeps(list: seq<Slab>, size: nat, cursor: nat, count: nat, slabs: nat, i: nat,
                  held: set<Object>, at: map<Object, (nat, nat)>, made: multiset<Object>, unmade: multiset<Object>)
    requires Good(list, size, cursor, count, slabs) && InOrder(list, cursor) && cursor < |list|
    requires i !in list[cursor].inUse && i < size
    requires i in list[cursor].constructed || i == |list[cursor].constructed|
    requires Conserved(list, held, at) && Lives(list, made, unmade)
    ensures var o := Object(list[cursor].base, i);
      var t := list[cursor := Took(list[cursor], i)];
      var c := if Full(t[cursor]) then cursor + 1 else cursor;
      && Good(t, size, c, count, slabs) && InOrder(t, c)
      && o !in held && o !in at && Conserved(t, held + {o}, at)
      && Lives(t, if i in list[cursor].constructed then made else made + multiset{o}, unmade)
  {
    assert SlabOk(list[cursor], size);
    hide Conserved, Lives;
    TakeAtCursor(list, size, cursor, i);
    TookKeeps(list[cursor], size, i);
    TookConserves(list, size, cursor, i, held, at);
    TookLives(list, size, cursor, i, made, unmade);
    CapacityUpdate(list, cursor, Took(list[cursor], i));
  }

  class Cache {
    const size: nat              // objects in a slab
    const reservation: nat
    const cap: nat
    var list: seq<Slab>
    var cursor: nat              // an index of list, or |list| for the list's anchor
    var count: nat
    var magazines: seq<seq<Slot>>
    var currentObjects: nat
    var currentSlabs: nat
    ghost var held: set<Object>  // what callers have
    ghost var at: map<Object, (nat, nat)>
    ghost var made: multiset<Object>
    ghost var unmade: multiset<Object>

    /** Everything but the order of the slabs. */
    ghost predicate Core()
      reads this
    {
      && 0 < size && cap < ULONG_RANGE && count <= cap && Good(list, size, cursor, count, currentSlabs)
      && MagazinesOk(magazines, at) && Conserved(list, held, at) && Lives(list, made, unmade)
    }

    ghost predicate Valid()
      reads this
    {
      Core() && InOrder(list, cursor) && currentObjects == |held|
    }

    constructor (size: nat, reservation: nat, cap: nat, processors: nat)
      requires 0 < size && cap < ULONG_RANGE
      ensures Valid() && list == [] && held == {} && |magazines| == processors
      ensures forall c :: 0 <= c < processors ==> magazines[c] == [Empty, Empty, Empty, Empty, Empty, Empty]
      ensures this.size == size && this.reservation == reservation
      ensures this.cap == (if cap == 0 then 0xFFFF_FFFF else cap)
    {
      this.size, this.reservation := size, reservation;
      this.cap := if cap == 0 then ULONG_RANGE - 1 else cap;
      list, cursor, count, currentObjects, currentSlabs := [], 0, 0, 0, 0;
      magazines := seq(processors, _ => seq(MAGAZINE_SLOTS, _ => Empty));
      held, at, made, unmade := {}, map[], multiset{}, multiset{};
    }

    /** Put a slab that is not full where it belongs, and set the cursor. */
    method CacheInsertSlab(s: Slab) returns (ghost place: nat)
      requires SlabsOk(list, size) && Ordered(list) && SlabOk(s, size) && !Full(s)
      requires forall k :: 0 <= k < |list| ==> list[k].base != s.base
      modifies this`list, this`cursor
      ensures place <= |old(list)| && list == old(list)[..place] + [s] + old(list)[place..]
      ensures forall k :: 0 <= k < place ==> |old(list)[k].inUse| >= |s.inUse|
      ensures place < |old(list)| ==> |old(list)[place].inUse| < |s.inUse|
      ensures SlabsOk(list, size) && InOrder(list, cursor)
      ensures s.inUse == {} ==> place == |old(list)|
    {
      var none := true;
      var i := 0;
      while i < |list|
        invariant list == old(list) && i <= |list|
        invariant forall k :: 0 <= k < i ==> |list[k].inUse| >= |s.inUse|
        invariant none ==> forall k :: 0 <= k < i ==> Full(list[k])
        invariant !none ==> cursor < i && !Full(list[cursor]) && forall k :: 0 <= k < cursor ==> Full(list[k])
      {
        if |list[i].inUse| < |s.inUse| {
          break;
        }
        if !Full(list[i]) && none {
          none, cursor := false, i;
        }
        i := i + 1;
      }
      if none {
        cursor := i;
      }
      place := i;
      InsertOrdered(list, s, i, cursor);
      InsertOk(list, size, s, i);
      list := Inserted(list, i, s);
    }

    /** Add an empty slab, unless that would take the cache over its cap or there is no memory.
        The count is a 32-bit one; `memory` is the address the pool returns, and a pool never
        holds so many objects that the count would wrap. */
    method CacheCreateSlab(memory: Option<nat>) returns (ok: bool)
      requires Valid()
      requires memory.Some? ==> count + size < ULONG_RANGE && forall s :: s in list ==> s.base != memory.value
      modifies this`list, this`cursor, this`count, this`currentSlabs
      ensures Valid()
      ensures ok <==> memory.Some? && count <= cap && old(count) + size <= cap
      ensures ok ==> list == old(list) + [Slab(memory.value, size, {}, {})] && count == old(count) + size
      ensures !ok ==> list == old(list) && count == old(count) && cursor == old(cursor)
    {
      hide SlabsOk, Ordered, Conserved, Lives, MagazinesOk, Capacity;
      if (count + size) % ULONG_RANGE > cap || memory == None {
        return false;
      }
      var s := Slab(memory.value, size, {}, {});
      ghost var before := list;
      ghost var place := CacheInsertSlab(s);
      EmptyKeeps(before, place, s, held, at, made, unmade);
      CapacityInsert(before, place, s);
      assert before[..|before|] == before;
      count := count + size;
      currentSlabs := currentSlabs + 1;
      return true;
    }

    /** Take an object from the slab under the cursor, if it has one constructed and free or the
        constructor succeeds. The object is not yet recorded as held. */
    method TakeAtTheCursor(constructs: bool) returns (got: Option<Object>)
      requires Valid() && cursor < |list|
      modifies this`list, this`cursor, this`made
      ensures Good(list, size, cursor, count, currentSlabs) && InOrder(list, cursor) && Lives(list, made, unmade)
      ensures got.Some? ==> got.value !in held && got.value !in at && Conserved(list, held + {got.value}, at)
      ensures got.None? ==> list == old(list) && cursor == old(cursor) && made == old(made)
      ensures got.Some? <==> constructs || HasSpare(old(list)[old(cursor)])
      ensures got.Some? ==> TakenFrom(old(list)[old(cursor)], got.value)
      ensures got.Some? ==> list == old(list)[old(cursor) := Took(old(list)[old(cursor)], got.value.index)]
      ensures got.Some? ==> made == old(made) + if HasSpare(old(list)[old(cursor)]) then multiset{} else multiset{got.value}
    {
      hide SlabsOk, Ordered, Conserved, Lives, MagazinesOk, Capacity, Good, InOrder, Took;
      NotFullAtCursor(list, size, cursor, count, currentSlabs);
      hide SlabOk;
      var ok, index := CacheGetObjectFromSlab(list[cursor], size, constructs);
      if !ok {
        return None;
      }
      var s := list[cursor];
      NextIndex(s, size, index);
      TakeKeeps(list, size, cursor, count, currentSlabs, index, held, at, made, unmade);
      if index !in s.constructed {
        made := made + multiset{Object(s.base, index)};
      }
      list := list[cursor := Took(s, index)];
      if Full(list[cursor]) {
        cursor := cursor + 1;
      }
      return Some(Object(s.base, index));
    }

    /** Take an object from the first slab that is not full, making one if there is none. */
    method GetFromSlabs(constructs: bool, memory: Option<nat>) returns (got: Option<Object>)
      requires Valid()
      requires memory.Some? ==> count + size < ULONG_RANGE && forall s :: s in list ==> s.base != memory.value
      modifies this`list, this`cursor, this`count, this`currentSlabs, this`made
      ensures Good(list, size, cursor, count, currentSlabs) && InOrder(list, cursor) && Lives(list, made, unmade)
      ensures count <= cap
      ensures got.Some? ==> got.value !in held && got.value !in at && Conserved(list, held + {got.value}, at)
      ensures got.None? ==> Conserved(list, held, at) && made == old(made)
      ensures got.Some? <==>
        if old(cursor) < |old(list)| then constructs || |old(list)[old(cursor)].inUse| < |old(list)[old(cursor)].constructed|
        else memory.Some? && old(count) + size <= cap && constructs
      ensures old(cursor) <= |old(list)|
      ensures old(cursor) == |old(list)| ==> forall s :: s in old(list) ==> |s.inUse| == s.size
      ensures got.None? ==>
        list == if old(cursor) == |old(list)| && memory.Some? && old(count) + size <= cap
                then old(list) + [Slab(memory.value, size, {}, {})] else old(list)
      ensures got.Some? && old(cursor) < |old(list)| ==>
        var s, o := old(list)[old(cursor)], got.value;
        && o.base == s.base && o.index !in s.inUse && (forall j :: 0 <= j < o.index ==> j in s.inUse)
        && list == old(list)[old(cursor) := s.(constructed := s.constructed + {o.index}, inUse := s.inUse + {o.index})]
        && made == old(made) + if |s.inUse| < |s.constructed| then multiset{} else multiset{o}
      ensures got.Some? && old(cursor) == |old(list)| ==>
        got.value == Object(memory.value, 0) && made == old(made) + multiset{got.value}
        && list == old(list) + [Slab(memory.value, size, {0}, {0})]
    {
      hide SlabsOk, Conserved, Lives, MagazinesOk, Capacity, Good, InOrder;
      AnchorMeansFull(list, cursor);
      got := None;
      var room := cursor < |list|;
      if room {
        got := TakeAtTheCursor(constructs);
      } else {
        room := CacheCreateSlab(memory);
        if room {
          ghost var s := Slab(memory.value, size, {}, {});
          assert list == old(list) + [s];
          CursorOnNew(list, size, cursor);
          NewTaken(old(list), s);
          got := TakeAtTheCursor(constructs);
        }
      }
    }

    /** Get an object: from the CPU's magazine if it holds one, otherwise from the first slab that
        is not full, otherwise from a new slab. The object was not held by anyone. `cached` says
        whether the magazine held one, and `slot` where. */
    method CacheGet(cpu: nat, constructs: bool, memory: Option<nat>)
      returns (got: Option<Object>, ghost cached: bool, ghost slot: nat)
      requires Valid() && cpu < |magazines|
      requires memory.Some? ==> count + size < ULONG_RANGE && forall s :: s in list ==> s.base != memory.value
      modifies this
      ensures Valid() && |magazines| == |old(magazines)|
      ensures got.Some? ==> got.value !in old(held) && held == old(held) + {got.value}
      ensures got.None? ==> held == old(held) && at == old(at) && made == old(made)
      ensures unmade == old(unmade)
      ensures cached <==> exists i :: 0 <= i < |old(magazines)[cpu]| && old(magazines)[cpu][i].Holds?
      // With an object in the CPU's magazine, its first goes and nothing else changes.
      ensures cached ==>
        && got.Some? && slot < |old(magazines)[cpu]| && old(magazines)[cpu][slot] == Holds(got.value)
        && (forall i :: 0 <= i < slot ==> old(magazines)[cpu][i] == Empty)
        && magazines == old(magazines)[cpu := old(magazines)[cpu][slot := Empty]]
      ensures cached ==> list == old(list) && cursor == old(cursor) && count == old(count) && made == old(made)
      // Without one, the magazines stay, and the slab under the cursor or a new one gives its
      // first index that is not in use, constructing it only if it has to.
      ensures !cached ==> magazines == old(magazines)
      ensures old(cursor) <= |old(list)|
      ensures old(cursor) == |old(list)| ==> forall s :: s in old(list) ==> |s.inUse| == s.size
      ensures !cached ==> (got.Some? <==>
        if old(cursor) < |old(list)| then constructs || |old(list)[old(cursor)].inUse| < |old(list)[old(cursor)].constructed|
        else memory.Some? && old(count) + size <= cap && constructs)
      ensures got.None? ==>
        list == if old(cursor) == |old(list)| && memory.Some? && old(count) + size <= cap
                then old(list) + [Slab(memory.value, size, {}, {})] else old(list)
      ensures !cached && got.Some? && old(cursor) < |old(list)| ==>
        var s, o := old(list)[old(cursor)], got.value;
        && o.base == s.base && o.index !in s.inUse && (forall j :: 0 <= j < o.index ==> j in s.inUse)
        && list == old(list)[old(cursor) := s.(constructed := s.constructed + {o.index}, inUse := s.inUse + {o.index})]
        && made == old(made) + if |s.inUse| < |s.constructed| then multiset{} else multiset{o}
      ensures !cached && got.Some? && old(cursor) == |old(list)| ==>
        && got.value == Object(memory.value, 0) && made == old(made) + multiset{got.value}
        && list == old(list) + [Slab(memory.value, size, {0}, {0})]
    {
      hide SlabsOk, Conserved, Lives, MagazinesOk, Capacity, Good, InOrder, NoneHeld, TakenFrom;
      AnchorMeansFull(list, cursor);
      got, slot := TakeFromMagazine(cpu);
      cached := got.Some?;
      if got == None {
        got := GetFromSlabs(constructs, memory);
      }
      if got.Some? {
        NowHeld(got.value);
      }
    }

    /** Take the object in the first slot of a magazine that holds one. */
    method TakeFromMagazine(cpu: nat) returns (got: Option<Object>, ghost slot: nat)
      requires MagazinesOk(magazines, at) && Conserved(list, held, at) && cpu < |magazines|
      modifies this`magazines, this`at
      ensures MagazinesOk(magazines, at) && |magazines| == |old(magazines)|
      ensures got.Some? <==> exists i :: 0 <= i < |old(magazines)[cpu]| && old(magazines)[cpu][i].Holds?
      ensures got.Some? ==> got.value !in held && Conserved(list, held + {got.value}, at)
      ensures got.Some? ==>
        && slot < |old(magazines)[cpu]| && old(magazines)[cpu][slot] == Holds(got.value)
        && (forall i :: 0 <= i < slot ==> old(magazines)[cpu][i] == Empty)
        && magazines == old(magazines)[cpu := old(magazines)[cpu][slot := Empty]]
      ensures got.None? ==> magazines == old(magazines) && at == old(at)
    {
      hide Conserved, MagazinesOk;
      MagazineLength(magazines, at, cpu);
      var after;
      got, after, slot := CacheGetObjectFromMagazine(magazines[cpu]);
      if got.Some? {
        MagazineTake(magazines, at, cpu, slot);
        HeldFromMagazine(list, held, at, got.value);
        magazines := magazines[cpu := after];
        at := at - {got.value};
      }
    }

    method NowHeld(o: Object)
      requires currentObjects == |held| && o !in held
      modifies this`held, this`currentObjects
      ensures held == old(held) + {o} && currentObjects == |held|
    {
      currentObjects := currentObjects + 1;
      held := held + {o};
    }

    method NoLongerHeld(o: Object)
      requires currentObjects == |held| && o in held
      modifies this`held, this`currentObjects
      ensures held == old(held) - {o} && currentObjects == |held|
    {
      currentObjects := currentObjects - 1;
      held := held - {o};
    }

    /** Return an object: to the CPU's magazine if it has an empty slot, otherwise to its slab,
        which then moves to where it belongs. `cached` says whether the magazine had one, `slot`
        where, `k` where the slab was and `place` where among the others it goes. */
    method CachePut(cpu: nat, o: Object) returns (ghost cached: bool, ghost slot: nat, ghost k: nat, ghost place: nat)
      requires Valid() && cpu < |magazines| && o in held
      modifies this
      ensures Valid() && |magazines| == |old(magazines)|
      ensures held == old(held) - {o} && made == old(made) && unmade == old(unmade)
      ensures count == old(count)
      ensures cached <==> exists i :: 0 <= i < |old(magazines)[cpu]| && old(magazines)[cpu][i] == Empty
      ensures cached ==>
        && slot < |old(magazines)[cpu]| && old(magazines)[cpu][slot] == Empty
        && (forall i :: 0 <= i < slot ==> old(magazines)[cpu][i].Holds?)
        && magazines == old(magazines)[cpu := old(magazines)[cpu][slot := Holds(o)]]
      ensures cached ==> list == old(list) && cursor == old(cursor)
      ensures !cached ==> at == old(at) && magazines == old(magazines)
      ensures !cached ==> k < |old(list)| && old(list)[k].base == o.base && o.index in old(list)[k].inUse
      ensures !cached ==>
        var s, others := old(list)[k].(inUse := old(list)[k].inUse - {o.index}), old(list)[..k] + old(list)[k + 1..];
        && place <= |others| && list == others[..place] + [s] + others[place..]
        && (forall j :: 0 <= j < place ==> |others[j].inUse| >= |s.inUse|)
        && (place < |others| ==> |others[place].inUse| < |s.inUse|)
    {
      hide SlabsOk, Conserved, Lives, MagazinesOk, Capacity, Good, InOrder;
      var ok;
      ok, slot := PutToMagazine(cpu, o);
      cached, k, place := ok, 0, 0;
      if !ok {
        k, place := PutToSlab(o);
      }
      NoLongerHeld(o);
    }

    /** Put an object into the first empty slot of a magazine. */
    method PutToMagazine(cpu: nat, o: Object) returns (ok: bool, ghost slot: nat)
      requires MagazinesOk(magazines, at) && Conserved(list, held, at) && cpu < |magazines| && o in held
      modifies this`magazines, this`at
      ensures MagazinesOk(magazines, at) && Conserved(list, if ok then held - {o} else held, at)
      ensures ok <==> exists i :: 0 <= i < |old(magazines)[cpu]| && old(magazines)[cpu][i] == Empty
      ensures ok ==>
        && slot < |old(magazines)[cpu]| && old(magazines)[cpu][slot] == Empty
        && (forall i :: 0 <= i < slot ==> old(magazines)[cpu][i].Holds?)
        && magazines == old(magazines)[cpu := old(magazines)[cpu][slot := Holds(o)]]
      ensures !ok ==> magazines == old(magazines) && at == old(at)
    {
      hide Conserved, MagazinesOk;
      MagazineLength(magazines, at, cpu);
      HeldNotCached(list, held, at, o);
      var after;
      ok, after, slot := CachePutObjectToMagazine(magazines[cpu], o);
      if ok {
        MagazineGive(magazines, at, cpu, slot, o);
        CachedFromHeld(list, held, at, o, (cpu, slot));
        magazines := magazines[cpu := after];
        at := at[o := (cpu, slot)];
      }
    }

    /** The slab part of CachePut: clear the object's bit and reinsert its slab. */
    method PutToSlab(o: Object) returns (ghost k: nat, ghost place: nat)
      requires Valid() && o in held
      modifies this`list, this`cursor
      ensures Good(list, size, cursor, count, currentSlabs) && InOrder(list, cursor) && Lives(list, made, unmade)
      ensures Conserved(list, held - {o}, at)
      ensures k < |old(list)| && old(list)[k].base == o.base && o.index in old(list)[k].inUse
      ensures
        var s, others := old(list)[k].(inUse := old(list)[k].inUse - {o.index}), old(list)[..k] + old(list)[k + 1..];
        && place <= |others| && list == others[..place] + [s] + others[place..]
        && (forall j :: 0 <= j < place ==> |others[j].inUse| >= |s.inUse|)
        && (place < |others| ==> |others[place].inUse| < |s.inUse|)
    {
      hide SlabsOk, Conserved, Lives, MagazinesOk, Capacity, Good, InOrder;
      HeldNotCached(list, held, at, o);
      InUseSlab(list, size, cursor, count, currentSlabs, held, at, o);
      var i :| 0 <= i < |list| && list[i].base == o.base && o.index in list[i].inUse;
      k := i;
      var s := Gave(list[i], o.index);
      GaveKeeps(list[k], size, o.index);
      GaveGood(list, size, cursor, count, currentSlabs, k, o, held, at, made, unmade);
      RemoveGood(list, size, cursor, count, currentSlabs, k);
      RemoveInOrder(list, size, cursor, k);
      ghost var before, was := list[k := s], cursor;
      assert Removed(before, k) == Removed(list, k);
      list := list[..i] + list[i + 1..];
      place := CacheInsertSlab(s);
      MovedKeeps(before, k, place, held - {o}, at, made, unmade);
      AnchorMeansFull(list, cursor);
      MovedGood(before, size, was, count, currentSlabs, k, place, cursor);
    }

    /** Run the destructor for every constructed object of a slab, from the highest index down. */
    method DestroyObjects(s: Slab)
      requires forall i :: i in s.constructed ==> i < s.size
      modifies this`unmade
      ensures Destroyed(old(unmade), unmade, s, 0)
    {
      var constructed := s.constructed;
      var index := s.size;
      while index > 0
        invariant 0 <= index <= s.size && constructed == set i | i in s.constructed && i < index
        invariant Destroyed(old(unmade), unmade, s, index)
      {
        index := index - 1;
        if index in constructed {
          unmade := unmade + multiset{Object(s.base, index)};
          constructed := constructed - {index};
        }
      }
    }

    /** Destroy the last slab, which has nothing in use, and every object constructed in it. */
    method CacheDestroySlab()
      requires Core() && list != [] && list[|list| - 1].inUse == {}
      modifies this`list, this`cursor, this`count, this`currentSlabs, this`unmade
      ensures Core() && list == old(list)[..|old(list)| - 1]
      ensures old(InOrder(list, cursor)) ==> InOrder(list, cursor)
      ensures count + size == old(count)
      ensures Destroyed(old(unmade), unmade, old(list)[|old(list)| - 1], 0)
    {
      hide SlabsOk, Conserved, MagazinesOk, Capacity, Good, InOrder, Lives, Destroyed;
      var n := |list| - 1;
      var s := list[n];
      LastGood(list, size, cursor, count, currentSlabs);
      LastInOrder(list, cursor);
      LastConserved(list, held, at);
      ghost var before, was := list, unmade;
      DestroyObjects(s);
      LastLives(before, size, cursor, count, currentSlabs, made, was, unmade);
      count := count - s.size;
      // The anchor comes after the last slab, so a cursor on either ends up on the anchor.
      if cursor == |list| {
        cursor := n;
      }
      list := list[..n];
      currentSlabs := currentSlabs - 1;
    }

    /** Destroy empty slabs from the end of the list, as long as that leaves at least `target`
        objects. It stops early only when no slab is empty. */
    method CacheSpill(target: nat)
      requires Core() && (InOrder(list, cursor) || forall s :: s in list ==> s.inUse == {})
      modifies this`list, this`cursor, this`count, this`currentSlabs, this`unmade
      ensures Core() && |list| <= |old(list)| && list == old(list)[..|list|]
      ensures old(InOrder(list, cursor)) ==> InOrder(list, cursor)
      ensures forall s :: s in old(list)[|list|..] ==> s.inUse == {}
      ensures old(count) <= target ==> list == old(list) && count == old(count)
      ensures old(count) >= target ==> count >= target
      ensures old(count) > target && count >= target + size ==> forall s :: s in list ==> s.inUse != {}
    {
      hide SlabsOk, Conserved, MagazinesOk, Capacity, Good, Lives, InOrder;
      if count <= target {
        return;
      }
      while list != []
        invariant Core() && |list| <= |old(list)| && list == old(list)[..|list|]
        invariant old(InOrder(list, cursor)) ==> InOrder(list, cursor)
        invariant InOrder(list, cursor) || forall s :: s in list ==> s.inUse == {}
        invariant forall s :: s in old(list)[|list|..] ==> s.inUse == {}
        invariant count >= target
        decreases |list|
      {
        LastGood(list, size, cursor, count, currentSlabs);
        LastEmpty(list, cursor);
        if list[|list| - 1].inUse != {} {
          break;
        }
        if count - list[|list| - 1].size < target {
          break;
        }
        assert old(list)[|list| - 1..] == [list[|list| - 1]] + old(list)[|list|..];
        CacheDestroySlab();
      }
      NoneLeft(list, size, cursor, count, currentSlabs);
    }

    /** Create slabs until there are at least `target` objects. `pool` is what the memory pool
        returns, allocation by allocation. */
    method CacheFill(target: nat, pool: seq<Option<nat>>) returns (ok: bool)
      requires Valid() && target + size <= ULONG_RANGE && Fresh(list, pool)
      modifies this`list, this`cursor, this`count, this`currentSlabs
      ensures Valid() && (ok <==> count >= target)
      ensures |old(list)| <= |list| && list[..|old(list)|] == old(list)
      ensures forall s :: s in list[|old(list)|..] ==> s.inUse == {} && s.constructed == {}
      ensures old(count) >= target ==> list == old(list)
      ensures count >= old(count) && (old(count) < target ==> count < target + size)
      ensures !ok ==> var n := |list| - |old(list)|; n >= |pool| || pool[n] == None || count + size > cap
    {
      hide SlabsOk, Conserved, MagazinesOk, Capacity, Good, InOrder, Lives;
      var n := 0;
      ok := true;
      while count < target && ok
        invariant Valid() && n <= |pool| && Fresh(list, pool[n..])
        invariant |old(list)| <= |list| && list[..|old(list)|] == old(list)
        invariant forall s :: s in list[|old(list)|..] ==> s.inUse == {} && s.constructed == {}
        invariant old(count) >= target ==> list == old(list)
        invariant count >= old(count) && (old(count) < target ==> count < target + size)
        invariant !ok ==> count < target
        invariant |list| == |old(list)| + n && (!ok ==> n >= |pool| || pool[n] == None || count + size > cap)
        decreases |pool| - n, ok
      {
        var memory := if n < |pool| then pool[n] else None;
        ghost var before := list;
        ok := CacheCreateSlab(memory);
        if ok {
          assert list[|old(list)|..] == before[|old(list)|..] + [list[|before|]];
          FreshNext(before, pool[n..], list[|before|]);
          assert pool[n..][1..] == pool[n + 1..];
          n := n + 1;
        }
      }
    }

    /** One visit of the monitor: fill up to the reservation, as far as the pool and the cap let
        it, or give back empty slabs, down to the reservation or half of what there was. */
    method CacheMonitorStep(pool: seq<Option<nat>>)
      requires Valid() && reservation + size <= ULONG_RANGE && Fresh(list, pool)
      modifies this`list, this`cursor, this`count, this`currentSlabs, this`unmade
      ensures Valid()
      ensures old(count) >= reservation ==> count >= reservation
      ensures old(count) < reservation ==> old(count) <= count < reservation + size
      ensures old(count) < reservation && count < reservation ==>
        var n := |list| - |old(list)|;
        n >= 0 && (n >= |pool| || pool[n] == None || count + size > cap)
      ensures old(count) < reservation ==>
        |old(list)| <= |list| && list[..|old(list)|] == old(list)
        && forall s :: s in list[|old(list)|..] ==> s.inUse == {} && s.constructed == {}
      ensures old(count) > reservation ==>
        |list| <= |old(list)| && list == old(list)[..|list|] && forall s :: s in old(list)[|list|..] ==> s.inUse == {}
      ensures old(count) == reservation ==> list == old(list)
      ensures 2 * count + 1 >= old(count)
      ensures old(count) > reservation && count >= (if reservation > old(count) / 2 then reservation else old(count) / 2) + size
              ==> forall s :: s in list ==> s.inUse != {}
    {
      hide SlabsOk, Conserved, MagazinesOk, Capacity, Good, InOrder, Lives;
      if count < reservation {
        var ok := CacheFill(reservation, pool);
      } else if count > reservation {
        CacheSpill(if reservation > count / 2 then reservation else count / 2);
      }
    }

    /** Put every object in a magazine back into its slab. The slabs are not put back in order. */
    method CacheFlushMagazines()
      requires Core()
      modifies this`list, this`magazines, this`at
      ensures Core() && at == map[] && |list| == |old(list)| && |magazines| == |old(magazines)|
      ensures forall c, i :: 0 <= c < |magazines| && 0 <= i < |magazines[c]| ==> magazines[c][i] == Empty
      ensures forall k :: 0 <= k < |list| ==> list[k].(inUse := {}) == old(list)[k].(inUse := {})
      ensures forall s, i :: s in list ==> (i in s.inUse <==> Object(s.base, i) in held)
    {
      hide SlabsOk, Conserved, MagazinesOk, Capacity, Good, Lives, NoneHeld;
      var c := 0;
      while c < |magazines|
        invariant Core() && c <= |magazines| && |list| == |old(list)| && |magazines| == |old(magazines)|
        invariant forall k :: 0 <= k < |list| ==> list[k].(inUse := {}) == old(list)[k].(inUse := {})
        invariant forall k :: 0 <= k < c ==> NoneHeld(magazines[k])
        decreases |magazines| - c, |at|
      {
        MagazineLength(magazines, at, c);
        var got, after;
        ghost var slot;
        got, after, slot := CacheGetObjectFromMagazine(magazines[c]);
        if got.Some? {
          var o := got.value;
          MagazineTake(magazines, at, c, slot);
          HeldFromMagazine(list, held, at, o);
          PutUnsorted(o);
          magazines := magazines[c := after];
          at := at - {o};
        } else {
          c := c + 1;
        }
      }
      NoneCached(magazines, at);
      OnlyHeld(list, size, cursor, count, currentSlabs, held, at);
      forall c | 0 <= c < |magazines| ensures forall i :: 0 <= i < |magazines[c]| ==> magazines[c][i] == Empty {
        NoneHeldMeans(magazines[c]);
      }
    }

    /** The slab part of the flush: clear the bit of an object that sits in a magazine. */
    method PutUnsorted(o: Object)
      requires Good(list, size, cursor, count, currentSlabs) && Conserved(list, held, at) && o in at && o !in held
      requires Lives(list, made, unmade)
      modifies this`list
      ensures Good(list, size, cursor, count, currentSlabs) && Conserved(list, held, at - {o})
      ensures Lives(list, made, unmade) && |list| == |old(list)|
      ensures forall k :: 0 <= k < |list| ==> list[k].(inUse := {}) == old(list)[k].(inUse := {})
    {
      hide SlabsOk, Conserved, Capacity, Good, Lives;
      HeldFromMagazine(list, held, at, o);
      InUseSlab(list, size, cursor, count, currentSlabs, held + {o}, at - {o}, o);
      var k :| 0 <= k < |list| && list[k].base == o.base && o.index in list[k].inUse;
      GaveKeeps(list[k], size, o.index);
      GaveGood(list, size, cursor, count, currentSlabs, k, o, held, at, made, unmade);
      assert held - {o} == held;
      list := list[k := Gave(list[k], o.index)];
    }

    /** With nothing held, flushing and spilling to nothing leaves no slab, and every object has
        been destroyed as often as it was constructed. */
    method CacheDestroy()
      requires Valid() && held == {}
      modifies this
      ensures list == [] && count == 0 && currentSlabs == 0 && currentObjects == 0
      ensures made == old(made) && made == unmade
    {
      hide SlabsOk, Conserved, MagazinesOk, Capacity, Good, Lives, NoneHeld;
      CacheFlushMagazines();
      NoneInUse(list, held, at);
      CacheSpill(0);
      GoodEmpty(list, size, cursor, count, currentSlabs);
      assert forall s :: s in list ==> s.inUse == {};
      AllUnmade(list, made, unmade);
    }
  }

  /** The pool returns addresses where no slab lies, and never the same one twice. */
  ghost predicate Fresh(list: seq<Slab>, pool: seq<Option<nat>>) {
    && (forall i, s :: 0 <= i < |pool| && pool[i].Some? && s in list ==> s.base != pool[i].value)
    && (forall i, j :: 0 <= i < j < |pool| && pool[i].Some? ==> pool[i] != pool[j])
  }

  lemma FreshNext(list: seq<Slab>, pool: seq<Option<nat>>, s: Slab)
    requires Fresh(list, pool) && pool != [] && pool[0] == Some(s.base)
    ensures Fresh(list + [s], pool[1..])
  {
  }

  lemma CachedWhere(magazines: seq<seq<Slot>>, at: map<Object, (nat, nat)>)
    requires MagazinesOk(magazines, at) && forall c :: 0 <= c < |magazines| ==> NoneHeld(magazines[c])
    ensures forall o :: o in at ==> at[o].0 < |magazines| && NoneHeld(magazines[at[o].0])
  {
    hide NoneHeld;
  }

  lemma NoneCached(magazines: seq<seq<Slot>>, at: map<Object, (nat, nat)>)
    requires MagazinesOk(magazines, at) && forall c :: 0 <= c < |magazines| ==> NoneHeld(magazines[c])
    ensures at == map[]
  {
    CachedWhere(magazines, at);
    assert forall o :: o !in at;
  }

  /** With nothing in a magazine, just what callers hold is in use. */
  lemma OnlyHeld(list: seq<Slab>, size: nat, cursor: nat, count: nat, slabs: nat,
                 held: set<Object>, at: map<Object, (nat, nat)>)
    requires Good(list, size, cursor, count, slabs) && Conserved(list, held, at) && at == map[]
    ensures forall s, i :: s in list ==> (i in s.inUse <==> Object(s.base, i) in held)
  {
    hide Conserved;
    forall s, i | s in list ensures i in s.inUse <==> Object(s.base, i) in held {
      var k :| 0 <= k < |list| && list[k] == s;
      AtSlab(list, size, k, Object(s.base, i));
      InUseMeans(list, held, at, Object(s.base, i));
    }
  }

  lemma InUseMeans(list: seq<Slab>, held: set<Object>, at: map<Object, (nat, nat)>, o: Object)
    requires Conserved(list, held, at)
    ensures InUse(list, o) <==> o in held || o in at
  {
    hide InUse;
  }

  lemma NoneInUse(list: seq<Slab>, held: set<Object>, at: map<Object, (nat, nat)>)
    requires Conserved(list, held, at) && held == {} && at == map[]
    ensures forall s :: s in list ==> s.inUse == {}
  {
    forall s | s in list ensures s.inUse == {} {
      forall i ensures i !in s.inUse {
        assert i in s.inUse ==> InUse(list, Object(s.base, i));
      }
    }
  }

  lemma GoodEmpty(list: seq<Slab>, size: nat, cursor: nat, count: nat, slabs: nat)
    requires Good(list, size, cursor, count, slabs) && size > 0
    ensures list == [] <==> count == 0
    ensures list != [] ==> count >= size && list[0] in list
    ensures slabs == |list|
  {
  }

  lemma AllUnmade(list: seq<Slab>, made: multiset<Object>, unmade: multiset<Object>)
    requires Lives(list, made, unmade) && list == []
    ensures made == unmade
  {
    forall o ensures made[o] == unmade[o] {
      assert !Built(list, o);
    }
  }

  lemma LastGood(list: seq<Slab>, size: nat, cursor: nat, count: nat, slabs: nat)
    requires Good(list, size, cursor, count, slabs) && list != []
    ensures SlabOk(list[|list| - 1], size) && list[|list| - 1].size == size
    ensures cursor <= |list| && slabs == |list| && count >= size
    ensures Good(list[..|list| - 1], size, if cursor == |list| then cursor - 1 else cursor, count - size, slabs - 1)
  {
  }

  lemma LastInOrder(list: seq<Slab>, cursor: nat)
    requires list != []
    ensures InOrder(list, cursor) ==>
      cursor <= |list| && InOrder(list[..|list| - 1], if cursor == |list| then cursor - 1 else cursor)
  {
  }

  lemma LastConserved(list: seq<Slab>, held: set<Object>, at: map<Object, (nat, nat)>)
    requires list != [] && list[|list| - 1].inUse == {} && Conserved(list, held, at)
    ensures Conserved(list[..|list| - 1], held, at)
  {
    hide InUse;
    var n := |list| - 1;
    assert Removed(list, n) == list[..n];
    forall o ensures InUse(list[..n], o) <==> InUse(list, o) {
      RemoveMembers(list, n, o);
    }
  }

  lemma LastLives(list: seq<Slab>, size: nat, cursor: nat, count: nat, slabs: nat,
                  made: multiset<Object>, before: multiset<Object>, after: multiset<Object>)
    requires list != [] && Good(list, size, cursor, count, slabs) && Lives(list, made, before)
    requires Destroyed(before, after, list[|list| - 1], 0)
    ensures Lives(list[..|list| - 1], made, after)
  {
    hide Built;
    var n := |list| - 1;
    assert Removed(list, n) == list[..n];
    RemoveOk(list, size, n);
    forall o ensures made[o] == after[o] + if Built(list[..n], o) then 1 else 0 {
      RemoveMembers(list, n, o);
      if o.base == list[n].base {
        NotBuiltElsewhere(list[..n], o);
      }
    }
  }

  lemma NotBuiltElsewhere(list: seq<Slab>, o: Object)
    requires forall k :: 0 <= k < |list| ==> list[k].base != o.base
    ensures !Built(list, o)
  {
  }

  /** In an ordered list the last slab is empty if any is. */
  lemma LastEmpty(list: seq<Slab>, cursor: nat)
    requires list != [] && (InOrder(list, cursor) || forall s :: s in list ==> s.inUse == {})
    ensures list[|list| - 1].inUse != {} ==> forall s :: s in list ==> s.inUse != {}
  {
    if list[|list| - 1].inUse != {} {
      assert list[|list| - 1] in list;
      LastIsEmptiest(list);
    }
  }

  lemma NoneLeft(list: seq<Slab>, size: nat, cursor: nat, count: nat, slabs: nat)
    requires Good(list, size, cursor, count, slabs)
    ensures list == [] ==> count == 0
  {
  }

  lemma HeldNotCached(list: seq<Slab>, held: set<Object>, at: map<Object, (nat, nat)>, o: Object)
    requires Conserved(list, held, at) && o in held
    ensures o !in at && at - {o} == at && InUse(list, o)
  {
  }

  lemma CachedFromHeld(list: seq<Slab>, held: set<Object>, at: map<Object, (nat, nat)>, o: Object, where: (nat, nat))
    requires Conserved(list, held, at) && o in held
    ensures Conserved(list, held - {o}, at[o := where])
  {
    hide InUse;
  }

  lemma InUseSlab(list: seq<Slab>, size: nat, cursor: nat, count: nat, slabs: nat,
                  held: set<Object>, at: map<Object, (nat, nat)>, o: Object)
    requires Good(list, size, cursor, count, slabs) && Conserved(list, held, at) && o in held
    ensures exists k :: 0 <= k < |list| && list[k].base == o.base && o.index in list[k].inUse
    ensures forall k :: 0 <= k < |list| ==> SlabOk(list[k], size)
  {
    assert InUse(list, o);
    var s :| s in list && s.base == o.base && o.index in s.inUse;
    var k :| 0 <= k < |list| && list[k] == s;
    assert SlabOk(list[k], size);
  }

  lemma GaveGood(list: seq<Slab>, size: nat, cursor: nat, count: nat, slabs: nat, k: nat, o: Object,
                 held: set<Object>, at: map<Object, (nat, nat)>, made: multiset<Object>, unmade: multiset<Object>)
    requires Good(list, size, cursor, count, slabs) && k < |list| && list[k].base == o.base
    requires SlabOk(Gave(list[k], o.index), size)
    requires Conserved(list, held, at) && Lives(list, made, unmade)
    ensures var t := list[k := Gave(list[k], o.index)];
      Good(t, size, cursor, count, slabs) && Conserved(t, held - {o}, at - {o}) && Lives(t, made, unmade)
  {
    hide Conserved, Lives;
    GaveConserves(list, size, k, o.index, held, at);
    GaveLives(list, size, k, o.index, made, unmade);
    CapacityUpdate(list, k, Gave(list[k], o.index));
  }

  lemma RemoveGood(list: seq<Slab>, size: nat, cursor: nat, count: nat, slabs: nat, k: nat)
    requires Good(list, size, cursor, count, slabs) && k < |list|
    ensures SlabsOk(Removed(list, k), size)
    ensures forall j :: 0 <= j < |Removed(list, k)| ==> Removed(list, k)[j].base != list[k].base
  {
    RemoveOk(list, size, k);
  }

  lemma RemoveInOrder(list: seq<Slab>, size: nat, cursor: nat, k: nat)
    requires InOrder(list, cursor) && k < |list|
    ensures Ordered(Removed(list, k))
  {
    var t := Removed(list, k);
    assert forall j :: 0 <= j < |t| ==> t[j] == if j < k then list[j] else list[j + 1];
  }

  lemma MovedGood(list: seq<Slab>, size: nat, cursor: nat, count: nat, slabs: nat, k: nat, place: nat, to: nat)
    requires Good(list, size, cursor, count, slabs) && k < |list| && place < |list| && to <= |list|
    requires SlabsOk(Inserted(Removed(list, k), place, list[k]), size)
    ensures Good(Inserted(Removed(list, k), place, list[k]), size, to, count, slabs)
  {
    hide SlabsOk;
    CapacityRemove(list, k);
    CapacityInsert(Removed(list, k), place, list[k]);
  }

  lemma AnchorMeansFull(list: seq<Slab>, cursor: nat)
    requires InOrder(list, cursor)
    ensures cursor <= |list|
    ensures cursor == |list| ==> forall s :: s in list ==> Full(s)
  {
  }

  /** When an empty slab has been added behind full ones, the cursor is on it. */
  lemma CursorOnNew(list: seq<Slab>, size: nat, cursor: nat)
    requires InOrder(list, cursor) && size > 0 && list != []
    requires list[|list| - 1].inUse == {} && list[|list| - 1].size == size
    requires forall k :: 0 <= k < |list| - 1 ==> Full(list[k])
    ensures cursor == |list| - 1
  {
  }

  lemma MagazineLength(magazines: seq<seq<Slot>>, at: map<Object, (nat, nat)>, c: nat)
    requires MagazinesOk(magazines, at) && c < |magazines|
    ensures |magazines[c]| == MAGAZINE_SLOTS
  {
  }

  lemma NextIndex(s: Slab, size: nat, i: nat)
    requires SlabOk(s, size) && i < size && i !in s.inUse
    requires i in s.constructed <==> HasSpare(s)
    requires i !in s.constructed ==> i == |s.constructed|
    ensures i in s.constructed || i == |s.constructed|
  {
  }

  /** The object is the first in the slab that is not in use. */
  predicate TakenFrom(s: Slab, o: Object) {
    o.base == s.base && o.index !in s.inUse && forall j :: 0 <= j < o.index ==> j in s.inUse
  }

  lemma NoneHeldMeans(magazine: seq<Slot>)
    ensures NoneHeld(magazine) <==> forall i :: 0 <= i < |magazine| ==> magazine[i] == Empty
  {
  }

  /** The first object of a new slab is at index 0, and has to be constructed. */
  lemma NewTaken(list: seq<Slab>, s: Slab)
    requires s.inUse == {} && s.constructed == {}
    ensures !HasSpare(s)
    ensures forall o: Object :: TakenFrom(s, o) ==> o == Object(s.base, 0)
    ensures forall t :: (list + [s])[|list| := t] == list + [t]
    ensures Took(s, 0) == s.(constructed := {0}, inUse := {0})
  {
    forall o | TakenFrom(s, o) ensures o == Object(s.base, 0) {
      assert 0 < o.index ==> 0 in s.inUse;
    }
  }

  /** A slab has an object that is constructed and free. */
  predicate HasSpare(s: Slab) {
    |s.inUse| < |s.constructed|
  }

  lemma NotFullAtCursor(list: seq<Slab>, size: nat, cursor: nat, count: nat, slabs: nat)
    requires Good(list, size, cursor, count, slabs) && InOrder(list, cursor) && cursor < |list|
    ensures SlabOk(list[cursor], size) && !Full(list[cursor])
  {
  }

  lemma HeldFromMagazine(list: seq<Slab>, held: set<Object>, at: map<Object, (nat, nat)>, o: Object)
    requires Conserved(list, held, at) && o in at
    ensures o !in held && Conserved(list, held + {o}, at - {o})
  {
    hide InUse;
  }
}
