/** The map of loaded kernel modules: a sorted list of address ranges with a cursor that stays
    on the last module added. Adding a module evicts every module it overlaps. */
module ModuleMap {

  const ADDRESS_SPACE := 0x1_0000_0000_0000_0000
  const MODULE_PATH_LEN := 256

  /** An address range [start, end]; a module of size 0 has end == start - 1. */
  datatype Module = Module(start: nat, end: int, name: string)

  predicate Contains(m: Module, address: nat) {
    m.start <= address <= m.end
  }

  /** The test by which one module displaces another. */
  predicate Overlaps(a: Module, b: Module) {
    a.start <= b.end && b.start <= a.end
  }

  /** The test means that the modules share an address, if neither is empty: x is one if there is
      any, whatever address y one tries. */
  lemma OverlapMeans(a: Module, b: Module, y: int) returns (x: int)
    requires a.start <= a.end && b.start <= b.end
    ensures Overlaps(a, b) <==> a.start <= x <= a.end && b.start <= x <= b.end
    ensures a.start <= y <= a.end && b.start <= y <= b.end ==> Overlaps(a, b)
  {
    x := if a.start < b.start then b.start else a.start;
  }

  ghost predicate WellFormed(m: Module) {
    m.start - 1 <= m.end < ADDRESS_SPACE
  }

  ghost predicate Sorted(s: seq<Module>) {
    && (forall i :: 0 <= i < |s| ==> WellFormed(s[i]))
    && (forall i, j :: 0 <= i < j < |s| ==> s[i].end < s[j].start)
  }

  /** The modules of a list that `m` does not displace, in order. */
  ghost function Survivors(s: seq<Module>, m: Module): seq<Module> {
    if s == [] then []
    else Survivors(s[..|s| - 1], m) + (if Overlaps(m, s[|s| - 1]) then [] else [s[|s| - 1]])
  }

  lemma {:induction false} SurvivorsAppend(a: seq<Module>, b: seq<Module>, m: Module)
    ensures Survivors(a + b, m) == Survivors(a, m) + Survivors(b, m)
    decreases |b|
  {
    if b == [] {
      assert a + b == a;
    } else {
      assert (a + b)[..|a + b| - 1] == a + b[..|b| - 1];
      SurvivorsAppend(a, b[..|b| - 1], m);
    }
  }

  /** Taking an overlapped module out of a list changes nothing about its survivors. */
  lemma SurvivorsDrop(s: seq<Module>, i: nat, m: Module)
    requires i < |s| && Overlaps(m, s[i])
    ensures Survivors(s[..i] + s[i + 1..], m) == Survivors(s, m)
  {
    hide Survivors;
    SurvivorsAppend(s[..i], s[i + 1..], m);
    SurvivorsAppend(s[..i], [s[i]], m);
    SurvivorsAppend(s[..i] + [s[i]], s[i + 1..], m);
    SurvivorsOfOne(s[i], m);
    assert s[..i] + [s[i]] + s[i + 1..] == s;
  }

  lemma SurvivorsOfOne(x: Module, m: Module)
    requires Overlaps(m, x)
    ensures Survivors([x], m) == []
  {
    assert [x][..0] == [];
  }

  lemma {:induction false} NothingOverlapped(s: seq<Module>, m: Module)
    requires forall i :: 0 <= i < |s| ==> !Overlaps(m, s[i])
    ensures Survivors(s, m) == s
    decreases |s|
  {
    if s != [] {
      NothingOverlapped(s[..|s| - 1], m);
      assert s == s[..|s| - 1] + [s[|s| - 1]];
    }
  }

  lemma {:induction false} SurvivorsMembers(s: seq<Module>, m: Module)
    ensures forall x :: x in Survivors(s, m) <==> x in s && !Overlaps(m, x)
    decreases |s|
  {
    if s != [] {
      SurvivorsMembers(s[..|s| - 1], m);
      assert s == s[..|s| - 1] + [s[|s| - 1]];
    }
  }

  /** Each module survives as often as it was there, or not at all. */
  lemma {:induction false} SurvivorsCount(s: seq<Module>, m: Module, x: Module)
    ensures multiset(Survivors(s, m))[x] == if m.start <= x.end && x.start <= m.end then 0 else multiset(s)[x]
    decreases |s|
  {
    if s != [] {
      SurvivorsCount(s[..|s| - 1], m, x);
      assert s == s[..|s| - 1] + [s[|s| - 1]];
    }
  }

  lemma EvictedAre(s: seq<Module>, m: Module, evicted: seq<Module>)
    requires multiset(evicted) + multiset(Survivors(s, m)) == multiset(s)
    ensures forall x :: x in s ==> (x in evicted <==> m.start <= x.end && x.start <= m.end)
  {
    hide Survivors;
    forall x | x in s ensures x in evicted <==> m.start <= x.end && x.start <= m.end {
      SurvivorsCount(s, m, x);
      assert multiset(s)[x] > 0;
      assert multiset(evicted)[x] + multiset(Survivors(s, m))[x] == multiset(s)[x];
      assert x in evicted <==> multiset(evicted)[x] > 0;
    }
  }

  // ---- The history of loads ----

  /** Load k displaced nothing that was loaded after it, and nothing displaced it. */
  ghost predicate Live(loads: seq<Module>, k: nat)
    requires k < |loads|
  {
    forall j :: k < j < |loads| ==> !Overlaps(loads[j], loads[k])
  }

  ghost predicate LiveModule(loads: seq<Module>, m: Module) {
    exists k :: 0 <= k < |loads| && loads[k] == m && Live(loads, k)
  }

  /** After one more load, the live modules are those it does not overlap, and itself. */
  lemma LiveAfterLoad(loads: seq<Module>, m: Module, x: Module)
    ensures LiveModule(loads + [m], x) <==> x == m || (LiveModule(loads, x) && !Overlaps(m, x))
  {
    var all := loads + [m];
    if x == m {
      assert all[|loads|] == m && Live(all, |loads|);
    }
    if LiveModule(loads, x) && !Overlaps(m, x) {
      var k :| 0 <= k < |loads| && loads[k] == x && Live(loads, k);
      assert all[k] == x && Live(all, k) by {
        forall j | k < j < |all| ensures !Overlaps(all[j], all[k]) {
          if j < |loads| {
            assert all[j] == loads[j];
          }
        }
      }
    }
    if LiveModule(all, x) && x != m {
      var k :| 0 <= k < |all| && all[k] == x && Live(all, k);
      assert k < |loads| && !Overlaps(all[|loads|], all[k]);
      assert Live(loads, k) by {
        forall j | k < j < |loads| ensures !Overlaps(loads[j], loads[k]) {
          assert all[j] == loads[j];
        }
      }
    }
  }

  function Insert(s: seq<Module>, place: nat, m: Module): seq<Module>
    requires place <= |s|
  {
    s[..place] + [m] + s[place..]
  }

  lemma InsertMembers(s: seq<Module>, place: nat, m: Module)
    requires place <= |s|
    ensures forall x :: x in Insert(s, place, m) <==> x == m || x in s
    ensures |Insert(s, place, m)| == |s| + 1 && Insert(s, place, m)[place] == m
    ensures Insert(s, place, m)[..place] + Insert(s, place, m)[place + 1..] == s
  {
    assert s == s[..place] + s[place..];
    assert Insert(s, place, m)[place + 1..] == s[place..];
  }

  lemma InsertSorted(s: seq<Module>, place: nat, m: Module)
    requires Sorted(s) && WellFormed(m) && place <= |s|
    requires forall i :: 0 <= i < place ==> s[i].end < m.start
    requires forall i :: place <= i < |s| ==> m.end < s[i].start
    ensures Sorted(Insert(s, place, m))
  {
    var t := Insert(s, place, m);
    assert forall i :: 0 <= i < |t| ==> t[i] == if i < place then s[i] else if i == place then m else s[i - 1];
  }

  lemma AllBefore(s: seq<Module>, k: nat, address: int)
    requires Sorted(s) && k < |s| && s[k].end < address
    ensures forall i :: 0 <= i <= k ==> s[i].end < address
  {
  }

  lemma AllAfter(s: seq<Module>, k: nat, address: int)
    requires Sorted(s) && k < |s| && address < s[k].start
    ensures forall i :: k <= i < |s| ==> address < s[i].start
  {
  }

  /** The new module goes between those that end before it and those that start after it. */
  lemma Placed(before: seq<Module>, s: seq<Module>, m: Module, place: nat, loads: seq<Module>)
    requires Sorted(s) && WellFormed(m) && place <= |s|
    requires forall i :: 0 <= i < place ==> s[i].end < m.start
    requires forall i :: place <= i < |s| ==> m.end < s[i].start
    requires Survivors(s, m) == Survivors(before, m)
    requires forall x :: x in before <==> LiveModule(loads, x)
    ensures s == Survivors(before, m) && Sorted(Insert(s, place, m))
    ensures forall x :: x in Insert(s, place, m) <==> LiveModule(loads + [m], x)
  {
    hide LiveModule, Insert;
    NothingOverlapped(s, m);
    SurvivorsMembers(before, m);
    InsertSorted(s, place, m);
    InsertMembers(s, place, m);
    forall x ensures x in Insert(s, place, m) <==> LiveModule(loads + [m], x) {
      LiveAfterLoad(loads, m, x);
    }
  }

  ghost predicate Holds(loads: seq<Module>, k: nat, address: nat) {
    k < |loads| && Live(loads, k) && Contains(loads[k], address)
  }

  lemma HoldersListed(loads: seq<Module>, s: seq<Module>, address: nat)
    requires Sorted(s) && forall x :: x in s <==> LiveModule(loads, x)
    ensures forall k: nat :: Holds(loads, k, address) ==> loads[k] in s
    ensures forall j: nat, k: nat ::
      Holds(loads, j, address) && Holds(loads, k, address) ==> loads[j] == loads[k]
  {
    forall k: nat | Holds(loads, k, address) ensures loads[k] in s {
      assert LiveModule(loads, loads[k]);
    }
  }

  /** ASCII lower case. */
  function ToLower(c: char): char {
    if 'A' <= c <= 'Z' then 'a' + (c - 'A') else c
  }

  function LowerName(name: string): (r: string) {
    seq(if |name| < MODULE_PATH_LEN then |name| else MODULE_PATH_LEN,
        i requires 0 <= i < |name| => ToLower(name[i]))
  }

  lemma LowerNameIs(name: string)
    ensures |LowerName(name)| == if |name| < 256 then |name| else 256
    ensures forall i :: 0 <= i < |LowerName(name)| ==>
      LowerName(name)[i] == if 'A' <= name[i] <= 'Z' then name[i] + (32 as char) else name[i]
  {
  }

  class ModuleContext {
    var list: seq<Module>
    var cursor: nat          // an index of list, or |list| for the list's anchor
    ghost var loads: seq<Module>

    ghost predicate Valid()
      reads this
    {
      && Sorted(list)
      && cursor <= |list| && (cursor == |list| ==> list == [])
      && (forall k :: 0 <= k < |loads| ==> WellFormed(loads[k]))
      && forall x :: x in list <==> LiveModule(loads, x)
    }

    constructor ()
      ensures Valid() && list == [] && loads == []
    {
      list, cursor, loads := [], 0, [];
    }

    /** Move the cursor forwards to the first module that does not end before the address. */
    method ModuleSearchForwards(address: nat)
      requires cursor <= |list|
      modifies this`cursor
      ensures old(cursor) <= cursor <= |list|
      ensures forall i :: old(cursor) <= i < cursor ==> list[i].end < address
      ensures cursor < |list| ==> address <= list[cursor].end
    {
      while cursor != |list|
        invariant old(cursor) <= cursor <= |list|
        invariant forall i :: old(cursor) <= i < cursor ==> list[i].end < address
        decreases |list| - cursor
      {
        if address <= list[cursor].end {
          break;
        }
        cursor := cursor + 1;
      }
    }

    /** Move the cursor backwards to the nearest module that does not start after the address;
        the anchor lies before the first module. */
    method ModuleSearchBackwards(address: int)
      requires cursor < |list|
      modifies this`cursor
      ensures cursor <= old(cursor) || cursor == |list|
      ensures cursor < |list| ==>
        list[cursor].start <= address && forall i :: cursor < i <= old(cursor) ==> address < list[i].start
      ensures cursor == |list| ==> forall i :: 0 <= i <= old(cursor) ==> address < list[i].start
    {
      while cursor != |list|
        invariant cursor <= old(cursor) || cursor == |list|
        invariant cursor < |list| ==> forall i :: cursor < i <= old(cursor) ==> address < list[i].start
        invariant cursor == |list| ==> forall i :: 0 <= i <= old(cursor) ==> address < list[i].start
        decreases if cursor == |list| then 0 else cursor + 1
      {
        if address >= list[cursor].start {
          break;
        }
        cursor := if cursor == 0 then |list| else cursor - 1;
      }
    }

    /** Move the module under the cursor, which the new one overlaps, to the evicted ones. */
    method Evict(m: Module, gone: seq<Module>) returns (evicted: seq<Module>)
      requires Sorted(list) && cursor < |list| && Overlaps(m, list[cursor])
      modifies this`list
      ensures Sorted(list) && evicted == gone + [old(list)[cursor]]
      ensures list == old(list)[..cursor] + old(list)[cursor + 1..]
      ensures Survivors(list, m) == Survivors(old(list), m)
      ensures multiset(evicted) + multiset(list) == multiset(gone) + multiset(old(list))
    {
      hide Survivors;
      SurvivorsDrop(list, cursor, m);
      assert list == list[..cursor] + [list[cursor]] + list[cursor + 1..];
      evicted := gone + [list[cursor]];
      list := list[..cursor] + list[cursor + 1..];
    }

    /** Evict every module that overlaps the new one, starting wherever the cursor is, and find
        where the new one goes: after the cursor or before it. */
    method ClearSpace(m: Module) returns (evicted: seq<Module>, after: bool)
      requires Sorted(list) && WellFormed(m) && cursor <= |list| && (cursor == |list| ==> list == [])
      modifies this`list, this`cursor
      ensures Sorted(list) && cursor <= |list|
      ensures Survivors(list, m) == Survivors(old(list), m)
      ensures multiset(evicted) + multiset(list) == multiset(old(list))
      ensures var place := if after then (if cursor == |list| then 0 else cursor + 1) else cursor;
        && (forall i :: 0 <= i < place ==> list[i].end < m.start)
        && (forall i :: place <= i < |list| ==> m.end < list[i].start)
    {
      hide Survivors, Sorted, WellFormed;
      evicted := [];
      after := true;
      while true
        invariant Sorted(list) && cursor <= |list| && (cursor == |list| ==> list == [])
        invariant Survivors(list, m) == Survivors(old(list), m)
        invariant multiset(evicted) + multiset(list) == multiset(old(list))
        decreases |list|
      {
        after := true;
        if cursor == |list| {
          return;
        }
        if m.start > list[cursor].end {
          AllBefore(list, cursor, m.start);
          ModuleSearchForwards(m.start);
          after := false;
          if cursor == |list| {
            return;
          }
          if m.end < list[cursor].start {
            AllAfter(list, cursor, m.end);
            return;
          }
          evicted := Evict(m, evicted);
          cursor := cursor - 1;
        } else if m.end < list[cursor].start {
          AllAfter(list, cursor, m.end);
          ModuleSearchBackwards(m.end);
          if cursor == |list| {
            return;
          }
          if m.start > list[cursor].end {
            AllBefore(list, cursor, m.start);
            return;
          }
          evicted := Evict(m, evicted);
        } else {
          evicted := Evict(m, evicted);
          // The next module if there is one, otherwise the one before, otherwise the anchor.
          if cursor == |list| && cursor != 0 {
            cursor := cursor - 1;
          }
        }
      }
    }

    /** Add a module where it belongs and leave the cursor on it. Exactly the modules it does not
        overlap are kept; the others are returned. */
    method ModuleAdd(name: string, start: nat, size: nat) returns (evicted: seq<Module>)
      requires Valid() && 0 < start + size <= ADDRESS_SPACE
      modifies this
      ensures Valid()
      ensures loads == old(loads) + [Module(start, start + size - 1, LowerName(name))]
      ensures cursor < |list| && list[cursor] == Module(start, start + size - 1, LowerName(name))
      ensures list[..cursor] + list[cursor + 1..] == Survivors(old(list), list[cursor])
      ensures multiset(evicted) + multiset(Survivors(old(list), list[cursor])) == multiset(old(list))
      ensures forall x :: x in old(list) ==> (x in evicted <==> start <= x.end && x.start <= start + size - 1)
      ensures |list[cursor].name| == if |name| < 256 then |name| else 256
      ensures forall i :: 0 <= i < |list[cursor].name| ==>
        list[cursor].name[i] == if 'A' <= name[i] <= 'Z' then name[i] + (32 as char) else name[i]
    {
      hide Survivors, LiveModule, Insert, Sorted, LowerName, Overlaps;
      var m := Module(start, start + size - 1, LowerName(name));
      var after;
      evicted, after := ClearSpace(m);
      var place := if after then (if cursor == |list| then 0 else cursor + 1) else cursor;
      Placed(old(list), list, m, place, loads);
      InsertMembers(list, place, m);
      list := Insert(list, place, m);
      cursor := place;
      loads := loads + [m];
      EvictedAre(old(list), m, evicted);
      LowerNameIs(name);
    }

    /** The module that holds an address and the offset into it: the load that contains the
        address and that no later load overlaps, if there is one; if there are two they are the
        same module loaded twice. */
    method ModuleLookup(address: nat) returns (found: bool, name: string, offset: nat)
      requires Valid()
      ensures found <==> exists k: nat ::
        k < |loads| && loads[k].start <= address <= loads[k].end
        && forall j :: k < j < |loads| ==> loads[j].end < loads[k].start || loads[k].end < loads[j].start
      ensures forall k: nat ::
        k < |loads| && loads[k].start <= address <= loads[k].end
        && (forall j :: k < j < |loads| ==> loads[j].end < loads[k].start || loads[k].end < loads[j].start)
        ==> name == loads[k].name && offset == address - loads[k].start
      ensures !found ==> name == "" && offset == 0
    {
      found, name, offset := false, "", 0;
      var i := 0;
      while i < |list|
        invariant 0 <= i <= |list|
        invariant forall j :: 0 <= j < i ==> !Contains(list[j], address)
      {
        if list[i].start <= address && address <= list[i].end {
          found, name, offset := true, list[i].name, address - list[i].start;
          break;
        }
        i := i + 1;
      }
      HoldersListed(loads, list, address);
      HoldsMeans(loads, address);
      if found {
        assert list[i] in list;
        ghost var k: nat :| k < |loads| && loads[k] == list[i] && Live(loads, k);
        assert Holds(loads, k, address);
      }
    }
  }

  lemma HoldsMeans(loads: seq<Module>, address: nat)
    ensures forall k: nat :: Holds(loads, k, address) <==>
      k < |loads| && loads[k].start <= address <= loads[k].end
      && forall j :: k < j < |loads| ==> loads[j].end < loads[k].start || loads[k].end < loads[j].start
  {
  }
}
