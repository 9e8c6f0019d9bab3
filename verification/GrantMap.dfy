/** Mapping pages that other domains have granted: all the pages of a request, or none. */
module GrantMap {

  /** A page mapped by the hypervisor. The driver keeps only the handle. */
  datatype Mapping = Mapping(handle: nat, domain: nat, reference: nat, readOnly: bool)

  datatype Option<T> = None | Some(value: T)

  predicate Within(page: nat, base: nat, n: nat) {
    base <= page < base + n
  }

  /** The pages from `base` on, mapped one after the other. */
  function Laid(base: nat, entries: seq<Mapping>): (r: map<nat, Mapping>)
    ensures forall p :: p in r <==> Within(p, base, |entries|)
  {
    if entries == [] then map[] else
      var last := |entries| - 1;
      Laid(base, entries[..last])[base + last := entries[last]]
  }

  lemma {:induction false} LaidAt(base: nat, entries: seq<Mapping>, p: nat)
    requires Within(p, base, |entries|)
    ensures Laid(base, entries)[p] == entries[p - base]
  {
    var last := |entries| - 1;
    if p < base + last {
      LaidAt(base, entries[..last], p);
    }
  }

  lemma LaidMeans(mapped: map<nat, Mapping>, base: nat, entries: seq<Mapping>)
    requires Clear(mapped, base, |entries|)
    ensures var after := mapped + Laid(base, entries);
      && (forall i :: 0 <= i < |entries| ==> base + i in after && after[base + i] == entries[i])
      && (forall p :: p in after <==> p in mapped || base <= p < base + |entries|)
      && (forall p :: p in mapped ==> after[p] == mapped[p])
  {
    forall p: nat | base <= p < base + |entries| ensures Laid(base, entries)[p] == entries[p - base] {
      LaidAt(base, entries, p);
    }
  }

  lemma LaidNone(base: nat)
    ensures Laid(base, []) == map[]
  {
  }

  function Except(mapped: map<nat, Mapping>, base: nat, n: nat): map<nat, Mapping> {
    map p | p in mapped && !Within(p, base, n) :: mapped[p]
  }

  lemma LayOne(mapped: map<nat, Mapping>, base: nat, entries: seq<Mapping>, e: Mapping)
    requires Clear(mapped, base, |entries| + 1)
    ensures (mapped + Laid(base, entries))[base + |entries| := e] == mapped + Laid(base, entries + [e])
    ensures mapped + Laid(base, entries + [e]) - {base + |entries|} == mapped + Laid(base, entries)
  {
    assert (entries + [e])[..|entries|] == entries;
  }

  predicate InEntry(table: map<nat, seq<Mapping>>, p: nat, b: nat) {
    b in table && Within(p, b, |table[b]|)
  }

  /** Each entry of the table has its own pages, all mapped, and nothing else is. */
  ghost predicate Consistent(mapped: map<nat, Mapping>, table: map<nat, seq<Mapping>>) {
    && (forall b, p :: InEntry(table, p, b) ==> p in mapped && mapped[p] == table[b][p - b])
    && (forall p :: p in mapped ==> exists b :: InEntry(table, p, b))
    && (forall b, c, p :: InEntry(table, p, b) && InEntry(table, p, c) ==> b == c)
  }

  function Holes(table: map<nat, seq<Mapping>>): map<nat, nat> {
    map b | b in table :: |table[b]|
  }

  lemma EntryAdded(mapped: map<nat, Mapping>, table: map<nat, seq<Mapping>>, base: nat, entries: seq<Mapping>)
    requires Consistent(mapped, table) && base !in table && Clear(mapped, base, |entries|)
    ensures Consistent(mapped + Laid(base, entries), table[base := entries])
    ensures Holes(table[base := entries]) == Holes(table)[base := |entries|]
  {
    var after, wider := mapped + Laid(base, entries), table[base := entries];
    forall b, p | InEntry(wider, p, b) ensures p in after && after[p] == wider[b][p - b] {
      if b == base {
        LaidAt(base, entries, p);
      } else {
        assert InEntry(table, p, b);
      }
    }
    forall p | p in after ensures exists b :: InEntry(wider, p, b) {
      if Within(p, base, |entries|) {
        assert InEntry(wider, p, base);
      } else {
        var b :| InEntry(table, p, b);
        assert InEntry(wider, p, b);
      }
    }
    forall b, c, p | InEntry(wider, p, b) && InEntry(wider, p, c) ensures b == c {
      assert b != base ==> InEntry(table, p, b);
      assert c != base ==> InEntry(table, p, c);
    }
  }

  lemma EntryRemoved(mapped: map<nat, Mapping>, table: map<nat, seq<Mapping>>, base: nat)
    requires Consistent(mapped, table) && base in table
    ensures Consistent(Except(mapped, base, |table[base]|), table - {base})
    ensures Holes(table - {base}) == Holes(table) - {base}
  {
    var n := |table[base]|;
    var rest, narrower := Except(mapped, base, n), table - {base};
    forall b, p | InEntry(narrower, p, b) ensures p in rest && rest[p] == narrower[b][p - b] {
      assert InEntry(table, p, b) && !InEntry(table, p, base);
    }
    forall p | p in rest ensures exists b :: InEntry(narrower, p, b) {
      var b :| InEntry(table, p, b);
      assert InEntry(narrower, p, b);
    }
    forall b, c, p | InEntry(narrower, p, b) && InEntry(narrower, p, c) ensures b == c {
      assert InEntry(table, p, b) && InEntry(table, p, c);
    }
  }

  lemma PagesRemoved(mapped: map<nat, Mapping>, base: nat, entries: seq<Mapping>)
    requires forall p: nat :: Within(p, base, |entries|) ==> p in mapped && mapped[p] == entries[p - base]
    ensures Clear(Except(mapped, base, |entries|), base, |entries|)
    ensures mapped == Except(mapped, base, |entries|) + Laid(base, entries)
  {
    hide Laid;
    forall p: nat | Within(p, base, |entries|) ensures Laid(base, entries)[p] == mapped[p] {
      LaidAt(base, entries, p);
    }
  }

  class GnttabMapContext {
    var mapped: map<nat, Mapping>            // the hypervisor's mappings
    var mapTable: map<nat, seq<Mapping>>     // by first page
    var holes: map<nat, nat>                 // address space held: first page and number

    ghost predicate Apart(base: nat, n: nat)
      reads this
    {
      base !in mapTable && Clear(mapped, base, n)
    }

    ghost predicate Valid()
      reads this
    {
      Consistent(mapped, mapTable) && holes == Holes(mapTable)
    }

    method UnmapForeignPage(handle: nat, page: nat)
      requires page in mapped && mapped[page].handle == handle
      modifies this`mapped
      ensures mapped == old(mapped) - {page}
    {
      mapped := mapped - {page};
    }

    /** Map the pages with the given references at a hole that starts at page `hole`, if there is
        one. `answers` is what the hypervisor says to each: a handle, or no. On any failure what
        was mapped is unmapped, and everything is as before. */
    method GnttabMapForeignPages(domain: nat, references: seq<nat>, readOnly: bool, hole: Option<nat>, entryMemory: bool,
                                 answers: seq<Option<nat>>, tableMemory: bool) returns (ok: bool)
      requires Valid() && |answers| == |references| && (hole.Some? ==> Apart(hole.value, |references|))
      modifies this
      ensures Valid()
      ensures ok <==> hole.Some? && entryMemory && None !in answers && tableMemory
      ensures !ok ==> mapped == old(mapped) && mapTable == old(mapTable) && holes == old(holes)
      ensures ok ==> hole.value in mapTable && Entries(mapTable[hole.value], domain, references, readOnly, answers)
      ensures ok ==> mapTable == old(mapTable)[hole.value := mapTable[hole.value]]
      ensures ok ==> mapped == old(mapped) + Laid(hole.value, mapTable[hole.value])
      ensures ok ==> holes == old(holes)[hole.value := |references|]
      ensures ok ==> forall i :: 0 <= i < |references| ==>
        && answers[i].Some? && hole.value + i in mapped
        && mapped[hole.value + i] == Mapping(answers[i].value, domain, references[i], readOnly)
      ensures ok ==> forall p :: p in mapped <==> p in old(mapped) || hole.value <= p < hole.value + |references|
      ensures ok ==> forall p :: p in old(mapped) ==> mapped[p] == old(mapped)[p]
    {
      hide Consistent, Laid, Except;
      if hole == None {
        return false;
      }
      var base, n := hole.value, |references|;
      holes := holes[base := n];
      ok := false;
      if entryMemory {
        var entries := MapAll(domain, references, readOnly, base, answers);
        ok := |entries| == n && tableMemory;
        if ok {
          EntryAdded(old(mapped), mapTable, base, entries);
          assert references[..n] == references && answers[..n] == answers;
          LaidMeans(old(mapped), base, entries);
          mapTable := mapTable[base := entries];
        } else {
          UnmapBack(old(mapped), base, entries);
        }
      }
      if !ok {
        holes := holes - {base};
      }
    }

    /** Map pages up to the first refusal. */
    method MapAll(domain: nat, references: seq<nat>, readOnly: bool, base: nat, answers: seq<Option<nat>>)
      returns (entries: seq<Mapping>)
      requires |answers| == |references| && Clear(mapped, base, |references|)
      modifies this`mapped
      ensures |entries| <= |references| && Entries(entries, domain, references[..|entries|], readOnly, answers[..|entries|])
      ensures |entries| < |references| ==> answers[|entries|] == None
      ensures mapped == old(mapped) + Laid(base, entries)
    {
      hide Laid;
      LaidNone(base);
      entries := [];
      while |entries| < |references| && answers[|entries|].Some?
        invariant |entries| <= |references|
        invariant Entries(entries, domain, references[..|entries|], readOnly, answers[..|entries|])
        invariant mapped == old(mapped) + Laid(base, entries)
        decreases |references| - |entries|
      {
        var i := |entries|;
        var e := Mapping(answers[i].value, domain, references[i], readOnly);
        LayOne(old(mapped), base, entries, e);
        mapped := mapped[base + i := e];
        entries := entries + [e];
      }
    }

    /** Unmap pages from the last one mapped back to the first. */
    method UnmapBack(ghost before: map<nat, Mapping>, base: nat, entries: seq<Mapping>)
      requires Clear(before, base, |entries|) && mapped == before + Laid(base, entries)
      modifies this`mapped
      ensures mapped == before
    {
      hide Laid;
      var i := |entries|;
      LaidNone(base);
      assert entries[..i] == entries;
      while i > 0
        invariant i <= |entries| && mapped == before + Laid(base, entries[..i])
      {
        i := i - 1;
        LayOne(before, base, entries[..i], entries[i]);
        assert entries[..i + 1] == entries[..i] + [entries[i]];
        LaidAt(base, entries[..i + 1], base + i);
        UnmapForeignPage(entries[i].handle, base + i);
      }
    }

    /** Unmap what an earlier call mapped at an address, and give its hole back. */
    method GnttabUnmapForeignPages(base: nat) returns (ok: bool)
      requires Valid()
      modifies this
      ensures Valid() && (ok <==> base in old(mapTable))
      ensures !ok ==> mapped == old(mapped) && mapTable == old(mapTable) && holes == old(holes)
      ensures ok ==> mapTable == old(mapTable) - {base} && holes == old(holes) - {base}
      ensures ok ==> old(mapped) == mapped + Laid(base, old(mapTable)[base])
      ensures ok ==> Clear(mapped, base, |old(mapTable)[base]|)
      ensures ok ==>
        var n := |old(mapTable)[base]|;
        && (forall p :: base <= p < base + n ==> p in old(mapped) && p !in mapped)
        && (forall p :: p in old(mapped) && !(base <= p < base + n) ==> p in mapped && mapped[p] == old(mapped)[p])
        && (forall p :: p in mapped ==> p in old(mapped))
    {
      hide Laid, Except;
      if base !in mapTable {
        return false;
      }
      assert forall p: nat :: Within(p, base, |mapTable[base]|) ==> InEntry(mapTable, p, base);
      EntryRemoved(mapped, mapTable, base);
      var entries := mapTable[base];
      PagesRemoved(mapped, base, entries);
      mapTable := mapTable - {base};
      UnmapForwards(base, entries);
      holes := holes - {base};
      ok := true;
    }

    method UnmapForwards(base: nat, entries: seq<Mapping>)
      requires forall p: nat :: Within(p, base, |entries|) ==> p in mapped && mapped[p] == entries[p - base]
      modifies this`mapped
      ensures mapped == Except(old(mapped), base, |entries|)
    {
      var i := 0;
      while i < |entries|
        invariant i <= |entries| && mapped == Except(old(mapped), base, i)
      {
        assert Within(base + i, base, |entries|);
        UnmapForeignPage(entries[i].handle, base + i);
        i := i + 1;
      }
    }
  }

  ghost predicate Clear(mapped: map<nat, Mapping>, base: nat, n: nat) {
    forall p :: p in mapped ==> !Within(p, base, n)
  }

  /** The entries made for the references, with the handles given. */
  ghost predicate Entries(entries: seq<Mapping>, domain: nat, references: seq<nat>, readOnly: bool,
                          answers: seq<Option<nat>>)
    requires |answers| == |references|
  {
    |entries| == |references|
    && forall i :: 0 <= i < |entries| ==>
         answers[i].Some? && entries[i] == Mapping(answers[i].value, domain, references[i], readOnly)
  }
}
