/** The array of event words, a page at a time, which the guest and the hypervisor share. */
module EventArray {
  import opened EventWord

  const WORDS_PER_PAGE: nat := 1024

  /** A page as the guest hands it over: every event masked, none linked. */
  function MaskedPage(): seq<Word> {
    seq(WORDS_PER_PAGE, _ => Word(false, true, false, false, NO_PORT))
  }

  function Ids(from: nat, n: nat): seq<nat> {
    seq(n, (i: nat) => from + i)
  }

  function MaskedPages(from: nat, n: nat): (r: map<nat, seq<Word>>)
    ensures forall id :: id in r <==> from <= id < from + n
  {
    if n == 0 then map[] else MaskedPages(from, n - 1)[from + n - 1 := MaskedPage()]
  }

  /** How many pages, out of those numbered from `from` up to `end`, are allocated and accepted
      by the hypervisor before the first that is not. */
  function Accepted(works: nat -> bool, from: nat, end: nat): (n: nat)
    requires from <= end
    ensures n <= end - from && (n < end - from ==> !works(from + n))
    ensures AllWork(works, from, from + n)
    decreases end - from
  {
    if from == end || !works(from) then 0 else 1 + Accepted(works, from + 1, end)
  }

  lemma {:induction false} AcceptedIs(works: nat -> bool, from: nat, end: nat, n: nat)
    requires from <= end && n <= end - from && (n < end - from ==> !works(from + n))
    requires AllWork(works, from, from + n)
    ensures Accepted(works, from, end) == n
    decreases end - from
  {
    if from < end && works(from) {
      AcceptedIs(works, from + 1, end, n - 1);
    }
  }

  lemma OneMore(memory: map<nat, seq<Word>>, from: nat, n: nat)
    requires Below(memory, from)
    ensures (memory + MaskedPages(from, n))[from + n := MaskedPage()] == memory + MaskedPages(from, n + 1)
    ensures memory + MaskedPages(from, n + 1) - {from + n} == memory + MaskedPages(from, n)
    ensures Ids(from, n) + [from + n] == Ids(from, n + 1)
  {
  }

  /** Ports have their own words, and the words of the pages are all ports'. */
  lemma WordPlaces(port: nat, other: nat, pages: nat)
    ensures port < pages * WORDS_PER_PAGE <==> port / WORDS_PER_PAGE < pages
    ensures port / WORDS_PER_PAGE == other / WORDS_PER_PAGE && port % WORDS_PER_PAGE == other % WORDS_PER_PAGE
            ==> port == other
  {
  }

  /** The pages of the list are distinct, allocated and whole. */
  ghost predicate Sound(pages: seq<nat>, memory: map<nat, seq<Word>>) {
    && (forall id :: id in memory ==> |memory[id]| == WORDS_PER_PAGE)
    && (forall i :: 0 <= i < |pages| ==> pages[i] in memory)
    && (forall i, j :: 0 <= i < j < |pages| ==> pages[i] != pages[j])
  }

  lemma GrownSound(pages: seq<nat>, memory: map<nat, seq<Word>>, from: nat, n: nat, firstFree: nat)
    requires Sound(pages, memory) && Below(memory, from) && from + n <= firstFree
    ensures Below(memory, firstFree) && Below(memory + MaskedPages(from, n), firstFree)
    ensures Sound(pages + Ids(from, n), memory + MaskedPages(from, n))
  {
    MaskedPagesAre(from, n);
  }

  /** The pages added are new, and come after those there were; what those hold stays. */
  lemma GrownMeans(pages: seq<nat>, memory: map<nat, seq<Word>>, from: nat, n: nat)
    requires Below(memory, from)
    ensures |pages + Ids(from, n)| == |pages| + n && pages <= pages + Ids(from, n)
    ensures forall id :: id in memory ==>
      id in memory + MaskedPages(from, n) && (memory + MaskedPages(from, n))[id] == memory[id]
    ensures forall i :: |pages| <= i < |pages| + n ==> (pages + Ids(from, n))[i] !in memory
    ensures forall id :: id in memory + MaskedPages(from, n) ==> id in memory || id in Ids(from, n)
    ensures (pages + Ids(from, n))[|pages|..] == Ids(from, n)
    ensures forall id :: id in Ids(from, n) ==> id in MaskedPages(from, n) && MaskedPages(from, n)[id] == MaskedPage()
  {
    MaskedPagesAre(from, n);
    forall id | id in MaskedPages(from, n) ensures id in Ids(from, n) {
      assert Ids(from, n)[id - from] == id;
    }
  }

  lemma {:induction false} MaskedPagesAre(from: nat, n: nat)
    ensures forall id :: id in MaskedPages(from, n) ==> MaskedPages(from, n)[id] == MaskedPage()
  {
    if n > 0 {
      MaskedPagesAre(from, n - 1);
    }
  }

  lemma AddedIds(pages: seq<nat>, from: nat, n: nat)
    ensures |pages + Ids(from, n)| == |pages| + n && pages <= pages + Ids(from, n)
    ensures pages + Ids(from, n) == pages <==> n == 0
    ensures (pages + Ids(from, n))[|pages|..] == Ids(from, n)
  {
  }

  lemma IdsAt(from: nat, n: nat, i: nat)
    requires i < n
    ensures |Ids(from, n)| == n && Ids(from, n)[i] == from + i
  {
  }

  lemma Agreement(pages: seq<nat>, from: nat, n: nat)
    ensures |Ids(from, n)| == n && (pages + Ids(from, n) == pages <==> n == 0)
  {
  }

  class EvtchnFifoArray {
    var eventPageMdl: seq<nat>           // the guest's list of pages
    var memory: map<nat, seq<Word>>      // the pages allocated, this module's or not
    var firstFree: nat                      // no page from here on has been allocated
    var xen: seq<nat>                    // the pages that the hypervisor has accepted

    ghost predicate Valid()
      reads this
    {
      Below(memory, firstFree) && Sound(eventPageMdl, memory)
    }

    /** Where the word of a port is. */
    method EvtchnFifoEventWord(port: nat) returns (page: nat, index: nat)
      requires Valid() && port / WORDS_PER_PAGE < |eventPageMdl|
      ensures page in memory && index < |memory[page]| == 1024
      ensures page == eventPageMdl[port / 1024] && index == port % 1024
    {
      var at := port / WORDS_PER_PAGE;
      page := eventPageMdl[at];
      index := port - at * WORDS_PER_PAGE;
    }

    /** Allocate a zeroed page and mask each of its events. */
    method AllocateMaskedPage() returns (id: nat)
      modifies this`memory, this`firstFree
      ensures id == old(firstFree) && firstFree == old(firstFree) + 1 && memory == old(memory)[id := MaskedPage()]
    {
      id := firstFree;
      firstFree := firstFree + 1;
      var words := seq(WORDS_PER_PAGE, _ => Word(false, false, false, false, NO_PORT));
      var port := 0;
      while port < WORDS_PER_PAGE
        invariant port <= |words| == WORDS_PER_PAGE
        invariant forall i :: 0 <= i < port ==> words[i] == Word(false, true, false, false, NO_PORT)
        invariant forall i :: port <= i < |words| ==> words[i] == Word(false, false, false, false, NO_PORT)
      {
        words := words[port := words[port].(masked := true)];
        port := port + 1;
      }
      assert words == MaskedPage();
      memory := memory[id := words];
    }

    /** Add pages up to the one that has the port's word. Either all are added, with every event
        masked, or the guest's list and its memory are as before. The hypervisor however keeps
        what it accepted: it and the guest agree on the pages afterwards exactly if all were
        added or none had been accepted. */
    method EvtchnFifoExpand(port: nat, room: bool, works: nat -> bool, allocates: nat -> bool) returns (ok: bool)
      requires Valid() && port / WORDS_PER_PAGE >= |eventPageMdl|
      modifies this
      ensures Valid()
      ensures ok <==> room && forall i :: |old(eventPageMdl)| <= i <= port / 1024 ==> works(i)
      ensures !ok ==> eventPageMdl == old(eventPageMdl) && memory == old(memory)
      ensures ok ==>
        && |eventPageMdl| == port / 1024 + 1 && old(eventPageMdl) <= eventPageMdl
        && (forall id :: id in old(memory) ==> id in memory && memory[id] == old(memory)[id])
        && (forall i :: |old(eventPageMdl)| <= i < |eventPageMdl| ==> eventPageMdl[i] !in old(memory))
      ensures ok ==> forall id, k :: id in eventPageMdl[|old(eventPageMdl)|..] && 0 <= k < 1024 ==>
        && id in memory && |memory[id]| == 1024
        && memory[id][k].masked && !memory[id][k].pending && !memory[id][k].linked && !memory[id][k].busy
      ensures old(xen) <= xen && (!room ==> xen == old(xen))
      ensures room ==>
        var n := |xen| - |old(xen)|;
        && (forall i :: |old(eventPageMdl)| <= i < |old(eventPageMdl)| + n ==> works(i))
        && (ok || !works(|old(eventPageMdl)| + n))
      ensures ok ==> |xen| - |old(xen)| == |eventPageMdl| - |old(eventPageMdl)|
                     && xen[|old(xen)|..] == eventPageMdl[|old(eventPageMdl)|..]
      ensures ok ==> forall id :: id in memory ==> id in old(memory) || id in eventPageMdl[|old(eventPageMdl)|..]
      ensures old(xen) == old(eventPageMdl) ==> (xen == eventPageMdl <==> ok || xen == old(xen))
    {
      hide Ids, MaskedPages, Sound;
      ghost var from, before, pages, was := firstFree, memory, eventPageMdl, xen;
      ok := ExpandAsFar(port, room, works, allocates);
      ghost var n := if room then Accepted(works, |pages|, port / WORDS_PER_PAGE + 1) else 0;
      assert room && !ok ==> !works(|pages| + n);
      assert ok ==> eventPageMdl == pages + Ids(from, n) && memory == before + MaskedPages(from, n);
      GrownMeans(pages, before, from, n);
      AddedIds(was, from, n);
      if ok {
        forall id | id in eventPageMdl[|pages|..]
          ensures id in memory && memory[id] == MaskedPage()
        {
          assert id in Ids(from, n);
          assert id in MaskedPages(from, n);
        }
      }
    }

    /** The same by the number of pages that work. */
    method ExpandAsFar(port: nat, room: bool, works: nat -> bool, allocates: nat -> bool) returns (ok: bool)
      requires Valid() && port / WORDS_PER_PAGE >= |eventPageMdl|
      modifies this
      ensures Valid()
      ensures var count, end := |old(eventPageMdl)|, port / WORDS_PER_PAGE + 1;
              var n := if room then Accepted(works, count, end) else 0;
              && ok == (n == end - count)
              && eventPageMdl == (if ok then old(eventPageMdl) + Ids(old(firstFree), n) else old(eventPageMdl))
              && memory == (if ok then old(memory) + MaskedPages(old(firstFree), n) else old(memory))
              && xen == old(xen) + Ids(old(firstFree), n)
              && (old(xen) == old(eventPageMdl) ==> (xen == eventPageMdl <==> ok || n == 0))
    {
      hide Ids, MaskedPages, Sound, Below;
      if !room {
        NoneAdded(memory, firstFree, eventPageMdl, xen);
        return false;
      }
      ghost var from, before := firstFree, memory;
      var count, end := |eventPageMdl|, port / WORDS_PER_PAGE + 1;
      var pages;
      ok, pages := AddPages(end, works, allocates);
      AcceptedIs(works, count, end, |pages| - count);
      GrownSound(eventPageMdl, before, from, |pages| - count, firstFree);
      Agreement(eventPageMdl, from, |pages| - count);
      if ok {
        eventPageMdl := pages;
      } else {
        FreePages(before, from, pages, count);
      }
    }

    /** Allocate pages and offer them to the hypervisor, up to the first failure. */
    method AddPages(end: nat, works: nat -> bool, allocates: nat -> bool) returns (ok: bool, pages: seq<nat>)
      requires Valid() && end >= |eventPageMdl|
      modifies this`memory, this`firstFree, this`xen
      ensures |eventPageMdl| <= |pages| <= end && firstFree >= old(firstFree) + (|pages| - |eventPageMdl|)
      ensures pages == eventPageMdl + Ids(old(firstFree), |pages| - |eventPageMdl|)
      ensures memory == old(memory) + MaskedPages(old(firstFree), |pages| - |eventPageMdl|)
      ensures xen == old(xen) + Ids(old(firstFree), |pages| - |eventPageMdl|)
      ensures AllWork(works, |eventPageMdl|, |pages|) && ok == (|pages| == end) && (!ok ==> !works(|pages|))
    {
      hide Ids, MaskedPages;
      ghost var from, count := firstFree, |eventPageMdl|;
      pages := eventPageMdl;
      ok := true;
      NoneAdded(memory, from, pages, xen);
      while ok && |pages| < end
        invariant count <= |pages| <= end && firstFree >= from + (|pages| - count)
        invariant pages == eventPageMdl + Ids(from, |pages| - count)
        invariant memory == old(memory) + MaskedPages(from, |pages| - count)
        invariant xen == old(xen) + Ids(from, |pages| - count)
        invariant AllWork(works, count, |pages|)
        invariant ok ==> firstFree == from + (|pages| - count)
        invariant !ok ==> |pages| < end && !works(|pages|)
        decreases end - |pages|, ok
      {
        OneMore(old(memory), from, |pages| - count);
        if !works(|pages|) && !allocates(|pages|) {
          ok := false;
        } else {
          var id := AllocateMaskedPage();
          if works(|pages|) {
            xen := xen + [id];
            pages := pages + [id];
          } else {
            memory := memory - {id};
            ok := false;
          }
        }
      }
    }

    /** Free the pages added after the first `count`. */
    method FreePages(ghost before: map<nat, seq<Word>>, ghost from: nat, pages: seq<nat>, count: nat)
      requires |eventPageMdl| == count <= |pages| && pages == eventPageMdl + Ids(from, |pages| - count)
      requires memory == before + MaskedPages(from, |pages| - count) && Below(before, from)
      modifies this`memory
      ensures memory == before
    {
      hide Ids, MaskedPages, Below;
      var index := |pages|;
      NoneAdded(before, from, pages, pages);
      while index > count
        invariant count <= index <= |pages|
        invariant memory == before + MaskedPages(from, index - count)
      {
        index := index - 1;
        OneMore(before, from, index - count);
        IdsAt(from, |pages| - count, index - count);
        memory := memory - {pages[index]};
      }
    }
  }

  lemma NoneAdded(memory: map<nat, seq<Word>>, from: nat, pages: seq<nat>, xen: seq<nat>)
    ensures memory == memory + MaskedPages(from, 0)
    ensures pages == pages + Ids(from, 0) && xen == xen + Ids(from, 0)
  {
  }

  ghost predicate AllWork(works: nat -> bool, from: nat, end: nat) {
    forall i :: from <= i < end ==> works(i)
  }

  ghost predicate Below(memory: map<nat, seq<Word>>, from: nat) {
    forall id :: id in memory ==> id < from
  }
}
