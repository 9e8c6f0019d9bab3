/** The event channel code itself: callbacks, polls, flushes, triggers and closes. Between any two
    of its accesses other agents may take steps of the machine; what it does is shown to be a
    run of the machine, and its effect is stated for any such company and, exactly, for none. */
module Evtchn {
  import opened EvtchnMachine

  /** The entries of a list that are closed, or those that are not, in order. */
  ghost function Pick(list: seq<Id>, chans: seq<Channel>, closed: bool): seq<Id>
    requires InRange(list, |chans|)
  {
    if list == [] then [] else
      var rest := Pick(list[..|list| - 1], chans, closed);
      if IsClosed(chans[list[|list| - 1]]) == closed then rest + [list[|list| - 1]] else rest
  }

  ghost predicate InRange(list: seq<Id>, n: nat) {
    forall i :: 0 <= i < |list| ==> list[i] < n
  }

  lemma {:induction false} PickHas(list: seq<Id>, chans: seq<Channel>, closed: bool, c: Id)
    requires InRange(list, |chans|)
    ensures c in Pick(list, chans, closed) <==> c in list && IsClosed(chans[c]) == closed
  {
    if list != [] {
      var last := |list| - 1;
      PickHas(list[..last], chans, closed, c);
      assert list == list[..last] + [list[last]];
    }
  }

  /** The entries for which the poll decided one way, in order. */
  ghost function Chosen(list: seq<Id>, delivered: seq<bool>, which: bool): seq<Id>
    requires |delivered| == |list|
  {
    if list == [] then [] else
      var last := |list| - 1;
      var rest := Chosen(list[..last], delivered[..last], which);
      if delivered[last] == which then rest + [list[last]] else rest
  }

  lemma {:induction false} ChosenHas(list: seq<Id>, delivered: seq<bool>, which: bool, c: Id)
    requires |delivered| == |list|
    ensures c in Chosen(list, delivered, which) <==> exists i :: 0 <= i < |list| && list[i] == c && delivered[i] == which
  {
    if list != [] {
      var last := |list| - 1;
      ChosenHas(list[..last], delivered[..last], which, c);
    }
  }

  /** Where the entries chosen are in the list: all that were decided that way, in order. */
  lemma {:induction false} ChosenAt(list: seq<Id>, delivered: seq<bool>, which: bool) returns (at: seq<nat>)
    requires |delivered| == |list|
    ensures |at| == |Chosen(list, delivered, which)|
    ensures forall i :: 0 <= i < |at| ==> at[i] < |list| && Chosen(list, delivered, which)[i] == list[at[i]]
    ensures forall i, j :: 0 <= i < j < |at| ==> at[i] < at[j]
    ensures forall x: nat :: x in at <==> x < |list| && delivered[x] == which
  {
    at := [];
    if list != [] {
      var last := |list| - 1;
      at := ChosenAt(list[..last], delivered[..last], which);
      if delivered[last] == which {
        at := at + [last];
      }
    }
  }

  // ---- Runs ----

  /** A run in which no close is overtaken leads from s to t. */
  ghost predicate Traced(s: State, steps: seq<Step>, t: State) {
    IsRun(s, steps) && OrderlyRun(s, steps) && After(s, steps) == t
  }

  lemma {:induction false} Extend(s: State, steps: seq<Step>, t: State, a: Step)
    requires Traced(s, steps, t) && Enabled(t, a) && Orderly(t, a)
    ensures Traced(s, steps + [a], Apply(t, a))
    decreases |steps|
  {
    hide Enabled, Apply, Orderly;
    var all := steps + [a];
    if steps == [] {
      assert all == [a];
      assert After(Apply(s, a), []) == Apply(s, a);
      Cons(s, a, Apply(s, a), []);
      assert all[1..] == [];
      assert OrderlyRun(Apply(s, a), all[1..]);
    } else {
      assert all[0] == steps[0];
      assert all[1..] == steps[1..] + [a];
      Extend(Apply(s, steps[0]), steps[1..], t, a);
    }
  }

  lemma {:induction false} Later(s: State, steps: seq<Step>, t: State, more: seq<Step>, u: State)
    requires Traced(s, steps, t) && Traced(s, steps + more, u)
    ensures Traced(t, more, u)
    decreases |steps|
  {
    hide Enabled, Apply, Orderly;
    if steps == [] {
      assert steps + more == more;
    } else {
      assert (steps + more)[1..] == steps[1..] + more;
      Later(Apply(s, steps[0]), steps[1..], t, more, u);
    }
  }

  // ---- Company ----

  /** What this code is in the middle of; the steps that make it up are nobody else's. */
  datatype Role = PollOf(cpu: nat) | ReapOf | CloseOf(id: Id)

  predicate Own(r: Role, a: Step) {
    match r
    case PollOf(k) => (IsPoll(a) || IsList(a)) && a.cpu == k
    case ReapOf => a.Take? || a.Reap? || a.FlushEnd?
    case CloseOf(c) => a == Mark(c) || a == CloseTrigger(c)
  }

  predicate MidClose(s: State, c: Id) {
    c < |s.chans| && (s.chans[c].stage.Unlisted? || s.chans[c].stage.Marked?)
  }

  /** What the others leave alone: the list of a CPU whose lock is held, the local list of a
      flush that is reaping, the stage of a channel in the middle of its close. */
  ghost predicate Keeps(r: Role, s: State, t: State) {
    && |s.chans| <= |t.chans| && |t.cpus| == |s.cpus|
    && (forall c :: 0 <= c < |s.chans| && IsClosed(s.chans[c]) ==> IsClosed(t.chans[c]))
    && match r
       case PollOf(k) =>
         k < |s.cpus| && s.cpus[k].phase != Unlocked ==>
           t.cpus[k] == s.cpus[k] && (t.flush == Locked(k) <==> s.flush == Locked(k))
           && (s.flush == Locked(k) ==> t.local == s.local)
       case ReapOf => s.flush.Reaper? || s.flush.Reaping? ==> t.flush == s.flush && t.local == s.local
       case CloseOf(c) =>
         MidClose(s, c) ==> t.chans[c].stage == s.chans[c].stage && t.chans[c].cpu == s.chans[c].cpu
  }

  lemma ClosedKeeps(s: State, a: Step)
    requires Enabled(s, a)
    ensures |s.chans| <= |Apply(s, a).chans|
    ensures forall c :: 0 <= c < |s.chans| && IsClosed(s.chans[c]) ==> IsClosed(Apply(s, a).chans[c])
  {
    hide Enabled, Apply, IsClosed;
    TouchesChannel(s, a, 0);
    forall c | 0 <= c < |s.chans| && IsClosed(s.chans[c]) ensures IsClosed(Apply(s, a).chans[c]) {
      ClosedKept(s, a, c);
    }
  }

  lemma PollUndisturbed(s: State, a: Step, k: nat)
    requires Inv(s) && Enabled(s, a) && !Own(PollOf(k), a) && k < |s.cpus| && s.cpus[k].phase != Unlocked
    ensures k < |Apply(s, a).cpus| && Apply(s, a).cpus[k] == s.cpus[k]
    ensures Apply(s, a).flush == Locked(k) <==> s.flush == Locked(k)
    ensures s.flush == Locked(k) ==> Apply(s, a).local == s.local
  {
    hide Core, Overtaken;
    CoreAt(s, 0, k);
    TouchesCpu(s, a, k);
  }

  lemma ReapUndisturbed(s: State, a: Step)
    requires Enabled(s, a) && !Own(ReapOf, a) && (s.flush.Reaper? || s.flush.Reaping?)
    ensures Apply(s, a).flush == s.flush && Apply(s, a).local == s.local
  {
  }

  lemma CloseUndisturbed(s: State, a: Step, c: Id)
    requires Enabled(s, a) && !Own(CloseOf(c), a) && MidClose(s, c)
    ensures c < |Apply(s, a).chans| && Apply(s, a).chans[c].stage == s.chans[c].stage
    ensures Apply(s, a).chans[c].cpu == s.chans[c].cpu
  {
    TouchesChannel(s, a, c);
  }

  lemma StepKeepsRole(r: Role, s: State, a: Step)
    requires Inv(s) && Enabled(s, a) && !Own(r, a)
    ensures Keeps(r, s, Apply(s, a))
  {
    hide Core, Inv, Enabled, Apply, Own;
    ClosedKeeps(s, a);
    TouchesCpu(s, a, 0);
    match r
    case PollOf(k) =>
      if k < |s.cpus| && s.cpus[k].phase != Unlocked {
        PollUndisturbed(s, a, k);
      }
    case ReapOf =>
      if s.flush.Reaper? || s.flush.Reaping? {
        ReapUndisturbed(s, a);
      }
    case CloseOf(c) =>
      if MidClose(s, c) {
        CloseUndisturbed(s, a, c);
      }
  }

  lemma KeepsOn(r: Role, s: State, t: State, u: State)
    requires Keeps(r, s, t) && Keeps(r, t, u)
    ensures Keeps(r, s, u)
  {
    if r.CloseOf? && MidClose(s, r.id) {
      assert MidClose(t, r.id);
    }
  }

  // ---- What a poll does when nobody else acts ----

  /** What calling back for one port does. */
  function CalledBack(s: State, k: nat, port: nat): State
    requires k < |s.cpus| && TableInRange(s)
  {
    if port in s.table && s.chans[s.table[port]].cpu == k then Enqueue(s, s.table[port], k) else s
  }

  /** What a poll does with the next entry of the pending list. */
  ghost function Handled(s: State, k: nat): State
    requires Enabled(s, Next(k))
  {
    var t := Apply(s, Next(k));
    if Enabled(t, Clear(k)) then Apply(t, Clear(k)) else t
  }

  /** A channel once the poll has been past it. */
  ghost function Settled(ch: Channel, flushing: bool): Channel {
    if !IsClosed(ch) then ch.(pending := false, place := Nowhere, count := ch.count + 1)
    else if flushing then ch.(place := Held)
    else ch
  }

  ghost function KeptOf(list: seq<Id>, chans: seq<Channel>, flushing: bool): seq<Id>
    requires InRange(list, |chans|)
  {
    if flushing then [] else Pick(list, chans, true)
  }

  /** State s has gone through the entries `done` of s1's pending list, with `rest` to go. */
  ghost predicate DrainedTo(s1: State, s: State, k: nat, done: seq<Id>, rest: seq<Id>)
    requires k < |s1.cpus| && InRange(done, |s1.chans|)
  {
    var flushing := s1.flush == Locked(k);
    var kept := KeptOf(done, s1.chans, flushing);
    && s.table == s1.table && s.flush == s1.flush && s.closing == s1.closing
    && s.cpus == s1.cpus[k := Cpu(kept + rest, Draining(|kept|))]
    && s.local == s1.local + (if flushing then Pick(done, s1.chans, true) else [])
    && |s.chans| == |s1.chans|
    && forall c :: 0 <= c < |s.chans| ==>
         s.chans[c] == if c in done then Settled(s1.chans[c], flushing) else s1.chans[c]
  }

  lemma HandledIs(s: State, k: nat, kept: seq<Id>, rest: seq<Id>)
    requires k < |s.cpus| && s.cpus[k] == Cpu(kept + rest, Draining(|kept|))
    requires rest != [] && rest[0] < |s.chans|
    ensures Enabled(s, Next(k))
    ensures var t := Handled(s, k);
            var stays := IsClosed(s.chans[rest[0]]) && s.flush != Locked(k);
            var kept' := if stays then kept + [rest[0]] else kept;
            && t.table == s.table && t.flush == s.flush && t.closing == s.closing
            && t.cpus == s.cpus[k := Cpu(kept' + rest[1..], Draining(|kept'|))]
            && t.local == s.local + (if IsClosed(s.chans[rest[0]]) && !stays then [rest[0]] else [])
            && t.chans == s.chans[rest[0] := Settled(s.chans[rest[0]], s.flush == Locked(k))]
  {
    assert Without(kept + rest, |kept|) == kept + rest[1..];
    assert kept + rest == (kept + [rest[0]]) + rest[1..];
    var t := Handled(s, k);
    assert t.cpus == s.cpus[k := t.cpus[k]];
    assert t.chans == s.chans[rest[0] := t.chans[rest[0]]];
  }

  lemma DrainedOne(s1: State, s: State, k: nat, done: seq<Id>, rest: seq<Id>)
    requires k < |s1.cpus| && InRange(done, |s1.chans|) && rest != [] && InRange(rest, |s1.chans|)
    requires rest[0] !in done && DrainedTo(s1, s, k, done, rest)
    ensures Enabled(s, Next(k)) && InRange(done + [rest[0]], |s1.chans|)
    ensures DrainedTo(s1, Handled(s, k), k, done + [rest[0]], rest[1..])
  {
    hide Enabled, Apply, Handled, Settled;
    HandledIs(s, k, KeptOf(done, s1.chans, s1.flush == Locked(k)), rest);
    assert (done + [rest[0]])[..|done|] == done;
  }

  /** The calls back for all the ports that the shared pages show, in order. */
  function Gathered(s: State, k: nat, ports: seq<nat>): (r: State)
    requires k < |s.cpus| && TableInRange(s)
    ensures r.table == s.table && r.flush == s.flush && r.local == s.local && r.closing == s.closing
    ensures |r.cpus| == |s.cpus| && |r.chans| == |s.chans| && TableInRange(r)
  {
    if ports == [] then s
    else CalledBack(Gathered(s, k, ports[..|ports| - 1]), k, ports[|ports| - 1])
  }

  /** A channel of this CPU that was not pending goes to the end of the list; otherwise nothing happens. */
  lemma CalledBackMeans(s: State, k: nat, port: nat)
    requires k < |s.cpus| && TableInRange(s)
    ensures if port in s.table && s.chans[s.table[port]].cpu == k && !s.chans[s.table[port]].pending
            then var c := s.table[port];
                 CalledBack(s, k, port) == s.(chans := s.chans[c := s.chans[c].(pending := true, place := Listed(k))],
                                              cpus := s.cpus[k := s.cpus[k].(list := s.cpus[k].list + [c])])
            else CalledBack(s, k, port) == s
  {
  }

  lemma {:induction false} GatheredUpTo(s: State, k: nat, ports: seq<nat>, n: nat) returns (added: seq<Id>, first: seq<nat>)
    requires k < |s.cpus| && TableInRange(s) && n <= |ports|
    ensures forall c: Id :: c in added <==>
      c < |s.chans| && !s.chans[c].pending && s.chans[c].cpu == k
      && exists q :: 0 <= q < n && ports[q] in s.table && s.table[ports[q]] == c
    ensures |first| == |added| && forall i, j :: 0 <= i < j < |first| ==> first[i] < first[j]
    ensures forall i :: 0 <= i < |first| ==>
      first[i] < n && ports[first[i]] in s.table && s.table[ports[first[i]]] == added[i]
    ensures forall i, q :: 0 <= i < |first| && 0 <= q < first[i] && q < n && ports[q] in s.table ==>
      s.table[ports[q]] != added[i]
    ensures Gathered(s, k, ports[..n]).cpus == s.cpus[k := s.cpus[k].(list := s.cpus[k].list + added)]
    ensures forall c :: 0 <= c < |s.chans| ==>
      Gathered(s, k, ports[..n]).chans[c]
      == if c in added then s.chans[c].(pending := true, place := Listed(k)) else s.chans[c]
  {
    added, first := [], [];
    if n == 0 {
      assert s.cpus[k].list + [] == s.cpus[k].list;
    } else {
      var last := n - 1;
      assert ports[..n][..last] == ports[..last];
      added, first := GatheredUpTo(s, k, ports, last);
      ghost var g := Gathered(s, k, ports[..last]);
      assert Gathered(s, k, ports[..n]) == CalledBack(g, k, ports[last]);
      CalledBackMeans(g, k, ports[last]);
      hide Gathered, CalledBack, Enqueue;
      if ports[last] in s.table && s.chans[s.table[ports[last]]].cpu == k && !g.chans[s.table[ports[last]]].pending {
        var c := s.table[ports[last]];
        assert c !in added;
        assert s.cpus[k].list + added + [c] == s.cpus[k].list + (added + [c]);
        added, first := added + [c], first + [last];
      }
    }
  }

  /** What the calls back for a number of ports add to the pending list: the channels of this CPU
      whose ports were shown and that were not pending, each once, in the order in which their
      ports are first shown (`first` says where). Those become pending; nothing else changes. */
  lemma GatheredAll(s: State, k: nat, ports: seq<nat>) returns (added: seq<Id>, first: seq<nat>)
    requires k < |s.cpus| && TableInRange(s)
    ensures forall c: Id :: c in added <==>
      c < |s.chans| && !s.chans[c].pending && s.chans[c].cpu == k
      && exists port :: port in ports && port in s.table && s.table[port] == c
    ensures |first| == |added| && forall i, j :: 0 <= i < j < |first| ==> first[i] < first[j]
    ensures forall i :: 0 <= i < |first| ==>
      first[i] < |ports| && ports[first[i]] in s.table && s.table[ports[first[i]]] == added[i]
    ensures forall i, q :: 0 <= i < |first| && 0 <= q < first[i] && q < |ports| && ports[q] in s.table ==>
      s.table[ports[q]] != added[i]
    ensures Gathered(s, k, ports).cpus == s.cpus[k := s.cpus[k].(list := s.cpus[k].list + added)]
    ensures forall c :: 0 <= c < |s.chans| ==>
      Gathered(s, k, ports).chans[c]
      == if c in added then s.chans[c].(pending := true, place := Listed(k)) else s.chans[c]
    ensures forall port :: port in ports && port in s.table && s.chans[s.table[port]].cpu == k ==>
      Gathered(s, k, ports).chans[s.table[port]].pending
  {
    hide Gathered;
    added, first := GatheredUpTo(s, k, ports, |ports|);
    assert ports[..|ports|] == ports;
  }

  ghost predicate QuietPoll(s: State, t: State, k: nat, ports: seq<nat>, list: seq<Id>) {
    k < |s.cpus| && TableInRange(s)
    && var g := Gathered(s, k, ports);
    list == g.cpus[k].list && InRange(list, |g.chans|) && DrainedTo(g, t, k, list, [])
  }

  /** What a poll with no one else about adds at the end of the list: the channels shown that
      were not pending, in the order in which they are shown. */
  lemma QuietFirst(s: State, t: State, k: nat, ports: seq<nat>, list: seq<Id>) returns (first: seq<nat>)
    requires QuietPoll(s, t, k, ports, list)
    ensures k < |s.cpus| && |list| == |s.cpus[k].list| + |first|
    ensures forall i, j :: 0 <= i < j < |first| ==> first[i] < first[j]
    ensures forall i :: 0 <= i < |first| ==>
      first[i] < |ports| && ports[first[i]] in s.table && s.table[ports[first[i]]] == list[|s.cpus[k].list| + i]
    ensures forall i, q :: 0 <= i < |first| && 0 <= q < first[i] && q < |ports| && ports[q] in s.table ==>
      s.table[ports[q]] != list[|s.cpus[k].list| + i]
    ensures forall c: Id :: c in list[|s.cpus[k].list|..] <==>
      c < |s.chans| && !s.chans[c].pending && s.chans[c].cpu == k
      && exists port :: port in ports && port in s.table && s.table[port] == c
  {
    hide Gathered, DrainedTo;
    var added: seq<Id>;
    added, first := GatheredAll(s, k, ports);
    assert list == s.cpus[k].list + added;
    assert list[|s.cpus[k].list|..] == added;
  }

  lemma QuietOutcome(quiet: bool, s: State, t: State, k: nat, ports: seq<nat>, list: seq<Id>, delivered: seq<bool>)
    returns (first: seq<nat>)
    requires |delivered| == |list| && Polled(s, t, k, list, delivered)
    requires quiet ==> QuietPoll(s, t, k, ports, list)
    ensures quiet ==> k < |s.cpus| && |list| == |s.cpus[k].list| + |first|
    ensures quiet ==> forall i, j :: 0 <= i < j < |first| ==> first[i] < first[j]
    ensures quiet ==> forall i :: 0 <= i < |first| ==>
      first[i] < |ports| && ports[first[i]] in s.table && s.table[ports[first[i]]] == list[|s.cpus[k].list| + i]
    ensures quiet ==> forall i, q :: 0 <= i < |first| && 0 <= q < first[i] && q < |ports| && ports[q] in s.table ==>
      s.table[ports[q]] != list[|s.cpus[k].list| + i]
    ensures quiet ==> forall c: Id :: c in list[|s.cpus[k].list|..] <==>
      c < |s.chans| && !s.chans[c].pending && s.chans[c].cpu == k
      && exists port :: port in ports && port in s.table && s.table[port] == c
    ensures quiet ==> forall x :: 0 <= x < |list| ==>
      list[x] < |s.chans| && (delivered[x] <==> !s.chans[list[x]].stage.Marked? && s.chans[list[x]].stage != Closed)
  {
    hide QuietPoll, Polled;
    first := [];
    if quiet {
      first := QuietFirst(s, t, k, ports, list);
      QuietDecided(s, t, k, ports, list, delivered);
    }
  }

  /** And what it does to channels: every open one on the list comes off and may be queued again,
      every closed one stays or is set aside, and no other is touched. */
  lemma QuietMeans(s: State, t: State, k: nat, ports: seq<nat>, list: seq<Id>)
    requires QuietPoll(s, t, k, ports, list)
    ensures k < |s.cpus| && TableInRange(s) && |t.chans| == |s.chans| && s.cpus[k].list <= list
    ensures forall c :: 0 <= c < |s.chans| ==>
      var ch := s.chans[c];
      if c !in list then t.chans[c] == ch
      else if ch.stage.Marked? || ch.stage == Closed then
        t.chans[c].(pending := ch.pending, place := ch.place) == ch
        && (ch.pending ==> t.chans[c].pending) && (s.flush == Locked(k) ==> t.chans[c].place == Held)
      else t.chans[c] == ch.(pending := false, place := Nowhere, count := ch.count + 1)
    ensures t.table == s.table && t.flush == s.flush && t.closing == s.closing
    ensures |t.cpus| == |s.cpus| && forall j :: 0 <= j < |s.cpus| && j != k ==> t.cpus[j] == s.cpus[j]
    ensures s.flush != Locked(k) ==> t.local == s.local
  {
    hide Gathered;
    var added, first := GatheredAll(s, k, ports);
    assert list == s.cpus[k].list + added;
  }

  // ---- What it does in company ----

  /** The list of CPU k may have grown at its end while the rest of what a poll relies on stayed. */
  ghost predicate Grew(s: State, t: State, k: nat) {
    && |s.chans| <= |t.chans| && |t.cpus| == |s.cpus| && k < |s.cpus|
    && (forall c :: 0 <= c < |s.chans| && IsClosed(s.chans[c]) ==> IsClosed(t.chans[c]))
    && s.cpus[k].list <= t.cpus[k].list
    && (t.flush == Locked(k) <==> s.flush == Locked(k)) && (s.flush == Locked(k) ==> t.local == s.local)
  }

  /** The channels of a list that were closed before are set aside; those set aside are closed. */
  ghost predicate Decided(before: seq<Channel>, after: seq<Channel>, list: seq<Id>, delivered: seq<bool>) {
    && |delivered| == |list| && InRange(list, |after|)
    && (forall i :: 0 <= i < |list| && list[i] < |before| && IsClosed(before[list[i]]) ==> !delivered[i])
    && (forall i :: 0 <= i < |list| && !delivered[i] ==> IsClosed(after[list[i]]))
  }

  lemma DecidedMeans(before: seq<Channel>, after: seq<Channel>, list: seq<Id>, delivered: seq<bool>)
    requires Decided(before, after, list, delivered)
    ensures |delivered| == |list|
    ensures forall i :: 0 <= i < |list| ==>
      && list[i] < |after|
      && (list[i] < |before| && (before[list[i]].stage.Marked? || before[list[i]].stage == Closed) ==> !delivered[i])
      && (!delivered[i] ==> after[list[i]].stage.Marked? || after[list[i]].stage == Closed)
  {
  }

  class EvtchnContext {
    var table: map<nat, Id>
    var chans: seq<Channel>
    var cpus: seq<Cpu>
    var flush: Flush
    var local: seq<Id>
    var closing: map<nat, Id>
    var calls: seq<Id>           // the callbacks made by this code, in order
    var script: seq<Step>        // what others may be about to do
    ghost var start: State
    ghost var trace: seq<Step>   // every step since the start, this code's and others'

    function S(): State
      reads this
    {
      State(table, chans, cpus, flush, local, closing)
    }

    ghost predicate Valid()
      reads this
    {
      Inv(S()) && Traced(start, trace, S())
    }

    constructor (processors: nat, others: seq<Step>)
      ensures Valid() && S() == Boot(processors) && script == others && calls == []
    {
      var s := Boot(processors);
      table, chans, cpus, flush, local, closing := s.table, s.chans, s.cpus, s.flush, s.local, s.closing;
      calls, script := [], others;
      start, trace := s, [];
      BootInv(processors);
    }

    /** Record that the fields have just gone through a step. */
    ghost method Log(before: State, a: Step)
      requires Inv(before) && Traced(start, trace, before) && Enabled(before, a) && Orderly(before, a)
      requires S() == Apply(before, a)
      modifies this`trace
      ensures Valid() && trace == old(trace) + [a]
    {
      hide Inv, Traced, Enabled, Apply, Orderly;
      StepKeeps(before, a);
      Extend(start, trace, before, a);
      trace := trace + [a];
    }

    /** Any number of the others' steps happen. */
    method Interfere(r: Role)
      requires Valid()
      modifies this`table, this`chans, this`cpus, this`flush, this`local, this`closing, this`script, this`trace
      ensures Valid() && old(trace) <= trace && Keeps(r, old(S()), S())
      ensures old(script) == [] ==> S() == old(S()) && script == [] && trace == old(trace)
    {
      hide Inv, Traced, Enabled, Apply, Orderly, Keeps, Own;
      KeepsSelf(r, S());
      var more: bool := *;
      while more && script != []
        invariant Valid() && old(trace) <= trace && Keeps(r, old(S()), S())
        invariant old(script) == [] ==> S() == old(S()) && script == [] && trace == old(trace)
        decreases |script|
      {
        var a := script[0];
        script := script[1..];
        if !Own(r, a) && Enabled(S(), a) && Orderly(S(), a) {
          ghost var before := S();
          var t := Apply(S(), a);
          table, chans, cpus, flush, local, closing := t.table, t.chans, t.cpus, t.flush, t.local, t.closing;
          Log(before, a);
          StepKeepsRole(r, before, a);
          KeepsOn(r, old(S()), before, S());
        }
        more := *;
      }
    }

    /** The channel that the port table has for a port, if it is bound to this CPU. */
    method LookUp(k: nat, port: nat) returns (found: Option<Id>)
      requires Valid() && k < |cpus| && cpus[k].phase == Polling(None)
      modifies this`cpus, this`trace
      ensures Valid() && old(trace) <= trace && TableInRange(old(S()))
      ensures |cpus| == |old(cpus)| && cpus[k].phase == Polling(found)
      ensures S() == SetPhase(old(S()), k, Polling(found)) && FindPort(old(S()), k, port) == Polling(found)
    {
      hide Inv, Traced, Enabled, Apply, Orderly;
      ghost var s := S();
      InvMeans(s, k);
      LookupIs(s, k, port);
      found := None;
      if port in table && chans[table[port]].cpu == k {
        found := Some(table[port]);
      }
      cpus := cpus[k := cpus[k].(phase := Polling(found))];
      Log(s, Lookup(k, port));
    }

    /** Queue the channel found, unless it is pending already. */
    method QueueFound(k: nat, c: Id)
      requires Valid() && k < |cpus| && cpus[k].phase == Polling(Some(c))
      modifies this`chans, this`cpus, this`trace
      ensures Valid() && old(trace) <= trace && c < |old(chans)|
      ensures S() == SetPhase(Enqueue(old(S()), c, k), k, Polling(None))
    {
      hide Inv, Traced, Enabled, Apply, Orderly;
      ghost var s := S();
      InvMeans(s, k);
      QueueIs(s, k, c);
      if !chans[c].pending {
        chans := chans[c := chans[c].(pending := true, place := Listed(k))];
        cpus := cpus[k := cpus[k].(list := cpus[k].list + [c])];
      }
      cpus := cpus[k := cpus[k].(phase := Polling(None))];
      Log(s, Queue(k));
    }

    /** Look a port up; queue the channel found unless it was pending already. */
    method EvtchnPollCallback(k: nat, port: nat)
      requires Valid() && k < |cpus| && cpus[k].phase == Polling(None)
      modifies this`table, this`chans, this`cpus, this`flush, this`local, this`closing, this`script, this`trace
      ensures Valid() && old(trace) <= trace && Grew(old(S()), S(), k) && cpus[k].phase == Polling(None)
      ensures TableInRange(old(S()))
      ensures old(script) == [] ==> script == [] && S() == CalledBack(old(S()), k, port)
    {
      hide Inv, Traced, Grew, Keeps, SetPhase, Enqueue, FindPort, CalledBack;
      ghost var s := S();
      InvMeans(s, k);
      Interfere(PollOf(k));
      ghost var s1 := S();
      GrewAlone(s, s1, k);
      var found := LookUp(k, port);
      ghost var s2 := S();
      GrewPhase(s1, k, Polling(found));
      GrewOn(s, s1, s2, k);
      CalledIs(s1, k, port);
      if found.Some? {
        Interfere(PollOf(k));
        ghost var s3 := S();
        GrewAlone(s2, s3, k);
        QueueFound(k, found.value);
        GrewQueue(s3, k, found.value);
        GrewOn(s, s2, s3, k);
        GrewOn(s, s3, S(), k);
      }
    }

    /** Look at the next entry: take it off if it is open, or if this is a flush. */
    method TakeNext(k: nat, flushing: bool) returns (delivered: bool)
      requires Valid() && Enabled(S(), Next(k)) && (flushing <==> flush == Locked(k))
      modifies this`chans, this`cpus, this`local, this`trace
      ensures Valid() && old(trace) <= trace && S() == Apply(old(S()), Next(k))
      ensures delivered <==> !IsClosed(old(chans[cpus[k].list[cpus[k].phase.at]]))
    {
      hide Inv, Traced, Orderly;
      ghost var s := S();
      var at := cpus[k].phase.at;
      var list := cpus[k].list;
      var c := list[at];
      delivered := !IsClosed(chans[c]);
      if delivered {
        cpus := cpus[k := Cpu(Without(list, at), Clearing(c, at))];
        chans := chans[c := chans[c].(place := Removed(k))];
      } else if flushing {
        cpus := cpus[k := cpus[k].(list := Without(list, at))];
        chans := chans[c := chans[c].(place := Held)];
        local := local + [c];
      } else {
        cpus := cpus[k := cpus[k].(phase := Draining(at + 1))];
      }
      NotTake(s, Next(k));
      Log(s, Next(k));
    }

    /** Let the channel just taken off be queued again. */
    method ClearTaken(k: nat)
      requires Valid() && Enabled(S(), Clear(k))
      modifies this`chans, this`cpus, this`trace
      ensures Valid() && old(trace) <= trace && S() == Apply(old(S()), Clear(k))
    {
      hide Inv, Traced, Orderly;
      ghost var s := S();
      var c, at := cpus[k].phase.id, cpus[k].phase.at;
      cpus := cpus[k := cpus[k].(phase := Draining(at))];
      chans := chans[c := chans[c].(pending := false, place := Nowhere, count := chans[c].count + 1)];
      NotTake(s, Clear(k));
      Log(s, Clear(k));
    }

    /** Others may act before the channel just taken off can be queued again and is called back. */
    method FinishTaken(k: nat, c: Id) returns (ghost mid: State)
      requires Valid() && k < |cpus| && cpus[k].phase.Clearing?
      modifies this
      ensures Valid() && start == old(start) && old(trace) <= trace && calls == old(calls) + [c]
      ensures Grew(old(S()), mid, k) && k < |mid.cpus| && mid.cpus[k] == old(cpus[k]) && Enabled(mid, Clear(k))
      ensures S() == Apply(mid, Clear(k))
      ensures old(script) == [] ==> script == [] && mid == old(S())
    {
      hide Inv, Traced, Apply, Enabled, Keeps, Grew;
      ghost var s := S();
      Interfere(PollOf(k));
      mid := S();
      GrewAlone(s, mid, k);
      InvMeans(mid, k);
      ClearIs(mid, k);
      ClearTaken(k);
      calls := calls + [c];
    }

    /** One pass of the loop over the pending list. */
    method HandleNext(k: nat, flushing: bool) returns (delivered: bool)
      requires Valid() && k < |cpus| && cpus[k].phase.Draining? && cpus[k].phase.at < |cpus[k].list|
      requires flushing <==> flush == Locked(k)
      modifies this
      ensures Valid() && start == old(start) && old(trace) <= trace
      ensures Enabled(old(S()), Next(k)) && Handling(old(S()), S(), k, delivered)
      ensures calls == old(calls) + if delivered then [old(cpus[k].list[cpus[k].phase.at])] else []
      ensures old(script) == [] ==> script == [] && S() == Handled(old(S()), k)
      ensures old(script) == [] ==> (delivered <==> !IsClosed(old(chans[cpus[k].list[cpus[k].phase.at]])))
    {
      hide Inv, Traced, Apply, Enabled, Keeps, Handling, IsClosed, Grew, Handled;
      ghost var s := S();
      InvMeans(s, k);
      var c := cpus[k].list[cpus[k].phase.at];
      Interfere(PollOf(k));
      ghost var s1 := S();
      GrewAlone(s, s1, k);
      InvMeans(s1, k);
      NextIs(s, k);
      NextIs(s1, k);
      delivered := TakeNext(k, flushing);
      ghost var s2 := S();
      if delivered {
        ghost var s3 := FinishTaken(k, c);
        HandledNext(s, s1, s2, s3, k);
        if old(script) == [] {
          HandledTwo(s, k);
        }
      } else {
        HandledSet(s, s1, k);
        if old(script) == [] {
          HandledOne(s, k);
        }
      }
    }

    /** Call back for each port that the shared pages show. */
    method AbiPoll(k: nat, ports: seq<nat>)
      requires Valid() && k < |cpus| && cpus[k].phase == Polling(None)
      modifies this`table, this`chans, this`cpus, this`flush, this`local, this`closing, this`script, this`trace
      ensures Valid() && old(trace) <= trace && Grew(old(S()), S(), k) && cpus[k].phase == Polling(None)
      ensures TableInRange(old(S()))
      ensures old(script) == [] ==> script == [] && S() == Gathered(old(S()), k, ports)
    {
      hide Inv, Traced, Grew, CalledBack;
      ghost var s := S();
      InvMeans(s, k);
      GrewNot(s, k);
      var i := 0;
      while i < |ports|
        invariant 0 <= i <= |ports| && Valid() && old(trace) <= trace && Grew(s, S(), k)
        invariant k < |cpus| && cpus[k].phase == Polling(None)
        invariant old(script) == [] ==> script == [] && S() == Gathered(s, k, ports[..i])
      {
        ghost var before := S();
        EvtchnPollCallback(k, ports[i]);
        GrewOn(s, before, S(), k);
        GrewCpu(before, S(), k);
        assert ports[..i + 1][..i] == ports[..i];
        i := i + 1;
      }
      assert ports[..|ports|] == ports;
    }

    /** Go through the pending list: each entry is delivered, or set aside for a flush, or kept. */
    method Drain(k: nat, flushing: bool) returns (ghost delivered: seq<bool>)
      requires Valid() && k < |cpus| && cpus[k].phase == Draining(0) && (flushing <==> flush == Locked(k))
      modifies this
      ensures Valid() && start == old(start) && old(trace) <= trace
      ensures |delivered| == |old(cpus[k].list)| && Drained(old(S()), S(), k, old(cpus[k].list), delivered, [])
      ensures calls == old(calls) + Chosen(old(cpus[k].list), delivered, true)
      ensures InRange(old(cpus[k].list), |old(chans)|)
      ensures old(script) == [] ==> script == [] && DrainedTo(old(S()), S(), k, old(cpus[k].list), [])
      ensures old(script) == [] ==> calls == old(calls) + Pick(old(cpus[k].list), old(chans), false)
    {
      hide Inv, Traced, DrainedTo, Drained, Pick, Chosen, Progress;
      ghost var g := S();
      InvMeans(g, k);
      ghost var list := cpus[k].list;
      delivered := [];
      StartOfList(g, k);
      ProgressNone(g, k, list, calls, script == []);
      ProgressAt(g, g, k, list, [], calls, calls, script == []);
      while cpus[k].phase.at < |cpus[k].list|
        invariant |delivered| <= |list| && k < |cpus| && cpus[k].phase.Draining?
        invariant cpus[k].phase.at < |cpus[k].list| <==> |delivered| < |list|
        invariant Valid() && start == old(start) && old(trace) <= trace && (old(script) == [] ==> script == [])
        invariant Progress(g, S(), k, list, delivered, old(calls), calls, old(script) == [])
        decreases |list| - |delivered|
      {
        delivered := DrainNext(k, flushing, g, list, delivered, old(calls), old(script) == []);
        ProgressAt(g, S(), k, list, delivered, old(calls), calls, old(script) == []);
      }
      ProgressDone(g, S(), k, list, delivered, old(calls), calls, old(script) == []);
    }

    /** One pass of the loop, and what it adds to the decisions taken. */
    method DrainNext(k: nat, flushing: bool, ghost g: State, ghost list: seq<Id>, ghost before: seq<bool>,
                     ghost calls0: seq<Id>, ghost quiet: bool) returns (ghost delivered: seq<bool>)
      requires Valid() && k < |cpus| && k < |g.cpus| && cpus[k].phase.Draining? && cpus[k].phase.at < |cpus[k].list|
      requires (quiet ==> script == []) && (flushing <==> g.flush == Locked(k))
      requires InRange(list, |g.chans|) && Distinct(list) && |before| < |list|
      requires Progress(g, S(), k, list, before, calls0, calls, quiet)
      modifies this
      ensures Valid() && start == old(start) && old(trace) <= trace && (quiet ==> script == [])
      ensures |delivered| == |before| + 1 && Progress(g, S(), k, list, delivered, calls0, calls, quiet)
    {
      hide Inv, Traced, Enabled, Apply, Handled, DrainedTo, Drained, Handling, Pick, Chosen, IsClosed;
      ghost var s := S();
      ghost var n := |before|;
      NextOfList(list, g.chans, n);
      DrainedAt(g, s, k, list[..n], before, list[n..]);
      if quiet {
        DrainedOne(g, s, k, list[..n], list[n..]);
        DrainedSame(g, s, k, list[..n], list[n..]);
      }
      var d := HandleNext(k, flushing);
      DrainedStep(g, s, S(), k, list[..n], before, list[n..], d);
      ChosenSnoc(list[..n], before, list[n], d);
      delivered := before + [d];
    }

    /** Every port shown has been called back for: turn to the pending list. */
    method StartDrain(k: nat)
      requires Valid() && k < |cpus| && cpus[k].phase == Polling(None)
      modifies this`cpus, this`trace
      ensures Valid() && old(trace) <= trace && S() == SetPhase(old(S()), k, Draining(0))
      ensures k < |cpus| && cpus[k] == Cpu(old(cpus)[k].list, Draining(0))
      ensures (flush == Locked(k) <==> old(flush) == Locked(k))
    {
      hide Inv, Traced, Enabled, Apply, Orderly;
      ghost var g := S();
      DoneIs(g, k);
      cpus := cpus[k := cpus[k].(phase := Draining(0))];
      Log(g, PollDone(k));
    }

    /** Call back for the ports shown, then go through the pending list: open channels are
        delivered in order; closed ones move to the local list of a flush, or stay. */
    method EvtchnPoll(k: nat, ports: seq<nat>, flushing: bool)
      returns (ghost list: seq<Id>, ghost delivered: seq<bool>, ghost on: seq<nat>, ghost off: seq<nat>, ghost first: seq<nat>)
      requires Valid() && k < |cpus| && cpus[k].phase == Polling(None) && (flushing <==> flush == Locked(k))
      modifies this
      ensures Valid() && start == old(start) && old(trace) <= trace
      ensures |delivered| == |list| && Polled(old(S()), S(), k, list, delivered)
      ensures calls == old(calls) + Chosen(list, delivered, true)
      ensures old(script) == [] ==> script == [] && QuietPoll(old(S()), S(), k, ports, list)
      ensures old(script) == [] ==> InRange(list, |old(chans)|)
                                    && calls == old(calls) + Pick(list, Gathered(old(S()), k, ports).chans, false)
      // In any company: the list only grows before it is gone through; `on` and `off` are the
      // places of what was delivered and of what was not, and each goes in that order to the
      // callbacks, and to what the list keeps or the flush sets aside.
      ensures k < |old(cpus)| && |cpus| == |old(cpus)| && old(cpus[k].list) <= list
      ensures forall x: nat :: x in on <==> x < |list| && delivered[x]
      ensures forall x: nat :: x in off <==> x < |list| && !delivered[x]
      ensures forall i, j :: 0 <= i < j < |on| ==> on[i] < on[j]
      ensures forall i, j :: 0 <= i < j < |off| ==> off[i] < off[j]
      ensures old(calls) <= calls && |calls| == |old(calls)| + |on|
      ensures forall i :: 0 <= i < |on| ==> on[i] < |list| && calls[|old(calls)| + i] == list[on[i]]
      ensures flushing ==> cpus[k].list == [] && old(local) <= local && |local| == |old(local)| + |off|
      ensures flushing ==> forall i :: 0 <= i < |off| ==> off[i] < |list| && local[|old(local)| + i] == list[off[i]]
      ensures !flushing ==> |cpus[k].list| == |off|
      ensures !flushing ==> forall i :: 0 <= i < |off| ==> off[i] < |list| && cpus[k].list[i] == list[off[i]]
      // Alone: what joins the list are the channels shown that were not pending, in the order in
      // which they are shown, and just what is open is delivered.
      ensures old(script) == [] ==> |list| == |old(cpus[k].list)| + |first|
      ensures old(script) == [] ==> forall i, j :: 0 <= i < j < |first| ==> first[i] < first[j]
      ensures old(script) == [] ==> forall i :: 0 <= i < |first| ==>
        first[i] < |ports| && ports[first[i]] in old(table)
        && old(table)[ports[first[i]]] == list[|old(cpus[k].list)| + i]
      ensures old(script) == [] ==>
        forall i, q :: 0 <= i < |first| && 0 <= q < first[i] && q < |ports| && ports[q] in old(table) ==>
          old(table)[ports[q]] != list[|old(cpus[k].list)| + i]
      ensures old(script) == [] ==> forall c: Id :: c in list[|old(cpus[k].list)|..] <==>
        c < |old(chans)| && !old(chans)[c].pending && old(chans)[c].cpu == k
        && exists port :: port in ports && port in old(table) && old(table)[port] == c
      ensures old(script) == [] ==> forall x :: 0 <= x < |list| ==>
        list[x] < |old(chans)| && (delivered[x] <==> !old(chans)[list[x]].stage.Marked? && old(chans)[list[x]].stage != Closed)
    {
      hide Inv, Traced, Gathered, Pick, Chosen, QuietPoll, Polled;
      ghost var s := S();
      list, delivered := PollThrough(k, ports, flushing);
      on, off := PollPlaces(s, S(), k, list, delivered, old(calls), calls);
      first := QuietOutcome(old(script) == [], s, S(), k, ports, list, delivered);
    }

    /** The poll itself. */
    method PollThrough(k: nat, ports: seq<nat>, flushing: bool) returns (ghost list: seq<Id>, ghost delivered: seq<bool>)
      requires Valid() && k < |cpus| && cpus[k].phase == Polling(None) && (flushing <==> flush == Locked(k))
      modifies this
      ensures Valid() && start == old(start) && old(trace) <= trace
      ensures |delivered| == |list| && Polled(old(S()), S(), k, list, delivered)
      ensures calls == old(calls) + Chosen(list, delivered, true)
      ensures old(script) == [] ==> script == [] && QuietPoll(old(S()), S(), k, ports, list)
      ensures old(script) == [] ==> InRange(list, |old(chans)|)
                                    && calls == old(calls) + Pick(list, Gathered(old(S()), k, ports).chans, false)
    {
      hide Inv, Traced, Grew, Gathered, DrainedTo, Drained, Pick, Chosen, QuietPoll, Polled, Decided;
      hide SetPhase, TableInRange;
      ghost var s := S();
      AbiPoll(k, ports);
      ghost var g := S();
      GrewCpu(s, g, k);
      StartDrain(k);
      ghost var h := S();
      list := cpus[k].list;
      delivered := Drain(k, flushing);
      PolledIs(s, g, h, S(), k, list, delivered);
      if old(script) == [] {
        QuietPolledIs(g, h, S(), k, list);
        QuietIs(s, g, S(), k, ports, list);
      }
    }

    /** The first channel of the local list is let go of, to be freed. */
    method TakeHead()
      requires Valid() && Enabled(S(), Take) && Orderly(S(), Take)
      modifies this`chans, this`flush, this`local, this`trace
      ensures Valid() && old(trace) <= trace && S() == Apply(old(S()), Take)
    {
      hide Inv, Traced;
      ghost var s := S();
      var c := local[0];
      local := local[1..];
      chans := chans[c := chans[c].(pending := false, place := Taken)];
      flush := Reaping(flush.cpu, c);
      Log(s, Take);
    }

    method EvtchnReap()
      requires Valid() && Enabled(S(), Reap)
      modifies this`chans, this`flush, this`trace
      ensures Valid() && old(trace) <= trace && S() == Apply(old(S()), Reap)
    {
      hide Inv, Traced;
      ghost var s := S();
      var c := flush.id;
      chans := chans[c := chans[c].(place := Freed, reaps := chans[c].reaps + 1)];
      flush := Reaper(flush.cpu);
      NotTake(s, Reap);
      Log(s, Reap);
    }

    /** Free every channel on the local list of a flush. The code does not ask whether the close
        of a channel is through; if it comes to one whose close is not, that is reported, and
        nothing is said of what follows. */
    method ReapAll() returns (overtakes: bool)
      requires Valid() && flush.Reaper?
      modifies this`table, this`chans, this`cpus, this`flush, this`local, this`closing, this`script, this`trace
      ensures Valid() && old(trace) <= trace && flush.Reaper?
      ensures if overtakes then Enabled(S(), Take) && !Orderly(S(), Take) else local == []
      ensures ClosedStay(old(chans), chans) && (old(script) == [] ==> script == [] && cpus == old(cpus))
      ensures old(script) == [] && NoneMarked(old(chans)) ==> !overtakes
    {
      hide Inv, Traced, Enabled, Apply, Orderly, Keeps, NoneMarked, ClosedStay;
      ClosedStaySelf(chans);
      overtakes := false;
      while local != [] && !overtakes
        invariant Valid() && old(trace) <= trace && flush.Reaper?
        invariant overtakes ==> Enabled(S(), Take) && !Orderly(S(), Take)
        invariant ClosedStay(old(chans), chans) && (old(script) == [] ==> script == [] && cpus == old(cpus))
        invariant old(script) == [] && NoneMarked(old(chans)) ==> NoneMarked(chans) && !overtakes
        decreases |local|, !overtakes
      {
        ghost var s := S();
        Interfere(ReapOf);
        ghost var s1 := S();
        ReapKeeps(s, s1);
        ClosedStayOn(old(chans), s.chans, s1.chans);
        TakeIs(s1);
        if chans[local[0]].stage == Closed {
          TakeHead();
          ghost var s2 := S();
          Interfere(ReapOf);
          ghost var s3 := S();
          ReapKeeps(s2, s3);
          ReapIs(s3);
          EvtchnReap();
          ClosedStayOn(old(chans), s1.chans, s2.chans);
          ClosedStayOn(old(chans), s2.chans, s3.chans);
          ClosedStayOn(old(chans), s3.chans, chans);
        } else {
          overtakes := true;
        }
      }
    }

    /** The part of a flush with the lock held: a poll that sets closed channels aside. */
    method PollLocked(k: nat, ports: seq<nat>) returns (ghost list: seq<Id>, ghost delivered: seq<bool>)
      requires Valid() && Enabled(S(), FlushBegin(k))
      modifies this
      ensures Valid() && start == old(start) && old(trace) + [FlushBegin(k)] <= trace && flush == Reaper(k)
      ensures k < |old(cpus)| && |delivered| == |list| && old(cpus[k].list) <= list
      ensures calls == old(calls) + Chosen(list, delivered, true)
      ensures Decided(old(chans), chans, list, delivered) && ClosedStay(old(chans), chans)
      ensures old(script) == [] ==> script == [] && |cpus| == |old(cpus)| && cpus[k] == Cpu([], Unlocked)
      ensures old(script) == [] ==> QuietList(old(S()), k, ports, list)
      ensures old(script) == [] && QuietList(old(S()), k, ports, list) ==>
        calls == old(calls) + Pick(list, Gathered(old(S()), k, ports).chans, false)
      ensures old(script) == [] && NoneMarked(old(chans)) ==> NoneMarked(chans)
    {
      hide Inv, Traced, Enabled, Apply, Orderly, Polled, QuietPoll, Chosen, Pick, NoneMarked, Decided, Gathered;
      hide Keeps, Grew, ClosedStay, IsClosed, QuietList;
      ghost var s := S();
      BeginIs(s, k);
      cpus := cpus[k := cpus[k].(phase := Polling(None))];
      flush := Locked(k);
      Log(s, FlushBegin(k));
      ghost var begun := S();
      SameGathered(s, begun, k, ports);
      ghost var on, off, first;
      list, delivered, on, off, first := EvtchnPoll(k, ports, true);
      ghost var polled := S();
      PolledAt(begun, polled, k, list, delivered);
      if old(script) == [] {
        QuietPolledAt(s, begun, polled, k, ports, list);
      }
      Interfere(PollOf(k));
      ghost var u := S();
      GrewAlone(polled, u, k);
      GrewAt(polled, u, k);
      DecidedOn(s.chans, polled.chans, u.chans, list, delivered);
      UnlockIs(u, k);
      cpus := cpus[k := cpus[k].(phase := Unlocked)];
      flush := Reaper(k);
      Log(u, Unlock(k));
    }

    /** Poll with the lock held, then free what the poll set aside: every channel of this CPU that
        was closed before is freed, and the open ones on the list have been delivered. */
    method EvtchnFlush(k: nat, ports: seq<nat>) returns (overtakes: bool, ghost list: seq<Id>, ghost delivered: seq<bool>)
      requires Valid() && Enabled(S(), FlushBegin(k))
      modifies this
      ensures Valid() && start == old(start) && old(trace) <= trace
      ensures k < |old(cpus)| && |delivered| == |list| && old(cpus[k].list) <= list
      ensures calls == old(calls) + Chosen(list, delivered, true)
      ensures Decided(old(chans), chans, list, delivered)
      ensures forall i :: 0 <= i < |list| ==>
        && list[i] < |chans|
        && (list[i] < |old(chans)| && (old(chans)[list[i]].stage.Marked? || old(chans)[list[i]].stage == Closed) ==> !delivered[i])
        && (!delivered[i] ==> chans[list[i]].stage.Marked? || chans[list[i]].stage == Closed)
      ensures !overtakes ==> Traced(old(S()), trace[|old(trace)|..], S())
      ensures !overtakes ==> flush == NoFlush && local == [] && FreedFor(old(chans), chans, k)
      ensures !overtakes ==> |old(chans)| <= |chans|
      ensures !overtakes ==> forall c :: 0 <= c < |old(chans)| && old(chans)[c].stage == Closed && old(chans)[c].cpu == k ==>
        chans[c].place == Freed
      ensures overtakes ==> Enabled(S(), Take) && !Orderly(S(), Take)
      ensures old(script) == [] && NoneMarked(old(chans)) ==> !overtakes
      ensures old(script) == [] ==> |cpus| == |old(cpus)| && cpus[k] == Cpu([], Unlocked)
      ensures old(script) == [] ==> QuietList(old(S()), k, ports, list)
      ensures old(script) == [] && QuietList(old(S()), k, ports, list) ==>
        calls == old(calls) + Pick(list, Gathered(old(S()), k, ports).chans, false)
    {
      hide Inv, Traced, Enabled, Apply, Orderly, Chosen, Pick, NoneMarked, Decided, Gathered;
      hide ClosedStay, IsClosed, QuietList;
      list, delivered := PollLocked(k, ports);
      ghost var polled := chans;
      overtakes := ReapAll();
      DecidedOn(old(chans), polled, chans, list, delivered);
      DecidedMeans(old(chans), chans, list, delivered);
      if !overtakes {
        ghost var u := S();
        EndIs(u);
        flush := NoFlush;
        Log(u, FlushEnd);
        FlushDone(old(S()), old(trace), S(), trace, start, k);
      }
    }

    /** Queue a channel, unless its pending bit was already set. */
    method QueueUnlessPending(c: Id) returns (queued: bool)
      requires c < |chans| && chans[c].cpu < |cpus|
      modifies this`chans, this`cpus
      ensures S() == Enqueue(old(S()), c, old(chans[c].cpu)) && (queued <==> !old(chans[c].pending))
    {
      var k := chans[c].cpu;
      queued := false;
      if !chans[c].pending {
        chans := chans[c := chans[c].(pending := true, place := Listed(k))];
        cpus := cpus[k := cpus[k].(list := cpus[k].list + [c])];
        queued := true;
      }
    }

    /** Have an open channel delivered at its CPU's next poll, unless it already will be. */
    method EvtchnTrigger(c: Id) returns (queued: bool)
      requires Valid() && Enabled(S(), Trigger(c))
      modifies this`chans, this`cpus, this`trace
      ensures Valid() && old(trace) <= trace
      ensures c < |old(chans)| && old(chans[c].cpu) < |old(cpus)|
      ensures S() == Enqueue(old(S()), c, old(chans[c].cpu)) && (queued <==> !old(chans[c].pending))
      ensures queued ==>
        chans == old(chans)[c := old(chans)[c].(pending := true, place := Listed(old(chans)[c].cpu))]
      ensures queued ==>
        var k := old(chans)[c].cpu;
        cpus == old(cpus)[k := old(cpus)[k].(list := old(cpus)[k].list + [c])]
      ensures !queued ==> chans == old(chans) && cpus == old(cpus)
    {
      hide Inv, Traced, Orderly;
      ghost var s := S();
      queued := QueueUnlessPending(c);
      NotTake(s, Trigger(c));
      Log(s, Trigger(c));
    }

    /** Wait until a CPU is not polling; its poll runs to its end. */
    method AwaitUnlocked(j: nat, ghost c: Id)
      requires Valid() && j < |cpus|
      modifies this`table, this`chans, this`cpus, this`flush, this`local, this`closing, this`trace
      ensures Valid() && old(trace) <= trace && Keeps(CloseOf(c), old(S()), S()) && Unheld(S(), j)
      ensures forall i :: 0 <= i < |cpus| && i != j ==> cpus[i].phase == old(S()).cpus[i].phase
      ensures old(cpus[j].phase) == Unlocked ==> S() == old(S())
    {
      hide Inv, Traced, Enabled, Apply, Orderly, Keeps, Rank;
      KeepsSelf(CloseOf(c), S());
      ghost var s0 := S();
      while cpus[j].phase != Unlocked
        invariant Valid() && old(trace) <= trace && |cpus| == |s0.cpus| && j < |cpus| && Keeps(CloseOf(c), s0, S())
        invariant forall i :: 0 <= i < |cpus| && i != j ==> cpus[i].phase == s0.cpus[i].phase
        invariant old(cpus[j].phase) == Unlocked ==> S() == s0
        decreases Rank(cpus[j])
      {
        ghost var before := S();
        var a := Advance(S(), j);
        AdvanceIs(before, j, c);
        var t := Apply(S(), a);
        table, chans, cpus, flush, local, closing := t.table, t.chans, t.cpus, t.flush, t.local, t.closing;
        Log(before, a);
        StepKeepsRole(CloseOf(c), before, a);
        KeepsOn(CloseOf(c), s0, before, S());
      }
    }

    /** The first part of a close: no port leads to the channel any more, and it is marked. */
    method MarkClosed(c: Id, on: nat)
      requires Valid() && Enabled(S(), Unlist(c, on))
      modifies this`table, this`chans, this`cpus, this`flush, this`local, this`closing, this`script, this`trace
      ensures Valid() && old(trace) <= trace
      ensures c < |old(chans)| && old(chans[c].cpu) < |old(cpus)| && old(chans[c].stage) == Opened
      ensures MidClose(S(), c) && chans[c].stage == Marked(on) && chans[c].cpu == old(chans[c].cpu) < |cpus|
      ensures on < |cpus| && on !in old(closing)
      ensures old(script) == [] ==> script == [] && Unheld(S(), on) && S() == MarkedState(old(S()), c, on)
    {
      hide Inv, Traced, Enabled, Apply, Orderly, Keeps, MidClose;
      ghost var s := S();
      UnlistIs(s, c, on);
      table := table - {chans[c].port};
      chans := chans[c := chans[c].(stage := Unlisted(on))];
      closing := closing[on := c];
      Log(s, Unlist(c, on));
      ghost var s1 := S();
      Interfere(CloseOf(c));
      ghost var s2 := S();
      CloseKept(s1, s2, c, on);
      AwaitUnlocked(on, c);
      ghost var s3 := S();
      CloseKept(s2, s3, c, on);
      MarkIs(s3, c, on);
      chans := chans[c := chans[c].(stage := Marked(on))];
      Log(s3, Mark(c));
    }

    /** The second part: queue the channel unless it is pending already. */
    method QueueClosed(c: Id, on: nat)
      requires Valid() && MidClose(S(), c) && chans[c].stage == Marked(on) && chans[c].cpu < |cpus| && on < |cpus|
      modifies this`table, this`chans, this`cpus, this`flush, this`local, this`closing, this`script, this`trace
      ensures Valid() && old(trace) <= trace
      ensures AtStage(S(), c, Closed) && chans[c].pending && chans[c].cpu == old(chans[c].cpu)
      ensures old(script) == [] && Unheld(old(S()), on) && Unheld(old(S()), old(chans[c].cpu)) ==>
        S() == QueuedState(old(S()), c, on)
    {
      hide Inv, Traced, Enabled, Apply, Orderly, Keeps, MidClose;
      ghost var s4 := S();
      MidCloseIs(s4, c);
      var k := chans[c].cpu;
      Interfere(CloseOf(c));
      ghost var s5 := S();
      CloseKept(s4, s5, c, on);
      AwaitUnlocked(on, c);
      ghost var s6 := S();
      CloseKept(s5, s6, c, on);
      AwaitUnlocked(k, c);
      ghost var s7 := S();
      CloseKept(s6, s7, c, on);
      CloseTriggerIs(s7, c, on);
      var queued := QueueUnlessPending(c);
      chans := chans[c := chans[c].(stage := Closed)];
      closing := closing - {on};
      Log(s7, CloseTrigger(c));
    }

    /** Close an open channel on CPU `on`: no port leads to it any more, and it is on its CPU's list,
        or already with a flush, to be freed by it. */
    method EvtchnClose(c: Id, on: nat)
      requires Valid() && Enabled(S(), Unlist(c, on))
      modifies this
      ensures Valid() && start == old(start) && old(trace) <= trace && calls == old(calls)
      ensures c < |old(chans)| && AtStage(S(), c, Closed) && chans[c].pending && chans[c].cpu == old(chans[c].cpu)
      ensures chans[c].cpu < |cpus| && (c in cpus[chans[c].cpu].list || c in local)
      ensures forall p :: p in table ==> table[p] != c
      ensures old(script) == [] && Unheld(old(S()), old(chans[c].cpu)) ==> S() == ClosedState(old(S()), c)
      ensures c < |old(chans)| && old(chans)[c].cpu < |old(cpus)|
      ensures old(script) == [] && old(cpus)[old(chans)[c].cpu].phase == Unlocked ==>
        && table == old(table) - {old(chans)[c].port}
        && |chans| == |old(chans)| && (forall d :: 0 <= d < |chans| && d != c ==> chans[d] == old(chans)[d])
        && (if old(chans)[c].pending then chans[c] == old(chans)[c].(stage := Closed)
            else chans[c] == old(chans)[c].(stage := Closed, pending := true, place := Listed(chans[c].cpu)))
      ensures old(script) == [] && old(cpus)[old(chans)[c].cpu].phase == Unlocked ==>
        var k := old(chans)[c].cpu;
        cpus == if old(chans)[c].pending then old(cpus)
                else old(cpus)[k := old(cpus)[k].(list := old(cpus)[k].list + [c])]
    {
      hide Inv, Traced, Enabled, Apply, Orderly, MidClose, MarkedState, QueuedState, ClosedState;
      ghost var s := S();
      MarkClosed(c, on);
      ghost var t := S();
      MidCloseIs(t, c);
      QueueClosed(c, on);
      ClosedMeans(S(), c);
      if old(script) == [] && Unheld(s, s.chans[c].cpu) {
        AloneClosed(s, c, on);
        ClosedStateIs(s, c);
      }
    }
  }

  ghost predicate ClosedStay(before: seq<Channel>, after: seq<Channel>) {
    |before| <= |after| && forall c :: 0 <= c < |before| && IsClosed(before[c]) ==> IsClosed(after[c])
  }

  lemma ClosedStaySelf(chans: seq<Channel>)
    ensures ClosedStay(chans, chans)
  {
  }

  lemma ClosedStayOn(a: seq<Channel>, b: seq<Channel>, c: seq<Channel>)
    requires ClosedStay(a, b) && ClosedStay(b, c)
    ensures ClosedStay(a, c)
  {
  }

  predicate NoneMarked(chans: seq<Channel>) {
    forall c :: 0 <= c < |chans| ==> !chans[c].stage.Marked?
  }

  /** How far the loop has got with a list, and which callbacks it has made. */
  ghost predicate Progress(g: State, s: State, k: nat, list: seq<Id>, delivered: seq<bool>,
                           calls0: seq<Id>, calls: seq<Id>, quiet: bool)
  {
    var n := |delivered|;
    && n <= |list| && k < |g.cpus| && InRange(list, |g.chans|)
    && Drained(g, s, k, list[..n], delivered, list[n..])
    && calls == calls0 + Chosen(list[..n], delivered, true)
    && (quiet ==> DrainedTo(g, s, k, list[..n], list[n..]) && calls == calls0 + Pick(list[..n], g.chans, false))
  }

  lemma ProgressNone(g: State, k: nat, list: seq<Id>, calls: seq<Id>, quiet: bool)
    requires k < |g.cpus| && g.cpus[k].phase == Draining(0) && list == g.cpus[k].list && InRange(list, |g.chans|)
    ensures Progress(g, g, k, list, [], calls, calls, quiet)
  {
    hide Drained, DrainedTo;
    StartOfList(g, k);
    assert list[..0] == [] && list[0..] == list;
  }

  lemma ProgressAt(g: State, s: State, k: nat, list: seq<Id>, delivered: seq<bool>, calls0: seq<Id>, calls: seq<Id>, quiet: bool)
    requires Progress(g, s, k, list, delivered, calls0, calls, quiet)
    ensures k < |g.cpus| == |s.cpus| && s.cpus[k].phase.Draining? && |delivered| <= |list|
    ensures s.cpus[k].phase.at < |s.cpus[k].list| <==> |delivered| < |list|
  {
    hide Drained, DrainedTo;
    DrainedAt(g, s, k, list[..|delivered|], delivered, list[|delivered|..]);
  }

  lemma ProgressDone(g: State, s: State, k: nat, list: seq<Id>, delivered: seq<bool>, calls0: seq<Id>, calls: seq<Id>, quiet: bool)
    requires Progress(g, s, k, list, delivered, calls0, calls, quiet) && |delivered| == |list|
    ensures k < |g.cpus| && InRange(list, |g.chans|) && Drained(g, s, k, list, delivered, [])
    ensures calls == calls0 + Chosen(list, delivered, true)
    ensures quiet ==> DrainedTo(g, s, k, list, []) && calls == calls0 + Pick(list, g.chans, false)
  {
    hide Drained, DrainedTo, Chosen, Pick;
    assert list[..|delivered|] == list && list[|delivered|..] == [];
  }

  /** A poll has gone through the whole of the list that the pending list had become, deciding
      as `delivered` says. */
  ghost predicate Polled(s: State, t: State, k: nat, list: seq<Id>, delivered: seq<bool>)
    requires |delivered| == |list|
  {
    k < |s.cpus| && s.cpus[k].list <= list && Drained(s, t, k, list, delivered, [])
  }

  /** State t has gone through the entries `done` of s's pending list, deciding as `delivered`
      says, with `rest` to go. */
  ghost predicate Drained(s: State, t: State, k: nat, done: seq<Id>, delivered: seq<bool>, rest: seq<Id>)
    requires |delivered| == |done|
  {
    var aside := Chosen(done, delivered, false);
    var kept := if s.flush == Locked(k) then [] else aside;
    && Decided(s.chans, t.chans, done, delivered)
    && |s.chans| <= |t.chans| && |t.cpus| == |s.cpus| && k < |s.cpus|
    && (forall c :: 0 <= c < |s.chans| && IsClosed(s.chans[c]) ==> IsClosed(t.chans[c]))
    && (t.flush == Locked(k) <==> s.flush == Locked(k))
    && t.cpus[k] == Cpu(kept + rest, Draining(|kept|))
    && (s.flush == Locked(k) ==> t.local == s.local + aside)
  }

  /** An entry of the list has been dealt with, whatever others did. */
  ghost predicate Handling(s: State, t: State, k: nat, delivered: bool)
    requires Enabled(s, Next(k))
  {
    var list, at := s.cpus[k].list, s.cpus[k].phase.at;
    var c := list[at];
    && |s.chans| <= |t.chans| && |t.cpus| == |s.cpus|
    && (forall d :: 0 <= d < |s.chans| && IsClosed(s.chans[d]) ==> IsClosed(t.chans[d]))
    && (t.flush == Locked(k) <==> s.flush == Locked(k))
    && (IsClosed(s.chans[c]) ==> !delivered) && (!delivered ==> IsClosed(t.chans[c]))
    && t.cpus[k] == (if delivered || s.flush == Locked(k) then Cpu(Without(list, at), Draining(at))
                     else Cpu(list, Draining(at + 1)))
    && (s.flush == Locked(k) ==> t.local == s.local + if delivered then [] else [c])
  }

  lemma KeepsSelf(r: Role, s: State)
    ensures Keeps(r, s, s)
  {
  }

  lemma InvMeans(s: State, k: nat)
    requires Inv(s) && k < |s.cpus|
    ensures TableInRange(s) && InRange(s.cpus[k].list, |s.chans|) && Distinct(s.cpus[k].list)
    ensures s.cpus[k].phase.Polling? && s.cpus[k].phase.found.Some? ==> s.cpus[k].phase.found.value < |s.chans|
    ensures s.cpus[k].phase.Clearing? ==> s.cpus[k].phase.id < |s.chans|
  {
    hide Core;
    CoreAt(s, 0, k);
  }

  lemma LookupIs(s: State, k: nat, port: nat)
    requires k < |s.cpus| && s.cpus[k].phase == Polling(None) && TableInRange(s)
    ensures Enabled(s, Lookup(k, port)) && Orderly(s, Lookup(k, port))
    ensures Apply(s, Lookup(k, port)) == SetPhase(s, k, FindPort(s, k, port))
  {
  }

  lemma QueueIs(s: State, k: nat, c: Id)
    requires k < |s.cpus| && s.cpus[k].phase == Polling(Some(c)) && c < |s.chans|
    ensures Enabled(s, Queue(k)) && Orderly(s, Queue(k))
    ensures Apply(s, Queue(k)) == SetPhase(Enqueue(s, c, k), k, Polling(None))
  {
  }

  lemma CalledIs(s: State, k: nat, port: nat)
    requires k < |s.cpus| && s.cpus[k].phase == Polling(None) && TableInRange(s)
    ensures FindPort(s, k, port) == Polling(None) ==> SetPhase(s, k, FindPort(s, k, port)) == s == CalledBack(s, k, port)
    ensures FindPort(s, k, port).Polling?
    ensures FindPort(s, k, port).found.Some? ==>
      var t := SetPhase(s, k, FindPort(s, k, port));
      port in s.table && FindPort(s, k, port).found.value < |t.chans| && k < |t.cpus|
      && SetPhase(Enqueue(t, FindPort(s, k, port).found.value, k), k, Polling(None)) == CalledBack(s, k, port)
  {
    var t := SetPhase(s, k, FindPort(s, k, port));
    if FindPort(s, k, port).found.Some? {
      assert SetPhase(Enqueue(t, s.table[port], k), k, Polling(None)).cpus == CalledBack(s, k, port).cpus;
    } else {
      assert t.cpus == s.cpus;
    }
  }

  lemma GrewAlone(s: State, t: State, k: nat)
    requires Keeps(PollOf(k), s, t) && k < |s.cpus| && s.cpus[k].phase != Unlocked
    ensures Grew(s, t, k) && |t.cpus| == |s.cpus| && t.cpus[k] == s.cpus[k] && |s.chans| <= |t.chans|
    ensures t.flush == Locked(k) <==> s.flush == Locked(k)
  {
  }

  lemma GrewPhase(s: State, k: nat, phase: Phase)
    requires k < |s.cpus|
    ensures Grew(s, SetPhase(s, k, phase), k)
  {
  }

  lemma GrewQueue(s: State, k: nat, c: Id)
    requires k < |s.cpus| && c < |s.chans|
    ensures Grew(s, SetPhase(Enqueue(s, c, k), k, Polling(None)), k)
    ensures SetPhase(Enqueue(s, c, k), k, Polling(None)).cpus[k].phase == Polling(None)
  {
  }

  lemma GrewOn(s: State, t: State, u: State, k: nat)
    requires Grew(s, t, k) && Grew(t, u, k)
    ensures Grew(s, u, k)
  {
  }

  lemma NotTake(s: State, a: Step)
    requires Enabled(s, a) && !a.Take?
    ensures Orderly(s, a)
  {
  }

  lemma NextIs(s: State, k: nat)
    requires k < |s.cpus| && s.cpus[k].phase.Draining? && s.cpus[k].phase.at < |s.cpus[k].list|
    requires InRange(s.cpus[k].list, |s.chans|)
    ensures Enabled(s, Next(k))
    ensures var c := s.cpus[k].list[s.cpus[k].phase.at];
            !IsClosed(s.chans[c]) ==>
              |Apply(s, Next(k)).cpus| == |s.cpus| && Apply(s, Next(k)).cpus[k].phase == Clearing(c, s.cpus[k].phase.at)
  {
  }

  lemma ClearIs(s: State, k: nat)
    requires k < |s.cpus| && s.cpus[k].phase.Clearing? && s.cpus[k].phase.id < |s.chans|
    ensures Enabled(s, Clear(k))
  {
  }

  lemma HandledNext(s: State, s1: State, s2: State, s3: State, k: nat)
    requires Enabled(s, Next(k)) && Enabled(s1, Next(k)) && Enabled(s3, Clear(k))
    requires Grew(s, s1, k) && s1.cpus[k] == s.cpus[k] && s2 == Apply(s1, Next(k))
    requires !IsClosed(s1.chans[s.cpus[k].list[s.cpus[k].phase.at]])
    requires Grew(s2, s3, k) && s3.cpus[k] == s2.cpus[k]
    ensures Handling(s, Apply(s3, Clear(k)), k, true)
  {
  }

  lemma HandledSet(s: State, s1: State, k: nat)
    requires Enabled(s, Next(k)) && Enabled(s1, Next(k)) && Grew(s, s1, k) && s1.cpus[k] == s.cpus[k]
    requires IsClosed(s1.chans[s.cpus[k].list[s.cpus[k].phase.at]])
    ensures Handling(s, Apply(s1, Next(k)), k, false)
  {
  }

  lemma HandledTwo(s: State, k: nat)
    requires Enabled(s, Next(k)) && Enabled(Apply(s, Next(k)), Clear(k))
    ensures Handled(s, k) == Apply(Apply(s, Next(k)), Clear(k))
  {
  }

  lemma HandledOne(s: State, k: nat)
    requires Enabled(s, Next(k)) && IsClosed(s.chans[s.cpus[k].list[s.cpus[k].phase.at]])
    ensures Handled(s, k) == Apply(s, Next(k))
  {
  }

  lemma GrewNot(s: State, k: nat)
    requires k < |s.cpus|
    ensures Grew(s, s, k)
  {
  }

  lemma GrewCpu(s: State, t: State, k: nat)
    requires Grew(s, t, k)
    ensures k < |t.cpus| && (t.flush == Locked(k) <==> s.flush == Locked(k))
  {
  }

  lemma StartOfList(s: State, k: nat)
    requires k < |s.cpus| && s.cpus[k].phase == Draining(0)
    ensures Drained(s, s, k, [], [], s.cpus[k].list) && DrainedTo(s, s, k, [], s.cpus[k].list)
    ensures Pick([], s.chans, false) == [] && Chosen([], [], true) == []
  {
    assert [] + s.cpus[k].list == s.cpus[k].list;
    assert s.local + [] == s.local;
  }

  lemma DrainedAt(s: State, t: State, k: nat, done: seq<Id>, delivered: seq<bool>, rest: seq<Id>)
    requires |delivered| == |done| && Drained(s, t, k, done, delivered, rest)
    ensures |t.cpus| == |s.cpus| && k < |s.cpus| && t.cpus[k].phase.Draining?
    ensures t.cpus[k].phase.at + |rest| == |t.cpus[k].list|
    ensures rest != [] ==> t.cpus[k].list[t.cpus[k].phase.at] == rest[0]
    ensures t.flush == Locked(k) <==> s.flush == Locked(k)
    ensures |s.chans| <= |t.chans|
  {
  }

  lemma NextOfList(list: seq<Id>, chans: seq<Channel>, n: nat)
    requires InRange(list, |chans|) && n < |list| && Distinct(list)
    ensures list[n..] != [] && list[n..][0] == list[n] && list[n..][1..] == list[n + 1..]
    ensures list[..n + 1] == list[..n] + [list[n]] && list[n] !in list[..n]
    ensures InRange(list[..n], |chans|) && InRange(list[n..], |chans|)
    ensures Pick(list[..n + 1], chans, false)
            == Pick(list[..n], chans, false) + if IsClosed(chans[list[n]]) then [] else [list[n]]
  {
    hide Pick, IsClosed;
    assert list[..n + 1] == list[..n] + [list[n]];
    PickSnoc(list[..n], chans, list[n]);
  }

  lemma PickSnoc(list: seq<Id>, chans: seq<Channel>, c: Id)
    requires InRange(list, |chans|) && c < |chans|
    ensures InRange(list + [c], |chans|)
    ensures Pick(list + [c], chans, false) == Pick(list, chans, false) + if IsClosed(chans[c]) then [] else [c]
  {
    assert (list + [c])[..|list|] == list;
  }

  lemma ChosenSnoc(list: seq<Id>, delivered: seq<bool>, c: Id, d: bool)
    requires |delivered| == |list|
    ensures Chosen(list + [c], delivered + [d], true) == Chosen(list, delivered, true) + if d then [c] else []
    ensures Chosen(list + [c], delivered + [d], false) == Chosen(list, delivered, false) + if d then [] else [c]
  {
    assert (list + [c])[..|list|] == list;
    assert (delivered + [d])[..|list|] == delivered;
  }

  lemma DrainedStep(g: State, s: State, t: State, k: nat, done: seq<Id>, delivered: seq<bool>, rest: seq<Id>, d: bool)
    requires |delivered| == |done| && Drained(g, s, k, done, delivered, rest) && rest != [] && rest[0] < |g.chans|
    requires Enabled(s, Next(k)) && Handling(s, t, k, d)
    ensures Drained(g, t, k, done + [rest[0]], delivered + [d], rest[1..])
  {
    hide Enabled, Chosen, Decided, Handling, IsClosed;
    var c := rest[0];
    var aside := Chosen(done, delivered, false);
    var kept := if g.flush == Locked(k) then [] else aside;
    ChosenSnoc(done, delivered, c, d);
    AtSplit(kept, rest);
    HandlingIs(s, t, k, d);
    DecidedStep(g.chans, s.chans, t.chans, done, delivered, c, d);
  }

  lemma AtSplit(kept: seq<Id>, rest: seq<Id>)
    requires rest != []
    ensures Without(kept + rest, |kept|) == kept + rest[1..] && (kept + rest)[|kept|] == rest[0]
    ensures kept + rest == (kept + [rest[0]]) + rest[1..]
  {
  }

  lemma HandlingIs(s: State, t: State, k: nat, d: bool)
    requires Enabled(s, Next(k)) && Handling(s, t, k, d)
    ensures k < |s.cpus| && s.cpus[k].phase.Draining? && s.cpus[k].phase.at < |s.cpus[k].list|
    ensures var list, at := s.cpus[k].list, s.cpus[k].phase.at;
            var c := list[at];
            && c < |s.chans| <= |t.chans| && |t.cpus| == |s.cpus|
            && (forall e :: 0 <= e < |s.chans| && IsClosed(s.chans[e]) ==> IsClosed(t.chans[e]))
            && (t.flush == Locked(k) <==> s.flush == Locked(k))
            && (IsClosed(s.chans[c]) ==> !d) && (!d ==> IsClosed(t.chans[c]))
            && t.cpus[k] == (if d || s.flush == Locked(k) then Cpu(Without(list, at), Draining(at)) else Cpu(list, Draining(at + 1)))
            && (s.flush == Locked(k) ==> t.local == s.local + if d then [] else [c])
  {
  }

  lemma DecidedStep(g: seq<Channel>, s: seq<Channel>, t: seq<Channel>, done: seq<Id>, delivered: seq<bool>, c: Id, d: bool)
    requires Decided(g, s, done, delivered) && |g| <= |s| <= |t| && c < |g|
    requires forall e :: 0 <= e < |g| && IsClosed(g[e]) ==> IsClosed(s[e])
    requires forall e :: 0 <= e < |s| && IsClosed(s[e]) ==> IsClosed(t[e])
    requires (IsClosed(s[c]) ==> !d) && (!d ==> IsClosed(t[c]))
    ensures Decided(g, t, done + [c], delivered + [d])
  {
  }

  lemma DrainedSame(g: State, s: State, k: nat, done: seq<Id>, rest: seq<Id>)
    requires k < |g.cpus| && InRange(done, |g.chans|) && rest != [] && InRange(rest, |g.chans|) && rest[0] !in done
    requires DrainedTo(g, s, k, done, rest)
    ensures rest[0] < |s.chans| && s.chans[rest[0]] == g.chans[rest[0]]
  {
  }

  lemma DoneIs(s: State, k: nat)
    requires k < |s.cpus| && s.cpus[k].phase == Polling(None)
    ensures Enabled(s, PollDone(k)) && Orderly(s, PollDone(k))
    ensures Apply(s, PollDone(k)) == SetPhase(s, k, Draining(0))
  {
  }

  lemma PolledIs(s: State, g: State, h: State, t: State, k: nat, list: seq<Id>, delivered: seq<bool>)
    requires Grew(s, g, k) && k < |g.cpus| && h == SetPhase(g, k, Draining(0)) && list == h.cpus[k].list
    requires |delivered| == |list| && Drained(h, t, k, list, delivered, [])
    ensures Polled(s, t, k, list, delivered)
  {
  }

  /** What a poll leaves behind, by the places of what it delivered and of what it did not. */
  lemma PolledMeans(s: State, t: State, k: nat, list: seq<Id>, delivered: seq<bool>)
    requires |delivered| == |list| && Polled(s, t, k, list, delivered)
    ensures k < |s.cpus| && |t.cpus| == |s.cpus| && s.cpus[k].list <= list
    ensures s.flush == Locked(k) ==> t.cpus[k].list == [] && t.local == s.local + Chosen(list, delivered, false)
    ensures s.flush != Locked(k) ==> t.cpus[k].list == Chosen(list, delivered, false)
  {
    hide Chosen, Decided;
  }

  lemma QuietIs(s: State, g: State, t: State, k: nat, ports: seq<nat>, list: seq<Id>)
    requires k < |s.cpus| && TableInRange(s) && g == Gathered(s, k, ports)
    requires list == g.cpus[k].list && InRange(list, |g.chans|) && DrainedTo(g, t, k, list, [])
    ensures QuietPoll(s, t, k, ports, list)
  {
    hide Gathered, DrainedTo;
  }

  /** The places of what was delivered and of what was not; each goes in that order to the
      callbacks, and to what the list keeps or the flush sets aside. */
  lemma PollPlaces(s: State, t: State, k: nat, list: seq<Id>, delivered: seq<bool>, calls0: seq<Id>, calls: seq<Id>)
    returns (on: seq<nat>, off: seq<nat>)
    requires |delivered| == |list| && Polled(s, t, k, list, delivered) && calls == calls0 + Chosen(list, delivered, true)
    ensures k < |s.cpus| && |t.cpus| == |s.cpus| && s.cpus[k].list <= list
    ensures forall x: nat :: x in on <==> x < |list| && delivered[x]
    ensures forall x: nat :: x in off <==> x < |list| && !delivered[x]
    ensures forall i, j :: 0 <= i < j < |on| ==> on[i] < on[j]
    ensures forall i, j :: 0 <= i < j < |off| ==> off[i] < off[j]
    ensures calls0 <= calls && |calls| == |calls0| + |on|
    ensures forall i :: 0 <= i < |on| ==> on[i] < |list| && calls[|calls0| + i] == list[on[i]]
    ensures s.flush == Locked(k) ==> t.cpus[k].list == [] && s.local <= t.local && |t.local| == |s.local| + |off|
    ensures s.flush == Locked(k) ==>
      forall i :: 0 <= i < |off| ==> off[i] < |list| && t.local[|s.local| + i] == list[off[i]]
    ensures s.flush != Locked(k) ==> |t.cpus[k].list| == |off|
    ensures s.flush != Locked(k) ==>
      forall i :: 0 <= i < |off| ==> off[i] < |list| && t.cpus[k].list[i] == list[off[i]]
  {
    PolledMeans(s, t, k, list, delivered);
    hide Polled, Chosen;
    on := ChosenAt(list, delivered, true);
    off := ChosenAt(list, delivered, false);
  }

  /** Left to itself a poll delivers just what is open. */
  lemma QuietDecided(s: State, t: State, k: nat, ports: seq<nat>, list: seq<Id>, delivered: seq<bool>)
    requires |delivered| == |list| && Polled(s, t, k, list, delivered) && QuietPoll(s, t, k, ports, list)
    ensures forall x :: 0 <= x < |list| ==>
      list[x] < |s.chans| && (delivered[x] <==> !s.chans[list[x]].stage.Marked? && s.chans[list[x]].stage != Closed)
  {
    hide Gathered, Chosen, Pick;
    GatheredStages(s, k, ports);
    assert forall c :: 0 <= c < |s.chans| ==> t.chans[c].stage == s.chans[c].stage;
  }

  lemma QuietPolledIs(g: State, h: State, t: State, k: nat, list: seq<Id>)
    requires k < |g.cpus| && h == SetPhase(g, k, Draining(0)) && list == h.cpus[k].list && InRange(list, |h.chans|)
    requires DrainedTo(h, t, k, list, [])
    ensures list == g.cpus[k].list && h.chans == g.chans && DrainedTo(g, t, k, list, [])
  {
  }

  lemma ReapKeeps(s: State, t: State)
    requires Keeps(ReapOf, s, t) && (s.flush.Reaper? || s.flush.Reaping?)
    ensures t.flush == s.flush && t.local == s.local && ClosedStay(s.chans, t.chans)
  {
  }

  lemma TakeIs(s: State)
    requires Inv(s) && s.flush.Reaper? && s.local != []
    ensures Enabled(s, Take) && s.local[0] < |s.chans|
    ensures Orderly(s, Take) <==> s.chans[s.local[0]].stage == Closed
    ensures NoneMarked(s.chans) ==> s.chans[s.local[0]].stage == Closed
    ensures var t := Apply(s, Take);
            t.flush == Reaping(s.flush.cpu, s.local[0]) && t.local == s.local[1..]
            && t.cpus == s.cpus && |t.chans| == |s.chans|
    ensures NoneMarked(s.chans) ==> NoneMarked(Apply(s, Take).chans)
    ensures ClosedStay(s.chans, Apply(s, Take).chans)
  {
    hide Core;
    CoreAt(s, s.local[0], 0);
  }

  lemma ReapIs(s: State)
    requires Inv(s) && s.flush.Reaping?
    ensures Enabled(s, Reap)
    ensures var t := Apply(s, Reap);
            t.flush.Reaper? && t.local == s.local && t.cpus == s.cpus && |t.chans| == |s.chans|
    ensures NoneMarked(s.chans) ==> NoneMarked(Apply(s, Reap).chans)
    ensures ClosedStay(s.chans, Apply(s, Reap).chans)
  {
    hide Core;
    CoreAt(s, 0, 0);
  }

  /** Every channel of CPU k that was closed is freed. */
  ghost predicate FreedFor(before: seq<Channel>, after: seq<Channel>, k: nat) {
    |before| <= |after|
    && forall c :: 0 <= c < |before| && before[c].stage == Closed && before[c].cpu == k ==> after[c].place == Freed
  }

  ghost predicate QuietList(s: State, k: nat, ports: seq<nat>, list: seq<Id>) {
    k < |s.cpus| && TableInRange(s)
    && list == Gathered(s, k, ports).cpus[k].list && InRange(list, |Gathered(s, k, ports).chans|)
  }

  function ClosedState(s: State, c: Id): State
    requires c < |s.chans| && s.chans[c].cpu < |s.cpus|
  {
    SetStage(Enqueue(s, c, s.chans[c].cpu), c, Closed).(table := s.table - {s.chans[c].port})
  }

  lemma BeginIs(s: State, k: nat)
    requires Enabled(s, FlushBegin(k)) && Inv(s)
    ensures k < |s.cpus| && TableInRange(s) && Orderly(s, FlushBegin(k))
    ensures Apply(s, FlushBegin(k)) == s.(cpus := s.cpus[k := s.cpus[k].(phase := Polling(None))], flush := Locked(k))
  {
    hide Core;
    CoreAt(s, 0, k);
  }

  lemma UnlockIs(s: State, k: nat)
    requires k < |s.cpus| && s.cpus[k].phase.Draining? && s.cpus[k].phase.at == |s.cpus[k].list|
    requires s.flush == Locked(k)
    ensures Enabled(s, Unlock(k)) && Orderly(s, Unlock(k))
    ensures Apply(s, Unlock(k)) == s.(cpus := s.cpus[k := s.cpus[k].(phase := Unlocked)], flush := Reaper(k))
  {
  }

  lemma EndIs(s: State)
    requires s.flush.Reaper? && s.local == []
    ensures Enabled(s, FlushEnd) && Orderly(s, FlushEnd) && Apply(s, FlushEnd) == s.(flush := NoFlush)
  {
  }

  lemma PolledAt(s: State, t: State, k: nat, list: seq<Id>, delivered: seq<bool>)
    requires |delivered| == |list| && Polled(s, t, k, list, delivered) && s.flush == Locked(k)
    ensures |t.cpus| == |s.cpus| && k < |s.cpus| && s.cpus[k].list <= list && |s.chans| <= |t.chans|
    ensures t.cpus[k] == Cpu([], Draining(0)) && t.flush == Locked(k) && ClosedStay(s.chans, t.chans)
    ensures Decided(s.chans, t.chans, list, delivered)
  {
  }

  lemma AdvanceIs(s: State, j: nat, c: Id)
    requires Inv(s) && j < |s.cpus| && s.cpus[j].phase != Unlocked
    ensures Enabled(s, Advance(s, j)) && Orderly(s, Advance(s, j)) && !Own(CloseOf(c), Advance(s, j))
    ensures var t := Apply(s, Advance(s, j));
            |t.cpus| == |s.cpus| && Rank(t.cpus[j]) < Rank(s.cpus[j])
            && forall i :: 0 <= i < |s.cpus| && i != j ==> t.cpus[i] == s.cpus[i]
  {
    hide Core, Apply, Enabled, Rank;
    InvCore(s);
    Advances(s, j);
    SoundMeans(s, Advance(s, j));
    NotTake(s, Advance(s, j));
    forall i | 0 <= i < |s.cpus| && i != j ensures Apply(s, Advance(s, j)).cpus[i] == s.cpus[i] {
      TouchesCpu(s, Advance(s, j), i);
    }
  }

  /** The lock does not affect what the calls back do to the lists and channels. */
  lemma {:induction false} SameGathered(s: State, t: State, k: nat, ports: seq<nat>)
    requires k < |s.cpus| && TableInRange(s) && |t.cpus| == |s.cpus|
    requires t.table == s.table && t.chans == s.chans && t.cpus[k].list == s.cpus[k].list
    ensures TableInRange(t)
    ensures Gathered(t, k, ports).chans == Gathered(s, k, ports).chans
    ensures Gathered(t, k, ports).cpus[k].list == Gathered(s, k, ports).cpus[k].list
  {
    if ports != [] {
      SameGathered(s, t, k, ports[..|ports| - 1]);
    }
  }

  lemma GrewAt(s: State, t: State, k: nat)
    requires Grew(s, t, k)
    ensures k < |s.cpus| == |t.cpus| && (t.flush == Locked(k) <==> s.flush == Locked(k)) && ClosedStay(s.chans, t.chans)
  {
  }

  lemma DecidedOn(before: seq<Channel>, mid: seq<Channel>, after: seq<Channel>, list: seq<Id>, delivered: seq<bool>)
    requires Decided(before, mid, list, delivered) && ClosedStay(mid, after)
    ensures Decided(before, after, list, delivered)
    ensures ClosedStay(before, mid) ==> ClosedStay(before, after)
  {
  }

  lemma {:induction false} GatheredStages(s: State, k: nat, ports: seq<nat>)
    requires k < |s.cpus| && TableInRange(s)
    ensures forall c :: 0 <= c < |s.chans| ==> Gathered(s, k, ports).chans[c].stage == s.chans[c].stage
  {
    if ports != [] {
      GatheredStages(s, k, ports[..|ports| - 1]);
    }
  }

  lemma QuietPolledAt(s: State, begun: State, t: State, k: nat, ports: seq<nat>, list: seq<Id>)
    requires k < |s.cpus| && TableInRange(s) && TableInRange(begun) && |begun.cpus| == |s.cpus| && begun.chans == s.chans
    requires Gathered(begun, k, ports).chans == Gathered(s, k, ports).chans
    requires Gathered(begun, k, ports).cpus[k].list == Gathered(s, k, ports).cpus[k].list
    requires QuietPoll(begun, t, k, ports, list)
    ensures QuietList(s, k, ports, list) && |t.cpus| == |s.cpus|
    ensures NoneMarked(s.chans) ==> NoneMarked(t.chans)
  {
    GatheredStages(s, k, ports);
  }

  /** The steps since a flush began are a run that frees what had been closed. */
  lemma FlushDone(s: State, before: seq<Step>, t: State, after: seq<Step>, start: State, k: nat)
    requires Inv(s) && Traced(start, before, s) && Traced(start, after, t)
    requires before + [FlushBegin(k)] <= after && |after| >= |before| + 2 && after[|after| - 1] == FlushEnd
    ensures Traced(s, after[|before|..], t) && FreedFor(s.chans, t.chans, k)
  {
    hide Inv, Enabled, Apply, Orderly;
    var more := after[|before|..];
    assert after == before + more;
    Later(start, before, s, more, t);
    assert more[0] == FlushBegin(k) && more[|more| - 1] == FlushEnd;
    assert Flushes(more, k);
    Grows(s, more);
    forall c | 0 <= c < |s.chans| && s.chans[c].stage == Closed && s.chans[c].cpu == k
      ensures t.chans[c].place == Freed
    {
      FlushFrees(s, more, c);
    }
  }

  lemma UnlistIs(s: State, c: Id, on: nat)
    requires Enabled(s, Unlist(c, on)) && Inv(s)
    ensures c < |s.chans| && s.chans[c].cpu < |s.cpus| && on < |s.cpus| && Orderly(s, Unlist(c, on))
    ensures on !in s.closing && Unheld(s, on) && s.chans[c].stage == Opened
    ensures Apply(s, Unlist(c, on)) == s.(chans := s.chans[c := s.chans[c].(stage := Unlisted(on))],
      table := s.table - {s.chans[c].port}, closing := s.closing[on := c])
    ensures MidClose(Apply(s, Unlist(c, on)), c)
  {
    hide Core;
    CoreAt(s, c, 0);
  }

  /** Others leave the channel's stage and CPU alone while it is in the middle of its close. */
  lemma CloseKept(s: State, t: State, c: Id, on: nat)
    requires Keeps(CloseOf(c), s, t) && MidClose(s, c) && s.chans[c].stage.closer == on && s.chans[c].cpu < |s.cpus|
    ensures MidClose(t, c) && t.chans[c].stage == s.chans[c].stage && t.chans[c].cpu == s.chans[c].cpu
    ensures |t.cpus| == |s.cpus|
  {
  }

  lemma MarkIs(s: State, c: Id, on: nat)
    requires c < |s.chans| && s.chans[c].stage == Unlisted(on) && Unheld(s, on)
    ensures Enabled(s, Mark(c)) && Orderly(s, Mark(c))
    ensures Apply(s, Mark(c)) == s.(chans := s.chans[c := s.chans[c].(stage := Marked(on))])
    ensures MidClose(Apply(s, Mark(c)), c)
  {
  }

  lemma CloseTriggerIs(s: State, c: Id, on: nat)
    requires c < |s.chans| && s.chans[c].stage == Marked(on) && Unheld(s, on) && Unheld(s, s.chans[c].cpu)
    ensures Enabled(s, CloseTrigger(c)) && Orderly(s, CloseTrigger(c))
    ensures var t := Enqueue(s, c, s.chans[c].cpu);
            c < |t.chans| && Apply(s, CloseTrigger(c))
            == t.(chans := t.chans[c := t.chans[c].(stage := Closed)], closing := s.closing - {on})
    ensures var t := Apply(s, CloseTrigger(c));
            c < |t.chans| && t.chans[c].stage == Closed && t.chans[c].pending && t.chans[c].cpu == s.chans[c].cpu
  {
  }

  lemma ClosedMeans(s: State, c: Id)
    requires Inv(s) && AtStage(s, c, Closed) && s.chans[c].pending
    ensures s.chans[c].cpu < |s.cpus| && (c in s.cpus[s.chans[c].cpu].list || c in s.local)
    ensures forall p :: p in s.table ==> s.table[p] != c
  {
    hide Core;
    CoreAt(s, c, 0);
  }

  function MarkedState(s: State, c: Id, on: nat): State
    requires c < |s.chans|
  {
    s.(chans := s.chans[c := s.chans[c].(stage := Marked(on))],
       table := s.table - {s.chans[c].port}, closing := s.closing[on := c])
  }

  function QueuedState(s: State, c: Id, on: nat): State
    requires c < |s.chans| && s.chans[c].cpu < |s.cpus|
  {
    SetStage(Enqueue(s, c, s.chans[c].cpu), c, Closed).(closing := s.closing - {on})
  }

  lemma MidCloseIs(s: State, c: Id)
    requires MidClose(s, c)
    ensures c < |s.chans|
  {
  }

  lemma ClosedStateIs(s: State, c: Id)
    requires c < |s.chans| && s.chans[c].cpu < |s.cpus|
    ensures var t, ch := ClosedState(s, c), s.chans[c];
      && t.table == s.table - {ch.port}
      && t.chans == s.chans[c := if ch.pending then ch.(stage := Closed)
                                 else ch.(stage := Closed, pending := true, place := Listed(ch.cpu))]
      && t.cpus == (if ch.pending then s.cpus
                    else s.cpus[ch.cpu := s.cpus[ch.cpu].(list := s.cpus[ch.cpu].list + [c])])
  {
  }

  lemma AloneClosed(s: State, c: Id, on: nat)
    requires c < |s.chans| && s.chans[c].cpu < |s.cpus| && s.chans[c].stage == Opened && on !in s.closing
    ensures var t := MarkedState(s, c, on);
            c < |t.chans| && t.chans[c].cpu == s.chans[c].cpu && t.cpus == s.cpus
            && QueuedState(t, c, on) == ClosedState(s, c)
  {
    var t := MarkedState(s, c, on);
    assert QueuedState(t, c, on).chans == ClosedState(s, c).chans;
    assert t.closing - {on} == s.closing;
  }
}
