/** The guest's FIFO event channel consumer, over decoded event words, control blocks and cached
    heads that other agents change between its atomic accesses. Each access is one step of
    FifoMachine, whose state the class's fields make up. */
module EvtchnFifo {
  import opened EventWord
  import opened FifoMachine

  /** One priority's part of a vCPU's control block. */
  datatype Control = Control(head: Port, ready: bool)

  // ---- What other agents may do while a poller of vCPU v runs ----

  ghost predicate Rely(s: State, t: State, v: nat) {
    && v in s.pollers && v in t.pollers && t.pollers[v] == s.pollers[v]
    && t.words.Keys == s.words.Keys && t.queues.Keys == s.queues.Keys
    && forall q :: q in s.queues && q.vcpu == v ==>
         t.queues[q].head == s.queues[q].head && t.queues[q].unlinked == s.queues[q].unlinked
         && s.queues[q].appended <= t.queues[q].appended
  }

  predicate ByOther(step: Step, v: nat) {
    step.Append? || step.ChangeFlags? || step.vcpu != v
  }

  lemma OthersRely(s: State, step: Step, v: nat)
    requires v in s.pollers && Enabled(s, step) && ByOther(step, v)
    ensures Rely(s, Apply(s, step), v)
  {
  }

  /** The ports linked on a vCPU's queues. */
  ghost function LinkedOn(s: State, v: nat): set<Port> {
    set p | p in s.words && s.words[p].linked && p in s.owner && s.owner[p].vcpu == v
  }

  lemma AppendLinks(s: State, p: Port, q: Queue, v: nat)
    requires Enabled(s, Append(p, q))
    ensures LinkedOn(ApplyAppend(s, p, q), v) <= LinkedOn(s, v) + {p}
  {
  }

  /** Only an append by another agent can add to a vCPU's linked ports, and it adds one. */
  lemma OthersLink(s: State, step: Step, v: nat)
    requires Inv(s) && Enabled(s, step) && ByOther(step, v)
    ensures |LinkedOn(Apply(s, step), v)| <= |LinkedOn(s, v)| + (if step.Append? then 1 else 0)
  {
    if step.Append? {
      AppendLinks(s, step.port, step.queue, v);
      CardinalityBound(LinkedOn(Apply(s, step), v), LinkedOn(s, v) + {step.port});
    } else {
      assert LinkedOn(Apply(s, step), v) <= LinkedOn(s, v);
      CardinalityBound(LinkedOn(Apply(s, step), v), LinkedOn(s, v));
    }
  }

  lemma {:induction false} CardinalityBound<T>(a: set<T>, b: set<T>)
    requires a <= b
    ensures |a| <= |b|
  {
    if a != {} {
      var x :| x in a;
      CardinalityBound(a - {x}, b - {x});
    }
  }

  /** Unlinking removes exactly one port from the vCPU's linked ports. */
  lemma UnlinkRemoves(s: State, v: nat)
    requires Inv(s) && Enabled(s, Unlink(v))
    ensures s.pollers[v].port in LinkedOn(s, v)
    ensures LinkedOn(Apply(s, Unlink(v)), v) == LinkedOn(s, v) - {s.pollers[v].port}
  {
    FirstTwo(s, v);
  }

  /** The ports of a list of (queue, port) pairs that belong to one queue. */
  function Project(taken: seq<(Queue, Port)>, q: Queue): seq<Port> {
    if taken == [] then []
    else Project(taken[..|taken| - 1], q)
         + (if taken[|taken| - 1].0 == q then [taken[|taken| - 1].1] else [])
  }

  lemma RelyTransitive(s: State, t: State, u: State, v: nat)
    requires Rely(s, t, v) && Rely(t, u, v)
    ensures Rely(s, u, v)
  {
  }

  lemma HeadReadEnabled(s: State, v: nat)
    requires Inv(s) && v in s.pollers && s.pollers[v].HeadRead?
    ensures Enabled(s, Unlink(v))
  {
    assert PollerInv(s, v);
    var q := Queue(v, s.pollers[v].priority);
    assert QueueInv(s, q) && InChain(s, q, 0);
  }

  lemma ScanningEnabled(s: State, v: nat, priority: nat)
    requires Inv(s) && v in s.pollers && s.pollers[v].Scanning? && priority in s.pollers[v].ready
    ensures Enabled(s, Choose(v, priority))
  {
    assert PollerInv(s, v) && priority in LocalReady(s, v);
  }

  lemma UnlinkedEnabled(s: State, v: nat)
    requires Inv(s) && v in s.pollers && s.pollers[v].Unlinked?
    ensures Enabled(s, StoreHead(v))
  {
    assert PollerInv(s, v);
  }

  /** One port has been taken off queue q, and nothing off any other queue of its vCPU. */
  ghost predicate TookOne(s: State, t: State, q: Queue, port: Port) {
    && t.queues.Keys == s.queues.Keys && t.words.Keys == s.words.Keys && port in s.words
    && forall k :: k in s.queues && k.vcpu == q.vcpu ==>
         t.queues[k].unlinked == s.queues[k].unlinked + (if k == q then [port] else [])
         && s.queues[k].appended <= t.queues[k].appended
  }

  /** What a queue holds later, once some ports have come off it: nothing was lost, and what came
      off was in front. */
  ghost predicate CameOff(s: QueueState, t: QueueState, ports: seq<Port>) {
    s.appended <= t.appended && ports + t.ports == s.ports + t.appended[|s.appended|..]
  }

  lemma CameOffIs(s: State, t: State, k: Queue, ports: seq<Port>)
    requires Inv(s) && Inv(t) && k in s.queues && k in t.queues
    requires t.queues[k].unlinked == s.queues[k].unlinked + ports && s.queues[k].appended <= t.queues[k].appended
    ensures CameOff(s.queues[k], t.queues[k], ports)
  {
    hide Inv;
    InvQueue(s, k);
    InvQueue(t, k);
    var x, y := s.queues[k], t.queues[k];
    assert x.unlinked + (ports + y.ports) == y.appended;
    assert y.appended == x.appended + y.appended[|x.appended|..];
    assert x.unlinked + (x.ports + y.appended[|x.appended|..]) == y.appended;
    assert (x.unlinked + (ports + y.ports))[|x.unlinked|..] == ports + y.ports;
  }

  /** Nothing but the guest's own pass has happened: one port fewer is linked, and flags and
      ready bits are as they were. */
  ghost predicate TookOneQuietly(s: State, t: State, v: nat, port: Port) {
    && t.queues.Keys == s.queues.Keys && t.words.Keys == s.words.Keys
    && port in LinkedOn(s, v) && LinkedOn(t, v) == LinkedOn(s, v) - {port}
    && (forall p :: p in s.words ==>
          t.words[p].masked == s.words[p].masked && t.words[p].pending == s.words[p].pending)
    && (forall k :: k in s.queues && k.vcpu == v ==>
          t.queues[k].readyBit == s.queues[k].readyBit && t.queues[k].appended == s.queues[k].appended)
  }

  lemma FrontIs(s: QueueState, t: QueueState, port: Port)
    requires CameOff(s, t, [port]) && s.ports != []
    ensures port == s.ports[0]
  {
    assert ([port] + t.ports)[0] == port;
    assert (s.ports + t.appended[|s.appended|..])[0] == s.ports[0];
  }

  lemma ReadyHasPorts(s: State, v: nat, priority: nat)
    requires Inv(s) && v in s.pollers && s.pollers[v].Scanning? && priority in s.pollers[v].ready
    ensures Queue(v, priority) in s.queues && s.queues[Queue(v, priority)].ports != []
  {
    hide Inv;
    InvPoller(s, v);
    assert priority in LocalReady(s, v);
    InvQueue(s, Queue(v, priority));
  }

  /** The link is 0 just if the port is the last one appended. */
  lemma LinkMeans(s: State, v: nat)
    requires Inv(s) && Enabled(s, Unlink(v))
    ensures var q := Queue(v, s.pollers[v].priority);
            q in s.queues && s.pollers[v].port in s.words
            && (s.words[s.pollers[v].port].link == NO_PORT
                <==> s.queues[q].unlinked + [s.pollers[v].port] == s.queues[q].appended)
  {
    hide Inv;
    FirstTwo(s, v);
    var q := Queue(v, s.pollers[v].priority);
    InvQueue(s, q);
    var x := s.queues[q];
    assert x.ports == [x.ports[0]] + x.ports[1..];
    assert x.appended == x.unlinked + [x.ports[0]] + x.ports[1..];
  }

  /** Once no shared ready bit is set, the local ones are those of the queues that hold ports. */
  lemma LocalBits(s: State, v: nat, ready: set<nat>)
    requires Inv(s) && v in s.pollers && s.pollers[v] == Scanning(ready)
    requires forall k :: k in s.queues && k.vcpu == v ==> !s.queues[k].readyBit
    ensures forall k :: k in s.queues && k.vcpu == v ==> (k.priority in ready <==> s.queues[k].ports != [])
  {
    hide Inv;
    forall k | k in s.queues && k.vcpu == v ensures k.priority in ready <==> s.queues[k].ports != [] {
      InvQueue(s, k);
    }
  }

  lemma TookThen(s: State, t: State, u: State, q: Queue, port: Port)
    requires TookOne(s, t, q, port) && u.queues.Keys == t.queues.Keys && u.words.Keys == t.words.Keys
    requires forall k :: k in u.queues && k.vcpu == q.vcpu ==>
      u.queues[k].unlinked == t.queues[k].unlinked && t.queues[k].appended <= u.queues[k].appended
    ensures TookOne(s, u, q, port)
  {
  }

  lemma TookQuietlyThen(s: State, t: State, u: State, v: nat, port: Port)
    requires TookOneQuietly(s, t, v, port) && u.words == t.words && u.queues.Keys == t.queues.Keys
    requires LinkedOn(u, v) == LinkedOn(t, v)
    requires forall k :: k in u.queues && k.vcpu == v ==>
      !u.queues[k].readyBit && u.queues[k].appended == t.queues[k].appended
    ensures (forall k :: k in s.queues && k.vcpu == v ==> !s.queues[k].readyBit) ==>
      TookOneQuietly(s, u, v, port) && ReadyOf(t.queues, v) == {}
  {
  }

  /** A pass of the poller: read a head, unlink, store the link, with others' steps between. */
  lemma OnePass(s0: State, s1: State, s3: State, s6: State, v: nat, priority: nat)
    requires Rely(s0, s1, v) && Enabled(s1, Choose(v, priority))
    requires Rely(ApplyChoose(s1, v, priority), s3, v) && Enabled(s3, Unlink(v))
    requires Rely(ApplyUnlink(s3, v), s6, v) && Enabled(s6, StoreHead(v))
    ensures Queue(v, priority) in s0.queues
    ensures TookOne(s0, ApplyStoreHead(s6, v), Queue(v, priority), Start(s1, Queue(v, priority)))
  {
    assert s3.pollers[v] == HeadRead(s1.pollers[v].ready, priority, Start(s1, Queue(v, priority)));
  }

  lemma PassLinks(s1: State, s3: State, s6: State, v: nat, priority: nat)
    requires Enabled(s1, Choose(v, priority)) && Enabled(s3, Unlink(v)) && Inv(s3) && Enabled(s6, StoreHead(v))
    ensures LinkedOn(ApplyChoose(s1, v, priority), v) == LinkedOn(s1, v)
    ensures |LinkedOn(ApplyUnlink(s3, v), v)| == |LinkedOn(s3, v)| - 1
    ensures LinkedOn(ApplyStoreHead(s6, v), v) == LinkedOn(s6, v)
  {
    hide Inv;
    UnlinkRemoves(s3, v);
  }

  lemma QuietPass(s0: State, v: nat, priority: nat)
    requires Inv(s0) && Enabled(s0, Choose(v, priority))
    ensures var port := Start(s0, Queue(v, priority));
      var s2 := ApplyChoose(s0, v, priority);
      && Enabled(s2, Unlink(v))
      && var s4 := ApplyUnlink(s2, v);
      && Enabled(s4, StoreHead(v))
      && TookOneQuietly(s0, ApplyStoreHead(s4, v), v, port)
  {
    hide Inv;
    var s2 := ApplyChoose(s0, v, priority);
    ChooseKeeps(s0, v, priority);
    HeadReadEnabled(s2, v);
    UnlinkRemoves(s2, v);
  }

  /** The event callback is made for a port that is pending and not masked. */
  predicate Deliverable(words: map<Port, Word>, p: Port) {
    p in words && !words[p].masked && words[p].pending
  }

  /** The callbacks made for the ports taken, given the flags they had. */
  function Delivered(words: map<Port, Word>, taken: seq<(Queue, Port)>): seq<Port> {
    if taken == [] then []
    else
      var port := taken[|taken| - 1].1;
      Delivered(words, taken[..|taken| - 1]) + (if Deliverable(words, port) then [port] else [])
  }

  /** A callback is made for exactly the ports taken whose event was pending and not masked. */
  lemma {:induction false} DeliveredHas(words: map<Port, Word>, taken: seq<(Queue, Port)>, p: Port)
    ensures p in Delivered(words, taken) <==>
            p in words && !words[p].masked && words[p].pending && exists i :: 0 <= i < |taken| && taken[i].1 == p
  {
    if taken != [] {
      var last := |taken| - 1;
      DeliveredHas(words, taken[..last], p);
      assert forall i :: 0 <= i < last ==> taken[..last][i] == taken[i];
    }
  }

  /** The callbacks are for some of the ports taken, in the order in which they were taken. */
  ghost predicate CallsFor(calls: seq<Port>, taken: seq<(Queue, Port)>) {
    if taken == [] then calls == []
    else
      var last := |taken| - 1;
      CallsFor(calls, taken[..last])
      || (calls != [] && calls[|calls| - 1] == taken[last].1 && CallsFor(calls[..|calls| - 1], taken[..last]))
  }

  lemma CallsNone()
    ensures CallsFor([], [])
  {
  }

  lemma CallsSnoc(calls: seq<Port>, taken: seq<(Queue, Port)>, x: (Queue, Port))
    requires CallsFor(calls, taken)
    ensures CallsFor(calls, taken + [x]) && CallsFor(calls + [x.1], taken + [x])
  {
    assert (taken + [x])[..|taken|] == taken;
    assert (calls + [x.1])[..|calls|] == calls;
  }

  lemma ProjectEmpty()
    ensures forall k :: Project([], k) == []
    ensures forall w :: Delivered(w, []) == []
  {
  }

  lemma ProjectSnoc(taken: seq<(Queue, Port)>, x: (Queue, Port))
    ensures forall k :: Project(taken + [x], k) == Project(taken, k) + (if x.0 == k then [x.1] else [])
    ensures forall w ::
      Delivered(w, taken + [x]) == (Delivered(w, taken) + (if Deliverable(w, x.1) then [x.1] else []))
  {
    assert (taken + [x])[..|taken|] == taken;
  }

  /** The highest set bit of the ready word. */
  method BitScanReverse(ready: set<nat>) returns (priority: nat)
    requires ready != {}
    ensures priority in ready && forall r :: r in ready ==> r <= priority
  {
    priority :| priority in ready;
    var rest := ready - {priority};
    while rest != {}
      invariant rest <= ready && priority in ready
      invariant forall r :: r in ready && r !in rest ==> r <= priority
      decreases |rest|
    {
      var r :| r in rest;
      if r > priority {
        priority := r;
      }
      rest := rest - {r};
    }
  }

  /** What holds at the head of the poll loop when no other agent acts. */
  ghost predicate QuietSoFar(s: State, t: State, v: nat, taken: seq<(Queue, Port)>, ready: set<nat>) {
    && |LinkedOn(t, v)| + |taken| == |LinkedOn(s, v)|
    && t.words.Keys == s.words.Keys
    && (forall p :: p in s.words ==>
          t.words[p].masked == s.words[p].masked && t.words[p].pending == s.words[p].pending)
    && (forall k :: k in t.queues && k.vcpu == v ==>
          !t.queues[k].readyBit && k in s.queues && t.queues[k].appended == s.queues[k].appended)
    && (forall i, j :: 0 <= i < j < |taken| ==> taken[i].0.priority >= taken[j].0.priority)
    && (forall i, r :: 0 <= i < |taken| && r in ready ==> r <= taken[i].0.priority)
  }

  lemma QuietStart(s: State, t: State, v: nat, ready: set<nat>)
    requires t.words == s.words && LinkedOn(t, v) == LinkedOn(s, v)
    requires forall k :: k in t.queues && k.vcpu == v ==>
      !t.queues[k].readyBit && k in s.queues && t.queues[k].appended == s.queues[k].appended
    ensures QuietSoFar(s, t, v, [], ready)
  {
  }

  lemma QuietBits(s: State, t: State, v: nat, taken: seq<(Queue, Port)>, ready: set<nat>)
    requires QuietSoFar(s, t, v, taken, ready)
    ensures forall k :: k in t.queues && k.vcpu == v ==>
      !t.queues[k].readyBit && k in s.queues && t.queues[k].appended == s.queues[k].appended
  {
  }

  lemma QuietStep(s: State, s0: State, s2: State, v: nat, taken: seq<(Queue, Port)>,
                  ready0: set<nat>, ready2: set<nat>, priority: nat, port: Port)
    requires QuietSoFar(s, s0, v, taken, ready0)
    requires priority in ready0 && (forall r :: r in ready0 ==> r <= priority)
    requires TookOneQuietly(s0, s2, v, port) && ready2 <= ready0
    ensures QuietSoFar(s, s2, v, taken + [(Queue(v, priority), port)], ready2)
    ensures port in s.words && Deliverable(s0.words, port) == Deliverable(s.words, port)
  {
  }

  /** With nothing appended and nothing left, what was taken is what was there. */
  lemma QuietTaken(s: State, t: State, v: nat, taken: seq<(Queue, Port)>)
    requires QuietSoFar(s, t, v, taken, {})
    requires forall k :: k in t.queues && k.vcpu == v ==>
      k in s.queues && CameOff(s.queues[k], t.queues[k], Project(taken, k))
      && (t.queues[k].readyBit <==> t.queues[k].ports != [])
    ensures forall k :: k in t.queues && k.vcpu == v ==> Project(taken, k) == s.queues[k].ports
  {
    forall k | k in t.queues && k.vcpu == v ensures Project(taken, k) == s.queues[k].ports {
      assert t.queues[k].appended[|s.queues[k].appended|..] == [];
      assert Project(taken, k) + t.queues[k].ports == Project(taken, k);
      assert s.queues[k].ports + [] == s.queues[k].ports;
    }
  }

  /** No ready bit is set and no poller is at work, so nothing is linked. */
  lemma Drained(s: State, v: nat)
    requires Inv(s) && v in s.pollers && s.pollers[v] == Idle
    requires forall k :: k in s.queues && k.vcpu == v ==> !s.queues[k].readyBit
    ensures LinkedOn(s, v) == {}
  {
    if LinkedOn(s, v) != {} {
      var p :| p in LinkedOn(s, v);
      var q := LinkedOnce(s, p);
      OnlyInOwner(s, q, p);
      NothingStranded(s, q);
      assert false;
    }
  }

  class EvtchnFifoContext {
    var words: map<Port, Word>             // the shared event array
    var queues: map<Queue, QueueState>     // control blocks, cached heads, the hypervisor's tails
    var pollers: map<nat, Poller>          // how far each vCPU's poller has got
    var script: seq<Step>                  // what other agents will try to do, in order
    var events: seq<Port>                  // the calls made to the event callback
    var owner: map<Port, Queue>            // for reasoning only

    function View(): State
      reads this
    {
      State(words, queues, pollers, owner)
    }

    ghost predicate Valid()
      reads this
    {
      Inv(View())
    }

    /** The hypervisor appends a port to a queue. */
    method HypervisorAppend(p: Port, q: Queue)
      requires Enabled(View(), Append(p, q))
      modifies this
      ensures View() == ApplyAppend(old(View()), p, q)
      ensures script == old(script) && events == old(events)
    {
      queues := ForgetTail(queues, p);
      var last := queues[q].tail;
      var linked := last != NO_PORT && last in words && words[last].linked;
      words := words[p := words[p].(pending := true, linked := true)];
      if linked {
        words := words[last := words[last].(busy := false, link := p)];
      } else {
        queues := queues[q := queues[q].(controlHead := p, readyBit := true)];
      }
      queues := queues[q := queues[q].(
        tail := p, ports := queues[q].ports + [p], appended := queues[q].appended + [p])];
      owner := owner[p := q];
    }

    /** Another agent takes one enabled step. */
    method OtherStep(step: Step)
      requires Enabled(View(), step)
      modifies this
      ensures View() == Apply(old(View()), step)
      ensures script == old(script) && events == old(events)
    {
      match step
      case Append(p, q) =>
        HypervisorAppend(p, q);
      case ChangeFlags(p, pending, masked, busy) =>
        words := words[p := words[p].(pending := pending, masked := masked, busy := busy)];
      case Begin(v) =>
        pollers := pollers[v := Exchanging({})];
      case Exchange(v) =>
        pollers := pollers[v := Scanning(pollers[v].ready + ReadyOf(queues, v))];
        queues := ClearReady(queues, v);
      case Choose(v, priority) =>
        pollers := pollers[v := HeadRead(pollers[v].ready, priority, Start(View(), Queue(v, priority)))];
      case Unlink(v) =>
        TakePort(v);
      case StoreHead(v) =>
        var q := Queue(v, pollers[v].priority);
        queues := queues[q := queues[q].(head := pollers[v].next)];
        pollers := pollers[v := Exchanging(pollers[v].ready)];
      case Finish(v) =>
        pollers := pollers[v := Idle];
    }

    /** The effect of a successful exchange in the unlink loop of vCPU v's poller. */
    method TakePort(v: nat)
      requires Enabled(View(), Unlink(v))
      modifies this
      ensures View() == ApplyUnlink(old(View()), v)
      ensures script == old(script) && events == old(events)
    {
      var HeadRead(ready, priority, port) := pollers[v];
      var q := Queue(v, priority);
      var next := words[port].link;
      words := words[port := words[port].(linked := false, link := NO_PORT)];
      queues := queues[q := queues[q].(ports := queues[q].ports[1..], unlinked := queues[q].unlinked + [port])];
      pollers := pollers[v := Unlinked(if next == NO_PORT then ready - {priority} else ready, priority, port, next)];
    }

    /** Between two of a poller's accesses any number of other agents' steps may happen. */
    method Interfere(v: nat)
      requires Valid() && v in pollers
      modifies this
      ensures Valid() && Rely(old(View()), View(), v) && events == old(events)
      ensures |script| <= |old(script)|
      ensures |script| == |old(script)| ==> View() == old(View()) && script == old(script)
      ensures |LinkedOn(View(), v)| + |script| <= |LinkedOn(old(View()), v)| + |old(script)|
    {
      var n: nat := *;
      while n > 0 && script != []
        invariant Valid() && Rely(old(View()), View(), v) && events == old(events)
        invariant |script| <= |old(script)|
        invariant |script| == |old(script)| ==> View() == old(View()) && script == old(script)
        invariant |LinkedOn(View(), v)| + |script| <= |LinkedOn(old(View()), v)| + |old(script)|
      {
        var step := script[0];
        script := script[1..];
        if ByOther(step, v) && Enabled(View(), step) {
          ghost var before := View();
          StepKeeps(before, step);
          OthersRely(before, step, v);
          OthersLink(before, step, v);
          OtherStep(step);
          RelyTransitive(old(View()), before, View(), v);
        }
        n := n - 1;
      }
    }

    /** The unlink loop: read the word, compute it without LINKED and link, and write it only if
        nobody changed it in between. It returns the link of the value it replaced; `at` is the
        state in which the write succeeded. */
    method EvtchnFifoUnlink(v: nat, port: Port) returns (next: Port, ghost at: State)
      requires Valid() && v in pollers && pollers[v].HeadRead? && pollers[v].port == port
      modifies this
      ensures Valid() && events == old(events)
      ensures Inv(at) && Rely(old(View()), at, v) && Enabled(at, Unlink(v)) && View() == ApplyUnlink(at, v)
      ensures next == at.words[port].link
      ensures |script| <= |old(script)| && (old(script) == [] ==> at == old(View()))
      ensures |LinkedOn(at, v)| + |script| <= |LinkedOn(old(View()), v)| + |old(script)|
    {
      while true
        invariant Valid() && Rely(old(View()), View(), v) && events == old(events)
        invariant |script| <= |old(script)| && (old(script) == [] ==> View() == old(View()))
        invariant |LinkedOn(View(), v)| + |script| <= |LinkedOn(old(View()), v)| + |old(script)|
        decreases |script|
      {
        HeadReadEnabled(View(), v);
        var word := words[port];
        ghost var before := View();
        Interfere(v);
        RelyTransitive(old(View()), before, View(), v);
        HeadReadEnabled(View(), v);
        if words[port] == word {
          next := word.link;
          at := View();
          UnlinkKeeps(at, v);
          TakePort(v);
          return;
        }
      }
    }

    /** Read where the chain of a ready queue starts: the cached head or, if that is 0, the
        control block, which other agents can write until it is read. */
    method ReadStart(v: nat, priority: nat) returns (port: Port, ghost at: State)
      requires Valid() && v in pollers && pollers[v].Scanning? && priority in pollers[v].ready
      modifies this
      ensures Valid() && events == old(events)
      ensures Rely(old(View()), at, v) && Enabled(at, Choose(v, priority)) && View() == ApplyChoose(at, v, priority)
      ensures pollers[v].HeadRead? && pollers[v].port == port
      ensures |script| <= |old(script)| && (old(script) == [] ==> at == old(View()))
      ensures |LinkedOn(at, v)| + |script| <= |LinkedOn(old(View()), v)| + |old(script)|
    {
      hide Inv;
      var q := Queue(v, priority);
      ScanningEnabled(View(), v, priority);
      port := queues[q].head;
      Interfere(v);
      at := View();
      ScanningEnabled(at, v, priority);
      ChooseKeeps(at, v, priority);
      if port == NO_PORT {
        port := queues[q].controlHead;
      }
      pollers := pollers[v := HeadRead(pollers[v].ready, priority, port)];
    }

    /** After the unlink: look at the port's flags, make the callback if they ask for it, and
        store the link as the new cached head. */
    method DeliverAndStore(v: nat, port: Port, next: Port) returns (ghost at: State)
      requires Valid() && v in pollers && pollers[v].Unlinked? && pollers[v].next == next && port in words
      modifies this
      ensures Valid()
      ensures Rely(old(View()), at, v) && Enabled(at, StoreHead(v)) && View() == ApplyStoreHead(at, v)
      ensures |script| <= |old(script)| && (old(script) == [] ==> at == old(View()))
      ensures |LinkedOn(at, v)| + |script| <= |LinkedOn(old(View()), v)| + |old(script)|
      ensures events == old(events) || events == old(events) + [port]
      ensures old(script) == [] ==>
        (events == old(events) + [port] <==> !old(words)[port].masked && old(words)[port].pending)
    {
      hide Inv;
      Interfere(v);
      ghost var mid := View();
      if !words[port].masked && words[port].pending {
        events := events + [port];
      }
      Interfere(v);
      RelyTransitive(old(View()), mid, View(), v);
      at := View();
      UnlinkedEnabled(at, v);
      StoreHeadKeeps(at, v);
      var q := Queue(v, pollers[v].priority);
      queues := queues[q := queues[q].(head := next)];
      pollers := pollers[v := Exchanging(pollers[v].ready)];
    }

    /** Take the first port off the chosen queue and, if its event is pending and not masked, make
        the callback. `ready` is the poller's local copy of the ready bits; the queue's own goes
        when the port's link is 0, that is, if it was the last of the ports that had been appended
        (`known`) when it was unlinked. */
    method EvtchnFifoPollPriority(v: nat, priority: nat, ready: set<nat>)
      returns (ready': set<nat>, port: Port, ghost known: seq<Port>)
      requires Valid() && v in pollers && pollers[v] == Scanning(ready) && priority in ready
      modifies this
      ensures Valid() && v in pollers && pollers[v] == Exchanging(ready')
      ensures ready' <= ready && ready - {priority} <= ready'
      ensures Queue(v, priority) in old(queues) && old(queues)[Queue(v, priority)].ports != []
      ensures port == old(queues)[Queue(v, priority)].ports[0]
      ensures TookOne(old(View()), View(), Queue(v, priority), port)
      ensures forall k :: k in old(queues) && k.vcpu == v ==>
        k in queues && queues[k].unlinked == old(queues)[k].unlinked + if k.priority == priority then [port] else []
      ensures CameOff(old(queues)[Queue(v, priority)], queues[Queue(v, priority)], [port])
      ensures old(queues)[Queue(v, priority)].appended <= known <= queues[Queue(v, priority)].appended
      ensures priority in ready' <==> queues[Queue(v, priority)].unlinked != known
      ensures |script| <= |old(script)|
      ensures |LinkedOn(View(), v)| + |script| + 1 <= |LinkedOn(old(View()), v)| + |old(script)|
      ensures events == old(events) || events == old(events) + [port]
      ensures old(script) == [] ==>
        && TookOneQuietly(old(View()), View(), v, port)
      ensures port in old(words)
      ensures old(script) == [] ==>
        (events == old(events) + [port] <==> !old(words)[port].masked && old(words)[port].pending)
    {
      hide Inv;
      ghost var s0, n0 := View(), |script|;
      ghost var s1, s3, s6;
      ReadyHasPorts(s0, v, priority);
      port, s1 := ReadStart(v, priority);
      ghost var n1 := |script|;
      var next;
      next, s3 := EvtchnFifoUnlink(v, port);
      ghost var n3 := |script|;
      ready' := if next == NO_PORT then ready - {priority} else ready;
      s6 := DeliverAndStore(v, port, next);
      OnePass(s0, s1, s3, s6, v, priority);
      ghost var q := Queue(v, priority);
      LinkMeans(s3, v);
      known := s3.queues[q].appended;
      CameOffIs(s0, View(), q, [port]);
      FrontIs(s0.queues[q], queues[q], port);
      PassLinks(s1, s3, s6, v, priority);
      if old(script) == [] {
        QuietPass(s0, v, priority);
      }
    }

    /** Exchange the vCPU's shared ready word with 0, after whatever others do first. */
    method TakeReady(v: nat, ready: set<nat>) returns (ready': set<nat>)
      requires Valid() && v in pollers && pollers[v] == Exchanging(ready)
      modifies this
      ensures Valid() && v in pollers && pollers[v] == Scanning(ready')
      ensures ready <= ready' && events == old(events)
      ensures queues.Keys == old(queues).Keys && words.Keys == old(words).Keys
      ensures forall k :: k in queues && k.vcpu == v ==>
        queues[k].unlinked == old(queues)[k].unlinked && !queues[k].readyBit
        && old(queues)[k].appended <= queues[k].appended
      ensures |script| <= |old(script)|
      ensures |LinkedOn(View(), v)| + |script| <= |LinkedOn(old(View()), v)| + |old(script)|
      ensures old(script) == [] ==>
        words == old(words) && LinkedOn(View(), v) == LinkedOn(old(View()), v)
        && ready' == ready + ReadyOf(old(queues), v)
      ensures old(script) == [] ==>
        forall k :: k in queues && k.vcpu == v ==> queues[k].appended == old(queues)[k].appended
    {
      Interfere(v);
      ExchangeKeeps(View(), v);
      ready' := ready + ReadyOf(queues, v);
      ghost var before := View();
      queues := ClearReady(queues, v);
      pollers := pollers[v := Scanning(ready')];
      assert View() == ApplyExchange(before, v);
      assert LinkedOn(View(), v) == LinkedOn(before, v);
    }

    /** One turn of the poll loop: the highest ready priority gives up one port, and then the
        ready bits set meanwhile are collected. */
    method PollOnce(v: nat, ready: set<nat>) returns (ready': set<nat>, q: Queue, port: Port)
      requires Valid() && v in pollers && pollers[v] == Scanning(ready) && ready != {}
      modifies this
      ensures Valid() && v in pollers && pollers[v] == Scanning(ready')
      ensures q.vcpu == v && q in old(queues) && q.priority in ready && forall r :: r in ready ==> r <= q.priority
      ensures TookOne(old(View()), View(), q, port)
      ensures old(queues)[q].ports != [] && port == old(queues)[q].ports[0]
      ensures forall k :: k in queues && k.vcpu == v ==>
        !queues[k].readyBit && (k.priority in ready' <==> queues[k].ports != [])
      ensures events == old(events) || events == old(events) + [port]
      ensures |script| <= |old(script)|
      ensures |LinkedOn(View(), v)| + |script| + 1 <= |LinkedOn(old(View()), v)| + |old(script)|
      ensures old(script) == [] && (forall k :: k in old(queues) && k.vcpu == v ==> !old(queues)[k].readyBit) ==>
        && TookOneQuietly(old(View()), View(), v, port) && ready' <= ready
      ensures port in old(words)
      ensures old(script) == [] ==>
        (events == old(events) + [port] <==> !old(words)[port].masked && old(words)[port].pending)
    {
      hide Inv, LinkedOn, TookOne, TookOneQuietly, CameOff, Deliverable;
      ghost var s := View();
      var priority := BitScanReverse(ready);
      q := Queue(v, priority);
      ghost var known;
      ready', port, known := EvtchnFifoPollPriority(v, priority, ready);
      ghost var mid := View();
      ready' := TakeReady(v, ready');
      LocalBits(View(), v, ready');
      TookThen(s, mid, View(), q, port);
      if old(script) == [] {
        TookQuietlyThen(s, mid, View(), v, port);
      }
    }

    /** Take ports off the vCPU's queues until no ready bit is left. With nobody else at work it
        takes each linked port once, higher-numbered priorities first. */
    method EvtchnFifoPoll(v: nat) returns (taken: seq<(Queue, Port)>)
      requires Valid() && (v in pollers ==> pollers[v] == Idle)
      modifies this
      ensures Valid()
      ensures v !in old(pollers) ==> View() == old(View()) && taken == [] && events == old(events)
      ensures v in old(pollers) ==> v in pollers && pollers[v] == Idle && queues.Keys == old(queues).Keys
      ensures v in old(pollers) ==> forall k :: k in queues && k.vcpu == v ==>
        && queues[k].unlinked == old(queues)[k].unlinked + Project(taken, k)
        && old(queues)[k].appended <= queues[k].appended
        && Project(taken, k) + queues[k].ports == old(queues)[k].ports + queues[k].appended[|old(queues)[k].appended|..]
        && queues[k].head == NO_PORT && (queues[k].readyBit <==> queues[k].ports != [])
      ensures v in old(pollers) ==> |taken| <= |LinkedOn(old(View()), v)| + |old(script)|
      ensures v in old(pollers) ==> old(events) <= events && CallsFor(events[|old(events)|..], taken)
      ensures v in old(pollers) && old(script) == [] ==>
        && |taken| == |LinkedOn(old(View()), v)| && LinkedOn(View(), v) == {}
        && (forall k :: k in queues && k.vcpu == v ==> Project(taken, k) == old(queues)[k].ports)
        && events == old(events) + Delivered(old(words), taken)
        && (forall p :: p in old(words) ==>
              p in words && words[p].masked == old(words)[p].masked && words[p].pending == old(words)[p].pending)
        && (forall p :: p in events[|old(events)|..] <==>
              p in old(words) && !old(words)[p].masked && old(words)[p].pending && exists i :: 0 <= i < |taken| && taken[i].1 == p)
        && forall i, j :: 0 <= i < j < |taken| ==> taken[i].0.priority >= taken[j].0.priority
    {
      hide Inv;
      taken := [];
      if v !in pollers {
        return;
      }
      taken := PollUntilDry(v);
      ghost var last := View();
      BoundaryKeeps(last, v, Idle);
      pollers := pollers[v := Idle];
      ghost var s := old(View());
      forall k | k in queues && k.vcpu == v
        ensures queues[k].head == NO_PORT && (queues[k].readyBit <==> queues[k].ports != [])
        ensures CameOff(s.queues[k], queues[k], Project(taken, k))
      {
        NothingStranded(View(), k);
        CameOffIs(s, View(), k, Project(taken, k));
      }
      if old(script) == [] {
        Drained(View(), v);
        assert LinkedOn(View(), v) == LinkedOn(last, v);
        QuietTaken(s, View(), v, taken);
        assert events[|old(events)|..] == Delivered(old(words), taken);
        forall p ensures p in Delivered(old(words), taken) <==>
          p in old(words) && !old(words)[p].masked && old(words)[p].pending && exists i :: 0 <= i < |taken| && taken[i].1 == p
        {
          DeliveredHas(old(words), taken, p);
        }
      }
    }

    /** Start a poll: collect the ready bits that are set. */
    method BeginPoll(v: nat) returns (ready: set<nat>)
      requires Valid() && v in pollers && pollers[v] == Idle
      modifies this
      ensures Valid() && v in pollers && pollers[v] == Scanning(ready)
      ensures queues.Keys == old(queues).Keys && events == old(events) && |script| <= |old(script)|
      ensures forall k :: k in queues && k.vcpu == v ==>
        queues[k].unlinked == old(queues)[k].unlinked && old(queues)[k].appended <= queues[k].appended
      ensures |LinkedOn(View(), v)| + |script| <= |LinkedOn(old(View()), v)| + |old(script)|
      ensures old(script) == [] ==> QuietSoFar(old(View()), View(), v, [], ready)
    {
      BoundaryKeeps(View(), v, Exchanging({}));
      hide Inv;
      pollers := pollers[v := Exchanging({})];
      assert LinkedOn(View(), v) == LinkedOn(old(View()), v);
      ready := TakeReady(v, {});
      if old(script) == [] {
        QuietStart(old(View()), View(), v, ready);
      }
    }

    /** The poll loop proper. */
    method PollUntilDry(v: nat) returns (taken: seq<(Queue, Port)>)
      requires Valid() && v in pollers && pollers[v] == Idle
      modifies this
      ensures Valid() && v in pollers && pollers[v] == Scanning({}) && SoFar(old(View()), View(), v, taken)
      ensures old(events) <= events && CallsFor(events[|old(events)|..], taken)
      ensures |LinkedOn(View(), v)| + |script| + |taken| <= |LinkedOn(old(View()), v)| + |old(script)|
      ensures old(script) == [] ==> QuietSoFar(old(View()), View(), v, taken, {})
      ensures old(script) == [] ==> events == old(events) + Delivered(old(words), taken)
    {
      hide Inv, LinkedOn, QuietSoFar, SoFar, TurnsTo;
      taken := [];
      ghost var s := View();
      var ready := BeginPoll(v);
      SoFarStart(s, View(), v);
      TurnsNone(s, View(), v, ready, events, old(script) == []);
      while ready != {}
        invariant Valid() && v in pollers && pollers[v] == Scanning(ready)
        invariant TurnsTo(s, View(), v, taken, ready, old(events), events, old(script) == [])
        invariant |LinkedOn(View(), v)| + |script| + |taken| <= |LinkedOn(s, v)| + |old(script)|
        invariant |script| <= |old(script)|
        decreases |LinkedOn(View(), v)| + |script|
      {
        var q, port;
        ready, q, port := Turn(v, ready, s, taken, old(events), old(script) == []);
        taken := taken + [(q, port)];
      }
      TurnsMean(s, View(), v, taken, old(events), events, old(script) == []);
    }

    /** One turn, and what it adds to what has been done since state s. */
    method Turn(v: nat, ready: set<nat>, ghost s: State, ghost taken: seq<(Queue, Port)>, ghost events0: seq<Port>,
                ghost quiet: bool) returns (ready': set<nat>, q: Queue, port: Port)
      requires Valid() && v in pollers && pollers[v] == Scanning(ready) && ready != {} && (quiet ==> script == [])
      requires TurnsTo(s, View(), v, taken, ready, events0, events, quiet)
      modifies this
      ensures Valid() && v in pollers && pollers[v] == Scanning(ready')
      ensures TurnsTo(s, View(), v, taken + [(q, port)], ready', events0, events, quiet)
      ensures |script| <= |old(script)|
      ensures |LinkedOn(View(), v)| + |script| + 1 <= |LinkedOn(old(View()), v)| + |old(script)|
    {
      hide Inv, LinkedOn, QuietSoFar, SoFar, TookOneQuietly, TookOne;
      ghost var s0, before := View(), events;
      if quiet {
        QuietBits(s, s0, v, taken, ready);
      }
      ready', q, port := PollOnce(v, ready);
      SoFarStep(s, s0, View(), v, taken, q, port);
      if quiet {
        QuietStep(s, s0, View(), v, taken, ready, ready', q.priority, port);
      }
      TurnsStep(s, s0, View(), v, taken, ready, ready', events0, before, events, quiet, q, port);
    }
  }

  /** What has been done since state s, by the callbacks made and the ports taken. */
  ghost predicate TurnsTo(s: State, t: State, v: nat, taken: seq<(Queue, Port)>, ready: set<nat>,
                          events0: seq<Port>, events: seq<Port>, quiet: bool)
  {
    && SoFar(s, t, v, taken)
    && events0 <= events && CallsFor(events[|events0|..], taken)
    && (quiet ==> QuietSoFar(s, t, v, taken, ready) && events == events0 + Delivered(s.words, taken))
  }

  lemma TurnsNone(s: State, t: State, v: nat, ready: set<nat>, events: seq<Port>, quiet: bool)
    requires SoFar(s, t, v, []) && (quiet ==> QuietSoFar(s, t, v, [], ready))
    ensures TurnsTo(s, t, v, [], ready, events, events, quiet)
  {
    hide SoFar, QuietSoFar;
    CallsNone();
    assert events[|events|..] == [];
    assert events + [] == events;
  }

  lemma TurnsMean(s: State, t: State, v: nat, taken: seq<(Queue, Port)>, events0: seq<Port>, events: seq<Port>, quiet: bool)
    requires TurnsTo(s, t, v, taken, {}, events0, events, quiet)
    ensures SoFar(s, t, v, taken) && events0 <= events && CallsFor(events[|events0|..], taken)
    ensures quiet ==> QuietSoFar(s, t, v, taken, {}) && events == events0 + Delivered(s.words, taken)
  {
  }

  lemma TurnsStep(s: State, s0: State, t: State, v: nat, taken: seq<(Queue, Port)>, ready: set<nat>, ready': set<nat>,
                  events0: seq<Port>, before: seq<Port>, events: seq<Port>, quiet: bool, q: Queue, port: Port)
    requires TurnsTo(s, s0, v, taken, ready, events0, before, quiet) && SoFar(s, t, v, taken + [(q, port)])
    requires events == before || events == before + [port]
    requires quiet ==> QuietSoFar(s, t, v, taken + [(q, port)], ready')
    requires quiet ==> events == before + if Deliverable(s.words, port) then [port] else []
    ensures TurnsTo(s, t, v, taken + [(q, port)], ready', events0, events, quiet)
  {
    hide SoFar, QuietSoFar, CallsFor, Delivered, Deliverable;
    ProjectSnoc(taken, (q, port));
    CallsSnoc(before[|events0|..], taken, (q, port));
    assert (before + [port])[|events0|..] == before[|events0|..] + [port];
  }

  /** What has come off the queues of a vCPU since state s. */
  ghost predicate SoFar(s: State, t: State, v: nat, taken: seq<(Queue, Port)>) {
    && t.queues.Keys == s.queues.Keys
    && forall k :: k in s.queues && k.vcpu == v ==>
         t.queues[k].unlinked == s.queues[k].unlinked + Project(taken, k)
         && s.queues[k].appended <= t.queues[k].appended
  }

  lemma SoFarStart(s: State, t: State, v: nat)
    requires t.queues.Keys == s.queues.Keys
    requires forall k :: k in s.queues && k.vcpu == v ==>
      t.queues[k].unlinked == s.queues[k].unlinked && s.queues[k].appended <= t.queues[k].appended
    ensures SoFar(s, t, v, [])
  {
    ProjectEmpty();
  }

  lemma SoFarStep(s: State, s0: State, t: State, v: nat, taken: seq<(Queue, Port)>, q: Queue, port: Port)
    requires SoFar(s, s0, v, taken) && TookOne(s0, t, q, port) && q.vcpu == v
    ensures SoFar(s, t, v, taken + [(q, port)])
  {
    hide Project;
    ProjectSnoc(taken, (q, port));
  }
}
