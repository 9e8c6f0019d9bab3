/** The FIFO event channel queues as a machine of atomic steps: the hypervisor appends ports,
    the guest's per-CPU pollers take them off, in any interleaving.

    Ports wait in one queue per (vCPU, priority). A queue is a chain through the link fields
    of the event words. Its first port is named in one of two places: the poller's cached head
    or, when that is 0, the control block shared with the hypervisor. */
module FifoMachine {
  import opened EventWord

  datatype Queue = Queue(vcpu: nat, priority: nat)

  /** What one queue consists of. `tail` is private to the hypervisor, `head` is the guest's
      cached head; `ports` is the queue's true contents and `appended` and `unlinked` are the
      whole history. The last three are for reasoning only: no step's effect on the others
      depends on them. */
  datatype QueueState = QueueState(
    controlHead: Port, readyBit: bool, tail: Port, head: Port,
    ports: seq<Port>, appended: seq<Port>, unlinked: seq<Port>)

  /** Where a vCPU's poller is. `ready` is its local copy of the ready bits. */
  datatype Poller =
    | Idle
    | Exchanging(ready: set<nat>)
    | Scanning(ready: set<nat>)
    | HeadRead(ready: set<nat>, priority: nat, port: Port)
    | Unlinked(ready: set<nat>, priority: nat, port: Port, next: Port)

  /** `owner` says which queue a linked port is in; it too is for reasoning only. */
  datatype State = State(
    words: map<Port, Word>, queues: map<Queue, QueueState>, pollers: map<nat, Poller>,
    owner: map<Port, Queue>)

  datatype Step =
    | Append(port: Port, queue: Queue)
    | ChangeFlags(port: Port, pending: bool, masked: bool, busy: bool)
    | Begin(vcpu: nat)
    | Exchange(vcpu: nat)
    | Choose(vcpu: nat, priority: nat)
    | Unlink(vcpu: nat)
    | StoreHead(vcpu: nat)
    | Finish(vcpu: nat)

  /** The ready bits a poller holds locally. */
  function LocalReady(s: State, v: nat): set<nat>
    requires v in s.pollers
  {
    match s.pollers[v]
    case Idle => {}
    case Exchanging(r) => r
    case Scanning(r) => r
    case HeadRead(r, _, _) => r
    case Unlinked(r, _, _, _) => r
  }

  /** The cached head of a queue: the value in flight while its poller is about to store it. */
  function LocalHead(s: State, q: Queue): Port
    requires q in s.queues && q.vcpu in s.pollers
  {
    match s.pollers[q.vcpu]
    case Unlinked(_, priority, _, next) => if priority == q.priority then next else s.queues[q].head
    case _ => s.queues[q].head
  }

  /** Where the chain of a queue starts. */
  function Start(s: State, q: Queue): Port
    requires q in s.queues && q.vcpu in s.pollers
  {
    if LocalHead(s, q) != NO_PORT then LocalHead(s, q) else s.queues[q].controlHead
  }

  /** Following links from `start` visits exactly `c`, all of it linked, and ends at link 0. */
  ghost predicate Follows(words: map<Port, Word>, start: Port, c: seq<Port>)
    decreases |c|
  {
    if start == NO_PORT then c == []
    else
      && c != [] && c[0] == start
      && start in words && words[start].linked
      && Follows(words, words[start].link, c[1..])
  }

  ghost predicate Distinct<T>(c: seq<T>) {
    forall i, j :: 0 <= i < j < |c| ==> c[i] != c[j]
  }

  // ---- Steps ----

  /** The queues once port p is about to be appended somewhere. p is not linked, so a queue
      that still remembers p as its tail has been emptied: the hypervisor forgets that tail. */
  function ForgetTail(queues: map<Queue, QueueState>, p: Port): map<Queue, QueueState> {
    map q | q in queues :: if queues[q].tail == p then queues[q].(tail := NO_PORT) else queues[q]
  }

  function ClearReady(queues: map<Queue, QueueState>, v: nat): map<Queue, QueueState> {
    map q | q in queues :: if q.vcpu == v then queues[q].(readyBit := false) else queues[q]
  }

  function ReadyOf(queues: map<Queue, QueueState>, v: nat): set<nat> {
    set q | q in queues && q.vcpu == v && queues[q].readyBit :: q.priority
  }

  /** When a step can happen. The conditions on domains and on a queue being non-empty never
      block a poller: see NeverStuck. */
  predicate Enabled(s: State, step: Step) {
    match step
    case Append(p, q) => p != NO_PORT && p in s.words && !s.words[p].linked && q in s.queues
    case ChangeFlags(p, _, _, _) => p in s.words
    case Begin(v) => v in s.pollers && s.pollers[v].Idle?
    case Exchange(v) => v in s.pollers && s.pollers[v].Exchanging?
    case Choose(v, priority) =>
      v in s.pollers && s.pollers[v].Scanning? && priority in s.pollers[v].ready && Queue(v, priority) in s.queues
    case Unlink(v) =>
      v in s.pollers && s.pollers[v].HeadRead? && s.pollers[v].port in s.words
      && Queue(v, s.pollers[v].priority) in s.queues && s.queues[Queue(v, s.pollers[v].priority)].ports != []
    case StoreHead(v) =>
      v in s.pollers && s.pollers[v].Unlinked? && Queue(v, s.pollers[v].priority) in s.queues
    case Finish(v) => v in s.pollers && s.pollers[v].Scanning? && s.pollers[v].ready == {}
  }

  ghost function Apply(s: State, step: Step): State
    requires Enabled(s, step)
  {
    match step
    case Append(p, q) => ApplyAppend(s, p, q)
    case ChangeFlags(p, pending, masked, busy) =>
      s.(words := s.words[p := s.words[p].(pending := pending, masked := masked, busy := busy)])
    case Begin(v) => s.(pollers := s.pollers[v := Exchanging({})])
    case Exchange(v) => ApplyExchange(s, v)
    case Choose(v, priority) => ApplyChoose(s, v, priority)
    case Unlink(v) => ApplyUnlink(s, v)
    case StoreHead(v) => ApplyStoreHead(s, v)
    case Finish(v) => s.(pollers := s.pollers[v := Idle])
  }

  /** The poller takes all of its CPU's ready bits at once. */
  ghost function ApplyExchange(s: State, v: nat): State
    requires Enabled(s, Exchange(v))
  {
    s.(queues := ClearReady(s.queues, v),
       pollers := s.pollers[v := Scanning(s.pollers[v].ready + ReadyOf(s.queues, v))])
  }

  /** The poller picks a ready priority and reads where its chain starts. */
  ghost function ApplyChoose(s: State, v: nat, priority: nat): State
    requires Enabled(s, Choose(v, priority))
  {
    s.(pollers := s.pollers[v := HeadRead(s.pollers[v].ready, priority, Start(s, Queue(v, priority)))])
  }

  ghost function ApplyStoreHead(s: State, v: nat): State
    requires Enabled(s, StoreHead(v))
  {
    var q := Queue(v, s.pollers[v].priority);
    s.(queues := s.queues[q := s.queues[q].(head := s.pollers[v].next)],
       pollers := s.pollers[v := Exchanging(s.pollers[v].ready)])
  }

  /** If the queue's last word is still linked its link is written; otherwise the queue was
      found empty, so the control block head is written and the ready bit set. */
  ghost function ApplyAppend(s: State, p: Port, q: Queue): State
    requires Enabled(s, Append(p, q))
  {
    var queues := ForgetTail(s.queues, p);
    var x := queues[q].(tail := p, ports := queues[q].ports + [p], appended := queues[q].appended + [p]);
    var words := s.words[p := s.words[p].(pending := true, linked := true)];
    var tail := queues[q].tail;
    if tail != NO_PORT && tail in s.words && s.words[tail].linked then
      State(words[tail := words[tail].(busy := false, link := p)], queues[q := x], s.pollers, s.owner[p := q])
    else
      State(words, queues[q := x.(controlHead := p, readyBit := true)], s.pollers, s.owner[p := q])
  }

  /** The poller takes the port whose head it read; a link of 0 ends the queue and clears the
      local ready bit. */
  ghost function ApplyUnlink(s: State, v: nat): State
    requires Enabled(s, Unlink(v))
  {
    var HeadRead(ready, priority, port) := s.pollers[v];
    var q := Queue(v, priority);
    var next := s.words[port].link;
    var x := s.queues[q];
    s.(words := s.words[port := s.words[port].(linked := false, link := NO_PORT)],
       queues := s.queues[q := x.(ports := x.ports[1..], unlinked := x.unlinked + [port])],
       pollers := s.pollers[v := Unlinked(if next == NO_PORT then ready - {priority} else ready, priority, port, next)])
  }

  // ---- The invariant ----

  ghost predicate InChain(s: State, q: Queue, i: nat)
    requires q in s.queues && i < |s.queues[q].ports|
  {
    var c := s.queues[q].ports;
    && c[i] in s.words && c[i] != NO_PORT && s.words[c[i]].linked
    && s.words[c[i]].link == (if i + 1 < |c| then c[i + 1] else NO_PORT)
    && c[i] in s.owner && s.owner[c[i]] == q
  }

  ghost predicate QueueInv(s: State, q: Queue)
    requires q in s.queues
  {
    var x := s.queues[q];
    && q.vcpu in s.pollers
    && (forall i :: 0 <= i < |x.ports| ==> InChain(s, q, i))
    && Distinct(x.ports)
    && x.unlinked + x.ports == x.appended
    && (x.tail != NO_PORT ==> x.tail in s.words)
    && (x.ports != [] ==> x.tail == x.ports[|x.ports| - 1] && Start(s, q) == x.ports[0])
    && (x.ports == [] ==> LocalHead(s, q) == NO_PORT && (x.tail != NO_PORT ==> !s.words[x.tail].linked))
    && (x.readyBit || q.priority in LocalReady(s, q.vcpu) <==> x.ports != [])
    && (x.readyBit ==> q.priority !in LocalReady(s, q.vcpu) && LocalHead(s, q) == NO_PORT)
  }

  ghost predicate PollerInv(s: State, v: nat)
    requires v in s.pollers
  {
    && (forall r :: r in LocalReady(s, v) ==> Queue(v, r) in s.queues)
    && match s.pollers[v]
       case HeadRead(ready, priority, port) =>
         priority in ready && s.queues[Queue(v, priority)].ports != []
         && port == s.queues[Queue(v, priority)].ports[0]
       case Unlinked(ready, priority, _, next) =>
         Queue(v, priority) in s.queues && (next == NO_PORT <==> priority !in ready)
       case _ => true
  }

  ghost predicate WordInv(s: State, p: Port)
    requires p in s.words
  {
    if s.words[p].linked then
      p in s.owner && s.owner[p] in s.queues && p in s.queues[s.owner[p]].ports
    else s.words[p].link == NO_PORT
  }

  ghost predicate Inv(s: State) {
    && (forall v :: v in s.pollers ==> PollerInv(s, v))
    && (forall q :: q in s.queues ==> QueueInv(s, q))
    && (forall p :: p in s.words ==> WordInv(s, p))
  }

  lemma InvQueue(s: State, q: Queue)
    requires Inv(s) && q in s.queues
    ensures QueueInv(s, q)
  {
  }

  lemma InvPoller(s: State, v: nat)
    requires Inv(s) && v in s.pollers
    ensures PollerInv(s, v)
  {
  }

  lemma InvWord(s: State, p: Port)
    requires Inv(s) && p in s.words
    ensures WordInv(s, p)
  {
  }

  lemma MakeInv(s: State)
    requires forall v :: v in s.pollers ==> PollerInv(s, v)
    requires forall q :: q in s.queues ==> QueueInv(s, q)
    requires forall p :: p in s.words ==> WordInv(s, p)
    ensures Inv(s)
  {
  }

  ghost predicate Init(s: State) {
    && (forall q :: q in s.queues ==>
          q.vcpu in s.pollers && s.queues[q] == QueueState(NO_PORT, false, NO_PORT, NO_PORT, [], [], []))
    && (forall v :: v in s.pollers ==> s.pollers[v] == Idle)
    && (forall p :: p in s.words ==> !s.words[p].linked && s.words[p].link == NO_PORT)
  }

  lemma InitInv(s: State)
    requires Init(s)
    ensures Inv(s)
  {
  }

  // ---- Every step keeps the invariant ----

  /** A queue keeps its invariant when a step changes nothing the invariant reads, other than
      forgetting the tail of an empty queue. */
  lemma QueueFrame(s: State, t: State, q: Queue)
    requires q in s.queues && q in t.queues && QueueInv(s, q) && q.vcpu in t.pollers
    requires t.queues[q] == s.queues[q].(tail := t.queues[q].tail)
    requires t.queues[q].tail != s.queues[q].tail ==> t.queues[q].tail == NO_PORT && s.queues[q].ports == []
    requires LocalHead(t, q) == LocalHead(s, q)
    requires q.priority in LocalReady(t, q.vcpu) <==> q.priority in LocalReady(s, q.vcpu)
    requires forall p :: p in s.words ==> p in t.words
    requires forall p :: p in s.queues[q].ports && p in s.words && p in s.owner ==>
      p in t.owner && t.owner[p] == s.owner[p]
      && t.words[p].linked == s.words[p].linked && t.words[p].link == s.words[p].link
    requires forall p :: p == s.queues[q].tail && p in s.words && !s.words[p].linked ==>
      !t.words[p].linked || t.queues[q].tail == NO_PORT
    ensures QueueInv(t, q)
  {
    forall i | 0 <= i < |t.queues[q].ports| ensures InChain(t, q, i) {
      assert InChain(s, q, i);
      assert s.queues[q].ports[i] in s.queues[q].ports;
    }
  }

  /** A linked port is in its owner's queue and in no other. */
  lemma OnlyInOwner(s: State, q: Queue, p: Port)
    requires Inv(s) && q in s.queues && p in s.queues[q].ports
    ensures p in s.words && s.words[p].linked && p in s.owner && s.owner[p] == q
  {
    var i :| 0 <= i < |s.queues[q].ports| && s.queues[q].ports[i] == p;
    InvQueue(s, q);
    assert InChain(s, q, i);
  }

  /** The hypervisor finds the queue's last word linked exactly when the queue is not empty,
      and it is then the last port of the queue. */
  lemma TailFound(s: State, p: Port, q: Queue)
    requires Inv(s) && Enabled(s, Append(p, q))
    ensures p !in s.queues[q].ports
    ensures var tail := ForgetTail(s.queues, p)[q].tail;
      if s.queues[q].ports == [] then tail == NO_PORT || (tail in s.words && !s.words[tail].linked)
      else tail != NO_PORT && tail == s.queues[q].ports[|s.queues[q].ports| - 1] && tail == s.queues[q].tail
           && tail in s.words && s.words[tail].linked && tail != p
  {
    hide Inv;
    InvQueue(s, q);
    if p in s.queues[q].ports {
      OnlyInOwner(s, q, p);
    }
    var c := s.queues[q].ports;
    if c != [] {
      assert InChain(s, q, |c| - 1);
      assert c[|c| - 1] in c;
    }
  }

  lemma AppendTouches(s: State, p: Port, q: Queue, k: Queue)
    requires Inv(s) && Enabled(s, Append(p, q)) && k in s.queues && k != q
    ensures forall r :: r in s.queues[k].ports ==>
      r in s.words && r != p && (s.queues[q].ports != [] ==> r != s.queues[q].tail)
  {
    hide Inv;
    TailFound(s, p, q);
    forall r | r in s.queues[k].ports
      ensures r in s.words && r != p && (s.queues[q].ports != [] ==> r != s.queues[q].tail)
    {
      OnlyInOwner(s, k, r);
      if s.queues[q].ports != [] {
        OnlyInOwner(s, q, s.queues[q].tail);
      }
    }
  }

  lemma AppendKeepsOther(s: State, p: Port, q: Queue, k: Queue)
    requires Inv(s) && Enabled(s, Append(p, q)) && k in s.queues && k != q
    ensures QueueInv(ApplyAppend(s, p, q), k)
  {
    hide Inv;
    AppendTouches(s, p, q, k);
    TailFound(s, p, q);
    TailFound(s, p, k);
    InvQueue(s, k);
    AppendFrame(s, p, q, k);
  }

  lemma AppendFrame(s: State, p: Port, q: Queue, k: Queue)
    requires Enabled(s, Append(p, q)) && k in s.queues && k != q && QueueInv(s, k)
    requires s.queues[k].tail == p ==> s.queues[k].ports == []
    requires var tail := ForgetTail(s.queues, p)[q].tail;
      tail != NO_PORT && tail in s.words && s.words[tail].linked ==>
        tail == s.queues[q].tail && (forall r :: r in s.queues[k].ports ==> r != tail)
    requires forall r :: r in s.queues[k].ports ==> r in s.words && r != p
    ensures QueueInv(ApplyAppend(s, p, q), k)
  {
    QueueFrame(s, ApplyAppend(s, p, q), k);
  }

  lemma AppendKeepsSelf(s: State, p: Port, q: Queue)
    requires Inv(s) && Enabled(s, Append(p, q))
    ensures QueueInv(ApplyAppend(s, p, q), q)
  {
    hide Inv;
    var t := ApplyAppend(s, p, q);
    var c := s.queues[q].ports;
    TailFound(s, p, q);
    InvQueue(s, q);
    InvWord(s, p);
    assert t.queues[q].ports == c + [p];
    forall i | 0 <= i < |c + [p]| ensures InChain(t, q, i) {
      if i < |c| {
        assert InChain(s, q, i);
        assert c[i] in c;
      }
    }
    assert s.queues[q].unlinked + (c + [p]) == (s.queues[q].unlinked + c) + [p];
  }

  lemma AppendKeepsWord(s: State, p: Port, q: Queue, r: Port)
    requires Inv(s) && Enabled(s, Append(p, q)) && r in s.words
    ensures r in ApplyAppend(s, p, q).words && WordInv(ApplyAppend(s, p, q), r)
  {
    hide Inv;
    var t := ApplyAppend(s, p, q);
    TailFound(s, p, q);
    InvWord(s, r);
    var c := s.queues[q].ports;
    assert t.queues[q].ports == c + [p] && (c + [p])[|c|] == p;
    if r != p && s.words[r].linked {
      assert s.owner[r] != q ==> t.queues[s.owner[r]].ports == s.queues[s.owner[r]].ports;
    }
  }

  lemma AppendKeepsPoller(s: State, p: Port, q: Queue, v: nat)
    requires Enabled(s, Append(p, q)) && v in s.pollers && PollerInv(s, v)
    ensures v in ApplyAppend(s, p, q).pollers && PollerInv(ApplyAppend(s, p, q), v)
  {
    var t := ApplyAppend(s, p, q);
    assert t.pollers == s.pollers && t.queues.Keys == s.queues.Keys;
    forall k | k in s.queues ensures s.queues[k].ports <= t.queues[k].ports {
    }
  }

  lemma AppendKeeps(s: State, p: Port, q: Queue)
    requires Inv(s) && Enabled(s, Append(p, q))
    ensures Inv(ApplyAppend(s, p, q))
  {
    hide Inv;
    var t := ApplyAppend(s, p, q);
    assert t.queues.Keys == s.queues.Keys && t.words.Keys == s.words.Keys && t.pollers == s.pollers by {
      TailFound(s, p, q);
    }
    forall k | k in t.queues ensures QueueInv(t, k) {
      if k == q {
        AppendKeepsSelf(s, p, q);
      } else {
        AppendKeepsOther(s, p, q, k);
      }
    }
    forall v | v in t.pollers ensures PollerInv(t, v) {
      InvPoller(s, v);
      AppendKeepsPoller(s, p, q, v);
    }
    forall r | r in t.words ensures WordInv(t, r) {
      AppendKeepsWord(s, p, q, r);
    }
    MakeInv(t);
  }

  /** The port whose head was read is the first of its queue, and its link is the second. */
  lemma FirstTwo(s: State, v: nat)
    requires Inv(s) && Enabled(s, Unlink(v))
    ensures var q := Queue(v, s.pollers[v].priority);
      && q in s.queues && s.queues[q].ports != [] && InChain(s, q, 0)
      && s.pollers[v].port == s.queues[q].ports[0]
      && s.words[s.pollers[v].port].link == (if |s.queues[q].ports| > 1 then s.queues[q].ports[1] else NO_PORT)
      && (s.words[s.pollers[v].port].link == NO_PORT <==> |s.queues[q].ports| == 1)
  {
    hide Inv;
    var q := Queue(v, s.pollers[v].priority);
    InvPoller(s, v);
    InvQueue(s, q);
    assert InChain(s, q, 0);
    if |s.queues[q].ports| > 1 {
      assert InChain(s, q, 1);
    }
  }

  lemma UnlinkKeepsOther(s: State, v: nat, k: Queue)
    requires Inv(s) && Enabled(s, Unlink(v)) && k in s.queues && k != Queue(v, s.pollers[v].priority)
    ensures QueueInv(ApplyUnlink(s, v), k)
  {
    hide Inv;
    var q := Queue(v, s.pollers[v].priority);
    var port := s.pollers[v].port;
    FirstTwo(s, v);
    InvQueue(s, k);
    assert s.queues[q].ports[0] in s.queues[q].ports;
    OnlyInOwner(s, q, port);
    forall r | r in s.queues[k].ports ensures r != port {
      OnlyInOwner(s, k, r);
    }
    QueueFrame(s, ApplyUnlink(s, v), k);
  }

  lemma UnlinkKeepsSelf(s: State, v: nat)
    requires Inv(s) && Enabled(s, Unlink(v))
    ensures Queue(v, s.pollers[v].priority) in s.queues
    ensures QueueInv(ApplyUnlink(s, v), Queue(v, s.pollers[v].priority))
  {
    hide Inv;
    InvPoller(s, v);
    var t := ApplyUnlink(s, v);
    var q := Queue(v, s.pollers[v].priority);
    var c := s.queues[q].ports;
    FirstTwo(s, v);
    InvQueue(s, q);
    assert t.queues[q].ports == c[1..];
    forall i | 0 <= i < |c[1..]| ensures InChain(t, q, i) {
      assert InChain(s, q, i + 1);
      assert c[1..][i] == c[i + 1] && c[0] != c[i + 1];
    }
    assert s.queues[q].unlinked + c == (s.queues[q].unlinked + [c[0]]) + c[1..];
  }

  lemma UnlinkKeepsWord(s: State, v: nat, r: Port)
    requires Inv(s) && Enabled(s, Unlink(v)) && r in s.words
    ensures WordInv(ApplyUnlink(s, v), r)
  {
    hide Inv;
    var q := Queue(v, s.pollers[v].priority);
    var c := s.queues[q].ports;
    FirstTwo(s, v);
    InvWord(s, r);
    if r != s.pollers[v].port && s.words[r].linked && s.owner[r] == q {
      var i :| 0 <= i < |c| && c[i] == r;
      assert c[1..][i - 1] == r;
    }
  }

  lemma UnlinkKeeps(s: State, v: nat)
    requires Inv(s) && Enabled(s, Unlink(v))
    ensures Inv(ApplyUnlink(s, v))
  {
    hide Inv;
    var t := ApplyUnlink(s, v);
    var q := Queue(v, s.pollers[v].priority);
    FirstTwo(s, v);
    forall k | k in t.queues ensures QueueInv(t, k) {
      if k == q {
        UnlinkKeepsSelf(s, v);
      } else {
        UnlinkKeepsOther(s, v, k);
      }
    }
    forall u | u in t.pollers ensures PollerInv(t, u) {
      InvPoller(s, u);
    }
    forall r | r in t.words ensures WordInv(t, r) {
      UnlinkKeepsWord(s, v, r);
    }
    MakeInv(t);
  }

  lemma ExchangeKeepsQueue(s: State, v: nat, k: Queue)
    requires Inv(s) && Enabled(s, Exchange(v)) && k in s.queues
    ensures QueueInv(ApplyExchange(s, v), k)
  {
    hide Inv;
    var t := ApplyExchange(s, v);
    InvQueue(s, k);
    if k.vcpu == v {
      assert k.priority in ReadyOf(s.queues, v) <==> s.queues[k].readyBit by {
        assert k == Queue(v, k.priority);
        assert forall q :: q in s.queues && q.vcpu == v && q.priority == k.priority ==> q == k;
      }
      forall i | 0 <= i < |t.queues[k].ports| ensures InChain(t, k, i) {
        assert InChain(s, k, i);
      }
    } else {
      QueueFrame(s, t, k);
    }
  }

  lemma ExchangeKeeps(s: State, v: nat)
    requires Inv(s) && Enabled(s, Exchange(v))
    ensures Inv(ApplyExchange(s, v))
  {
    hide Inv;
    var t := ApplyExchange(s, v);
    forall k | k in t.queues ensures QueueInv(t, k) {
      ExchangeKeepsQueue(s, v, k);
    }
    forall u | u in t.pollers ensures PollerInv(t, u) {
      InvPoller(s, u);
      forall r | r in ReadyOf(s.queues, v) ensures Queue(v, r) in s.queues {
        var k :| k in s.queues && k.vcpu == v && s.queues[k].readyBit && k.priority == r;
        assert k == Queue(v, r);
      }
    }
    forall r | r in t.words ensures WordInv(t, r) {
      InvWord(s, r);
    }
    MakeInv(t);
  }

  lemma StoreHeadKeepsQueue(s: State, v: nat, k: Queue)
    requires Inv(s) && Enabled(s, StoreHead(v)) && k in s.queues
    ensures QueueInv(ApplyStoreHead(s, v), k)
  {
    hide Inv;
    var t := ApplyStoreHead(s, v);
    InvPoller(s, v);
    InvQueue(s, k);
    if k == Queue(v, s.pollers[v].priority) {
      forall i | 0 <= i < |t.queues[k].ports| ensures InChain(t, k, i) {
        assert InChain(s, k, i);
      }
    } else {
      QueueFrame(s, t, k);
    }
  }

  lemma StoreHeadKeeps(s: State, v: nat)
    requires Inv(s) && Enabled(s, StoreHead(v))
    ensures Inv(ApplyStoreHead(s, v))
  {
    hide Inv;
    var t := ApplyStoreHead(s, v);
    InvPoller(s, v);
    forall k | k in t.queues ensures QueueInv(t, k) {
      StoreHeadKeepsQueue(s, v, k);
    }
    forall u | u in t.pollers ensures PollerInv(t, u) {
      InvPoller(s, u);
    }
    forall r | r in t.words ensures WordInv(t, r) {
      InvWord(s, r);
    }
    MakeInv(t);
  }

  lemma ChooseKeeps(s: State, v: nat, priority: nat)
    requires Inv(s) && Enabled(s, Choose(v, priority))
    ensures Inv(ApplyChoose(s, v, priority))
  {
    hide Inv;
    var t := ApplyChoose(s, v, priority);
    InvPoller(s, v);
    InvQueue(s, Queue(v, priority));
    forall k | k in t.queues ensures QueueInv(t, k) {
      InvQueue(s, k);
      QueueFrame(s, t, k);
    }
    forall u | u in t.pollers ensures PollerInv(t, u) {
      InvPoller(s, u);
    }
    forall r | r in t.words ensures WordInv(t, r) {
      InvWord(s, r);
    }
    MakeInv(t);
  }

  lemma FlagsKeep(s: State, p: Port, pending: bool, masked: bool, busy: bool)
    requires Inv(s) && p in s.words
    ensures Inv(s.(words := s.words[p := s.words[p].(pending := pending, masked := masked, busy := busy)]))
  {
    hide Inv;
    var t := s.(words := s.words[p := s.words[p].(pending := pending, masked := masked, busy := busy)]);
    forall k | k in t.queues ensures QueueInv(t, k) {
      InvQueue(s, k);
      QueueFrame(s, t, k);
    }
    forall u | u in t.pollers ensures PollerInv(t, u) {
      InvPoller(s, u);
    }
    forall r | r in t.words ensures WordInv(t, r) {
      InvWord(s, r);
    }
    MakeInv(t);
  }

  /** Starting and finishing a poll. */
  lemma BoundaryKeeps(s: State, v: nat, to: Poller)
    requires Inv(s) && v in s.pollers && LocalReady(s, v) == {}
    requires s.pollers[v].Idle? || s.pollers[v].Scanning?
    requires to == Idle || to == Exchanging({})
    ensures Inv(s.(pollers := s.pollers[v := to]))
  {
    hide Inv;
    var t := s.(pollers := s.pollers[v := to]);
    forall k | k in t.queues ensures QueueInv(t, k) {
      InvQueue(s, k);
      QueueFrame(s, t, k);
    }
    forall u | u in t.pollers ensures PollerInv(t, u) {
      InvPoller(s, u);
    }
    forall r | r in t.words ensures WordInv(t, r) {
      InvWord(s, r);
    }
    MakeInv(t);
  }

  lemma StepKeeps(s: State, step: Step)
    requires Inv(s) && Enabled(s, step)
    ensures Inv(Apply(s, step))
  {
    match step
    case Append(p, q) => AppendKeeps(s, p, q);
    case Choose(v, priority) => ChooseKeeps(s, v, priority);
    case Unlink(v) => UnlinkKeeps(s, v);
    case Exchange(v) => ExchangeKeeps(s, v);
    case StoreHead(v) => StoreHeadKeeps(s, v);
    case ChangeFlags(p, pending, masked, busy) => FlagsKeep(s, p, pending, masked, busy);
    case Begin(v) => BoundaryKeeps(s, v, Exchanging({}));
    case Finish(v) => BoundaryKeeps(s, v, Idle);
  }

  /** A poller that has started is never stuck: whatever the others do, it has a next step. */
  lemma NeverStuck(s: State, v: nat) returns (step: Step)
    requires Inv(s) && v in s.pollers
    ensures Enabled(s, step) && !step.Append? && !step.ChangeFlags? && step.vcpu == v
  {
    InvPoller(s, v);
    match s.pollers[v]
    case Idle => step := Begin(v);
    case Exchanging(_) => step := Exchange(v);
    case Scanning(ready) =>
      if ready == {} {
        step := Finish(v);
      } else {
        var priority :| priority in ready;
        assert priority in LocalReady(s, v);
        step := Choose(v, priority);
      }
    case HeadRead(_, priority, _) =>
      InvQueue(s, Queue(v, priority));
      assert InChain(s, Queue(v, priority), 0);
      step := Unlink(v);
    case Unlinked(_, _, _, _) => step := StoreHead(v);
  }

  // ---- Whole runs ----

  ghost predicate Run(s: State, steps: seq<Step>, t: State)
    decreases |steps|
  {
    if steps == [] then t == s
    else Enabled(s, steps[0]) && Run(Apply(s, steps[0]), steps[1..], t)
  }

  lemma {:induction false} RunKeeps(s: State, steps: seq<Step>, t: State)
    requires Inv(s) && Run(s, steps, t)
    ensures Inv(t)
    decreases |steps|
  {
    hide Inv, Apply, Enabled;
    if steps != [] {
      StepKeeps(s, steps[0]);
      RunKeeps(Apply(s, steps[0]), steps[1..], t);
    }
  }

  /** The ports a sequence of steps appends to a queue, in order. */
  function Appends(steps: seq<Step>, q: Queue): seq<Port> {
    if steps == [] then []
    else (if steps[0].Append? && steps[0].queue == q then [steps[0].port] else []) + Appends(steps[1..], q)
  }

  /** The ports a run takes off a queue, in order. */
  ghost function Unlinks(s: State, steps: seq<Step>, t: State, q: Queue): seq<Port>
    requires Run(s, steps, t)
    decreases |steps|
  {
    if steps == [] then []
    else
      (if steps[0].Unlink? && q == Queue(steps[0].vcpu, s.pollers[steps[0].vcpu].priority)
       then [s.pollers[steps[0].vcpu].port] else [])
      + Unlinks(Apply(s, steps[0]), steps[1..], t, q)
  }

  lemma StepHistory(s: State, step: Step, q: Queue)
    requires Enabled(s, step) && q in s.queues
    ensures q in Apply(s, step).queues
    ensures Apply(s, step).queues[q].appended
         == s.queues[q].appended + (if step.Append? && step.queue == q then [step.port] else [])
    ensures Apply(s, step).queues[q].unlinked
         == s.queues[q].unlinked
            + (if step.Unlink? && q == Queue(step.vcpu, s.pollers[step.vcpu].priority)
               then [s.pollers[step.vcpu].port] else [])
  {
  }

  lemma {:induction false} RunHistory(s: State, steps: seq<Step>, t: State, q: Queue)
    requires Run(s, steps, t) && q in s.queues
    ensures q in t.queues
    ensures t.queues[q].appended == s.queues[q].appended + Appends(steps, q)
    ensures t.queues[q].unlinked == s.queues[q].unlinked + Unlinks(s, steps, t, q)
    decreases |steps|
  {
    hide Inv, Apply, Enabled;
    if steps != [] {
      StepHistory(s, steps[0], q);
      RunHistory(Apply(s, steps[0]), steps[1..], t, q);
    }
  }

  /** The chain that starts at the cached head, or at the control block's head when the cached
      head is 0, is the queue's contents. */
  lemma ChainIsQueue(s: State, q: Queue)
    requires Inv(s) && q in s.queues && s.queues[q].ports != []
    ensures Start(s, q) != NO_PORT && Follows(s.words, Start(s, q), s.queues[q].ports)
  {
    InvQueue(s, q);
    assert InChain(s, q, 0);
    ChainFrom(s, q, 0);
    assert s.queues[q].ports[0..] == s.queues[q].ports;
  }

  lemma {:induction false} ChainFrom(s: State, q: Queue, i: nat)
    requires Inv(s) && q in s.queues && i < |s.queues[q].ports|
    ensures Follows(s.words, s.queues[q].ports[i], s.queues[q].ports[i..])
    decreases |s.queues[q].ports| - i
  {
    var c := s.queues[q].ports;
    InvQueue(s, q);
    assert InChain(s, q, i);
    assert c[i..][1..] == c[i + 1..];
    if i + 1 < |c| {
      ChainFrom(s, q, i + 1);
    }
  }

  /** A start has at most one chain. */
  lemma {:induction false} FollowsUnique(words: map<Port, Word>, start: Port, c: seq<Port>, d: seq<Port>)
    requires Follows(words, start, c) && Follows(words, start, d)
    ensures c == d
    decreases |c|
  {
    if start != NO_PORT {
      FollowsUnique(words, words[start].link, c[1..], d[1..]);
      assert c == [c[0]] + c[1..] && d == [d[0]] + d[1..];
    }
  }

  /** What is chained in a queue is what its history leaves. */
  lemma WaitingIsRest(t: State, q: Queue)
    requires Inv(t) && q in t.queues
    ensures q.vcpu in t.pollers
    ensures t.queues[q].unlinked <= t.queues[q].appended
    ensures var waiting := t.queues[q].appended[|t.queues[q].unlinked|..];
      && Distinct(waiting)
      && (waiting != [] <==> t.queues[q].readyBit || q.priority in LocalReady(t, q.vcpu))
      && (waiting != [] ==> Follows(t.words, Start(t, q), waiting))
  {
    assert QueueInv(t, q);
    var x := t.queues[q];
    assert x.appended[|x.unlinked|..] == x.ports;
    if x.ports != [] {
      ChainIsQueue(t, q);
    }
  }

  lemma RunFromInit(s: State, steps: seq<Step>, t: State, q: Queue)
    requires Init(s) && Run(s, steps, t) && q in s.queues
    ensures Inv(t) && q in t.queues
    ensures t.queues[q].appended == Appends(steps, q)
    ensures t.queues[q].unlinked == Unlinks(s, steps, t, q)
  {
    hide Inv, Apply, Enabled, Run;
    InitInv(s);
    RunKeeps(s, steps, t);
    RunHistory(s, steps, t, q);
  }

  /** Over every interleaving: what has been unlinked from a queue followed by what is still
      chained in it is exactly what was appended to it, in order. The chain has no repeats,
      and a queue has something chained exactly when its ready bit is set, in the shared
      control block or in its poller's copy. */
  lemma QueueIsFifo(s: State, steps: seq<Step>, t: State, q: Queue)
    requires Init(s) && Run(s, steps, t) && q in s.queues
    ensures q in t.queues && q.vcpu in t.pollers
    ensures Unlinks(s, steps, t, q) <= Appends(steps, q)
    ensures var waiting := Appends(steps, q)[|Unlinks(s, steps, t, q)|..];
      && Distinct(waiting)
      && (waiting != [] <==> t.queues[q].readyBit || q.priority in LocalReady(t, q.vcpu))
      && (waiting != [] ==> Follows(t.words, Start(t, q), waiting))
  {
    hide Inv, Init, Run, Distinct, Follows;
    RunFromInit(s, steps, t, q);
    WaitingIsRest(t, q);
  }

  /** A linked port is in exactly one queue, so no port is lost or shared. */
  lemma LinkedOnce(s: State, p: Port) returns (q: Queue)
    requires Inv(s) && p in s.words && s.words[p].linked
    ensures q in s.queues && p in s.queues[q].ports
    ensures forall k :: k in s.queues && p in s.queues[k].ports ==> k == q
  {
    InvWord(s, p);
    q := s.owner[p];
    forall k | k in s.queues && p in s.queues[k].ports ensures k == q {
      OnlyInOwner(s, k, p);
    }
  }

  /** Once a vCPU's poller has returned, none of its cached heads names a port, and each of its
      queues that still holds ports has its ready bit set in the shared control block. */
  lemma NothingStranded(s: State, q: Queue)
    requires Inv(s) && q in s.queues && q.vcpu in s.pollers && s.pollers[q.vcpu].Idle?
    ensures s.queues[q].head == NO_PORT
    ensures s.queues[q].readyBit <==> s.queues[q].ports != []
  {
    InvQueue(s, q);
  }
}
