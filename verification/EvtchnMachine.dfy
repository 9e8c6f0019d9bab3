/** Event channels on their way through the per-CPU pending lists, as a machine of atomic
    steps: polls and flushes on any number of CPUs, triggers, and the two-part close that
    leaves freeing a channel to a later flush, in any interleaving. */
module EvtchnMachine {

  type Id = nat

  datatype Option<T> = None | Some(value: T)

  /** A close runs on one CPU, the closer. Marked is its window: Closed is set but the closing trigger
      has not yet been tried. Unlisted comes just before it: the port is out of the table. */
  datatype Stage = Opened | Unlisted(closer: nat) | Marked(closer: nat) | Closed

  /** Where a channel's pending-list entry is; for reasoning only, no step depends on it. */
  datatype Place = Nowhere | Listed(cpu: nat) | Removed(cpu: nat) | Held | Taken | Freed

  /** `reaps` counts how often the channel has been freed, `count` the callbacks it has had. */
  datatype Channel = Channel(
    port: nat, cpu: nat, stage: Stage, pending: bool, count: nat, place: Place, reaps: nat)

  /** Who holds a CPU's interrupt lock, and how far it has got: calling back for the ports
      that the shared pages show (with the channel the port table gave, if any), or going
      through the pending list (`at` is the next entry's index), perhaps having just removed
      a channel whose pending bit is still to be cleared. */
  datatype Phase =
    | Unlocked
    | Polling(found: Option<Id>)
    | Draining(at: nat)
    | Clearing(id: Id, at: nat)

  datatype Cpu = Cpu(list: seq<Id>, phase: Phase)

  /** Flushes run one at a time: with a CPU's lock held, then reaping their local list. */
  datatype Flush = NoFlush | Locked(cpu: nat) | Reaper(cpu: nat) | Reaping(cpu: nat, id: Id)

  /** `closing` says which channel a CPU is in the middle of closing. */
  datatype State = State(
    table: map<nat, Id>, chans: seq<Channel>, cpus: seq<Cpu>, flush: Flush, local: seq<Id>, closing: map<nat, Id>)

  datatype Step =
    | Open(port: nat, cpu: nat)
    | Bind(id: Id, cpu: nat)
    | PollBegin(cpu: nat)
    | FlushBegin(cpu: nat)
    | Lookup(cpu: nat, port: nat)
    | Queue(cpu: nat)
    | PollDone(cpu: nat)
    | Next(cpu: nat)
    | Clear(cpu: nat)
    | Unlock(cpu: nat)
    | Take
    | Reap
    | FlushEnd
    | Trigger(id: Id)
    | Unlist(id: Id, closer: nat)
    | Mark(id: Id)
    | CloseTrigger(id: Id)

  function Boot(n: nat): State {
    State(map[], [], seq(n, k => Cpu([], Unlocked)), NoFlush, [], map[])
  }

  predicate IsClosed(ch: Channel) {
    ch.stage.Marked? || ch.stage == Closed
  }

  predicate IsFound(s: State, c: Id) {
    exists k :: 0 <= k < |s.cpus| && s.cpus[k].phase == Polling(Some(c))
  }

  function Without<T>(list: seq<T>, i: nat): seq<T>
    requires i < |list|
  {
    list[..i] + list[i + 1..]
  }

  // ---- Steps ----

  predicate Unheld(s: State, k: nat) {
    k < |s.cpus| && s.cpus[k].phase == Unlocked
  }

  /** A flush of a CPU runs on it, and keeps it from anything else but interrupts. */
  predicate FlushOn(s: State, k: nat) {
    s.flush != NoFlush && s.flush.cpu == k
  }

  predicate AtStage(s: State, c: Id, stage: Stage) {
    c < |s.chans| && s.chans[c].stage == stage
  }

  /** When a step can happen. A close takes its steps only while its CPU is not polling, and no
      flush of that CPU starts before it is through: it runs at DISPATCH_LEVEL, as flushes do. */
  predicate Enabled(s: State, a: Step) {
    match a
    case Open(port, k) => port !in s.table && k < |s.cpus|
    case Bind(c, k) => AtStage(s, c, Opened) && !s.chans[c].pending && !IsFound(s, c) && k < |s.cpus|
    case PollBegin(k) => Unheld(s, k)
    case FlushBegin(k) => Unheld(s, k) && s.flush == NoFlush && k !in s.closing
    case Lookup(k, _) => k < |s.cpus| && s.cpus[k].phase == Polling(None) && TableInRange(s)
    case Queue(k) => k < |s.cpus| && s.cpus[k].phase.Polling? && s.cpus[k].phase.found.Some?
                     && s.cpus[k].phase.found.value < |s.chans|
    case PollDone(k) => k < |s.cpus| && s.cpus[k].phase == Polling(None)
    case Next(k) => k < |s.cpus| && s.cpus[k].phase.Draining? && s.cpus[k].phase.at < |s.cpus[k].list|
                    && s.cpus[k].list[s.cpus[k].phase.at] < |s.chans|
    case Clear(k) => k < |s.cpus| && s.cpus[k].phase.Clearing? && s.cpus[k].phase.id < |s.chans|
    case Unlock(k) => k < |s.cpus| && s.cpus[k].phase.Draining? && s.cpus[k].phase.at >= |s.cpus[k].list|
    case Take => s.flush.Reaper? && s.local != [] && s.local[0] < |s.chans|
    case Reap => s.flush.Reaping? && s.flush.id < |s.chans|
    case FlushEnd => s.flush.Reaper? && s.local == []
    case Trigger(c) => AtStage(s, c, Opened) && Unheld(s, s.chans[c].cpu)
    case Unlist(c, k) => AtStage(s, c, Opened) && Unheld(s, k) && !FlushOn(s, k) && k !in s.closing
    case Mark(c) => c < |s.chans| && s.chans[c].stage.Unlisted? && Unheld(s, s.chans[c].stage.closer)
    case CloseTrigger(c) => c < |s.chans| && s.chans[c].stage.Marked? && Unheld(s, s.chans[c].stage.closer)
                            && Unheld(s, s.chans[c].cpu)
  }

  predicate TableInRange(s: State) {
    forall p :: p in s.table ==> s.table[p] < |s.chans|
  }

  function SetPhase(s: State, k: nat, phase: Phase): State
    requires k < |s.cpus|
  {
    s.(cpus := s.cpus[k := s.cpus[k].(phase := phase)])
  }

  /** Put a channel on a CPU's pending list, unless its pending bit was already set. */
  function Enqueue(s: State, c: Id, k: nat): State
    requires c < |s.chans| && k < |s.cpus|
  {
    if s.chans[c].pending then s else
      s.(chans := s.chans[c := s.chans[c].(pending := true, place := Listed(k))],
         cpus := s.cpus[k := s.cpus[k].(list := s.cpus[k].list + [c])])
  }

  function FindPort(s: State, k: nat, port: nat): Phase
    requires TableInRange(s)
  {
    if port in s.table && s.chans[s.table[port]].cpu == k
    then Polling(Some(s.table[port]))
    else Polling(None)
  }

  /** The next entry of the pending list: an open channel comes off to be delivered; a closed
      one moves to the local list of a flush but stays put for a plain poll. */
  function ApplyNext(s: State, k: nat): State
    requires Enabled(s, Next(k))
  {
    var Cpu(list, phase) := s.cpus[k];
    var c := list[phase.at];
    if !IsClosed(s.chans[c]) then
      s.(cpus := s.cpus[k := Cpu(Without(list, phase.at), Clearing(c, phase.at))],
         chans := s.chans[c := s.chans[c].(place := Removed(k))])
    else if s.flush == Locked(k) then
      s.(cpus := s.cpus[k := s.cpus[k].(list := Without(list, phase.at))],
         chans := s.chans[c := s.chans[c].(place := Held)],
         local := s.local + [c])
    else
      SetPhase(s, k, Draining(phase.at + 1))
  }

  function ApplyClear(s: State, k: nat): State
    requires Enabled(s, Clear(k))
  {
    var Clearing(c, at) := s.cpus[k].phase;
    SetPhase(s, k, Draining(at)).(
      chans := s.chans[c := s.chans[c].(pending := false, place := Nowhere, count := s.chans[c].count + 1)])
  }

  function ApplyUnlock(s: State, k: nat): State
    requires Enabled(s, Unlock(k))
  {
    SetPhase(s, k, Unlocked).(flush := if s.flush == Locked(k) then Reaper(k) else s.flush)
  }

  function ApplyTake(s: State): State
    requires Enabled(s, Take)
  {
    var c := s.local[0];
    s.(local := s.local[1..], flush := Reaping(s.flush.cpu, c),
       chans := s.chans[c := s.chans[c].(pending := false, place := Taken)])
  }

  function ApplyReap(s: State): State
    requires Enabled(s, Reap)
  {
    var c := s.flush.id;
    s.(flush := Reaper(s.flush.cpu),
       chans := s.chans[c := s.chans[c].(place := Freed, reaps := s.chans[c].reaps + 1)])
  }

  function SetStage(s: State, c: Id, stage: Stage): State
    requires c < |s.chans|
  {
    s.(chans := s.chans[c := s.chans[c].(stage := stage)])
  }

  function Apply(s: State, a: Step): State
    requires Enabled(s, a)
  {
    match a
    case Open(port, k) =>
      s.(table := s.table[port := |s.chans|],
         chans := s.chans + [Channel(port, k, Opened, false, 0, Nowhere, 0)])
    case Bind(c, k) => s.(chans := s.chans[c := s.chans[c].(cpu := k)])
    case PollBegin(k) => SetPhase(s, k, Polling(None))
    case FlushBegin(k) => SetPhase(s, k, Polling(None)).(flush := Locked(k))
    case Lookup(k, port) => SetPhase(s, k, FindPort(s, k, port))
    case Queue(k) => SetPhase(Enqueue(s, s.cpus[k].phase.found.value, k), k, Polling(None))
    case PollDone(k) => SetPhase(s, k, Draining(0))
    case Next(k) => ApplyNext(s, k)
    case Clear(k) => ApplyClear(s, k)
    case Unlock(k) => ApplyUnlock(s, k)
    case Take => ApplyTake(s)
    case Reap => ApplyReap(s)
    case FlushEnd => s.(flush := NoFlush)
    case Trigger(c) => Enqueue(s, c, s.chans[c].cpu)
    case Unlist(c, k) => SetStage(s, c, Unlisted(k)).(table := s.table - {s.chans[c].port}, closing := s.closing[k := c])
    case Mark(c) => SetStage(s, c, Marked(s.chans[c].stage.closer))
    case CloseTrigger(c) =>
      SetStage(Enqueue(s, c, s.chans[c].cpu), c, Closed).(closing := s.closing - {s.chans[c].stage.closer})
  }

  // ---- The invariant ----

  ghost predicate Distinct<T>(list: seq<T>) {
    forall i, j :: 0 <= i < j < |list| ==> list[i] != list[j]
  }

  /** Pending says that the channel is on some list or just off one, and `place` which. */
  ghost predicate ChannelInv(s: State, c: Id)
    requires c < |s.chans|
  {
    var ch := s.chans[c];
    && ch.cpu < |s.cpus|
    && (ch.pending <==> ch.place.Listed? || ch.place.Removed? || ch.place == Held)
    && (ch.stage == Opened ==> ch.port in s.table && s.table[ch.port] == c)
    && (ch.stage.Unlisted? || ch.stage.Marked? ==> ch.stage.closer in s.closing && s.closing[ch.stage.closer] == c)
    && ch.reaps == (if ch.place == Freed then 1 else 0)
    && match ch.place
       case Nowhere => ch.stage != Closed
       case Listed(k) => k == ch.cpu && c in s.cpus[k].list
       case Removed(k) => k == ch.cpu && ch.stage != Closed
                          && s.cpus[k].phase.Clearing? && s.cpus[k].phase.id == c
       case Held => IsClosed(ch) && c in s.local
       case Taken => IsClosed(ch) && s.flush.Reaping? && s.flush.id == c
       case Freed => IsClosed(ch)
  }

  ghost predicate ListInv(s: State, k: nat)
    requires k < |s.cpus|
  {
    var list := s.cpus[k].list;
    Distinct(list)
    && forall i :: 0 <= i < |list| ==> list[i] < |s.chans| && s.chans[list[i]].place == Listed(k)
  }

  /** A flush leaves nothing behind it on the list it goes through. */
  ghost predicate PhaseInv(s: State, k: nat)
    requires k < |s.cpus|
  {
    match s.cpus[k].phase
    case Unlocked => s.flush != Locked(k)
    case Polling(None) => true
    case Polling(Some(c)) =>
      c < |s.chans| && s.chans[c].cpu == k && s.chans[c].stage != Closed
      && (s.chans[c].place == Nowhere || s.chans[c].place == Listed(k))
    case Draining(at) => at <= |s.cpus[k].list| && (s.flush == Locked(k) ==> at == 0)
    case Clearing(c, at) =>
      c < |s.chans| && s.chans[c].place == Removed(k)
      && at <= |s.cpus[k].list| && (s.flush == Locked(k) ==> at == 0)
  }

  ghost predicate FlushInv(s: State) {
    && Distinct(s.local)
    && (forall i :: 0 <= i < |s.local| ==> s.local[i] < |s.chans| && s.chans[s.local[i]].place == Held)
    && match s.flush
       case NoFlush => s.local == []
       case Locked(k) => k < |s.cpus|
       case Reaper(_) => true
       case Reaping(_, c) => c < |s.chans| && s.chans[c].place == Taken
  }

  ghost predicate TableInv(s: State) {
    forall p :: p in s.table ==>
      s.table[p] < |s.chans| && s.chans[s.table[p]].port == p && s.chans[s.table[p]].stage == Opened
  }

  /** A CPU in the middle of a close is not flushed. */
  ghost predicate ClosingInv(s: State) {
    forall k :: k in s.closing ==>
      k < |s.cpus| && !FlushOn(s, k) && s.closing[k] < |s.chans|
      && (s.chans[s.closing[k]].stage == Unlisted(k) || s.chans[s.closing[k]].stage == Marked(k))
  }

  ghost predicate Core(s: State) {
    && TableInv(s)
    && ClosingInv(s)
    && FlushInv(s)
    && (forall c :: 0 <= c < |s.chans| ==> ChannelInv(s, c))
    && (forall k :: 0 <= k < |s.cpus| ==> ListInv(s, k))
    && (forall k :: 0 <= k < |s.cpus| ==> PhaseInv(s, k))
  }

  /** The freeing of a channel has overtaken the close that ordered it. */
  predicate Overtaken(s: State, c: Id) {
    c < |s.chans| && s.chans[c].stage.Marked? && (s.chans[c].place == Taken || s.chans[c].place == Freed)
  }

  ghost predicate Inv(s: State) {
    Core(s) && forall c :: 0 <= c < |s.chans| ==> !Overtaken(s, c)
  }

  // ---- Every step keeps it ----

  lemma CoreAt(s: State, c: Id, k: nat)
    requires Core(s)
    ensures TableInv(s) && FlushInv(s) && ClosingInv(s)
    ensures c < |s.chans| ==> ChannelInv(s, c)
    ensures k < |s.cpus| ==> ListInv(s, k) && PhaseInv(s, k)
  {
  }

  /** The CPU a step is about, or CPU 0. */
  function StepCpu(s: State, a: Step): nat
    requires Enabled(s, a)
  {
    match a
    case Trigger(c) => s.chans[c].cpu
    case CloseTrigger(c) => s.chans[c].cpu
    case PollBegin(k) => k
    case FlushBegin(k) => k
    case Lookup(k, _) => k
    case Queue(k) => k
    case PollDone(k) => k
    case Next(k) => k
    case Clear(k) => k
    case Unlock(k) => k
    case _ => 0
  }

  function StepChannel(s: State, a: Step): Id
    requires Enabled(s, a)
  {
    match a
    case Lookup(_, port) => if port in s.table then s.table[port] else 0
    case Queue(k) => s.cpus[k].phase.found.value
    case Next(k) => s.cpus[k].list[s.cpus[k].phase.at]
    case Clear(k) => s.cpus[k].phase.id
    case Take => s.local[0]
    case Reap => s.flush.id
    case Open(_, _) => |s.chans|
    case Bind(c, _) => c
    case Trigger(c) => c
    case Unlist(c, _) => c
    case Mark(c) => c
    case CloseTrigger(c) => c
    case _ => 0
  }

  ghost predicate Sound(s: State, a: Step) {
    Core(s) && Enabled(s, a) && (a.CloseTrigger? ==> !Overtaken(s, a.id))
  }

  /** A step changes at most the one channel and the one CPU it is about. */
  lemma TouchesChannel(s: State, a: Step, d: Id)
    requires Enabled(s, a)
    ensures |Apply(s, a).chans| == |s.chans| + if a.Open? then 1 else 0
    ensures d < |s.chans| && d != StepChannel(s, a) ==> Apply(s, a).chans[d] == s.chans[d]
  {
  }

  lemma TouchesCpu(s: State, a: Step, j: nat)
    requires Enabled(s, a)
    ensures |Apply(s, a).cpus| == |s.cpus|
    ensures j < |s.cpus| && j != StepCpu(s, a) ==> Apply(s, a).cpus[j] == s.cpus[j]
  {
  }

  lemma WithoutHas<T>(list: seq<T>, i: nat, x: T)
    requires i < |list|
    ensures x in list && x != list[i] ==> x in Without(list, i)
  {
    if x in list && x != list[i] {
      var j :| 0 <= j < |list| && list[j] == x;
      assert Without(list, i)[if j < i then j else j - 1] == x;
    }
  }

  lemma WithoutKeeps<T>(list: seq<T>, i: nat)
    requires i < |list| && Distinct(list)
    ensures Distinct(Without(list, i)) && |Without(list, i)| == |list| - 1
    ensures forall j :: 0 <= j < |list| - 1 ==>
      Without(list, i)[j] == list[if j < i then j else j + 1] && Without(list, i)[j] != list[i]
  {
  }

  lemma StaysLocal(s: State, a: Step, d: Id)
    requires Enabled(s, a) && d != StepChannel(s, a)
    ensures d in s.local ==> d in Apply(s, a).local
    ensures s.flush.Reaping? && s.flush.id == d ==> Apply(s, a).flush == s.flush
  {
    if a.Take? {
      assert s.local == [s.local[0]] + s.local[1..];
    }
  }

  lemma StaysOn(s: State, a: Step, d: Id, j: nat)
    requires Enabled(s, a) && d != StepChannel(s, a) && j < |s.cpus| == |Apply(s, a).cpus|
    ensures d in s.cpus[j].list ==> d in Apply(s, a).cpus[j].list
    ensures s.cpus[j].phase.Clearing? && s.cpus[j].phase.id == d ==> Apply(s, a).cpus[j].phase == s.cpus[j].phase
  {
    if a.Next? {
      WithoutHas(s.cpus[a.cpu].list, s.cpus[a.cpu].phase.at, d);
    }
  }

  lemma StaysInTable(s: State, a: Step, p: nat)
    requires Enabled(s, a) && p in s.table && TableInv(s)
    requires StepChannel(s, a) < |s.chans| ==> ChannelInv(s, StepChannel(s, a))
    ensures s.table[p] == StepChannel(s, a) || (p in Apply(s, a).table && Apply(s, a).table[p] == s.table[p])
  {
  }

  lemma StaysClosing(s: State, a: Step, d: Id, k: nat)
    requires Enabled(s, a) && d != StepChannel(s, a) && ClosingInv(s)
    requires StepChannel(s, a) < |s.chans| ==> ChannelInv(s, StepChannel(s, a))
    ensures k in s.closing && s.closing[k] == d ==> k in Apply(s, a).closing && Apply(s, a).closing[k] == d
  {
  }

  lemma OtherChannelKept(s: State, a: Step, d: Id)
    requires Sound(s, a) && d < |s.chans| && d != StepChannel(s, a)
    ensures d < |Apply(s, a).chans| && ChannelInv(Apply(s, a), d)
  {
    hide Core, Apply;
    CoreAt(s, d, StepCpu(s, a));
    TouchesChannel(s, a, d);
    TouchesCpu(s, a, 0);
    StaysLocal(s, a, d);
    if s.chans[d].port in s.table {
      CoreAt(s, StepChannel(s, a), 0);
      StaysInTable(s, a, s.chans[d].port);
    }
    StaysOn(s, a, d, s.chans[d].cpu);
    if s.chans[d].stage.Unlisted? || s.chans[d].stage.Marked? {
      CoreAt(s, StepChannel(s, a), 0);
      StaysClosing(s, a, d, s.chans[d].stage.closer);
    }
  }

  lemma QueuedChannelKept(s: State, a: Step, d: Id)
    requires Sound(s, a) && d == StepChannel(s, a) && d < |Apply(s, a).chans|
    requires a.Queue? || a.Trigger? || a.CloseTrigger?
    ensures ChannelInv(Apply(s, a), d)
  {
    hide Core, FindPort, ApplyNext, ApplyClear, ApplyUnlock, ApplyTake, ApplyReap;
    CoreAt(s, d, StepCpu(s, a));
  }

  lemma ListedChannelKept(s: State, a: Step, d: Id)
    requires Sound(s, a) && d == StepChannel(s, a) && d < |Apply(s, a).chans|
    requires a.Next? || a.Clear? || a.Take? || a.Reap?
    ensures ChannelInv(Apply(s, a), d)
  {
    hide Core, TableInv, FindPort, Enqueue, ApplyUnlock;
    CoreAt(s, d, StepCpu(s, a));
  }

  lemma ChannelKept(s: State, a: Step, d: Id)
    requires Sound(s, a) && d == StepChannel(s, a) && d < |Apply(s, a).chans|
    ensures ChannelInv(Apply(s, a), d)
  {
    hide Core, FindPort, Enqueue, ApplyNext, ApplyClear, ApplyTake, ApplyReap, ClosingInv;
    if a.Queue? || a.Trigger? || a.CloseTrigger? {
      QueuedChannelKept(s, a, d);
    } else if a.Next? || a.Clear? || a.Take? || a.Reap? {
      ListedChannelKept(s, a, d);
    } else {
      CoreAt(s, d, StepCpu(s, a));
    }
  }

  lemma PlaceKept(s: State, a: Step, j: nat)
    requires Sound(s, a) && j < |s.cpus| && j != StepCpu(s, a)
    requires StepChannel(s, a) < |s.chans| && s.chans[StepChannel(s, a)].place == Listed(j)
    ensures |Apply(s, a).chans| >= |s.chans|
    ensures Apply(s, a).chans[StepChannel(s, a)].place == Listed(j)
  {
    hide Core;
    CoreAt(s, StepChannel(s, a), StepCpu(s, a));
  }

  lemma OtherListKept(s: State, a: Step, j: nat)
    requires Sound(s, a) && j < |s.cpus| && j != StepCpu(s, a)
    ensures j < |Apply(s, a).cpus| && ListInv(Apply(s, a), j)
  {
    hide Core, Apply;
    CoreAt(s, StepChannel(s, a), j);
    TouchesCpu(s, a, j);
    var t := Apply(s, a);
    forall i | 0 <= i < |t.cpus[j].list|
      ensures t.cpus[j].list[i] < |t.chans| && t.chans[t.cpus[j].list[i]].place == Listed(j)
    {
      TouchesChannel(s, a, t.cpus[j].list[i]);
      if t.cpus[j].list[i] == StepChannel(s, a) {
        PlaceKept(s, a, j);
      }
    }
  }

  lemma NextListKept(s: State, k: nat)
    requires Core(s) && Enabled(s, Next(k))
    ensures ListInv(ApplyNext(s, k), k)
  {
    hide Core, ChannelInv, TableInv, FlushInv, ClosingInv, PhaseInv, Without, Distinct;
    CoreAt(s, 0, k);
    WithoutKeeps(s.cpus[k].list, s.cpus[k].phase.at);
  }

  lemma EnqueueKeepsList(s: State, c: Id, k: nat)
    requires c < |s.chans| && ChannelInv(s, c) && k < |s.cpus| && ListInv(s, k)
    ensures |Enqueue(s, c, k).chans| == |s.chans| && |Enqueue(s, c, k).cpus| == |s.cpus|
    ensures ListInv(Enqueue(s, c, k), k)
  {
  }

  lemma ListKept(s: State, a: Step, j: nat)
    requires Sound(s, a) && j == StepCpu(s, a) && j < |Apply(s, a).cpus|
    ensures ListInv(Apply(s, a), j)
  {
    hide Core, TableInv, ClosingInv, FindPort, Enqueue, ApplyNext;
    CoreAt(s, StepChannel(s, a), j);
    if a.Next? {
      NextListKept(s, j);
    } else if a.Queue? || a.Trigger? || a.CloseTrigger? {
      EnqueueKeepsList(s, StepChannel(s, a), j);
    }
  }

  /** The steps of a poll or a flush that hold or take a CPU's lock. */
  predicate IsPoll(a: Step) {
    a.PollBegin? || a.FlushBegin? || a.Lookup? || a.PollDone? || a.Unlock?
  }

  predicate IsList(a: Step) {
    a.Queue? || a.Next? || a.Clear?
  }

  lemma OtherPhasePoll(s: State, a: Step, j: nat)
    requires Sound(s, a) && j < |s.cpus| && j != StepCpu(s, a) && (IsPoll(a) || IsList(a))
    ensures j < |Apply(s, a).cpus| && PhaseInv(Apply(s, a), j)
  {
    hide Core, TableInv, FindPort, ApplyTake, ApplyReap;
    CoreAt(s, StepChannel(s, a), j);
    CoreAt(s, StepChannel(s, a), StepCpu(s, a));
  }

  lemma OtherPhaseKept(s: State, a: Step, j: nat)
    requires Sound(s, a) && j < |s.cpus| && j != StepCpu(s, a)
    ensures j < |Apply(s, a).cpus| && PhaseInv(Apply(s, a), j)
  {
    hide Core, TableInv, FindPort, ApplyNext, ApplyClear, ApplyUnlock, ClosingInv;
    if IsPoll(a) || IsList(a) {
      OtherPhasePoll(s, a, j);
    } else {
      TouchesCpu(s, a, j);
      CoreAt(s, StepChannel(s, a), j);
    }
  }

  lemma PhaseKeptList(s: State, a: Step, j: nat)
    requires Sound(s, a) && j == StepCpu(s, a) && j < |Apply(s, a).cpus| && IsList(a)
    ensures PhaseInv(Apply(s, a), j)
  {
    hide Core, FlushInv, TableInv, ClosingInv, FindPort, ApplyUnlock, ApplyTake, ApplyReap;
    CoreAt(s, StepChannel(s, a), j);
  }

  lemma PhaseKept(s: State, a: Step, j: nat)
    requires Sound(s, a) && j == StepCpu(s, a) && j < |Apply(s, a).cpus|
    ensures PhaseInv(Apply(s, a), j)
  {
    hide Core, FlushInv, ClosingInv, ApplyNext, ApplyClear, ApplyUnlock, FindPort;
    if IsList(a) {
      PhaseKeptList(s, a, j);
    } else if IsPoll(a) {
      PhaseKeptPoll(s, a, j);
    } else {
      CoreAt(s, StepChannel(s, a), j);
    }
  }

  lemma PhaseKeptPoll(s: State, a: Step, j: nat)
    requires Sound(s, a) && j == StepCpu(s, a) && j < |Apply(s, a).cpus| && IsPoll(a)
    ensures PhaseInv(Apply(s, a), j)
  {
    hide Core, FlushInv, ClosingInv, ApplyNext, ApplyClear, ApplyTake, ApplyReap, Enqueue;
    CoreAt(s, StepChannel(s, a), j);
  }

  lemma TableKept(s: State, a: Step)
    requires Sound(s, a)
    ensures TableInv(Apply(s, a))
  {
    hide Core, FlushInv, ListInv, PhaseInv, ClosingInv, FindPort, ApplyNext, ApplyClear, ApplyUnlock;
    if IsPoll(a) || IsList(a) {
      TableKeptPoll(s, a);
    } else {
      CoreAt(s, StepChannel(s, a), 0);
    }
  }

  lemma TableKeptPoll(s: State, a: Step)
    requires Sound(s, a) && (IsPoll(a) || IsList(a))
    ensures TableInv(Apply(s, a))
  {
    hide Core, FlushInv, ListInv, PhaseInv, ClosingInv, ChannelInv, FindPort, ApplyTake, ApplyReap;
    CoreAt(s, 0, 0);
  }

  lemma ClosingKept(s: State, a: Step)
    requires Sound(s, a)
    ensures ClosingInv(Apply(s, a))
  {
    hide Core, TableInv, ListInv, FindPort, ApplyNext, ApplyClear, ApplyUnlock;
    if IsPoll(a) || IsList(a) {
      ClosingKeptPoll(s, a);
    } else {
      CoreAt(s, StepChannel(s, a), StepCpu(s, a));
    }
  }

  lemma ClosingKeptPoll(s: State, a: Step)
    requires Sound(s, a) && (IsPoll(a) || IsList(a))
    ensures ClosingInv(Apply(s, a))
  {
    hide Core, TableInv, ListInv, FindPort, ApplyTake, ApplyReap;
    CoreAt(s, StepChannel(s, a), StepCpu(s, a));
  }

  lemma FlushKeptPoll(s: State, a: Step)
    requires Sound(s, a) && (IsPoll(a) || IsList(a))
    ensures FlushInv(Apply(s, a))
  {
    hide Core, TableInv, ClosingInv, FindPort, ApplyTake, ApplyReap;
    CoreAt(s, StepChannel(s, a), StepCpu(s, a));
  }

  lemma FlushKept(s: State, a: Step)
    requires Sound(s, a)
    ensures FlushInv(Apply(s, a))
  {
    hide Core, TableInv, ClosingInv, FindPort, ApplyNext, ApplyClear, ApplyUnlock;
    if IsPoll(a) || IsList(a) {
      FlushKeptPoll(s, a);
    } else {
      CoreAt(s, StepChannel(s, a), StepCpu(s, a));
    }
  }

  lemma StepKeepsCore(s: State, a: Step)
    requires Sound(s, a)
    ensures Core(Apply(s, a))
  {
    hide Apply, Enabled, ChannelInv, ListInv, PhaseInv, TableInv, FlushInv, ClosingInv;
    var t := Apply(s, a);
    TouchesCpu(s, a, 0);
    TouchesChannel(s, a, 0);
    forall d | 0 <= d < |t.chans| ensures ChannelInv(t, d) {
      if a.Open? {
        NewChannel(s, a);
      }
      if d == StepChannel(s, a) {
        ChannelKept(s, a, d);
      } else {
        OtherChannelKept(s, a, d);
      }
    }
    forall j | 0 <= j < |t.cpus| ensures ListInv(t, j) && PhaseInv(t, j) {
      if j == StepCpu(s, a) {
        ListKept(s, a, j);
        PhaseKept(s, a, j);
      } else {
        OtherListKept(s, a, j);
        OtherPhaseKept(s, a, j);
      }
    }
    TableKept(s, a);
    ClosingKept(s, a);
    FlushKept(s, a);
  }

  lemma NewChannel(s: State, a: Step)
    requires Enabled(s, a) && a.Open?
    ensures StepChannel(s, a) == |s.chans|
  {
  }

  // ---- Runs ----

  /** No close is overtaken: a flush frees a channel only when its close is through. */
  predicate Orderly(s: State, a: Step)
    requires Enabled(s, a)
  {
    a.Take? ==> s.chans[s.local[0]].stage == Closed
  }

  ghost predicate IsRun(s: State, steps: seq<Step>)
    decreases |steps|
  {
    steps == [] || (Enabled(s, steps[0]) && IsRun(Apply(s, steps[0]), steps[1..]))
  }

  ghost function After(s: State, steps: seq<Step>): State
    requires IsRun(s, steps)
    decreases |steps|
  {
    if steps == [] then s else After(Apply(s, steps[0]), steps[1..])
  }

  ghost predicate OrderlyRun(s: State, steps: seq<Step>)
    requires IsRun(s, steps)
    decreases |steps|
  {
    steps == [] || (Orderly(s, steps[0]) && OrderlyRun(Apply(s, steps[0]), steps[1..]))
  }

  lemma BootInv(n: nat)
    ensures Inv(Boot(n))
  {
  }

  lemma InvSound(s: State, a: Step)
    requires Inv(s) && Enabled(s, a)
    ensures Sound(s, a)
  {
    hide Core;
    if a.CloseTrigger? {
      assert !Overtaken(s, a.id);
    }
  }

  lemma NotOvertakenKept(s: State, a: Step, d: Id)
    requires Inv(s) && Enabled(s, a) && Orderly(s, a) && d < |Apply(s, a).chans|
    ensures !Overtaken(Apply(s, a), d)
  {
    hide Core;
    CoreAt(s, d, 0);
    CoreAt(s, StepChannel(s, a), 0);
    TouchesChannel(s, a, d);
    assert d < |s.chans| ==> !Overtaken(s, d);
  }

  lemma StepKeeps(s: State, a: Step)
    requires Inv(s) && Enabled(s, a) && Orderly(s, a)
    ensures Inv(Apply(s, a))
  {
    hide Core, Apply, Enabled, Overtaken;
    InvSound(s, a);
    StepKeepsCore(s, a);
    forall d | 0 <= d < |Apply(s, a).chans| ensures !Overtaken(Apply(s, a), d) {
      NotOvertakenKept(s, a, d);
    }
  }

  /** Whatever interleaving of polls, flushes, triggers and closes in which no close is
      overtaken. */
  lemma {:induction false} RunKeeps(s: State, steps: seq<Step>)
    requires Inv(s) && IsRun(s, steps) && OrderlyRun(s, steps)
    ensures Inv(After(s, steps))
    decreases |steps|
  {
    hide Inv, Apply, Enabled, Orderly;
    if steps != [] {
      StepKeeps(s, steps[0]);
      RunKeeps(Apply(s, steps[0]), steps[1..]);
    }
  }

  /** A channel is on at most one list, at one position, and only while it is pending. */
  lemma OneList(s: State, k: nat, i: nat, m: nat, j: nat)
    requires Core(s) && k < |s.cpus| && m < |s.cpus| && i < |s.cpus[k].list| && j < |s.cpus[m].list|
    requires s.cpus[k].list[i] == s.cpus[m].list[j]
    ensures k == m && i == j
    ensures s.cpus[k].list[i] < |s.chans| && s.chans[s.cpus[k].list[i]].pending
    ensures s.cpus[k].list[i] !in s.local
  {
    hide Core;
    CoreAt(s, s.cpus[k].list[i], k);
    CoreAt(s, s.cpus[k].list[i], m);
  }

  /** The entries of a flush's local list are distinct, pending and closed. */
  lemma LocalList(s: State, i: nat, j: nat)
    requires Core(s) && i < |s.local| && j < |s.local| && s.local[i] == s.local[j]
    ensures i == j
    ensures s.local[i] < |s.chans| && s.chans[s.local[i]].pending && IsClosed(s.chans[s.local[i]])
  {
    hide Core;
    CoreAt(s, s.local[i], 0);
  }

  /** A channel about to be freed is nowhere else, has been through the whole of its close,
      and has not been freed before. */
  lemma AtReap(s: State, k: nat, p: nat)
    requires Inv(s) && Enabled(s, Reap)
    ensures s.chans[s.flush.id].stage == Closed && !s.chans[s.flush.id].pending
    ensures s.chans[s.flush.id].reaps == 0
    ensures k < |s.cpus| ==> s.flush.id !in s.cpus[k].list
    ensures s.flush.id !in s.local
    ensures p in s.table ==> s.table[p] != s.flush.id
  {
    hide Core;
    CoreAt(s, s.flush.id, k);
    assert !Overtaken(s, s.flush.id);
  }

  /** No step changes a channel once it is freed. */
  lemma FreedUntouched(s: State, a: Step, c: Id)
    requires Inv(s) && Enabled(s, a) && c < |s.chans| && s.chans[c].place == Freed
    ensures c < |Apply(s, a).chans| && Apply(s, a).chans[c] == s.chans[c]
  {
    hide Core;
    CoreAt(s, c, StepCpu(s, a));
    assert !Overtaken(s, c);
    TouchesChannel(s, a, c);
  }

  /** A closed channel is on its CPU's list, or in the hands of the flush, until it is freed. */
  lemma KeptUntilReaped(s: State, c: Id)
    requires Core(s) && AtStage(s, c, Closed) && s.chans[c].reaps == 0
    ensures s.chans[c].cpu < |s.cpus|
    ensures c in s.cpus[s.chans[c].cpu].list || c in s.local || (s.flush.Reaping? && s.flush.id == c)
  {
    hide Core;
    CoreAt(s, c, 0);
  }

  // ---- A flush frees what was closed before it ----

  /** A flush of c's CPU is under way that will free c. */
  ghost predicate InFlush(s: State, c: Id, k: nat) {
    AtStage(s, c, Closed) && s.chans[c].cpu == k
    && match s.flush
       case NoFlush => false
       case Locked(j) => j == k
       case _ => s.chans[c].place == Held || s.chans[c].place == Taken || s.chans[c].place == Freed
  }

  lemma ClosedStays(s: State, a: Step, c: Id)
    requires Enabled(s, a) && AtStage(s, c, Closed)
    ensures AtStage(Apply(s, a), c, Closed) && Apply(s, a).chans[c].cpu == s.chans[c].cpu
  {
    TouchesChannel(s, a, c);
  }

  lemma FlushStep(s: State, a: Step, c: Id, k: nat)
    requires Core(s) && Enabled(s, a) && InFlush(s, c, k)
    ensures if a == FlushEnd then s.chans[c].place == Freed else InFlush(Apply(s, a), c, k)
  {
    hide Core, TableInv, ClosingInv, FindPort;
    CoreAt(s, c, k);
    CoreAt(s, c, StepCpu(s, a));
    ClosedStays(s, a, c);
  }

  lemma {:induction false} FreedStays(s: State, steps: seq<Step>, c: Id)
    requires Inv(s) && IsRun(s, steps) && OrderlyRun(s, steps) && c < |s.chans| && s.chans[c].place == Freed
    ensures c < |After(s, steps).chans| && After(s, steps).chans[c] == s.chans[c]
    decreases |steps|
  {
    hide Inv, Apply, Enabled, Orderly;
    if steps != [] {
      StepKeeps(s, steps[0]);
      FreedUntouched(s, steps[0], c);
      FreedStays(Apply(s, steps[0]), steps[1..], c);
    }
  }

  lemma {:induction false} FlushEnds(s: State, steps: seq<Step>, c: Id, k: nat)
    requires Inv(s) && IsRun(s, steps) && OrderlyRun(s, steps) && InFlush(s, c, k) && FlushEnd in steps
    ensures c < |After(s, steps).chans| && After(s, steps).chans[c].place == Freed
    decreases |steps|
  {
    hide Inv, Enabled, Orderly, Core;
    StepKeeps(s, steps[0]);
    InvCore(s);
    FlushStep(s, steps[0], c, k);
    if steps[0] == FlushEnd {
      FreedUntouched(s, FlushEnd, c);
      FreedStays(Apply(s, steps[0]), steps[1..], c);
    } else {
      assert steps == [steps[0]] + steps[1..];
      FlushEnds(Apply(s, steps[0]), steps[1..], c, k);
    }
  }

  lemma InvCore(s: State)
    requires Inv(s)
    ensures Core(s)
  {
  }

  /** The run begins a flush of CPU k and later ends a flush. */
  ghost predicate Flushes(steps: seq<Step>, k: nat) {
    exists i, j :: 0 <= i < j < |steps| && steps[i] == FlushBegin(k) && steps[j] == FlushEnd
  }

  /** A channel closed before a flush of its CPU is freed by the end of it. */
  lemma {:induction false} FlushFrees(s: State, steps: seq<Step>, c: Id)
    requires Inv(s) && IsRun(s, steps) && OrderlyRun(s, steps) && AtStage(s, c, Closed)
    requires Flushes(steps, s.chans[c].cpu)
    ensures c < |After(s, steps).chans| && After(s, steps).chans[c].place == Freed
    decreases |steps|
  {
    hide Inv, Enabled, Apply, Orderly;
    var k := s.chans[c].cpu;
    var i, j :| 0 <= i < j < |steps| && steps[i] == FlushBegin(k) && steps[j] == FlushEnd;
    StepKeeps(s, steps[0]);
    ClosedStays(s, steps[0], c);
    var t := Apply(s, steps[0]);
    assert steps[1..][j - 1] == FlushEnd;
    if i == 0 {
      Begun(s, c);
      FlushEnds(t, steps[1..], c, k);
    } else {
      assert steps[1..][i - 1] == FlushBegin(k);
      FlushFrees(t, steps[1..], c);
    }
  }

  lemma Begun(s: State, c: Id)
    requires AtStage(s, c, Closed) && Enabled(s, FlushBegin(s.chans[c].cpu))
    ensures InFlush(Apply(s, FlushBegin(s.chans[c].cpu)), c, s.chans[c].cpu)
  {
  }

  /** Flushing every CPU leaves none of the channels that had been closed. */
  lemma FlushingAllFreesAll(s: State, steps: seq<Step>)
    requires Inv(s) && IsRun(s, steps) && OrderlyRun(s, steps)
    requires forall k :: 0 <= k < |s.cpus| ==> Flushes(steps, k)
    ensures |After(s, steps).chans| >= |s.chans|
    ensures forall c :: 0 <= c < |s.chans| && s.chans[c].stage == Closed ==> After(s, steps).chans[c].reaps == 1
  {
    hide Core, Flushes;
    Grows(s, steps);
    RunKeeps(s, steps);
    forall c | 0 <= c < |s.chans| && s.chans[c].stage == Closed
      ensures After(s, steps).chans[c].reaps == 1
    {
      CoreAt(s, c, 0);
      FlushFrees(s, steps, c);
      CoreAt(After(s, steps), c, 0);
    }
  }

  lemma {:induction false} Grows(s: State, steps: seq<Step>)
    requires IsRun(s, steps)
    ensures |After(s, steps).chans| >= |s.chans|
    decreases |steps|
  {
    hide Apply, Enabled;
    if steps != [] {
      TouchesChannel(s, steps[0], 0);
      Grows(Apply(s, steps[0]), steps[1..]);
    }
  }

  /** From the start, over every run in which no close is overtaken: a channel is freed at most
      once, and not before its close is through. */
  lemma FreedOnce(n: nat, steps: seq<Step>, c: Id)
    requires IsRun(Boot(n), steps) && OrderlyRun(Boot(n), steps) && c < |After(Boot(n), steps).chans|
    ensures Inv(After(Boot(n), steps))
    ensures After(Boot(n), steps).chans[c].reaps <= 1
    ensures After(Boot(n), steps).chans[c].reaps == 1 ==> After(Boot(n), steps).chans[c].stage == Closed
  {
    hide Core, Boot;
    BootInv(n);
    RunKeeps(Boot(n), steps);
    CoreAt(After(Boot(n), steps), c, 0);
    assert !Overtaken(After(Boot(n), steps), c);
  }

  // ---- When no close is overtaken ----

  /** No poll can put the channel on a list or keep it there: none has looked it up, none
      lists it and no flush has it. */
  ghost predicate Quiet(s: State, c: Id)
    requires c < |s.chans|
  {
    !IsFound(s, c) && (s.chans[c].place == Nowhere || s.chans[c].place.Removed?)
  }

  /** It is safe to mark the channel closed: it is quiet, or its flush has to wait for the close
      because that runs on the same CPU. */
  ghost predicate SafeToMark(s: State, c: Id)
    requires c < |s.chans| && s.chans[c].stage.Unlisted?
  {
    Quiet(s, c) || s.chans[c].stage.closer == s.chans[c].cpu
  }

  predicate WithFlush(ch: Channel) {
    ch.place == Held || ch.place == Taken || ch.place == Freed
  }

  ghost predicate Guarded(s: State, c: Id)
    requires c < |s.chans|
  {
    s.chans[c].stage.Marked? ==>
      Quiet(s, c) || (s.chans[c].stage.closer == s.chans[c].cpu && !WithFlush(s.chans[c]))
  }

  /** A poll finds only channels that are in the table. */
  lemma NotFoundKept(s: State, a: Step, d: Id)
    requires Sound(s, a) && d < |s.chans| && s.chans[d].stage != Opened && !IsFound(s, d)
    ensures !IsFound(Apply(s, a), d)
  {
    hide Core, Apply, Enabled;
    CoreAt(s, d, 0);
    TouchesCpu(s, a, 0);
    forall k | 0 <= k < |s.cpus| ensures Apply(s, a).cpus[k].phase != Polling(Some(d)) {
      FoundBefore(s, a, k, d);
      assert s.cpus[k].phase != Polling(Some(d));
    }
  }

  lemma FoundBefore(s: State, a: Step, k: nat, d: Id)
    requires Enabled(s, a) && k < |s.cpus| && TableInv(s) && d < |s.chans| && s.chans[d].stage != Opened
    ensures k < |Apply(s, a).cpus|
    ensures Apply(s, a).cpus[k].phase == Polling(Some(d)) ==> s.cpus[k].phase == Polling(Some(d))
  {
  }

  lemma QuietKept(s: State, a: Step, d: Id)
    requires Sound(s, a) && d < |s.chans| && Quiet(s, d) && (s.chans[d].stage.Unlisted? || s.chans[d].stage.Marked?)
    ensures d < |Apply(s, a).chans| && (Apply(s, a).chans[d].stage == Closed || Quiet(Apply(s, a), d))
  {
    hide Core;
    CoreAt(s, d, StepCpu(s, a));
    TouchesChannel(s, a, d);
    NotFoundKept(s, a, d);
  }

  lemma OwnKept(s: State, a: Step, d: Id)
    requires Sound(s, a) && d < |s.chans| && (s.chans[d].stage.Unlisted? || s.chans[d].stage.Marked?)
    requires s.chans[d].stage.closer == s.chans[d].cpu && !WithFlush(s.chans[d])
    ensures d < |Apply(s, a).chans| && !WithFlush(Apply(s, a).chans[d])
    ensures Apply(s, a).chans[d].cpu == s.chans[d].cpu
    ensures Apply(s, a).chans[d].stage == Closed || Apply(s, a).chans[d].stage.closer == s.chans[d].stage.closer
  {
    hide Core;
    CoreAt(s, d, StepCpu(s, a));
    TouchesChannel(s, a, d);
  }

  lemma GuardedKept(s: State, a: Step, d: Id)
    requires Sound(s, a) && d < |s.chans| && Guarded(s, d)
    requires a == Mark(d) ==> SafeToMark(s, d)
    ensures d < |Apply(s, a).chans| && Guarded(Apply(s, a), d)
  {
    hide Core, Apply;
    TouchesChannel(s, a, d);
    CoreAt(s, d, 0);
    if s.chans[d].stage.Marked? || a == Mark(d) {
      if Quiet(s, d) {
        QuietKept(s, a, d);
      } else {
        OwnKept(s, a, d);
      }
    } else {
      MarkedBefore(s, a, d);
    }
  }

  lemma MarkedBefore(s: State, a: Step, d: Id)
    requires Enabled(s, a) && d < |s.chans| && !s.chans[d].stage.Marked? && a != Mark(d)
    ensures d < |Apply(s, a).chans| && !Apply(s, a).chans[d].stage.Marked?
  {
    TouchesChannel(s, a, d);
  }

  lemma NewGuarded(s: State, a: Step, d: Id)
    requires Enabled(s, a) && |s.chans| <= d < |Apply(s, a).chans|
    ensures Guarded(Apply(s, a), d)
  {
    TouchesChannel(s, a, d);
  }

  lemma GuardedTake(s: State)
    requires Core(s) && Enabled(s, Take) && Guarded(s, s.local[0])
    ensures Orderly(s, Take)
  {
    hide Core;
    CoreAt(s, s.local[0], 0);
  }

  ghost predicate AllGuarded(s: State) {
    forall c :: 0 <= c < |s.chans| ==> Guarded(s, c)
  }

  ghost predicate SafeMarks(s: State, steps: seq<Step>)
    requires IsRun(s, steps)
    decreases |steps|
  {
    steps == [] || ((steps[0].Mark? ==> SafeToMark(s, steps[0].id)) && SafeMarks(Apply(s, steps[0]), steps[1..]))
  }

  /** If every channel is safe to mark when it is marked, no close is overtaken. */
  lemma {:induction false} SafeMarksOrderly(s: State, steps: seq<Step>)
    requires Inv(s) && AllGuarded(s) && IsRun(s, steps) && SafeMarks(s, steps)
    ensures OrderlyRun(s, steps)
    decreases |steps|
  {
    hide Core, Enabled, Apply, Guarded, SafeToMark, Overtaken;
    if steps != [] {
      var a := steps[0];
      if a.Take? {
        TakeInRange(s);
        GuardedTake(s);
      }
      InvSound(s, a);
      StepKeeps(s, a);
      forall d | 0 <= d < |Apply(s, a).chans| ensures Guarded(Apply(s, a), d) {
        if d < |s.chans| {
          GuardedKept(s, a, d);
        } else {
          NewGuarded(s, a, d);
        }
      }
      SafeMarksOrderly(Apply(s, a), steps[1..]);
    }
  }

  lemma TakeInRange(s: State)
    requires Enabled(s, Take)
    ensures s.local != [] && s.local[0] < |s.chans|
  {
  }

  /** A run in which no close but perhaps that of c is overtaken. */
  ghost predicate OthersOrderly(s: State, steps: seq<Step>, c: Id)
    requires IsRun(s, steps)
    decreases |steps|
  {
    steps == [] ||
    ((Orderly(s, steps[0]) || (steps[0].Take? && s.local[0] == c)) && OthersOrderly(Apply(s, steps[0]), steps[1..], c))
  }

  lemma {:induction false} NeverOvertaken(s: State, steps: seq<Step>, c: Id)
    requires Inv(s) && c < |s.chans| && Guarded(s, c) && IsClosed(s.chans[c])
    requires IsRun(s, steps) && OthersOrderly(s, steps, c)
    ensures !Overtaken(After(s, steps), c)
    decreases |steps|
  {
    hide Core, Enabled, Apply, Guarded, Overtaken;
    if steps == [] {
      assert !Overtaken(s, c);
    } else {
      var a := steps[0];
      if a.Take? {
        TakeInRange(s);
        if s.local[0] == c {
          GuardedTake(s);
        }
      }
      InvSound(s, a);
      StepKeeps(s, a);
      ClosedKept(s, a, c);
      GuardedKept(s, a, c);
      NeverOvertaken(Apply(s, a), steps[1..], c);
    }
  }

  lemma ClosedKept(s: State, a: Step, c: Id)
    requires Enabled(s, a) && c < |s.chans| && IsClosed(s.chans[c])
    ensures a != Mark(c) && c < |Apply(s, a).chans| && IsClosed(Apply(s, a).chans[c])
  {
    TouchesChannel(s, a, c);
  }

  // ---- How a close is overtaken ----

  /** The next step of the poll that holds CPU j's lock. */
  function Advance(s: State, j: nat): Step
    requires j < |s.cpus|
  {
    match s.cpus[j].phase
    case Polling(Some(_)) => Queue(j)
    case Draining(at) => if at < |s.cpus[j].list| then Next(j) else Unlock(j)
    case Clearing(_, _) => Clear(j)
    case _ => PollDone(j)
  }

  function Rank(cpu: Cpu): nat {
    match cpu.phase
    case Unlocked => 0
    case Polling(Some(_)) => 2 * |cpu.list| + 5
    case Polling(None) => 2 * |cpu.list| + 2
    case Draining(at) => if at <= |cpu.list| then 2 * (|cpu.list| - at) + 1 else 1
    case Clearing(_, at) => if at <= |cpu.list| then 2 * (|cpu.list| - at) + 2 else 2
  }

  lemma Advances(s: State, j: nat)
    requires Core(s) && j < |s.cpus| && s.cpus[j].phase != Unlocked
    ensures var a := Advance(s, j);
            Sound(s, a) && StepCpu(s, a) == j && |Apply(s, a).cpus| == |s.cpus|
            && Rank(Apply(s, a).cpus[j]) < Rank(s.cpus[j])
            && |Apply(s, a).local| <= |s.local| + 1
            && (!a.Unlock? ==> Apply(s, a).flush == s.flush)
  {
    hide Core;
    CoreAt(s, 0, j);
    CoreAt(s, if s.cpus[j].phase.Clearing? then s.cpus[j].phase.id else 0, j);
  }

  // ---- Letting the other closes finish ----

  /** What is left to do of the close that CPU m is in the middle of. */
  function Weight(s: State, m: nat): nat {
    if m !in s.closing || s.closing[m] >= |s.chans| then 0
    else if s.chans[s.closing[m]].stage.Unlisted? then 2 else 1
  }

  /** What is left to do of the closes on the first n CPUs, but for one CPU. */
  function Closes(s: State, but: nat, n: nat): nat {
    if n == 0 then 0 else Closes(s, but, n - 1) + if n - 1 == but then 0 else Weight(s, n - 1)
  }

  function TotalRank(s: State, n: nat): nat
    requires n <= |s.cpus|
  {
    if n == 0 then 0 else TotalRank(s, n - 1) + Rank(s.cpus[n - 1])
  }

  lemma {:induction false} FewerCloses(s: State, t: State, but: nat, n: nat, m: nat)
    requires forall i :: 0 <= i < n ==> Weight(t, i) <= Weight(s, i)
    ensures Closes(t, but, n) <= Closes(s, but, n)
    ensures m < n && m != but && Weight(t, m) < Weight(s, m) ==> Closes(t, but, n) < Closes(s, but, n)
    decreases n
  {
    hide Weight;
    if n > 0 {
      FewerCloses(s, t, but, n - 1, m);
    }
  }

  lemma {:induction false} OtherClose(s: State, but: nat, n: nat) returns (m: nat)
    ensures Closes(s, but, n) > 0 ==> m < n && m != but && Weight(s, m) > 0
    ensures Closes(s, but, n) == 0 ==> forall i :: 0 <= i < n && i != but ==> Weight(s, i) == 0
    decreases n
  {
    hide Weight;
    m := 0;
    if n > 0 {
      m := OtherClose(s, but, n - 1);
      if n - 1 != but && Weight(s, n - 1) > 0 {
        m := n - 1;
      }
    }
  }

  lemma {:induction false} LowerRank(s: State, t: State, n: nat, j: nat)
    requires n <= |s.cpus| == |t.cpus| && j < |s.cpus| && Rank(t.cpus[j]) < Rank(s.cpus[j])
    requires forall i :: 0 <= i < |s.cpus| && i != j ==> t.cpus[i] == s.cpus[i]
    ensures TotalRank(t, n) <= TotalRank(s, n) && (j < n ==> TotalRank(t, n) < TotalRank(s, n))
    decreases n
  {
    hide Rank;
    if n > 0 {
      LowerRank(s, t, n - 1, j);
    }
  }

  /** The next step towards the end of the close that CPU m is in the middle of. */
  function Finish(s: State, m: nat): Step
    requires m < |s.cpus| && m in s.closing && s.closing[m] < |s.chans| && s.chans[s.closing[m]].cpu < |s.cpus|
  {
    var d := s.closing[m];
    if s.cpus[m].phase != Unlocked then Advance(s, m)
    else if s.chans[d].stage.Unlisted? then Mark(d)
    else if s.cpus[s.chans[d].cpu].phase != Unlocked then Advance(s, s.chans[d].cpu)
    else CloseTrigger(d)
  }

  lemma ClosingChannel(s: State, m: nat)
    requires Core(s) && m in s.closing
    ensures m < |s.cpus| && s.closing[m] < |s.chans| && s.chans[s.closing[m]].cpu < |s.cpus|
    ensures s.chans[s.closing[m]].stage == Unlisted(m) || s.chans[s.closing[m]].stage == Marked(m)
  {
    hide Core;
    CoreAt(s, 0, m);
    CoreAt(s, s.closing[m], 0);
  }

  lemma AdvanceKeepsCloses(s: State, j: nat)
    requires j < |s.cpus| && Enabled(s, Advance(s, j))
    ensures Apply(s, Advance(s, j)).closing == s.closing
    ensures forall m :: Weight(Apply(s, Advance(s, j)), m) == Weight(s, m)
  {
  }

  lemma Finishes(s: State, m: nat, but: nat)
    requires Core(s) && m in s.closing && m != but && m < |s.cpus| && s.closing[m] < |s.chans|
    requires s.chans[s.closing[m]].cpu < |s.cpus|
    ensures Enabled(s, Finish(s, m)) && Orderly(s, Finish(s, m))
    ensures var t := Apply(s, Finish(s, m)); |t.cpus| == |s.cpus|
    ensures var t := Apply(s, Finish(s, m));
            Closes(t, but, |s.cpus|) < Closes(s, but, |s.cpus|)
            || (Closes(t, but, |s.cpus|) == Closes(s, but, |s.cpus|) && TotalRank(t, |s.cpus|) < TotalRank(s, |s.cpus|))
  {
    hide Core, Apply, Enabled, Rank, Weight;
    ClosingChannel(s, m);
    var d := s.closing[m];
    var n := |s.cpus|;
    if s.cpus[m].phase != Unlocked {
      AdvanceFinishes(s, m, but);
    } else if s.chans[d].stage.Marked? && s.cpus[s.chans[d].cpu].phase != Unlocked {
      AdvanceFinishes(s, s.chans[d].cpu, but);
    } else {
      var t := CloseStep(s, m);
      FewerCloses(s, t, but, n, m);
    }
  }

  lemma AdvanceFinishes(s: State, j: nat, but: nat)
    requires Core(s) && j < |s.cpus| && s.cpus[j].phase != Unlocked
    ensures Enabled(s, Advance(s, j)) && Orderly(s, Advance(s, j))
    ensures var t := Apply(s, Advance(s, j));
            |t.cpus| == |s.cpus| && Closes(t, but, |s.cpus|) == Closes(s, but, |s.cpus|)
            && TotalRank(t, |s.cpus|) < TotalRank(s, |s.cpus|)
  {
    hide Core, Apply, Enabled, Rank, Weight;
    Advances(s, j);
    var t := Apply(s, Advance(s, j));
    SoundMeans(s, Advance(s, j));
    AdvanceKeepsCloses(s, j);
    FewerCloses(s, t, but, |s.cpus|, 0);
    FewerCloses(t, s, but, |s.cpus|, 0);
    forall i | 0 <= i < |s.cpus| && i != j ensures t.cpus[i] == s.cpus[i] {
      TouchesCpu(s, Advance(s, j), i);
    }
    LowerRank(s, t, |s.cpus|, j);
  }

  lemma SoundMeans(s: State, a: Step)
    requires Sound(s, a)
    ensures Enabled(s, a) && Core(s)
  {
  }

  lemma CloseStep(s: State, m: nat) returns (t: State)
    requires Core(s) && m in s.closing && m < |s.cpus| && s.closing[m] < |s.chans|
    requires s.chans[s.closing[m]].cpu < |s.cpus| && s.cpus[m].phase == Unlocked
    requires s.chans[s.closing[m]].stage.Unlisted? || s.cpus[s.chans[s.closing[m]].cpu].phase == Unlocked
    ensures Enabled(s, Finish(s, m)) && t == Apply(s, Finish(s, m)) && Orderly(s, Finish(s, m))
    ensures |t.cpus| == |s.cpus| && Weight(t, m) < Weight(s, m)
    ensures forall i :: Weight(t, i) <= Weight(s, i)
  {
    hide Core;
    ClosingChannel(s, m);
    t := Apply(s, Finish(s, m));
    forall i ensures Weight(t, i) <= Weight(s, i) {
      if i in s.closing {
        CoreAt(s, 0, i);
      }
    }
  }

  // ---- A flush that overtakes a close ----

  /** Let a flush of CPU k run, after any poll or flush already under way. */
  function Policy(s: State, k: nat): Step
    requires k < |s.cpus| && (s.flush.Locked? ==> s.flush.cpu < |s.cpus|)
  {
    match s.flush
    case NoFlush => if s.cpus[k].phase == Unlocked then FlushBegin(k) else Advance(s, k)
    case Locked(j) => Advance(s, j)
    case Reaper(_) => if s.local == [] then FlushEnd else Take
    case Reaping(_, _) => Reap
  }

  /** A poll can put the closing channel c on a list, or has, or a flush already holds it, and
      the close runs on another CPU than the channel's. */
  ghost predicate Exposed(s: State, c: Id, k: nat) {
    && c < |s.chans| && s.chans[c].stage.Marked? && s.chans[c].stage.closer != k && s.chans[c].cpu == k < |s.cpus|
    && (s.chans[c].place == Listed(k) || s.chans[c].place == Held || s.cpus[k].phase == Polling(Some(c)))
  }

  ghost predicate UnderFlush(s: State, c: Id, k: nat)
    requires c < |s.chans|
  {
    s.flush == Locked(k) || s.chans[c].place == Held
  }

  ghost function Stages(s: State, c: Id, k: nat): nat
    requires c < |s.chans|
  {
    if UnderFlush(s, c, k) then 0 else if s.flush == NoFlush then 1 else 2
  }

  ghost function Work(s: State, k: nat): nat
    requires k < |s.cpus| && (s.flush.Locked? ==> s.flush.cpu < |s.cpus|)
  {
    match s.flush
    case NoFlush => Rank(s.cpus[k])
    case Locked(j) => 4 * Rank(s.cpus[j]) + 3 * |s.local| + 3
    case Reaper(_) => 3 * |s.local| + 1
    case Reaping(_, _) => 3 * |s.local| + 2
  }

  lemma FlushCpu(s: State)
    requires Core(s)
    ensures s.flush.Locked? ==> s.flush.cpu < |s.cpus|
  {
  }

  lemma PolicySound(s: State, c: Id, k: nat)
    requires Core(s) && Exposed(s, c, k) && (s.flush.Locked? ==> s.flush.cpu < |s.cpus|) && k !in s.closing
    ensures Sound(s, Policy(s, k))
  {
    hide Core;
    CoreAt(s, c, k);
    if s.flush.Locked? {
      CoreAt(s, c, s.flush.cpu);
      Advances(s, s.flush.cpu);
    } else if s.flush == NoFlush && s.cpus[k].phase != Unlocked {
      Advances(s, k);
    }
  }

  lemma ExposedToPoll(s: State, c: Id, k: nat, j: nat)
    requires Core(s) && Exposed(s, c, k) && j < |s.cpus| && Enabled(s, Advance(s, j))
    ensures Exposed(Apply(s, Advance(s, j)), c, k)
    ensures Apply(s, Advance(s, j)).chans[c].stage == s.chans[c].stage
  {
    hide Core, TableInv, ClosingInv, FindPort, ApplyTake, ApplyReap;
    CoreAt(s, c, k);
    CoreAt(s, c, j);
  }

  lemma ExposedToClose(s: State, c: Id, k: nat, a: Step)
    requires Core(s) && Exposed(s, c, k) && Enabled(s, a) && (a.Mark? || (a.CloseTrigger? && a.id != c))
    ensures Exposed(Apply(s, a), c, k) && Apply(s, a).chans[c].stage == s.chans[c].stage
  {
    hide Core;
    CoreAt(s, c, k);
  }

  lemma ExposedStays(s: State, c: Id, k: nat)
    requires Core(s) && Exposed(s, c, k) && (s.flush.Locked? ==> s.flush.cpu < |s.cpus|)
    requires Enabled(s, Policy(s, k)) && !(Policy(s, k) == Take && s.local[0] == c)
    ensures Exposed(Apply(s, Policy(s, k)), c, k) && Apply(s, Policy(s, k)).chans[c].stage == s.chans[c].stage
  {
    hide Core, Enabled, Advance;
    CoreAt(s, c, k);
    match s.flush
    case NoFlush =>
      if s.cpus[k].phase != Unlocked {
        ExposedToPoll(s, c, k, k);
      }
    case Locked(j) => ExposedToPoll(s, c, k, j);
    case _ =>
  }

  ghost predicate Closer(s: State, t: State, c: Id, k: nat)
    requires Exposed(s, c, k) && Exposed(t, c, k)
    requires s.flush.Locked? ==> s.flush.cpu < |s.cpus|
    requires t.flush.Locked? ==> t.flush.cpu < |t.cpus|
  {
    Stages(t, c, k) < Stages(s, c, k) || (Stages(t, c, k) == Stages(s, c, k) && Work(t, k) < Work(s, k))
  }

  lemma LockedCloser(s: State, c: Id, k: nat)
    requires Core(s) && Exposed(s, c, k) && s.flush.Locked? && s.flush.cpu < |s.cpus|
    requires Enabled(s, Advance(s, s.flush.cpu)) && Exposed(Apply(s, Advance(s, s.flush.cpu)), c, k)
    ensures var t := Apply(s, Advance(s, s.flush.cpu));
            (t.flush.Locked? ==> t.flush.cpu < |t.cpus|) && Closer(s, t, c, k)
  {
    hide Core;
    CoreAt(s, c, k);
    CoreAt(s, c, s.flush.cpu);
    Advances(s, s.flush.cpu);
  }

  lemma IdleCloser(s: State, c: Id, k: nat)
    requires Core(s) && Exposed(s, c, k) && s.flush == NoFlush
    requires Enabled(s, Policy(s, k)) && Exposed(Apply(s, Policy(s, k)), c, k)
    ensures var t := Apply(s, Policy(s, k));
            (t.flush.Locked? ==> t.flush.cpu < |t.cpus|) && Closer(s, t, c, k)
  {
    hide Core;
    CoreAt(s, c, k);
    if s.cpus[k].phase != Unlocked {
      Advances(s, k);
    }
  }

  lemma ReaperCloser(s: State, c: Id, k: nat)
    requires Core(s) && Exposed(s, c, k) && (s.flush.Reaper? || s.flush.Reaping?)
    requires Enabled(s, Policy(s, k)) && Exposed(Apply(s, Policy(s, k)), c, k)
    ensures var t := Apply(s, Policy(s, k)); !t.flush.Locked? && Closer(s, t, c, k)
  {
    hide Core;
    CoreAt(s, c, k);
  }

  lemma PolicyCloser(s: State, c: Id, k: nat)
    requires Core(s) && Exposed(s, c, k) && (s.flush.Locked? ==> s.flush.cpu < |s.cpus|)
    requires Enabled(s, Policy(s, k)) && Exposed(Apply(s, Policy(s, k)), c, k)
    ensures var t := Apply(s, Policy(s, k));
            (t.flush.Locked? ==> t.flush.cpu < |t.cpus|) && Closer(s, t, c, k)
  {
    hide Core, Apply, Enabled, Closer;
    match s.flush
    case NoFlush => IdleCloser(s, c, k);
    case Locked(_) => LockedCloser(s, c, k);
    case _ => ReaperCloser(s, c, k);
  }

  lemma PolicyKeepsCloses(s: State, k: nat, but: nat, n: nat)
    requires k < |s.cpus| && (s.flush.Locked? ==> s.flush.cpu < |s.cpus|) && Enabled(s, Policy(s, k))
    ensures Closes(Apply(s, Policy(s, k)), but, n) == Closes(s, but, n)
    ensures |Apply(s, Policy(s, k)).cpus| == |s.cpus|
  {
    hide Advance, Weight;
    var t := Apply(s, Policy(s, k));
    if s.flush.Locked? {
      AdvanceKeepsCloses(s, s.flush.cpu);
    } else if s.flush == NoFlush && s.cpus[k].phase != Unlocked {
      AdvanceKeepsCloses(s, k);
    } else {
      SameWeights(s, k);
    }
    FewerCloses(s, t, but, n, 0);
    FewerCloses(t, s, but, n, 0);
  }

  lemma SameWeights(s: State, k: nat)
    requires k < |s.cpus| && !s.flush.Locked? && Enabled(s, Policy(s, k))
    requires s.flush == NoFlush ==> s.cpus[k].phase == Unlocked
    ensures forall i :: Weight(Apply(s, Policy(s, k)), i) == Weight(s, i)
  {
  }

  /** With no other close under way, a flush takes only channels whose close is through. */
  lemma OnlyThisClose(s: State, c: Id, n: nat)
    requires Core(s) && c < |s.chans| && s.chans[c].stage.Marked? && n == |s.cpus|
    requires Closes(s, s.chans[c].stage.closer, n) == 0
    ensures forall m :: m in s.closing ==> m == s.chans[c].stage.closer
    ensures Enabled(s, Take) && s.local[0] != c ==> Orderly(s, Take)
  {
    hide Core, Closes;
    var m := OtherClose(s, s.chans[c].stage.closer, n);
    CoreAt(s, c, 0);
    forall m | m in s.closing ensures m == s.chans[c].stage.closer {
      ClosingChannel(s, m);
      assert Weight(s, m) > 0;
    }
    if Enabled(s, Take) {
      CoreAt(s, s.local[0], 0);
    }
  }

  /** Another CPU that is in the middle of a close can go on with it. */
  lemma FinishOther(s: State, c: Id, k: nat, m: nat, on: nat) returns (t: State)
    requires Core(s) && Exposed(s, c, k) && s.chans[c].stage.closer == on && m != on && Weight(s, m) > 0
    ensures m < |s.cpus| && m in s.closing && s.closing[m] < |s.chans| && s.chans[s.closing[m]].cpu < |s.cpus|
    ensures Enabled(s, Finish(s, m)) && Orderly(s, Finish(s, m)) && t == Apply(s, Finish(s, m))
    ensures Exposed(t, c, k) && t.chans[c].stage == s.chans[c].stage && |t.cpus| == |s.cpus|
    ensures Closes(t, on, |s.cpus|) < Closes(s, on, |s.cpus|)
            || (Closes(t, on, |s.cpus|) == Closes(s, on, |s.cpus|) && TotalRank(t, |s.cpus|) < TotalRank(s, |s.cpus|))
  {
    hide Core, Apply, Enabled, Exposed, Closes, TotalRank;
    WeighedCloses(s, m);
    ClosingChannel(s, m);
    Finishes(s, m, on);
    t := Apply(s, Finish(s, m));
    var d := s.closing[m];
    OtherChannel(s, c, k, d);
    if s.cpus[m].phase != Unlocked {
      ExposedToPoll(s, c, k, m);
    } else if s.chans[d].stage.Marked? && s.cpus[s.chans[d].cpu].phase != Unlocked {
      ExposedToPoll(s, c, k, s.chans[d].cpu);
    } else {
      ExposedToClose(s, c, k, Finish(s, m));
    }
  }

  lemma WeighedCloses(s: State, m: nat)
    requires Weight(s, m) > 0
    ensures m in s.closing && s.closing[m] < |s.chans|
  {
  }

  lemma OtherChannel(s: State, c: Id, k: nat, d: Id)
    requires Exposed(s, c, k)
    ensures c < |s.chans| && s.chans[c].stage.Marked?
  {
  }

  lemma TakesIt(s: State, c: Id)
    requires Enabled(s, Take) && s.local[0] == c && s.chans[c].stage.Marked?
    ensures IsRun(s, [Take]) && OthersOrderly(s, [Take], c) && Overtaken(After(s, [Take]), c)
  {
    var t := Apply(s, Take);
    assert [Take][1..] == [];
    assert IsRun(t, []) && OthersOrderly(t, [], c) && After(t, []) == t;
    assert IsRun(s, [Take]);
  }

  lemma Longer(s: State, a: Step, steps: seq<Step>, c: Id)
    requires Enabled(s, a) && Orderly(s, a) && IsRun(Apply(s, a), steps) && OthersOrderly(Apply(s, a), steps, c)
    ensures IsRun(s, [a] + steps) && OthersOrderly(s, [a] + steps, c)
    ensures After(s, [a] + steps) == After(Apply(s, a), steps)
  {
    hide Enabled, Apply, Orderly;
    assert ([a] + steps)[1..] == steps;
  }

  /** With no other close under way: let the flush run on. */
  lemma FlushOnward(s: State, c: Id, k: nat, on: nat) returns (t: State)
    requires Core(s) && Exposed(s, c, k) && (s.flush.Locked? ==> s.flush.cpu < |s.cpus|)
    requires s.chans[c].stage.closer == on && Closes(s, on, |s.cpus|) == 0
    ensures Enabled(s, Policy(s, k)) && (Policy(s, k) == Take ==> s.local != [])
    ensures !(Policy(s, k) == Take && s.local[0] == c) ==>
      && t == Apply(s, Policy(s, k)) && Orderly(s, Policy(s, k))
      && Exposed(t, c, k) && t.chans[c].stage == s.chans[c].stage && |t.cpus| == |s.cpus|
      && (t.flush.Locked? ==> t.flush.cpu < |t.cpus|) && Closer(s, t, c, k)
      && Closes(t, on, |s.cpus|) == 0
  {
    hide Core, Apply, Enabled, Closes, Closer, Advance, Weight;
    OnlyThisClose(s, c, |s.cpus|);
    PolicySound(s, c, k);
    SoundMeans(s, Policy(s, k));
    t := Apply(s, Policy(s, k));
    if !(Policy(s, k) == Take && s.local[0] == c) {
      ExposedStays(s, c, k);
      PolicyCloser(s, c, k);
      PolicyKeepsCloses(s, k, on, |s.cpus|);
    }
  }

  /** From an exposed state some run takes the channel to be freed while its close is still
      under way, and overtakes no other close. */
  lemma {:induction false} Overtakes(s: State, c: Id, k: nat, on: nat) returns (steps: seq<Step>)
    requires Inv(s) && Exposed(s, c, k) && s.chans[c].stage.closer == on
    requires s.flush.Locked? ==> s.flush.cpu < |s.cpus|
    ensures IsRun(s, steps) && OthersOrderly(s, steps, c) && Overtaken(After(s, steps), c)
    decreases Closes(s, on, |s.cpus|),
              if Closes(s, on, |s.cpus|) > 0 then TotalRank(s, |s.cpus|) else Stages(s, c, k),
              if Closes(s, on, |s.cpus|) > 0 then 0 else Work(s, k)
  {
    hide Core, Apply, Enabled, Orderly, Closes, Overtaken, TotalRank, Stages, Work, Policy, Finish, Advance, Weight;
    InvCore(s);
    var m := OtherClose(s, on, |s.cpus|);
    if Closes(s, on, |s.cpus|) > 0 {
      var t := FinishOther(s, c, k, m, on);
      StepKeeps(s, Finish(s, m));
      InvCore(t);
      FlushCpu(t);
      var rest := Overtakes(t, c, k, on);
      steps := [Finish(s, m)] + rest;
      Longer(s, Finish(s, m), rest, c);
    } else {
      var t := FlushOnward(s, c, k, on);
      if Policy(s, k) == Take && s.local[0] == c {
        steps := [Take];
        TakesIt(s, c);
      } else {
        StepKeeps(s, Policy(s, k));
        var rest := Overtakes(t, c, k, on);
        steps := [Policy(s, k)] + rest;
        Longer(s, Policy(s, k), rest, c);
      }
    }
  }

  /** Whatever may follow marking c as closed when no other close is overtaken. */
  ghost predicate MayFollow(s: State, c: Id, steps: seq<Step>)
    requires Enabled(s, Mark(c))
  {
    IsRun(Apply(s, Mark(c)), steps) && OthersOrderly(Apply(s, Mark(c)), steps, c)
  }

  lemma ExposedWhere(s: State, c: Id)
    requires Inv(s) && Enabled(s, Mark(c)) && !SafeToMark(s, c)
    ensures var t := Apply(s, Mark(c));
            Exposed(t, c, s.chans[c].cpu) && t.chans[c].stage == Marked(s.chans[c].stage.closer)
  {
    hide Core;
    CoreAt(s, c, 0);
    if IsFound(s, c) {
      var j :| 0 <= j < |s.cpus| && s.cpus[j].phase == Polling(Some(c));
      CoreAt(s, c, j);
    }
  }

  /** Setting Closed on a channel is safe, in that no flush frees it before its own close has
      tried to queue it, exactly when the close runs on the channel's own CPU, or the channel is
      not on its CPU's pending list and no poll has just looked it up. */
  lemma MarkIsSafeIff(s: State, c: Id)
    requires Inv(s) && Enabled(s, Mark(c))
    ensures SafeToMark(s, c) <==>
            forall steps :: MayFollow(s, c, steps) ==> !Overtaken(After(Apply(s, Mark(c)), steps), c)
  {
    hide Core, Apply, Enabled, SafeToMark, Overtaken;
    var t := Apply(s, Mark(c));
    StepKeeps(s, Mark(c));
    InvSound(s, Mark(c));
    MarkedIs(s, c);
    if SafeToMark(s, c) {
      NotYetMarked(s, c);
      GuardedKept(s, Mark(c), c);
      forall steps | MayFollow(s, c, steps) ensures !Overtaken(After(t, steps), c) {
        NeverOvertaken(t, steps, c);
      }
    } else {
      ExposedWhere(s, c);
      InvCore(t);
      FlushCpu(t);
      var steps := Overtakes(t, c, s.chans[c].cpu, s.chans[c].stage.closer);
      assert MayFollow(s, c, steps);
    }
  }

  lemma MarkedIs(s: State, c: Id)
    requires Enabled(s, Mark(c))
    ensures c < |s.chans| && s.chans[c].stage.Unlisted? && c < |Apply(s, Mark(c)).chans|
    ensures IsClosed(Apply(s, Mark(c)).chans[c])
  {
  }

  lemma NotYetMarked(s: State, c: Id)
    requires Enabled(s, Mark(c))
    ensures Guarded(s, c)
  {
  }

  // ---- A run in which a freed channel is queued ----

  /** A channel that was triggered on CPU 0 is closed by CPU 1; CPU 0's flush frees it before the
      close has tried to queue it. */
  function Race(): seq<Step> {
    [Open(5, 0), Trigger(0), Unlist(0, 1), Mark(0)] + FlushOne()
  }

  function FlushOne(): seq<Step> {
    [FlushBegin(0), PollDone(0), Next(0), Unlock(0), Take, Reap, FlushEnd]
  }

  function Two(ch: Channel, cpu: Cpu, flush: Flush, local: seq<Id>): State {
    State(map[], [ch], [cpu, Cpu([], Unlocked)], flush, local, map[1 := 0])
  }

  lemma Cons(s: State, a: Step, t: State, steps: seq<Step>)
    requires Enabled(s, a) && Apply(s, a) == t && IsRun(t, steps)
    ensures IsRun(s, [a] + steps) && After(s, [a] + steps) == After(t, steps)
  {
    assert ([a] + steps)[1..] == steps;
  }

  lemma LockedHalf(ch: Channel, s: State, s1: State, s2: State, s3: State, s4: State)
    requires IsClosed(ch) && s == Two(ch, Cpu([0], Unlocked), NoFlush, [])
    requires s1 == Two(ch, Cpu([0], Polling(None)), Locked(0), [])
    requires s2 == Two(ch, Cpu([0], Draining(0)), Locked(0), [])
    requires s3 == Two(ch.(place := Held), Cpu([], Draining(0)), Locked(0), [0])
    requires s4 == Two(ch.(place := Held), Cpu([], Unlocked), Reaper(0), [0])
    ensures Enabled(s, FlushBegin(0)) && Apply(s, FlushBegin(0)) == s1
    ensures Enabled(s1, PollDone(0)) && Apply(s1, PollDone(0)) == s2
    ensures Enabled(s2, Next(0)) && Apply(s2, Next(0)) == s3
    ensures Enabled(s3, Unlock(0)) && Apply(s3, Unlock(0)) == s4
  {
    assert Without([0 as Id], 0) == [];
  }

  lemma ReapingHalf(ch: Channel, s4: State, s5: State, s6: State, s7: State)
    requires s4 == Two(ch.(place := Held), Cpu([], Unlocked), Reaper(0), [0])
    requires s5 == Two(ch.(place := Taken, pending := false), Cpu([], Unlocked), Reaping(0, 0), [])
    requires s6 == s7.(flush := Reaper(0))
    requires s7 == Two(ch.(pending := false, place := Freed, reaps := ch.reaps + 1), Cpu([], Unlocked), NoFlush, [])
    ensures Enabled(s4, Take) && Apply(s4, Take) == s5
    ensures Enabled(s5, Reap) && Apply(s5, Reap) == s6
    ensures Enabled(s6, FlushEnd) && Apply(s6, FlushEnd) == s7
  {
  }

  lemma FlushesOne(ch: Channel)
    requires IsClosed(ch)
    ensures IsRun(Two(ch, Cpu([0], Unlocked), NoFlush, []), FlushOne())
    ensures After(Two(ch, Cpu([0], Unlocked), NoFlush, []), FlushOne())
            == Two(ch.(pending := false, place := Freed, reaps := ch.reaps + 1), Cpu([], Unlocked), NoFlush, [])
  {
    hide Enabled, Apply, IsClosed, Two;
    var s := Two(ch, Cpu([0], Unlocked), NoFlush, []);
    var s1 := Two(ch, Cpu([0], Polling(None)), Locked(0), []);
    var s2 := Two(ch, Cpu([0], Draining(0)), Locked(0), []);
    var s3 := Two(ch.(place := Held), Cpu([], Draining(0)), Locked(0), [0]);
    var s4 := Two(ch.(place := Held), Cpu([], Unlocked), Reaper(0), [0]);
    LockedHalf(ch, s, s1, s2, s3, s4);
    var s5 := Two(ch.(place := Taken, pending := false), Cpu([], Unlocked), Reaping(0, 0), []);
    var s7 := Two(ch.(pending := false, place := Freed, reaps := ch.reaps + 1), Cpu([], Unlocked), NoFlush, []);
    var s6 := s7.(flush := Reaper(0));
    ReapingHalf(ch, s4, s5, s6, s7);
    Cons(s6, FlushEnd, s7, []);
    Cons(s5, Reap, s6, [FlushEnd]);
    Cons(s4, Take, s5, [Reap, FlushEnd]);
    Cons(s3, Unlock(0), s4, [Take, Reap, FlushEnd]);
    Cons(s2, Next(0), s3, [Unlock(0), Take, Reap, FlushEnd]);
    Cons(s1, PollDone(0), s2, [Next(0), Unlock(0), Take, Reap, FlushEnd]);
    Cons(s, FlushBegin(0), s1, [PollDone(0), Next(0), Unlock(0), Take, Reap, FlushEnd]);
    assert FlushOne() == [FlushBegin(0)] + [PollDone(0), Next(0), Unlock(0), Take, Reap, FlushEnd];
  }

  lemma Opening(ch: Channel, s: State, s1: State, s2: State)
    requires ch == Channel(5, 0, Opened, true, 0, Listed(0), 0) && s == Boot(2)
    requires s1 == Two(ch.(pending := false, place := Nowhere), Cpu([], Unlocked), NoFlush, []).(table := map[5 := 0], closing := map[])
    requires s2 == Two(ch, Cpu([0], Unlocked), NoFlush, []).(table := map[5 := 0], closing := map[])
    ensures Enabled(s, Open(5, 0)) && Apply(s, Open(5, 0)) == s1
    ensures Enabled(s1, Trigger(0)) && Apply(s1, Trigger(0)) == s2
  {
    assert s.cpus == [Cpu([], Unlocked), Cpu([], Unlocked)];
    assert Apply(s, Open(5, 0)) == s1;
    assert Apply(s1, Trigger(0)).cpus[0].list == [0];
  }

  lemma Closing(ch: Channel, s2: State, s3: State, s4: State)
    requires ch == Channel(5, 0, Opened, true, 0, Listed(0), 0)
    requires s2 == Two(ch, Cpu([0], Unlocked), NoFlush, []).(table := map[5 := 0], closing := map[])
    requires s3 == Two(ch.(stage := Unlisted(1)), Cpu([0], Unlocked), NoFlush, [])
    requires s4 == Two(ch.(stage := Marked(1)), Cpu([0], Unlocked), NoFlush, [])
    ensures Enabled(s2, Unlist(0, 1)) && Apply(s2, Unlist(0, 1)) == s3
    ensures Enabled(s3, Mark(0)) && Apply(s3, Mark(0)) == s4
  {
    assert map[5 := 0] - {5} == map[];
  }

  lemma QueuedLate(ch: Channel)
    requires ch.stage == Marked(1) && !ch.pending && ch.cpu == 0
    ensures var s := Two(ch, Cpu([], Unlocked), NoFlush, []);
            Enabled(s, CloseTrigger(0)) && Apply(s, CloseTrigger(0)).cpus[0].list == [0]
  {
    var s := Two(ch, Cpu([], Unlocked), NoFlush, []);
    assert Apply(s, CloseTrigger(0)).cpus[0].list == [0];
  }

  /** After that run the channel has been freed, and the next step of the close puts it on CPU 0's
      pending list. Nothing is said of what the code does with freed memory from there on. */
  lemma FreedIsQueued()
    ensures IsRun(Boot(2), Race())
    ensures var s := After(Boot(2), Race());
            && |s.chans| == 1 && s.chans[0].place == Freed && s.chans[0].reaps == 1
            && Enabled(s, CloseTrigger(0))
            && |Apply(s, CloseTrigger(0)).cpus| == 2 && Apply(s, CloseTrigger(0)).cpus[0].list == [0]
  {
    hide Enabled, Apply, FlushOne;
    var ch := Channel(5, 0, Opened, true, 0, Listed(0), 0);
    var s := Boot(2);
    var s1 := Two(ch.(pending := false, place := Nowhere), Cpu([], Unlocked), NoFlush, []).(table := map[5 := 0], closing := map[]);
    var s2 := Two(ch, Cpu([0], Unlocked), NoFlush, []).(table := map[5 := 0], closing := map[]);
    var s3 := Two(ch.(stage := Unlisted(1)), Cpu([0], Unlocked), NoFlush, []);
    var marked := ch.(stage := Marked(1));
    var s4 := Two(marked, Cpu([0], Unlocked), NoFlush, []);
    Opening(ch, s, s1, s2);
    Closing(ch, s2, s3, s4);
    FlushesOne(marked);
    QueuedLate(marked.(pending := false, place := Freed, reaps := 1));
    TouchesCpu(After(s4, FlushOne()), CloseTrigger(0), 0);
    Cons(s3, Mark(0), s4, FlushOne());
    Cons(s2, Unlist(0, 1), s3, [Mark(0)] + FlushOne());
    Cons(s1, Trigger(0), s2, [Unlist(0, 1)] + ([Mark(0)] + FlushOne()));
    Cons(s, Open(5, 0), s1, [Trigger(0)] + ([Unlist(0, 1)] + ([Mark(0)] + FlushOne())));
    assert Race() == [Open(5, 0)] + ([Trigger(0)] + ([Unlist(0, 1)] + ([Mark(0)] + FlushOne())));
  }
}
