/** The memory balloon: page frames move between the operating system and a range set of frames
    that have been given back to the hypervisor, in batches of which any part may fail. */
module Balloon {
  import opened HeapSort
  import opened RangeSet

  const PFN_ARRAY_SIZE := 8192
  const MIN_PAGES_PER_S := 1000

  datatype Status = Success | Unsuccessful | Retry | NoMemory

  ghost function FramesOf(s: seq<int>): set<int> {
    set x | x in s
  }

  // ---- Coalescing runs of frames ----

  datatype Run = Run(start: int, count: nat)

  function Frames(r: Run): seq<int> {
    seq(r.count, i => r.start + i)
  }

  function Expand(runs: seq<Run>): seq<int> {
    if runs == [] then [] else Expand(runs[..|runs| - 1]) + Frames(runs[|runs| - 1])
  }

  /** What runs expand to: consecutive frames, one run after the other. */
  lemma ExpandAdds(runs: seq<Run>, r: Run)
    ensures Expand([]) == [] && |Expand(runs + [r])| == |Expand(runs)| + r.count
    ensures forall x :: 0 <= x < |Expand(runs + [r])| ==>
      Expand(runs + [r])[x] == if x < |Expand(runs)| then Expand(runs)[x] else r.start + (x - |Expand(runs)|)
  {
    assert (runs + [r])[..|runs|] == runs;
  }

  /** Hand the first `count` frames back to the operating system, one call for each run of
      consecutive frames. The runs cover the array exactly once, in order; none is empty and none
      continues the one before it. */
  method BalloonFreePages(a: array<int>, count: nat) returns (runs: seq<Run>)
    requires count <= a.Length
    ensures Expand(runs) == a[..count]
    ensures forall i :: 0 <= i < |runs| ==> runs[i].count > 0
    ensures forall i, j :: 0 <= i < j < |runs| && j == i + 1 ==> runs[j].start != runs[i].start + runs[i].count
  {
    hide Expand;
    runs := [];
    ExpandAdds([], Run(0, 0));
    var start := 0;
    while start < count
      invariant start <= count && Expand(runs) == a[..start]
      invariant forall i :: 0 <= i < |runs| ==> runs[i].count > 0
      invariant forall i, j :: 0 <= i < j < |runs| && j == i + 1 ==> runs[j].start != runs[i].start + runs[i].count
      invariant runs != [] && start < count ==> a[start] != runs[|runs| - 1].start + runs[|runs| - 1].count
    {
      var end := EndOfRun(a, start, count);
      var run := Run(a[start], end - start);
      ExpandSnoc(a[..], runs, start, run);
      assert a[..][..start] == a[..start] && a[..][..end] == a[..end];
      runs := runs + [run];
      start := end;
    }
  }

  /** The run that starts at an index of the array goes on as long as the frames are consecutive. */
  method EndOfRun(a: array<int>, start: nat, count: nat) returns (end: nat)
    requires start < count <= a.Length
    ensures start < end <= count && forall x :: start <= x < end ==> a[x] == a[start] + (x - start)
    ensures end < count ==> a[end] != a[start] + (end - start)
  {
    end := start;
    while end < count && a[end] == a[start] + (end - start)
      invariant start <= end <= count && (end == start ==> start < count)
      invariant forall x :: start <= x < end ==> a[x] == a[start] + (x - start)
    {
      end := end + 1;
    }
  }

  lemma ExpandSnoc(s: seq<int>, runs: seq<Run>, n: nat, r: Run)
    requires n + r.count <= |s| && Expand(runs) == s[..n]
    requires forall x :: n <= x < n + r.count ==> s[x] == r.start + (x - n)
    ensures Expand(runs + [r]) == s[..n + r.count]
  {
    assert (runs + [r])[..|runs|] == runs;
    assert Frames(r) == s[n..n + r.count];
    assert s[..n] + s[n..n + r.count] == s[..n + r.count];
  }

  // ---- Sets of frames ----

  lemma OneFrame(f: int)
    ensures Interval(f, 1) == {f}
  {
    assert Interval(f, 0) == {};
  }

  lemma FramesSnoc(s: seq<int>, f: int)
    ensures FramesOf(s + [f]) == FramesOf(s) + {f}
  {
  }

  lemma FramesSplit(s: seq<int>, k: nat)
    requires k <= |s|
    ensures FramesOf(s) == FramesOf(s[..k]) + FramesOf(s[k..])
  {
    assert s == s[..k] + s[k..];
  }

  lemma FramesApart(s: seq<int>, k: nat)
    requires k <= |s| && Distinct(s)
    ensures FramesOf(s[..k]) !! FramesOf(s[k..])
    ensures Distinct(s[..k]) && Distinct(s[k..])
  {
    forall x | x in FramesOf(s[..k]) ensures x !in FramesOf(s[k..]) {
      var i :| 0 <= i < k && s[..k][i] == x;
      assert forall j :: 0 <= j < |s| - k ==> s[k..][j] == s[k + j] && s[i] != s[k + j];
    }
  }

  lemma {:induction false} FramesCount(s: seq<int>)
    requires Distinct(s)
    ensures |FramesOf(s)| == |s|
    decreases |s|
  {
    if s == [] {
      assert FramesOf(s) == {};
    } else {
      var n := |s| - 1;
      assert s == s[..n] + [s[n]];
      FramesCount(s[..n]);
      FramesSnoc(s[..n], s[n]);
      assert s[n] !in FramesOf(s[..n]);
    }
  }

  lemma SameFrames(s: seq<int>, t: seq<int>)
    requires multiset(s) == multiset(t)
    ensures FramesOf(s) == FramesOf(t)
  {
    forall x ensures x in FramesOf(s) <==> x in FramesOf(t) {
      assert x in s <==> x in multiset(s);
      assert x in t <==> x in multiset(t);
    }
  }

  // ---- What a batch loop makes of the outcomes of its batches ----

  /** What happened to one batch of an inflation: how many frames could be obtained, whether
      that was too slow, and how many of them were given back to the hypervisor. */
  datatype Batch = Batch(obtained: nat, slow: bool, released: nat)

  /** What the system and the hypervisor do at one turn: the frames that can be spared and the
      time it takes to get them, and whether the hypercall works and how many frames it does. */
  datatype Turn = Turn(spare: nat, milliseconds: nat, works: bool, does: nat)

  function Min(a: nat, b: nat): nat {
    if a < b then a else b
  }

  /** A hypercall does some first part of what it is asked to do. */
  function Done(t: Turn, requested: nat): (n: nat)
    ensures n <= requested
  {
    if t.works then Min(requested, t.does) else 0
  }

  predicate Slow(count: nat, milliseconds: nat) {
    count * 1000 / (if milliseconds < 1 then 1 else milliseconds) < MIN_PAGES_PER_S
  }

  function BatchOf(asked: nat, frames: nat, t: Turn): Batch {
    var obtained := Min(Min(asked, t.spare), frames);
    Batch(obtained, Slow(obtained, t.milliseconds), Done(t, obtained))
  }

  /** The batches of an inflation when the system has a number of frames. */
  ghost function Plan(requested: nat, frames: nat, env: nat -> Turn, turn: nat): seq<Batch> {
    if requested == 0 then [] else
      var asked := Asked(requested, 0);
      var b := BatchOf(asked, frames, env(turn));
      if Stops(b, asked) then [b] else [b] + Plan(requested - b.released, frames - b.released, env, turn + 1)
  }

  /** How many frames a deflation gives back: it goes on as long as a batch is done in full. */
  ghost function Deflated(requested: nat, env: nat -> Turn, turn: nat): (n: nat)
    ensures n <= requested
  {
    if requested == 0 then 0 else
      var asked := Asked(requested, 0);
      var done := Done(env(turn), asked);
      if done < asked then done else done + Deflated(requested - done, env, turn + 1)
  }

  function Asked(requested: nat, count: nat): nat
    requires count <= requested
  {
    if requested - count < PFN_ARRAY_SIZE then requested - count else PFN_ARRAY_SIZE
  }

  predicate Stops(b: Batch, asked: nat) {
    b.obtained < asked || b.slow || b.released == 0
  }

  /** Each batch was asked for the rest of the request, or for a full array of frames; only the
      last may have stopped the loop, and the loop ended there or when the request was met. */
  ghost predicate Batches(requested: nat, count: nat, batches: seq<Batch>)
    decreases |batches|
  {
    if batches == [] then count == requested
    else
      && count < requested
      && var b := batches[0];
      && var asked := Asked(requested, count);
      && b.released <= b.obtained <= asked
      && if Stops(b, asked) then |batches| == 1 else Batches(requested, count + b.released, batches[1..])
  }

  lemma {:induction false} PlanBatches(requested: nat, count: nat, frames: nat, env: nat -> Turn, turn: nat)
    requires count <= requested
    ensures Batches(requested, count, Plan(requested - count, frames, env, turn))
    decreases requested - count
  {
    if count < requested {
      var asked := Asked(requested, count);
      var b := BatchOf(asked, frames, env(turn));
      if !Stops(b, asked) {
        PlanBatches(requested, count + b.released, frames - b.released, env, turn + 1);
      }
    }
  }

  ghost function Released(batches: seq<Batch>): nat {
    if batches == [] then 0 else batches[0].released + Released(batches[1..])
  }

  /** Some batch made the loop give up. */
  ghost predicate GaveUp(requested: nat, count: nat, batches: seq<Batch>)
    requires count <= requested
    decreases |batches|
  {
    batches != [] && batches[0].released <= requested - count
    && (Stops(batches[0], Asked(requested, count)) || GaveUp(requested, count + batches[0].released, batches[1..]))
  }

  /** A loop that does not give up has met the request. A loop that has met the request has
      given up all the same exactly when its last batch was slow. */
  lemma {:induction false} ShortOrSlow(requested: nat, count: nat, batches: seq<Batch>)
    requires count <= requested && Batches(requested, count, batches)
    ensures count + Released(batches) <= requested
    ensures !GaveUp(requested, count, batches) ==> count + Released(batches) == requested
    ensures count + Released(batches) == requested ==>
      (GaveUp(requested, count, batches) <==> batches != [] && batches[|batches| - 1].slow)
    decreases |batches|
  {
    if batches != [] && !Stops(batches[0], Asked(requested, count)) {
      ShortOrSlow(requested, count + batches[0].released, batches[1..]);
      assert batches[1..] != [] ==> batches[1..][|batches| - 2] == batches[|batches| - 1];
    } else if batches != [] {
      assert batches[1..] == [];
    }
  }

  /** The loop gives up just if its last batch was slow, released nothing or got less than it
      asked for, which was the rest of the request up to 8192 frames. No earlier batch did. */
  lemma {:induction false} GaveUpMeans(requested: nat, count: nat, batches: seq<Batch>)
    requires count <= requested && Batches(requested, count, batches)
    ensures batches == [] <==> count == requested
    ensures batches != [] ==>
      var init, last := batches[..|batches| - 1], batches[|batches| - 1];
      var left := requested - count - Released(init);
      GaveUp(requested, count, batches)
      <==> last.slow || last.released == 0 || last.obtained < if left < 8192 then left else 8192
    ensures forall i :: 0 <= i < |batches| - 1 ==> !batches[i].slow && batches[i].released > 0
    decreases |batches|
  {
    if batches != [] {
      var b, rest := batches[0], batches[1..];
      if Stops(b, Asked(requested, count)) {
        assert rest == [] && batches[..0] == [];
      } else {
        GaveUpMeans(requested, count + b.released, rest);
        if rest == [] {
          assert batches[..0] == [];
        } else {
          assert batches[..|batches| - 1][0] == b;
          assert batches[..|batches| - 1][1..] == rest[..|rest| - 1];
          assert batches[|batches| - 1] == rest[|rest| - 1];
        }
      }
    }
  }

  /** What each batch of an inflation comes to, `totals` counting the frames released before it:
      frames are asked for up to 8192, and come as far as they can be spared and are there; less
      than 1000 a second is slow; the hypervisor takes a first part of them. */
  lemma PlanMeans(requested: nat, frames: nat, env: nat -> Turn, turn: nat) returns (totals: seq<nat>)
    ensures |totals| == |Plan(requested, frames, env, turn)| + 1 && totals[0] == 0
    ensures totals[|totals| - 1] == Released(Plan(requested, frames, env, turn)) <= requested
    ensures forall i :: 0 <= i < |totals| - 1 ==>
      var b, t := Plan(requested, frames, env, turn)[i], env(turn + i);
      var left, there := requested - totals[i], frames - totals[i];
      && totals[i + 1] == totals[i] + b.released && left > 0 && there >= 0
      && b.obtained <= left && b.obtained <= 8192 && b.obtained <= t.spare && b.obtained <= there
      && (b.obtained == left || b.obtained == 8192 || b.obtained == t.spare || b.obtained == there)
      && (b.slow <==> b.obtained * 1000 / (if t.milliseconds < 1 then 1 else t.milliseconds) < 1000)
      && b.released == (if !t.works then 0 else if t.does < b.obtained then t.does else b.obtained)
  {
    hide Plan;
    totals := Totals(requested, frames, env, turn);
  }

  ghost predicate Outcome(b: Batch, left: int, there: int, t: Turn) {
    && left > 0 && there >= 0
    && b.obtained <= left && b.obtained <= 8192 && b.obtained <= t.spare && b.obtained <= there
    && (b.obtained == left || b.obtained == 8192 || b.obtained == t.spare || b.obtained == there)
    && (b.slow <==> b.obtained * 1000 / (if t.milliseconds < 1 then 1 else t.milliseconds) < 1000)
    && b.released == (if !t.works then 0 else if t.does < b.obtained then t.does else b.obtained)
  }

  lemma BatchOutcome(requested: nat, frames: nat, t: Turn)
    requires requested > 0
    ensures Outcome(BatchOf(Asked(requested, 0), frames, t), requested, frames, t)
  {
  }

  ghost predicate Told(totals: seq<nat>, plan: seq<Batch>, requested: nat, frames: nat, env: nat -> Turn, turn: nat) {
    && |totals| == |plan| + 1 && totals[0] == 0
    && (forall i :: 0 <= i < |plan| ==> totals[i + 1] == totals[i] + plan[i].released)
    && (forall i :: 0 <= i < |plan| ==> Outcome(plan[i], requested - totals[i], frames - totals[i], env(turn + i)))
  }

  lemma {:induction false} Totals(requested: nat, frames: nat, env: nat -> Turn, turn: nat) returns (totals: seq<nat>)
    ensures Told(totals, Plan(requested, frames, env, turn), requested, frames, env, turn)
    ensures totals[|totals| - 1] == Released(Plan(requested, frames, env, turn)) <= requested
    decreases requested
  {
    hide Outcome, BatchOf, Stops, Asked, Told, Plan;
    totals := [0];
    if requested == 0 {
      PlanNone(frames, env, turn);
      ToldNone(requested, frames, env, turn);
    } else {
      var asked := Asked(requested, 0);
      AskedBounds(requested, 0);
      var b := BatchOf(asked, frames, env(turn));
      BatchIs(asked, frames, env(turn));
      BatchOutcome(requested, frames, env(turn));
      PlanNext(requested, frames, env, turn);
      ReleasedOne(b);
      totals := [0, b.released];
      if Stops(b, asked) {
        ToldOne(b, requested, frames, env, turn);
        assert [b] + [] == [b];
      } else {
        StopsIf(b, asked);
        var left, there := requested - b.released, frames - b.released;
        var later := Totals(left, there, env, turn + 1);
        var rest := Plan(left, there, env, turn + 1);
        totals := [0] + seq(|later|, i requires 0 <= i < |later| => later[i] + b.released);
        ToldLength(later, rest, left, there, env, turn + 1);
        ToldMore(later, rest, left, there, env, turn, b, requested, frames, totals);
        assert ([b] + rest)[1..] == rest;
      }
    }
  }

  lemma ToldLength(totals: seq<nat>, plan: seq<Batch>, requested: nat, frames: nat, env: nat -> Turn, turn: nat)
    requires Told(totals, plan, requested, frames, env, turn)
    ensures |totals| == |plan| + 1
  {
  }

  lemma ToldNone(requested: nat, frames: nat, env: nat -> Turn, turn: nat)
    ensures Told([0], [], requested, frames, env, turn) && Released([]) == 0
  {
  }

  lemma ToldOne(b: Batch, requested: nat, frames: nat, env: nat -> Turn, turn: nat)
    requires Outcome(b, requested, frames, env(turn))
    ensures Told([0, b.released], [b], requested, frames, env, turn)
  {
    hide Outcome;
  }

  lemma StopsIf(b: Batch, asked: nat)
    ensures !Stops(b, asked) ==> b.released > 0
  {
  }

  lemma ReleasedOne(b: Batch)
    ensures Released([b]) == b.released
  {
    assert [b][1..] == [];
  }

  lemma ToldMore(later: seq<nat>, rest: seq<Batch>, left: nat, there: nat, env: nat -> Turn, turn: nat, b: Batch,
                 requested: nat, frames: nat, totals: seq<nat>)
    requires Told(later, rest, left, there, env, turn + 1) && requested == left + b.released && frames == there + b.released
    requires Outcome(b, requested, frames, env(turn))
    requires |totals| == |later| + 1 && totals[0] == 0
    requires forall i :: 1 <= i < |totals| ==> totals[i] == later[i - 1] + b.released
    ensures Told(totals, [b] + rest, requested, frames, env, turn)
  {
    hide Outcome;
    var plan := [b] + rest;
    forall i | 0 <= i < |plan| ensures totals[i + 1] == totals[i] + plan[i].released
                               ensures Outcome(plan[i], requested - totals[i], frames - totals[i], env(turn + i)) {
      if i > 0 {
        assert plan[i] == rest[i - 1];
        assert env(turn + 1 + (i - 1)) == env(turn + i);
        assert later[i - 1 + 1] == later[i - 1] + rest[i - 1].released;
      }
    }
  }

  /** What a deflation comes to, `totals` counting the frames done before each batch: up to 8192
      are asked for at a time, of which the hypercall does a first part; it ends when all is done
      or a batch was not done in full. */
  lemma DeflatedMeans(requested: nat, env: nat -> Turn, turn: nat) returns (totals: seq<nat>)
    ensures |totals| > 0 && totals[0] == 0 && totals[|totals| - 1] == Deflated(requested, env, turn) <= requested
    ensures forall i {:trigger totals[i]} :: 0 <= i < |totals| - 1 ==>
      var t, left := env(turn + i), requested - totals[i];
      var asked := if left < 8192 then left else 8192;
      && left > 0 && totals[i + 1] == totals[i] + (if !t.works then 0 else if t.does < asked then t.does else asked)
      && (totals[i + 1] == totals[i] + asked || i == |totals| - 2)
    ensures totals[|totals| - 1] == requested || |totals| > 1
    ensures totals[|totals| - 1] != requested ==>
      var left := requested - totals[|totals| - 2];
      totals[|totals| - 1] < totals[|totals| - 2] + if left < 8192 then left else 8192
  {
    hide Deflated;
    totals := Doings(requested, env, turn);
    var last := |totals| - 2;
    forall i {:trigger totals[i]} | 0 <= i < |totals| - 1
      ensures var t, left := env(turn + i), requested - totals[i];
        var asked := if left < 8192 then left else 8192;
        && left > 0 && totals[i + 1] == totals[i] + (if !t.works then 0 else if t.does < asked then t.does else asked)
        && (totals[i + 1] == totals[i] + asked || i == |totals| - 2)
    {
      assert Doing(totals[i], totals[i + 1], requested, env(turn + i), i < last || totals[last + 1] == requested);
    }
  }

  /** One batch of a deflation, and whether it was done in full. */
  ghost predicate Doing(from: nat, to: nat, requested: nat, t: Turn, full: bool) {
    var left := requested - from;
    var asked := if left < 8192 then left else 8192;
    && left > 0 && to == from + (if !t.works then 0 else if t.does < asked then t.does else asked)
    && (full <==> to == from + asked)
  }

  ghost predicate Deflating(totals: seq<nat>, requested: nat, env: nat -> Turn, turn: nat) {
    && |totals| > 0 && totals[0] == 0
    && (forall i :: 0 <= i < |totals| - 2 ==> Doing(totals[i], totals[i + 1], requested, env(turn + i), true))
    && (|totals| > 1 ==> Doing(totals[|totals| - 2], totals[|totals| - 1], requested, env(turn + |totals| - 2),
                               totals[|totals| - 1] == requested))
    && (|totals| == 1 ==> requested == 0)
  }

  lemma DoingOne(requested: nat, t: Turn)
    requires requested > 0
    ensures var asked := Asked(requested, 0); var done := Done(t, asked);
            0 < asked <= requested && (done == asked <==> Doing(0, done, requested, t, true))
            && (done < asked <==> Doing(0, done, requested, t, false)) && done <= asked
  {
  }

  lemma {:induction false} Doings(requested: nat, env: nat -> Turn, turn: nat) returns (totals: seq<nat>)
    ensures Deflating(totals, requested, env, turn)
    ensures totals[|totals| - 1] == Deflated(requested, env, turn) <= requested
    decreases requested
  {
    totals := [0];
    if requested > 0 {
      hide Doing, Asked, Done;
      var asked := Asked(requested, 0);
      var done := Done(env(turn), asked);
      DoingOne(requested, env(turn));
      if done < asked {
        totals := [0, done];
      } else {
        var later := Doings(requested - done, env, turn + 1);
        hide Deflated, Deflating;
        totals := [0] + seq(|later|, i requires 0 <= i < |later| => later[i] + done);
        DeflatingMore(later, requested, done, env, turn, totals);
      }
    }
  }

  lemma DeflatingMore(later: seq<nat>, requested: nat, done: nat, env: nat -> Turn, turn: nat, totals: seq<nat>)
    requires 0 < done <= requested && Deflating(later, requested - done, env, turn + 1)
    requires Doing(0, done, requested, env(turn), true)
    requires |totals| == |later| + 1 && totals[0] == 0
    requires forall i :: 1 <= i < |totals| ==> totals[i] == later[i - 1] + done
    ensures Deflating(totals, requested, env, turn)
  {
    forall i | 0 <= i < |totals| - 2 ensures Doing(totals[i], totals[i + 1], requested, env(turn + i), true) {
      if i > 0 {
        assert Doing(later[i - 1], later[i - 1 + 1], requested - done, env(turn + 1 + (i - 1)), true);
        assert env(turn + 1 + (i - 1)) == env(turn + i);
      }
    }
    if |later| > 1 {
      assert env(turn + 1 + |later| - 2) == env(turn + |totals| - 2);
    }
  }

  /** A single frame that takes two milliseconds to get: the request is met in full, and still
      reported as one to retry. */
  lemma MetButRetried()
    ensures var batches := Plan(1, 1, (turn: nat) => Turn(1, 2, true, 1), 0);
      batches == [Batch(1, true, 1)] && Released(batches) == 1 && GaveUp(1, 0, batches)
  {
    var batches := Plan(1, 1, (turn: nat) => Turn(1, 2, true, 1), 0);
    assert Stops(BatchOf(1, 1, Turn(1, 2, true, 1)), 1);
    assert batches == [Batch(1, true, 1)];
    assert Released(batches[1..]) == 0;
  }

  class BalloonContext {
    const pfnArray: array<int>
    const rangeSet: RangeSetContext
    var size: nat
    var os: set<int>              // the frames the operating system has; not driver state
    const env: nat -> Turn        // what the others do, turn by turn
    var turn: nat

    ghost predicate Valid()
      reads this, rangeSet
    {
      && pfnArray.Length == PFN_ARRAY_SIZE && rangeSet.Valid()
      && os !! rangeSet.items && size == |rangeSet.items|
    }

    constructor (frames: set<int>, env: nat -> Turn)
      ensures Valid() && size == 0 && this.env == env && os == frames && rangeSet.items == {} && fresh(rangeSet) && fresh(pfnArray)
    {
      pfnArray := new int[PFN_ARRAY_SIZE](_ => 0);
      rangeSet := new RangeSetContext();
      size, os := 0, frames;
      this.env := env;
      turn := 0;
    }

    /** The operating system picks frames of its own, all different, for the driver to take. */
    method MmAllocatePages(requested: nat) returns (count: nat)
      requires requested <= pfnArray.Length
      modifies this`os, pfnArray
      ensures count == Min(Min(requested, env(turn).spare), |old(os)|) && Distinct(pfnArray[..count])
      ensures FramesOf(pfnArray[..count]) <= old(os) && os == old(os) - FramesOf(pfnArray[..count])
    {
      hide FramesOf;
      count := 0;
      FramesNone(pfnArray[..0]);
      while count < requested && count < env(turn).spare && os != {}
        invariant count <= requested && count <= env(turn).spare && Distinct(pfnArray[..count])
        invariant FramesOf(pfnArray[..count]) <= old(os) && os == old(os) - FramesOf(pfnArray[..count])
        invariant |os| + count == |old(os)|
        decreases requested - count
      {
        count := PickFrame(count);
      }
    }

    method PickFrame(n: nat) returns (count: nat)
      requires n < pfnArray.Length && os != {} && Distinct(pfnArray[..n]) && FramesOf(pfnArray[..n]) !! os
      modifies this`os, pfnArray
      ensures count == n + 1 && Distinct(pfnArray[..count]) && FramesOf(pfnArray[..count]) !! os
      ensures os + FramesOf(pfnArray[..count]) == old(os + FramesOf(pfnArray[..n])) && |os| + 1 == |old(os)|
    {
      hide FramesOf, Distinct;
      HasMember(os);
      var f :| f in os;
      ghost var before := pfnArray[..n];
      FramesSnoc(before, f);
      StillDistinct(before, f);
      pfnArray[n] := f;
      assert pfnArray[..n + 1] == before + [f];
      MovedOut(os, {f});
      os := os - {f};
      count := n + 1;
    }

    /** The hypercall of this turn. */
    method Hypercall(requested: nat) returns (ok: bool, count: nat)
      ensures (if ok then count else 0) == Done(env(turn), requested)
      ensures count <= requested
    {
      ok := env(turn).works;
      count := Min(requested, env(turn).does);
    }

    /** Allocate frames and sort them. */
    method BalloonAllocatePfnArray(requested: nat) returns (count: nat, slow: bool)
      requires 0 < requested <= pfnArray.Length
      modifies this`os, pfnArray
      ensures count == Min(Min(requested, env(turn).spare), |old(os)|) && Strict(pfnArray[..count])
      ensures FramesOf(pfnArray[..count]) <= old(os) && os == old(os) - FramesOf(pfnArray[..count])
      ensures slow == Slow(count, env(turn).milliseconds)
    {
      hide FramesOf;
      count := MmAllocatePages(requested);
      ghost var unsorted := pfnArray[..count];
      BalloonSort(pfnArray, count);
      SameFrames(unsorted, pfnArray[..count]);
      var milliseconds := env(turn).milliseconds;
      var delta := if milliseconds < 1 then 1 else milliseconds;
      slow := (count * 1000) / delta < MIN_PAGES_PER_S;
    }

    /** Put frames into the range set, as far as it finds memory (room(i) for frame i), and give
        them back to the hypervisor; those it will not take come out of the range set again, and
        stay in the array. If a frame could not be put, the range set can be used afterwards
        exactly if it was empty or that frame lies between two of its members: otherwise it has
        lost its cursor, and nothing is said of the Gets that the code would go on to. */
    method BalloonReleasePfnArray(requested: nat, room: nat -> bool) returns (count: nat, usable: bool, ghost put: nat)
      requires requested <= pfnArray.Length && rangeSet.Valid()
      requires Distinct(pfnArray[..requested]) && FramesOf(pfnArray[..requested]) !! rangeSet.items
      modifies pfnArray, rangeSet
      ensures put <= requested && count == Done(env(turn), put)
      ensures put < requested ==> !room(put)
      ensures (forall i :: 0 <= i < requested ==> room(i)) ==> put == requested && usable
      ensures usable <==> put == requested
                          || CanFail(old(rangeSet.items) + FramesOf(old(pfnArray[..put])), old(pfnArray[..])[put])
      ensures usable ==> rangeSet.Valid() && rangeSet.items == old(rangeSet.items) + FramesOf(old(pfnArray[..count]))
      ensures !usable ==> rangeSet.Represents() && rangeSet.items == old(rangeSet.items) + FramesOf(old(pfnArray[..put]))
      ensures forall k :: 0 <= k < pfnArray.Length ==>
        pfnArray[k] == if k < count then 0 else old(pfnArray[k])
    {
      hide FramesOf, Distinct, RangeSetContext.Valid, RangeSetContext.Represents, RangeSetContext.CursorSet, CanFail, Done;
      count, usable, put := 0, true, 0;
      if requested == 0 {
        FramesNone(pfnArray[..0]);
        DoneNone(env(turn));
        return;
      }
      ghost var frames := pfnArray[..requested];
      var index;
      index, usable := PutFrames(requested, room);
      put := index;
      var ok;
      ok, count := Hypercall(index);
      if !ok {
        count := 0;
      }
      ZeroPfnArray(count);
      FramesSplit(frames[..index], count);
      DistinctPart(frames, index);
      FramesApart(frames[..index], count);
      assert frames[..index][..count] == old(pfnArray[..count]);
      assert pfnArray[count..index] == frames[..index][count..];
      assert frames[..index] == old(pfnArray[..index]);
      if usable {
        FramesWithin(frames, index);
        UnionApart(old(rangeSet.items), FramesOf(frames[..index][..count]), FramesOf(frames[..index][count..]));
        GetFrames(count, index);
      }
    }

    /** Put the first `requested` frames of the array into the range set, up to the first that
        fails for want of memory. */
    method PutFrames(requested: nat, room: nat -> bool) returns (index: nat, usable: bool)
      requires requested <= pfnArray.Length && rangeSet.Valid()
      requires Distinct(pfnArray[..requested]) && FramesOf(pfnArray[..requested]) !! rangeSet.items
      modifies rangeSet
      ensures index <= requested && (index < requested ==> !room(index))
      ensures rangeSet.items == old(rangeSet.items) + FramesOf(pfnArray[..index])
      ensures usable <==> index == requested || CanFail(rangeSet.items, pfnArray[index])
      ensures if usable then rangeSet.Valid() else rangeSet.Represents()
    {
      hide FramesOf, Distinct, RangeSetContext.Valid, CanFail;
      ghost var frames := pfnArray[..requested];
      index, usable := 0, true;
      var ok := true;
      FramesNone(frames[..0]);
      while index < requested && ok
        invariant 0 <= index <= requested && (ok ==> usable && rangeSet.Valid())
        invariant rangeSet.items == old(rangeSet.items) + FramesOf(frames[..index])
        invariant !ok ==> index < requested && !room(index) && (usable <==> CanFail(rangeSet.items, pfnArray[index]))
        invariant if usable then rangeSet.Valid() else rangeSet.Represents()
        decreases requested - index, ok
      {
        NotYet(frames, index);
        assert frames[..index + 1] == frames[..index] + [frames[index]];
        FramesSnoc(frames[..index], frames[index]);
        ok := TryPut(pfnArray[index], room(index));
        if ok {
          index := index + 1;
        } else {
          usable := rangeSet.CursorSet();
          UsableIf(rangeSet);
        }
      }
      assert frames[..index] == pfnArray[..index];
    }

    method TryPut(f: int, memory: bool) returns (ok: bool)
      requires rangeSet.Valid() && f !in rangeSet.items
      modifies rangeSet
      ensures memory ==> ok
      ensures ok ==> rangeSet.Valid() && rangeSet.items == old(rangeSet.items) + {f}
      ensures !ok ==> rangeSet.Represents() && rangeSet.items == old(rangeSet.items)
      ensures !ok ==> (rangeSet.CursorSet() <==> CanFail(rangeSet.items, f))
    {
      hide Interval, Shows;
      OneFrame(f);
      ok := rangeSet.Put(f, 1, memory);
    }

    method PutFrame(f: int)
      requires rangeSet.Valid() && f !in rangeSet.items
      modifies rangeSet
      ensures rangeSet.Valid() && rangeSet.items == old(rangeSet.items) + {f}
    {
      hide Interval, Shows, Enclosed;
      OneFrame(f);
      var ok := rangeSet.Put(f, 1, true);
    }

    method GetFrame(f: int)
      requires rangeSet.Valid() && f in rangeSet.items
      modifies rangeSet
      ensures rangeSet.Valid() && rangeSet.items == old(rangeSet.items) - {f}
    {
      hide Interval, Shows;
      OneFrame(f);
      var ok := rangeSet.Get(f, 1, true);
    }

    /** Get the frames in a part of the array out of the range set again. */
    method GetFrames(count: nat, requested: nat)
      requires count <= requested <= pfnArray.Length && rangeSet.Valid()
      requires Distinct(pfnArray[count..requested]) && FramesOf(pfnArray[count..requested]) <= rangeSet.items
      modifies rangeSet
      ensures rangeSet.Valid()
      ensures rangeSet.items == old(rangeSet.items) - FramesOf(pfnArray[count..requested])
    {
      hide FramesOf, Distinct, RangeSetContext.Valid;
      ghost var frames := pfnArray[count..requested];
      var index := count;
      FramesNone(frames[..0]);
      while index < requested
        invariant count <= index <= requested && rangeSet.Valid()
        invariant rangeSet.items == old(rangeSet.items) - FramesOf(frames[..index - count])
      {
        ghost var k := index - count;
        assert frames[k] == pfnArray[index];
        NotYet(frames, k);
        assert frames[..k + 1] == frames[..k] + [frames[k]];
        FramesSnoc(frames[..k], frames[k]);
        GetFrame(pfnArray[index]);
        index := index + 1;
      }
      assert frames[..requested - count] == frames;
    }

    /** Put the frames in a part of the array back into the range set and zero that part. */
    method ReturnFrames(count: nat, requested: nat)
      requires count <= requested <= pfnArray.Length && rangeSet.Valid()
      requires Distinct(pfnArray[count..requested]) && FramesOf(pfnArray[count..requested]) !! rangeSet.items
      modifies pfnArray, rangeSet
      ensures rangeSet.Valid()
      ensures rangeSet.items == old(rangeSet.items) + FramesOf(old(pfnArray[count..requested]))
      ensures forall k :: 0 <= k < pfnArray.Length ==>
        pfnArray[k] == if count <= k < requested then 0 else old(pfnArray[k])
    {
      hide FramesOf, Distinct, RangeSetContext.Valid;
      ghost var frames := pfnArray[count..requested];
      var index := count;
      FramesNone(frames[..0]);
      while index < requested
        invariant count <= index <= requested && rangeSet.Valid()
        invariant rangeSet.items == old(rangeSet.items) + FramesOf(frames[..index - count])
        invariant forall k :: 0 <= k < pfnArray.Length ==>
          pfnArray[k] == if count <= k < index then 0 else old(pfnArray[k])
      {
        ghost var k := index - count;
        assert frames[k] == pfnArray[index];
        NotYet(frames, k);
        assert frames[..k + 1] == frames[..k] + [frames[k]];
        FramesSnoc(frames[..k], frames[k]);
        PutFrame(pfnArray[index]);
        pfnArray[index] := 0;
        index := index + 1;
      }
      assert frames[..requested - count] == frames;
    }

    /** Zero the first `count` entries of the array. */
    method ZeroPfnArray(count: nat)
      requires count <= pfnArray.Length
      modifies pfnArray
      ensures forall k :: 0 <= k < pfnArray.Length ==> pfnArray[k] == if k < count then 0 else old(pfnArray[k])
    {
      var index := 0;
      while index < count
        invariant 0 <= index <= count
        invariant forall k :: 0 <= k < pfnArray.Length ==>
          pfnArray[k] == if k < index then 0 else old(pfnArray[k])
      {
        pfnArray[index] := 0;
        index := index + 1;
      }
    }

    /** Hand frames from the array back to the operating system. */
    method BalloonFreePfnArray(requested: nat) returns (count: nat)
      requires requested <= pfnArray.Length
      modifies this`os, pfnArray
      ensures count == requested && os == old(os) + FramesOf(old(pfnArray[..requested]))
      ensures forall k :: 0 <= k < pfnArray.Length ==>
        pfnArray[k] == if k < requested then 0 else old(pfnArray[k])
    {
      if requested == 0 {
        FramesNone(pfnArray[..0]);
        return 0;
      }
      var runs := BalloonFreePages(pfnArray, requested);
      os := os + set x | x in Expand(runs);
      count := requested;
      ZeroPfnArray(count);
    }

    /** Take frames out of the range set and ask the hypervisor to populate them; those it does
        not populate go back into the range set. */
    method BalloonPopulatePfnArray(requested: nat) returns (count: nat)
      requires requested <= pfnArray.Length && rangeSet.Valid() && requested <= |rangeSet.items|
      modifies pfnArray, rangeSet
      ensures rangeSet.Valid() && count == Done(env(turn), requested) && Distinct(pfnArray[..count])
      ensures FramesOf(pfnArray[..count]) <= old(rangeSet.items)
      ensures rangeSet.items == old(rangeSet.items) - FramesOf(pfnArray[..count])
      ensures forall k :: count <= k < requested ==> pfnArray[k] == 0
    {
      hide FramesOf, Distinct, RangeSetContext.Valid;
      PopFrames(requested);
      ghost var frames := pfnArray[..requested];
      var ok;
      ok, count := Hypercall(requested);
      if !ok {
        count := 0;
      }
      FramesSplit(frames, count);
      FramesApart(frames, count);
      assert frames[..count] == pfnArray[..count] && frames[count..] == pfnArray[count..requested];
      MinusApart(old(rangeSet.items), FramesOf(frames[..count]), FramesOf(frames[count..]));
      ReturnFrames(count, requested);
      assert pfnArray[..count] == frames[..count];
    }

    /** The range set gives up any frames it likes, one at a time. */
    method PopFrames(requested: nat)
      requires requested <= pfnArray.Length && rangeSet.Valid() && requested <= |rangeSet.items|
      modifies pfnArray, rangeSet
      ensures rangeSet.Valid() && Distinct(pfnArray[..requested])
      ensures FramesOf(pfnArray[..requested]) <= old(rangeSet.items)
      ensures rangeSet.items == old(rangeSet.items) - FramesOf(pfnArray[..requested])
    {
      hide FramesOf, Interval, Shows;
      var index := 0;
      FramesNone(pfnArray[..0]);
      while index < requested
        invariant 0 <= index <= requested && rangeSet.Valid() && Distinct(pfnArray[..index])
        invariant FramesOf(pfnArray[..index]) <= old(rangeSet.items)
        invariant rangeSet.items == old(rangeSet.items) - FramesOf(pfnArray[..index])
      {
        FramesLeft(old(rangeSet.items), pfnArray[..index]);
        ghost var before := pfnArray[..index];
        ghost var items := rangeSet.items;
        var ok, f := rangeSet.Pop(1);
        PoppedOne(items, f, ok);
        pfnArray[index] := f;
        FramesSnoc(before, f);
        StillDistinct(before, f);
        assert pfnArray[..index + 1] == before + [f];
        index := index + 1;
      }
    }

    /** One batch of a deflation: some frames go from the range set to the operating system. */
    method DeflateBatch(requested: nat) returns (freed: nat)
      requires pfnArray.Length == PFN_ARRAY_SIZE && rangeSet.Valid() && os !! rangeSet.items
      requires 0 < requested <= PFN_ARRAY_SIZE && requested <= |rangeSet.items|
      modifies this`os, this`turn, pfnArray, rangeSet
      ensures rangeSet.Valid() && os !! rangeSet.items && os + rangeSet.items == old(os + rangeSet.items)
      ensures turn == old(turn) + 1 && freed == Done(env(old(turn)), requested)
      ensures |rangeSet.items| + freed == |old(rangeSet.items)|
      ensures old(os) <= os
    {
      hide Shows, Distinct, FramesOf;
      ghost var items := rangeSet.items;
      var populated := BalloonPopulatePfnArray(requested);
      ghost var frames := pfnArray[..populated];
      freed := BalloonFreePfnArray(populated);
      FramesCount(frames);
      MovedOut(items, FramesOf(frames));
      turn := turn + 1;
    }

    /** Give frames back to the operating system, unless deflation is disallowed. It succeeds
        exactly when all that was asked for has been given back. */
    method BalloonDeflate(requested: nat, disallowed: bool) returns (status: Status)
      requires Valid() && requested <= size
      modifies this, pfnArray, rangeSet
      ensures Valid() && os + rangeSet.items == old(os + rangeSet.items)
      ensures size == old(size) - if disallowed then 0 else Deflated(requested, env, old(turn))
      ensures status == Unsuccessful <==> disallowed
      ensures !disallowed ==> (status == Success <==> size + requested == old(size))
      ensures status != NoMemory
    {
      if disallowed {
        return Unsuccessful;
      }
      var count := 0;
      status := Success;
      while count < requested && status == Success
        invariant count <= requested && (status == Success || (status == Retry && count < requested))
        invariant pfnArray.Length == PFN_ARRAY_SIZE && rangeSet.Valid() && os !! rangeSet.items
        invariant os + rangeSet.items == old(os + rangeSet.items) && size == old(size)
        invariant |rangeSet.items| + count == size
        invariant Deflated(requested, env, old(turn)) == count + (if status == Success then Deflated(requested - count, env, turn) else 0)
        decreases requested - count, if status == Success then 1 else 0
      {
        var thisTime := Asked(requested, count);
        var freed := DeflateBatch(thisTime);
        if freed < thisTime {
          status := Retry;
        }
        count := count + freed;
      }
      size := size - count;
    }

    /** One batch of an inflation: frames the operating system could spare go to the range set,
        except those the hypervisor will not take. */
    method InflateBatch(requested: nat) returns (b: Batch)
      requires pfnArray.Length == PFN_ARRAY_SIZE && rangeSet.Valid() && os !! rangeSet.items
      requires 0 < requested <= PFN_ARRAY_SIZE
      modifies this`os, this`turn, pfnArray, rangeSet
      ensures rangeSet.Valid() && os !! rangeSet.items && os + rangeSet.items == old(os + rangeSet.items)
      ensures turn == old(turn) + 1 && b == BatchOf(requested, |old(os)|, env(old(turn)))
      ensures |rangeSet.items| == |old(rangeSet.items)| + b.released && |os| + b.released == |old(os)|
    {
      hide FramesOf, Distinct, RangeSetContext.Valid, Slow, BatchOf, Done, Min;
      ghost var items, owned := rangeSet.items, os;
      BatchIs(requested, |os|, env(turn));
      var obtained, slow := BalloonAllocatePfnArray(requested);
      ghost var frames := FramesOf(pfnArray[..obtained]);
      StrictDistinct(pfnArray[..obtained]);
      SubsetApart(owned, items, frames);
      var released;
      ghost var given;
      released, given := ReleaseAndReturn(obtained);
      BatchSets(owned, items, frames, given);
      MovedIn(items, given);
      b := Batch(obtained, slow, released);
      turn := turn + 1;
    }

    /** Put frames from the array into the range set as far as the hypervisor takes them, and
        hand the others back to the operating system. */
    method ReleaseAndReturn(obtained: nat) returns (released: nat, ghost given: set<int>)
      requires obtained <= pfnArray.Length && rangeSet.Valid()
      requires Distinct(pfnArray[..obtained]) && FramesOf(pfnArray[..obtained]) !! rangeSet.items
      modifies this`os, pfnArray, rangeSet
      ensures rangeSet.Valid() && released == Done(env(turn), obtained) == |given|
      ensures given <= FramesOf(old(pfnArray[..obtained])) && rangeSet.items == old(rangeSet.items) + given
      ensures os == old(os) + (FramesOf(old(pfnArray[..obtained])) - given)
    {
      hide FramesOf, Distinct, RangeSetContext.Valid;
      ghost var frames := pfnArray[..obtained];
      var usable;
      ghost var put;
      released, usable, put := BalloonReleasePfnArray(obtained, _ => true);
      assert frames[..released] == old(pfnArray[..released]);
      assert frames[released..] == pfnArray[released..obtained];
      FramesSplit(frames, released);
      FramesApart(frames, released);
      FramesCount(frames[..released]);
      given := FramesOf(frames[..released]);
      FreeRest(released, obtained);
    }

    /** Move the frames the hypervisor would not take to the front of the array, and hand them
        back to the operating system. */
    method FreeRest(released: nat, obtained: nat)
      requires released <= obtained <= pfnArray.Length
      modifies this`os, pfnArray
      ensures os == old(os) + FramesOf(old(pfnArray[released..obtained]))
    {
      hide FramesOf;
      if released < obtained {
        var left := obtained - released;
        forall k | 0 <= k < left {
          pfnArray[k] := pfnArray[released + k];
        }
        assert pfnArray[..left] == old(pfnArray[released..obtained]);
        var freed := BalloonFreePfnArray(left);
      } else {
        FramesNone(pfnArray[released..obtained]);
      }
    }

    /** Take frames from the operating system, unless inflation is disallowed or memory is low.
        The batches returned say how far it got and why it stopped. */
    method BalloonInflate(requested: nat, disallowed: bool, lowMemory: bool)
      returns (status: Status, ghost batches: seq<Batch>)
      requires Valid()
      modifies this, pfnArray, rangeSet
      ensures Valid() && os + rangeSet.items == old(os + rangeSet.items)
      ensures status == Unsuccessful <==> disallowed
      ensures status == NoMemory <==> !disallowed && lowMemory
      ensures disallowed || lowMemory ==> size == old(size) && batches == []
      ensures !disallowed && !lowMemory ==>
        && batches == Plan(requested, |old(os)|, env, old(turn)) && Batches(requested, 0, batches)
        && size == old(size) + Released(batches) && (status == Retry <==> GaveUp(requested, 0, batches))
        && (status == Success || status == Retry)
    {
      hide Plan, SoFar, Batches, GaveUp, Slow, BatchOf, Asked, Released, RangeSetContext.Valid;
      batches := [];
      if disallowed {
        return Unsuccessful, [];
      }
      if lowMemory {
        return NoMemory, [];
      }
      var count := 0;
      status := Success;
      NoBatches(requested);
      while count < requested && status == Success
        invariant count <= requested && (status == Success || status == Retry)
        invariant pfnArray.Length == PFN_ARRAY_SIZE && rangeSet.Valid() && os !! rangeSet.items
        invariant os + rangeSet.items == old(os + rangeSet.items) && size == old(size)
        invariant |rangeSet.items| == size + count && count == Released(batches)
        invariant SoFar(requested, 0, batches, count, status == Retry)
        invariant Plan(requested, |old(os)|, env, old(turn))
                  == batches + (if status == Success then Plan(requested - count, |os|, env, turn) else [])
        decreases requested - count, if status == Success then 1 else 0
      {
        var thisTime := Asked(requested, count);
        AskedBounds(requested, count);
        ghost var frames := |os|;
        var b := InflateBatch(thisTime);
        NextTold(Plan(requested, |old(os)|, env, old(turn)), batches, requested, count, frames, env, turn - 1, b);
        if b.obtained < thisTime || b.slow {
          status := Retry;
        }
        if b.released == 0 {
          status := Retry;
        }
        OneMore(requested, 0, batches, count, b);
        batches := batches + [b];
        count := count + b.released;
      }
      PlanNone(|os|, env, turn);
      AllTold(requested, 0, batches, count, status == Retry);
      size := size + count;
    }

    /** Move the size towards a target. The size never passes the target, and never moves away
        from it; success means that it got there. */
    method BalloonAdjust(target: nat, inflationDisallowed: bool, deflationDisallowed: bool, lowMemory: bool)
      returns (status: Status, ghost batches: seq<Batch>)
      requires Valid()
      modifies this, pfnArray, rangeSet
      ensures Valid() && os + rangeSet.items == old(os + rangeSet.items)
      ensures old(size) <= size <= target || target <= size <= old(size)
      ensures target <= old(size) ==>
        size == old(size) - if deflationDisallowed then 0 else Deflated(old(size) - target, env, old(turn))
      ensures old(size) <= target ==> size == old(size) + (if inflationDisallowed || lowMemory then 0
        else Released(Plan(target - old(size), |old(os)|, env, old(turn))))
      ensures status == Success ==> size == target
      ensures old(size) == target ==> status == Success
      ensures target < old(size) ==> (status == Success <==> size == target)
      ensures target < old(size) ==> (status == Unsuccessful <==> deflationDisallowed)
      ensures old(size) < target ==> (status == Unsuccessful <==> inflationDisallowed)
      ensures old(size) < target ==> (status == NoMemory <==> !inflationDisallowed && lowMemory)
      ensures target < old(size) && !deflationDisallowed ==> status == Success || status == Retry
      ensures old(size) < target && !inflationDisallowed && !lowMemory ==>
        batches == Plan(target - old(size), |old(os)|, env, old(turn)) && batches != []
      ensures old(size) < target && !inflationDisallowed && !lowMemory && batches != [] ==>
        var init, last := batches[..|batches| - 1], batches[|batches| - 1];
        var left := target - old(size) - Released(init);
        && (status == Success || status == Retry)
        && (status == Retry <==> last.slow || last.released == 0 || last.obtained < if left < 8192 then left else 8192)
        && (size == target ==> (status == Success <==> !last.slow))
    {
      hide Plan, Deflated, Batches, GaveUp, Released, RangeSetContext.Valid;
      status := Success;
      batches := [];
      NothingAsked(|os|, env, turn);
      ghost var moved := false;
      while size != target && status == Success
        invariant Valid() && os + rangeSet.items == old(os + rangeSet.items)
        invariant !moved ==> size == old(size) && os == old(os) && turn == old(turn) && status == Success
        invariant moved ==> old(size) != target && (status == Success ==> size == target)
        invariant moved && target < old(size) ==>
          size == old(size) - (if deflationDisallowed then 0 else Deflated(old(size) - target, env, old(turn)))
        invariant moved && old(size) < target ==> size == old(size) + (if inflationDisallowed || lowMemory then 0
          else Released(Plan(target - old(size), |old(os)|, env, old(turn))))
        invariant moved ==> old(size) <= size <= target || target <= size <= old(size)
        invariant moved && target < old(size) ==> (status == Success <==> size == target)
        invariant moved && target < old(size) ==> (status == Unsuccessful <==> deflationDisallowed)
        invariant moved && old(size) < target ==> (status == Unsuccessful <==> inflationDisallowed)
        invariant moved && old(size) < target ==> (status == NoMemory <==> !inflationDisallowed && lowMemory)
        invariant moved && target < old(size) && !deflationDisallowed ==> status == Success || status == Retry
        invariant moved && old(size) < target && !inflationDisallowed && !lowMemory ==>
          && batches == Plan(target - old(size), |old(os)|, env, old(turn))
          && Batches(target - old(size), 0, batches) && size == old(size) + Released(batches)
          && (status == Success || status == Retry)
          && (status == Retry <==> GaveUp(target - old(size), 0, batches))
        decreases if status != Success then 0 else if size == target then 1 else 2
      {
        moved := true;
        if target > size {
          var requested := target - size;
          status, batches := BalloonInflate(requested, inflationDisallowed, lowMemory);
          if !inflationDisallowed && !lowMemory {
            ShortOrSlow(requested, 0, batches);
          }
        } else {
          status := BalloonDeflate(size - target, deflationDisallowed);
        }
      }
      if old(size) < target && !inflationDisallowed && !lowMemory {
        GaveUpMeans(target - old(size), 0, batches);
        ShortOrSlow(target - old(size), 0, batches);
      }
    }
  }

  lemma NothingAsked(frames: nat, env: nat -> Turn, turn: nat)
    ensures Plan(0, frames, env, turn) == [] && Released([]) == 0 && Deflated(0, env, turn) == 0
  {
  }

  /** The batches so far lead to `count`, and the loop has given up or not. */
  ghost predicate SoFar(requested: nat, from: nat, batches: seq<Batch>, count: nat, gaveUp: bool)
    decreases |batches|
  {
    if batches == [] then from == count <= requested && !gaveUp
    else
      && from < requested
      && var b := batches[0];
      && var asked := Asked(requested, from);
      && b.released <= b.obtained <= asked
      && if Stops(b, asked) then |batches| == 1 && gaveUp && count == from + b.released
         else SoFar(requested, from + b.released, batches[1..], count, gaveUp)
  }

  lemma NoBatches(requested: nat)
    ensures SoFar(requested, 0, [], 0, false) && Released([]) == 0
  {
  }

  lemma AskedBounds(requested: nat, count: nat)
    requires count < requested
    ensures 0 < Asked(requested, count) <= PFN_ARRAY_SIZE && Asked(requested, count) <= requested - count
    ensures Asked(requested - count, 0) == Asked(requested, count)
  {
  }

  lemma NextTold(all: seq<Batch>, batches: seq<Batch>, requested: nat, count: nat, frames: nat, env: nat -> Turn, turn: nat,
                 b: Batch)
    requires count < requested && all == batches + Plan(requested - count, frames, env, turn)
    requires b == BatchOf(Asked(requested, count), frames, env(turn))
    ensures b.released <= b.obtained <= Min(Asked(requested, count), frames)
    ensures count + b.released <= requested
    ensures all == batches + [b]
      + if Stops(b, Asked(requested, count)) then []
        else Plan(requested - (count + b.released), frames - b.released, env, turn + 1)
  {
    hide Plan, BatchOf, Asked, Stops, Min;
    AskedBounds(requested, count);
    PlanNext(requested - count, frames, env, turn);
    MinBounds(Asked(requested, count), frames);
  }

  lemma MinBounds(a: nat, b: nat)
    ensures Min(a, b) <= a && Min(a, b) <= b
  {
  }

  lemma PlanNone(frames: nat, env: nat -> Turn, turn: nat)
    ensures Plan(0, frames, env, turn) == []
  {
  }

  lemma PlanNext(requested: nat, frames: nat, env: nat -> Turn, turn: nat)
    requires requested > 0
    ensures var asked := Asked(requested, 0);
            var b := BatchOf(asked, frames, env(turn));
            b.released <= b.obtained <= Min(asked, frames)
            && Plan(requested, frames, env, turn)
               == [b] + if Stops(b, asked) then [] else Plan(requested - b.released, frames - b.released, env, turn + 1)
  {
  }

  lemma {:induction false} OneMore(requested: nat, from: nat, batches: seq<Batch>, count: nat, b: Batch)
    requires SoFar(requested, from, batches, count, false) && count < requested
    requires b.released <= b.obtained <= Asked(requested, count)
    ensures SoFar(requested, from, batches + [b], count + b.released, Stops(b, Asked(requested, count)))
    ensures Released(batches + [b]) == Released(batches) + b.released
    decreases |batches|
  {
    var all := batches + [b];
    if batches == [] {
      assert all[1..] == [];
    } else {
      assert all[1..] == batches[1..] + [b];
      OneMore(requested, from + batches[0].released, batches[1..], count, b);
    }
  }

  lemma {:induction false} AllTold(requested: nat, from: nat, batches: seq<Batch>, count: nat, gaveUp: bool)
    requires SoFar(requested, from, batches, count, gaveUp) && (count == requested || gaveUp)
    ensures from <= requested && Batches(requested, from, batches)
    ensures gaveUp == GaveUp(requested, from, batches)
    decreases |batches|
  {
    if batches != [] && !Stops(batches[0], Asked(requested, from)) {
      AllTold(requested, from + batches[0].released, batches[1..], count, gaveUp);
    }
  }

  lemma MovedOut(items: set<int>, a: set<int>)
    requires a <= items
    ensures |items - a| + |a| == |items|
  {
    assert items == (items - a) + a;
  }

  lemma StrictDistinct(s: seq<int>)
    requires Strict(s)
    ensures Distinct(s)
  {
  }

  lemma SubsetApart(os: set<int>, items: set<int>, f: set<int>)
    requires f <= os && os !! items
    ensures f !! items
  {
  }

  lemma BatchSets(os: set<int>, items: set<int>, f: set<int>, a: set<int>)
    requires f <= os && a <= f && os !! items
    ensures |os - f + (f - a)| + |a| == |os|
    ensures (os - f + (f - a)) + (items + a) == os + items
    ensures (os - f + (f - a)) !! (items + a) && a !! items
  {
    MovedOut(os, a);
    assert os - f + (f - a) == os - a;
  }

  lemma BatchIs(asked: nat, frames: nat, t: Turn)
    ensures BatchOf(asked, frames, t).obtained == Min(Min(asked, t.spare), frames) <= asked
    ensures BatchOf(asked, frames, t).slow == Slow(BatchOf(asked, frames, t).obtained, t.milliseconds)
    ensures BatchOf(asked, frames, t).released == Done(t, BatchOf(asked, frames, t).obtained)
  {
  }

  lemma MovedIn(items: set<int>, a: set<int>)
    requires a !! items
    ensures |items + a| == |items| + |a|
  {
  }

  lemma FramesLeft(items: set<int>, s: seq<int>)
    requires Distinct(s) && FramesOf(s) <= items && |s| < |items|
    ensures |items - FramesOf(s)| > 0
  {
    FramesCount(s);
    assert items == (items - FramesOf(s)) + FramesOf(s);
  }

  /** Popping one frame from a set that is not empty succeeds and yields a member. */
  lemma PoppedOne(items: set<int>, f: int, ok: bool)
    requires items != {}
    ensures exists k :: Interval(k, 1) <= items
    ensures Interval(f, 1) <= items ==> f in items
    ensures Interval(f, 1) == {f}
  {
    HasMember(items);
    var x :| x in items;
    assert Interval(x, 1) <= items;
  }

  lemma StillDistinct(s: seq<int>, f: int)
    requires Distinct(s) && f !in FramesOf(s)
    ensures Distinct(s + [f])
  {
  }

  lemma MinusApart(items: set<int>, a: set<int>, b: set<int>)
    requires a + b <= items && a !! b
    ensures items - (a + b) + b == items - a && b !! (items - (a + b))
  {
  }

  lemma UnionApart(items: set<int>, a: set<int>, b: set<int>)
    requires (a + b) !! items && a !! b
    ensures items + (a + b) - b == items + a && b <= items + (a + b)
  {
  }

  lemma FramesNone(s: seq<int>)
    requires s == []
    ensures FramesOf(s) == {} && Distinct(s)
  {
  }

  lemma NotYet(s: seq<int>, k: nat)
    requires Distinct(s) && k < |s|
    ensures s[k] !in FramesOf(s[..k]) && s[k] in FramesOf(s)
  {
  }

  /** A frame that lies between members of the set, or comes to an empty one, can fail to be put
      without harm to the set. */
  ghost predicate CanFail(items: set<int>, f: int) {
    items == {} || Enclosed(items, f)
  }

  lemma UsableIf(r: RangeSetContext)
    requires r.Represents()
    ensures r.Valid() <==> r.CursorSet()
  {
  }

  lemma DoneNone(t: Turn)
    ensures Done(t, 0) == 0
  {
  }

  lemma DistinctPart(s: seq<int>, k: nat)
    requires Distinct(s) && k <= |s|
    ensures Distinct(s[..k])
  {
  }

  lemma FramesWithin(s: seq<int>, k: nat)
    requires k <= |s|
    ensures FramesOf(s[..k]) <= FramesOf(s)
  {
  }
}
