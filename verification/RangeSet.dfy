/** A set of integers kept as a sorted list of ranges that never touch, with a cursor that stays
    near the last change. */
module RangeSet {

  datatype Range = Range(start: int, end: int)

  function Interval(start: int, count: nat): (r: set<int>)
    ensures forall x :: x in r <==> start <= x < start + count
  {
    if count == 0 then {} else Interval(start, count - 1) + {start + count - 1}
  }

  lemma {:induction false} IntervalSize(start: int, count: nat)
    ensures |Interval(start, count)| == count
  {
    if count > 0 {
      var last := start + count - 1;
      IntervalSize(start, count - 1);
      assert last !in Interval(start, count - 1);
      assert Interval(start, count) == Interval(start, count - 1) + {last};
      assert |Interval(start, count - 1) + {last}| == |Interval(start, count - 1)| + 1;
    }
  }

  /** A set that is not empty has a member. */
  lemma HasMember(items: set<int>)
    ensures items != {} ==> exists x :: x in items
  {
    if forall x :: x !in items {
      assert items == {};
    }
  }

  ghost predicate Covers(s: seq<Range>, x: int) {
    exists i :: 0 <= i < |s| && s[i].start <= x <= s[i].end
  }

  /** Non-empty ranges in order, without overlap. */
  ghost predicate Ordered(s: seq<Range>) {
    && (forall i :: 0 <= i < |s| ==> s[i].start <= s[i].end)
    && (forall i, j :: 0 <= i < j < |s| ==> s[i].end < s[j].start)
  }

  /** Ranges k and k + 1 do not touch. */
  predicate Apart(s: seq<Range>, k: nat)
    requires k + 1 < |s|
  {
    s[k].end + 1 < s[k + 1].start
  }

  predicate Touching(s: seq<Range>, k: nat)
    requires k + 1 < |s|
  {
    s[k].end + 1 == s[k + 1].start
  }

  ghost predicate Coalesced(s: seq<Range>) {
    Ordered(s) && forall k :: 0 <= k < |s| - 1 ==> Apart(s, k)
  }

  /** Touching ranges k and k + 1 joined into one. */
  function Joined(s: seq<Range>, k: nat): seq<Range>
    requires k + 1 < |s|
  {
    s[..k] + [Range(s[k].start, s[k + 1].end)] + s[k + 2..]
  }

  lemma JoinIndex(s: seq<Range>, k: nat)
    requires k + 1 < |s|
    ensures |Joined(s, k)| == |s| - 1
    ensures forall j :: 0 <= j < |s| - 1 ==>
      Joined(s, k)[j] == if j < k then s[j] else if j == k then Range(s[k].start, s[k + 1].end) else s[j + 1]
  {
  }

  lemma JoinOrdered(s: seq<Range>, k: nat)
    requires k + 1 < |s| && Ordered(s)
    ensures Ordered(Joined(s, k))
  {
    JoinIndex(s, k);
    hide Joined;
  }

  lemma JoinApart(s: seq<Range>, k: nat, j: nat)
    requires k + 1 < |s| && j + 2 < |s|
    ensures j + 1 < |Joined(s, k)| && Apart(Joined(s, k), j) == Apart(s, if j < k then j else j + 1)
  {
    JoinIndex(s, k);
    hide Joined;
    assert Joined(s, k)[j] == if j < k then s[j] else if j == k then Range(s[k].start, s[k + 1].end) else s[j + 1];
  }

  lemma JoinCovers(s: seq<Range>, k: nat, x: int)
    requires k + 1 < |s| && Ordered(s) && !Apart(s, k)
    ensures Covers(Joined(s, k), x) <==> Covers(s, x)
  {
    JoinIndex(s, k);
    hide Joined, Ordered;
    assert s[k].start <= s[k].end && s[k].end < s[k + 1].start <= s[k + 1].end by {
      NeighboursOrdered(s, k);
    }
    var t := Joined(s, k);
    if Covers(t, x) {
      var j :| 0 <= j < |t| && t[j].start <= x <= t[j].end;
      if j < k {
        assert s[j].start <= x <= s[j].end;
      } else if j > k {
        assert s[j + 1].start <= x <= s[j + 1].end;
      } else {
        assert s[k].start <= x <= s[k].end || s[k + 1].start <= x <= s[k + 1].end;
      }
    }
    if Covers(s, x) {
      var i :| 0 <= i < |s| && s[i].start <= x <= s[i].end;
      if i <= k {
        assert t[i].start <= x <= t[i].end;
      } else {
        assert t[i - 1].start <= x <= t[i - 1].end;
      }
    }
  }

  lemma NeighboursOrdered(s: seq<Range>, k: nat)
    requires k + 1 < |s| && Ordered(s)
    ensures s[k].start <= s[k].end && s[k].end < s[k + 1].start <= s[k + 1].end
  {
  }

  /** Joining two ranges that touch changes neither the set nor the gaps elsewhere. */
  lemma JoinKeeps(s: seq<Range>, k: nat)
    requires k + 1 < |s| && Ordered(s) && !Apart(s, k)
    ensures |Joined(s, k)| == |s| - 1 && Ordered(Joined(s, k))
    ensures forall x :: Covers(Joined(s, k), x) <==> Covers(s, x)
    ensures forall j :: 0 <= j < |s| - 2 ==> Apart(Joined(s, k), j) == Apart(s, if j < k then j else j + 1)
  {
    hide Covers, Ordered, Apart, Joined;
    JoinIndex(s, k);
    JoinOrdered(s, k);
    forall j | 0 <= j < |s| - 2
      ensures Apart(Joined(s, k), j) == Apart(s, if j < k then j else j + 1)
    {
      JoinApart(s, k, j);
    }
    forall x ensures Covers(Joined(s, k), x) <==> Covers(s, x) {
      JoinCovers(s, k, x);
    }
  }

  function Inserted(s: seq<Range>, place: nat, r: Range): seq<Range>
    requires place <= |s|
  {
    s[..place] + [r] + s[place..]
  }

  lemma InsertIndex(s: seq<Range>, place: nat, r: Range)
    requires place <= |s|
    ensures |Inserted(s, place, r)| == |s| + 1
    ensures forall j :: 0 <= j <= |s| ==>
      Inserted(s, place, r)[j] == if j < place then s[j] else if j == place then r else s[j - 1]
  {
  }

  lemma InsertCovers(s: seq<Range>, place: nat, r: Range, x: int)
    requires place <= |s|
    ensures Covers(Inserted(s, place, r), x) <==> Covers(s, x) || r.start <= x <= r.end
  {
    InsertIndex(s, place, r);
    hide Inserted;
    var t := Inserted(s, place, r);
    if Covers(s, x) {
      var i :| 0 <= i < |s| && s[i].start <= x <= s[i].end;
      assert t[if i < place then i else i + 1] == s[i];
    }
    if r.start <= x <= r.end {
      assert t[place] == r;
    }
  }

  lemma InsertOrdered(s: seq<Range>, place: nat, r: Range)
    requires place <= |s| && Ordered(s) && r.start <= r.end
    requires place > 0 ==> s[place - 1].end < r.start
    requires place < |s| ==> r.end < s[place].start
    ensures Ordered(Inserted(s, place, r))
  {
    InsertIndex(s, place, r);
    hide Inserted;
  }

  /** Inserting a range adds exactly its integers, and leaves the gaps elsewhere. */
  lemma InsertKeeps(s: seq<Range>, place: nat, r: Range)
    requires place <= |s| && Coalesced(s) && r.start <= r.end
    requires place > 0 ==> s[place - 1].end < r.start
    requires place < |s| ==> r.end < s[place].start
    ensures |Inserted(s, place, r)| == |s| + 1 && Ordered(Inserted(s, place, r))
    ensures forall x :: Covers(Inserted(s, place, r), x) <==> Covers(s, x) || r.start <= x <= r.end
    ensures forall j :: 0 <= j < |s| && j != place && j + 1 != place ==> Apart(Inserted(s, place, r), j)
  {
    hide Ordered, Covers;
    InsertIndex(s, place, r);
    InsertOrdered(s, place, r);
    forall x ensures Covers(Inserted(s, place, r), x) <==> Covers(s, x) || r.start <= x <= r.end {
      InsertCovers(s, place, r, x);
    }
    forall j | 0 <= j < |s| && j != place && j + 1 != place ensures Apart(Inserted(s, place, r), j) {
      if j < place {
        assert Apart(s, j) && Inserted(s, place, r)[j] == s[j] && Inserted(s, place, r)[j + 1] == s[j + 1];
      } else {
        assert Apart(s, j - 1) && Inserted(s, place, r)[j] == s[j - 1] && Inserted(s, place, r)[j + 1] == s[j];
      }
    }
  }

  lemma CoversConcat(a: seq<Range>, b: seq<Range>, x: int)
    ensures Covers(a + b, x) <==> Covers(a, x) || Covers(b, x)
  {
    if Covers(b, x) {
      var i :| 0 <= i < |b| && b[i].start <= x <= b[i].end;
      assert (a + b)[|a| + i] == b[i];
    }
    if Covers(a, x) {
      var i :| 0 <= i < |a| && a[i].start <= x <= a[i].end;
      assert (a + b)[i] == a[i];
    }
  }

  lemma CoalescedConcat(a: seq<Range>, b: seq<Range>)
    requires Coalesced(a) && Coalesced(b)
    requires a != [] && b != [] ==> a[|a| - 1].end + 1 < b[0].start
    ensures Coalesced(a + b)
  {
    forall k | 0 <= k < |a + b| - 1 ensures Apart(a + b, k) {
      if k + 1 < |a| {
        assert Apart(a, k);
      } else if k >= |a| {
        assert Apart(b, k - |a|);
      }
    }
    forall i, j | 0 <= i < j < |a + b| ensures (a + b)[i].end < (a + b)[j].start {
      if i < |a| <= j {
        assert a[i].end <= a[|a| - 1].end && b[0].start <= b[j - |a|].start;
      }
    }
  }

  lemma CoalescedParts(s: seq<Range>, i: nat)
    requires Coalesced(s) && i < |s|
    ensures Coalesced(s[..i]) && Coalesced(s[i + 1..])
    ensures i > 0 ==> s[i - 1].end + 1 < s[i].start
    ensures i + 1 < |s| ==> s[i].end + 1 < s[i + 1].start
  {
    forall k | 0 <= k < i - 1 ensures Apart(s[..i], k) {
      assert Apart(s, k);
    }
    var rest := s[i + 1..];
    forall k | 0 <= k < |rest| - 1 ensures Apart(rest, k) {
      assert Apart(s, k + i + 1);
    }
    assert i > 0 ==> Apart(s, i - 1);
    assert i + 1 < |s| ==> Apart(s, i);
  }

  /** What is left of range i once [lo, hi] is taken out of it. */
  function Remains(r: Range, lo: int, hi: int): seq<Range> {
    (if r.start < lo then [Range(r.start, lo - 1)] else []) + (if hi < r.end then [Range(hi + 1, r.end)] else [])
  }

  function Cut(s: seq<Range>, i: nat, lo: int, hi: int): seq<Range>
    requires i < |s|
  {
    s[..i] + Remains(s[i], lo, hi) + s[i + 1..]
  }

  lemma RemainsCovers(r: Range, lo: int, hi: int, x: int)
    requires r.start <= lo <= hi <= r.end
    ensures Coalesced(Remains(r, lo, hi))
    ensures Covers(Remains(r, lo, hi), x) <==> r.start <= x <= r.end && !(lo <= x <= hi)
    ensures Covers([r], x) <==> r.start <= x <= r.end
  {
    var t := Remains(r, lo, hi);
    if r.start <= x < lo {
      assert t[0].start <= x <= t[0].end;
    } else if hi < x <= r.end {
      assert t[|t| - 1].start <= x <= t[|t| - 1].end;
    }
    assert [r][0] == r;
  }

  lemma RemainsEnds(r: Range, lo: int, hi: int)
    requires r.start <= lo <= hi <= r.end
    ensures Coalesced(Remains(r, lo, hi))
    ensures var t := Remains(r, lo, hi); t != [] ==> r.start <= t[0].start && t[|t| - 1].end <= r.end
  {
  }

  lemma CutCoalesced(s: seq<Range>, i: nat, lo: int, hi: int)
    requires Coalesced(s) && i < |s| && s[i].start <= lo <= hi <= s[i].end
    ensures Coalesced(Cut(s, i, lo, hi))
  {
    hide Coalesced, Remains;
    CoalescedParts(s, i);
    var a, t, b := s[..i], Remains(s[i], lo, hi), s[i + 1..];
    RemainsEnds(s[i], lo, hi);
    CoalescedConcat(a, t);
    if a + t != [] && b != [] {
      assert (a + t)[|a + t| - 1] == if t == [] then a[|a| - 1] else t[|t| - 1];
    }
    CoalescedConcat(a + t, b);
  }

  /** Taking an interval out of one range takes exactly that interval out of the set. */
  lemma CutKeeps(s: seq<Range>, i: nat, lo: int, hi: int)
    requires Coalesced(s) && i < |s| && s[i].start <= lo <= hi <= s[i].end
    ensures Coalesced(Cut(s, i, lo, hi))
    ensures forall x :: Covers(Cut(s, i, lo, hi), x) <==> Covers(s, x) && !(lo <= x <= hi)
  {
    hide Covers, Remains;
    CutCoalesced(s, i, lo, hi);
    assert s == s[..i] + [s[i]] + s[i + 1..];
    forall x ensures Covers(Cut(s, i, lo, hi), x) <==> Covers(s, x) && !(lo <= x <= hi) {
      RemainsCovers(s[i], lo, hi, x);
      CoversConcat(s[..i], Remains(s[i], lo, hi), x);
      CoversConcat(s[..i] + Remains(s[i], lo, hi), s[i + 1..], x);
      CoversConcat(s[..i], [s[i]], x);
      CoversConcat(s[..i] + [s[i]], s[i + 1..], x);
      OnlyThere(s, i, x);
    }
  }

  lemma OnlyThere(s: seq<Range>, i: nat, x: int)
    requires Ordered(s) && i < |s|
    ensures s[i].start <= x <= s[i].end ==> !Covers(s[..i], x) && !Covers(s[i + 1..], x)
  {
  }

  /** An interval wholly covered lies inside one range, because ranges do not touch. */
  lemma InOneRange(s: seq<Range>, start: int, count: nat, i: nat)
    requires Coalesced(s) && count > 0 && (forall x :: start <= x < start + count ==> Covers(s, x))
    requires i < |s| && s[i].start <= start <= s[i].end
    ensures start + count - 1 <= s[i].end
  {
    if i + 1 < |s| {
      assert Apart(s, i);
    }
    assert start + count - 1 > s[i].end ==> Covers(s, s[i].end + 1);
  }

  /** Where RangeSetAdd inserts: before the cursor or after it. The anchor lies after the last
      range and before the first. */
  function Place(s: seq<Range>, cursor: nat, after: bool): (place: nat)
    requires cursor <= |s|
    ensures place <= |s|
  {
    if !after then cursor else if cursor == |s| then 0 else cursor + 1
  }

  predicate Fits(s: seq<Range>, place: nat, start: int, end: int)
    requires place <= |s|
  {
    (place > 0 ==> s[place - 1].end < start) && (place < |s| ==> end < s[place].start)
  }

  /** The list and the index of range k after it has been joined with the one before it. */
  function JoinedBack(s: seq<Range>, k: nat): (r: (seq<Range>, nat))
    requires k < |s|
    ensures r.1 < |r.0|
  {
    if k > 0 && Touching(s, k - 1) then (Joined(s, k - 1), k - 1) else (s, k)
  }

  function JoinedForward(s: seq<Range>, k: nat): (r: seq<Range>)
    requires k < |s|
    ensures k < |r|
  {
    if k + 1 < |s| && Touching(s, k) then Joined(s, k) else s
  }

  function Added(s: seq<Range>, place: nat, r: Range): (seq<Range>, nat)
    requires place <= |s|
  {
    var (t, k) := JoinedBack(Inserted(s, place, r), place);
    (JoinedForward(t, k), k)
  }

  /** Where the new range fits between its neighbours, the list stays sorted, disjoint and
      without ranges that touch, and the set gains exactly the new range. */
  lemma AddedKeeps(s: seq<Range>, place: nat, r: Range)
    requires place <= |s| && Coalesced(s) && r.start <= r.end && Fits(s, place, r.start, r.end)
    ensures var (t, k) := Added(s, place, r);
      k < |t| && Coalesced(t) && forall x :: Covers(t, x) <==> Covers(s, x) || r.start <= x <= r.end
  {
    hide Covers, Joined, Inserted, Ordered;
    InsertKeeps(s, place, r);
    var t0 := Inserted(s, place, r);
    if place > 0 {
      TouchOrApart(t0, place - 1);
      if Touching(t0, place - 1) {
        JoinKeeps(t0, place - 1);
      }
    }
    var (t, k) := JoinedBack(t0, place);
    assert forall j :: 0 <= j < |t| - 1 && j != k ==> Apart(t, j);
    if k + 1 < |t| {
      TouchOrApart(t, k);
      if Touching(t, k) {
        JoinKeeps(t, k);
      }
    }
  }

  lemma TouchOrApart(s: seq<Range>, k: nat)
    requires Ordered(s) && k + 1 < |s|
    ensures Touching(s, k) <==> !Apart(s, k)
  {
  }

  /** A range that touches neither neighbour is simply inserted. */
  lemma AddedPlain(s: seq<Range>, place: nat, r: Range)
    requires place <= |s|
    requires place > 0 ==> s[place - 1].end + 1 != r.start
    requires place < |s| ==> r.end + 1 != s[place].start
    ensures Added(s, place, r) == (Inserted(s, place, r), place)
  {
    InsertIndex(s, place, r);
  }

  /** An interval that starts before the end of range i and needs `count` members does not fit
      in ranges that are all too short. */
  lemma NoneBefore(s: seq<Range>, items: set<int>, i: nat, count: nat)
    requires Shows(s, items) && count > 0 && i <= |s|
    requires forall j :: 0 <= j < i ==> s[j].end + 1 - s[j].start < count
    ensures forall k :: Interval(k, count) <= items ==> i < |s| && s[i].start <= k
  {
    forall k | Interval(k, count) <= items ensures i < |s| && s[i].start <= k {
      assert k in items;
      var j :| 0 <= j < |s| && s[j].start <= k <= s[j].end;
      InOneRange(s, k, count, j);
      assert j >= i;
    }
  }

  lemma Removed(a: set<int>, b: set<int>)
    requires b <= a
    ensures |a - b| == |a| - |b|
  {
    assert a == (a - b) + b;
  }

  /** An interval outside the set lies wholly on one side of every range. */
  lemma Beside(s: seq<Range>, i: nat, start: int, end: int)
    requires Coalesced(s) && i < |s| && start <= end && forall x :: start <= x <= end ==> !Covers(s, x)
    ensures end < s[i].start || s[i].end < start
  {
    if start <= s[i].end && s[i].start <= end {
      assert Covers(s, if start < s[i].start then s[i].start else start);
    }
  }

  lemma EndsEnclose(s: seq<Range>, items: set<int>, start: int, end: int)
    requires Shows(s, items) && s != []
    requires start <= end && forall x :: start <= x <= end ==> !Covers(s, x)
    ensures items != {}
    ensures Enclosed(items, start) <==> s[0].start < start && start < s[|s| - 1].end
    ensures s[|s| - 1].end < start <==> !(start < s[|s| - 1].end)
    ensures end < s[0].start <==> !(s[0].start < start)
  {
    var n := |s| - 1;
    assert Covers(s, s[0].start) && Covers(s, s[n].end);
    assert s[0].start in items && s[n].end in items;
    Beside(s, 0, start, end);
    Beside(s, n, start, end);
    forall y | y in items ensures s[0].start <= y <= s[n].end {
      var i :| 0 <= i < |s| && s[i].start <= y <= s[i].end;
      Bounds(s, i);
    }
  }

  lemma Bounds(s: seq<Range>, i: nat)
    requires Coalesced(s) && i < |s|
    ensures s[0].start <= s[i].start <= s[i].end <= s[|s| - 1].end
  {
  }

  /** The list is in order, without ranges that touch, and covers exactly the set. */
  ghost predicate Shows(s: seq<Range>, items: set<int>) {
    Coalesced(s) && forall x :: x in items <==> Covers(s, x)
  }

  /** The list and the set agree: the ranges are in order and do not touch, and hold just the items. */
  lemma ShowsMeans(s: seq<Range>, items: set<int>)
    ensures Shows(s, items) <==>
      && (forall i :: 0 <= i < |s| ==> s[i].start <= s[i].end)
      && (forall i, j :: 0 <= i < j < |s| ==> s[i].end + 1 < s[j].start)
      && (forall x :: x in items <==> exists i :: 0 <= i < |s| && s[i].start <= x <= s[i].end)
  {
    CoalescedMeans(s);
    hide Coalesced;
    assert forall x :: Covers(s, x) <==> exists i :: 0 <= i < |s| && s[i].start <= x <= s[i].end;
  }

  lemma CoalescedMeans(s: seq<Range>)
    ensures Coalesced(s) <==>
      && (forall i :: 0 <= i < |s| ==> s[i].start <= s[i].end)
      && (forall i, j :: 0 <= i < j < |s| ==> s[i].end + 1 < s[j].start)
  {
    if Coalesced(s) {
      forall i, j | 0 <= i < j < |s| ensures s[i].end + 1 < s[j].start {
        assert Apart(s, i);
        assert j > i + 1 ==> s[i + 1].end < s[j].start;
      }
    }
    if forall i, j :: 0 <= i < j < |s| ==> s[i].end + 1 < s[j].start {
      forall k | 0 <= k < |s| - 1 ensures Apart(s, k) {
      }
    }
  }

  lemma ShowsAdded(s: seq<Range>, t: seq<Range>, items: set<int>, start: int, count: nat)
    requires Shows(s, items) && Coalesced(t) && Interval(start, count) !! items
    requires forall x :: Covers(t, x) <==> Covers(s, x) || start <= x <= start + count - 1
    ensures Shows(t, items + Interval(start, count))
  {
    hide Interval;
  }

  lemma InRange(s: seq<Range>, items: set<int>, i: nat, start: int, count: nat)
    requires Shows(s, items) && i < |s| && s[i].start <= start && start + count - 1 <= s[i].end
    ensures Interval(start, count) <= items
  {
    hide Interval, Coalesced;
    forall x | x in Interval(start, count) ensures x in items {
      assert s[i].start <= x <= s[i].end;
    }
  }

  lemma ShowsCut(s: seq<Range>, items: set<int>, i: nat, start: int, count: nat)
    requires Shows(s, items) && i < |s| && count > 0 && s[i].start <= start && start + count - 1 <= s[i].end
    ensures Shows(Cut(s, i, start, start + count - 1), items - Interval(start, count))
  {
    CutKeeps(s, i, start, start + count - 1);
    hide Interval, Cut, Coalesced, Covers;
  }

  lemma SizeLess(items: set<int>, start: int, count: nat)
    requires Interval(start, count) <= items
    ensures count <= |items| && |items - Interval(start, count)| == |items| - count
  {
    IntervalSize(start, count);
    hide Interval;
    Removed(items, Interval(start, count));
  }

  lemma More(items: set<int>, start: int, count: nat) returns (r: set<int>)
    requires Interval(start, count) !! items
    ensures r == items + Interval(start, count) && |r| == |items| + count
  {
    IntervalSize(start, count);
    hide Interval;
    r := items + Interval(start, count);
  }

  /** The shapes the cut range can take. */
  lemma CutShapes(s: seq<Range>, i: nat, lo: int, hi: int)
    requires i < |s| && s[i].start <= lo <= hi <= s[i].end
    ensures lo == s[i].start && hi == s[i].end ==> Cut(s, i, lo, hi) == s[..i] + s[i + 1..]
    ensures lo == s[i].start && hi < s[i].end ==> Cut(s, i, lo, hi) == s[i := Range(hi + 1, s[i].end)]
    ensures lo > s[i].start && hi == s[i].end ==> Cut(s, i, lo, hi) == s[i := Range(s[i].start, lo - 1)]
    ensures lo > s[i].start && hi < s[i].end ==>
      Cut(s, i, lo, hi) == Inserted(s, i + 1, Range(hi + 1, s[i].end))[i := Range(s[i].start, lo - 1)]
    ensures |Cut(s, i, lo, hi)| >= |s| - 1
  {
  }

  lemma Outside(s: seq<Range>, items: set<int>, start: int, count: nat)
    requires Shows(s, items) && Interval(start, count) !! items
    ensures forall x :: start <= x <= start + count - 1 ==> !Covers(s, x)
    ensures Coalesced(s) && (s == [] <==> items == {})
  {
    hide Interval, Coalesced;
    assert forall x :: start <= x <= start + count - 1 ==> x in Interval(start, count);
    if s != [] {
      RangeNonEmpty(s, 0);
      assert Covers(s, s[0].start);
    }
  }

  lemma NonEmptyItems(s: seq<Range>, items: set<int>)
    requires Shows(s, items)
    ensures s == [] <==> items == {}
  {
    if s != [] {
      RangeNonEmpty(s, 0);
      assert Covers(s, s[0].start);
      assert s[0].start in items;
    }
    if s == [] {
      forall x ensures x !in items {
        assert x in items ==> Covers(s, x);
      }
    }
  }

  lemma RangeNonEmpty(s: seq<Range>, i: nat)
    requires Coalesced(s) && i < |s|
    ensures s[i].start <= s[i].end
  {
  }

  lemma WithinRange(s: seq<Range>, items: set<int>, start: int, count: nat, i: nat)
    requires Shows(s, items) && Interval(start, count) <= items && count > 0
    requires i < |s| && s[i].start <= start <= s[i].end
    ensures start + count - 1 <= s[i].end
  {
    hide Interval;
    InOneRange(s, start, count, i);
  }

  lemma NextApart(s: seq<Range>, items: set<int>, i: nat)
    requires Shows(s, items) && i < |s|
    ensures i + 1 < |s| ==> s[i].end + 1 != s[i + 1].start
  {
    CoalescedParts(s, i);
  }

  /** The interval has members of the set on either side of it. */
  predicate Splits(items: set<int>, start: int, count: nat) {
    start - 1 in items && start + count in items
  }

  lemma SplitsIf(s: seq<Range>, items: set<int>, i: nat, start: int, count: nat)
    requires Shows(s, items) && i < |s| && count > 0 && s[i].start <= start && start + count - 1 <= s[i].end
    ensures Splits(items, start, count) <==> s[i].start < start && start + count - 1 < s[i].end
  {
    hide Shows;
    EdgesOf(s, items, i, start, start + count - 1);
  }

  lemma EdgesOf(s: seq<Range>, items: set<int>, i: nat, start: int, end: int)
    requires Shows(s, items) && i < |s| && s[i].start <= start <= end <= s[i].end
    ensures start - 1 in items <==> s[i].start < start
    ensures end + 1 in items <==> end < s[i].end
  {
    if i > 0 {
      assert Apart(s, i - 1);
    }
    if i + 1 < |s| {
      assert Apart(s, i);
    }
    assert start - 1 in items <==> Covers(s, start - 1);
    assert end + 1 in items <==> Covers(s, end + 1);
  }

  /** Some member lies below x and some member above it. */
  ghost predicate Enclosed(items: set<int>, x: int) {
    (exists y :: y in items && y < x) && (exists y :: y in items && x < y)
  }

  class RangeSetContext {
    var list: seq<Range>
    var cursor: nat        // an index of list, or |list| for the list's anchor
    var itemCount: nat
    var spare: bool        // one unused list entry is kept back
    ghost var items: set<int>

    /** The list represents the set, whatever the cursor is. */
    ghost predicate Represents()
      reads this
    {
      Shows(list, items) && cursor <= |list| && itemCount == |items|
    }

    /** The cursor is on a range, unless there is none. */
    predicate CursorSet()
      reads this
    {
      cursor < |list| || list == []
    }

    ghost predicate Valid()
      reads this
    {
      Represents() && CursorSet()
    }

    constructor ()
      ensures Valid() && items == {}
    {
      list, cursor, itemCount, spare, items := [], 0, 0, false, {};
    }

    /** Join the range under the cursor with the one before it if they touch. */
    method RangeSetMergeBackwards()
      requires cursor < |list|
      modifies this`list, this`cursor, this`spare
      ensures (list, cursor) == JoinedBack(old(list), old(cursor))
    {
      if cursor > 0 && list[cursor - 1].end == list[cursor].start - 1 {
        list := list[..cursor - 1] + [Range(list[cursor - 1].start, list[cursor].end)] + list[cursor + 1..];
        cursor := cursor - 1;
        spare := true;
      }
    }

    /** Join the range under the cursor with the one after it if they touch. */
    method RangeSetMergeForwards()
      requires cursor < |list|
      modifies this`list, this`spare
      ensures list == JoinedForward(old(list), cursor)
    {
      if cursor + 1 < |list| && list[cursor + 1].start == list[cursor].end + 1 {
        list := list[..cursor] + [Range(list[cursor].start, list[cursor + 1].end)] + list[cursor + 2..];
        spare := true;
      }
    }

    /** Insert a range after or before the cursor and join it with its neighbours. It needs a
        list entry: the spare one, or a fresh allocation, which can fail. */
    method RangeSetAdd(start: int, end: int, after: bool, memory: bool) returns (ok: bool)
      requires cursor <= |list| && start <= end
      modifies this`list, this`cursor, this`spare
      ensures ok == (old(spare) || memory)
      ensures !ok ==> list == old(list) && cursor == old(cursor) && spare == old(spare)
      ensures ok ==>
        (list, cursor) == Added(old(list), Place(old(list), old(cursor), after), Range(start, end))
    {
      hide Joined;
      if !spare && !memory {
        return false;
      }
      ok := true;
      spare := false;
      var place := Place(list, cursor, after);
      list := Inserted(list, place, Range(start, end));
      cursor := place;
      RangeSetMergeBackwards();
      RangeSetMergeForwards();
    }

    /** Take the range under the cursor out of the list; the cursor goes to the next range, or
        round to the first. */
    method RangeSetRemove()
      requires cursor < |list|
      modifies this`list, this`cursor, this`spare
      ensures list == old(list)[..old(cursor)] + old(list)[old(cursor) + 1..] && spare
      ensures cursor <= |list| && (cursor == |list| ==> list == [])
    {
      list := list[..cursor] + list[cursor + 1..];
      if cursor == |list| {
        cursor := 0;
      }
      spare := true;
    }

    /** Take `count` consecutive integers out of the set: the lowest that are all there. */
    method Pop(count: nat) returns (ok: bool, start: int)
      requires Valid()
      modifies this
      ensures Valid()
      ensures ok ==> count > 0 && Interval(start, count) <= old(items) && items == old(items) - Interval(start, count)
      ensures ok ==> forall k :: Interval(k, count) <= old(items) ==> start <= k
      ensures !ok ==> items == old(items) && (count > 0 ==> forall k :: !(Interval(k, count) <= items))
      ensures !ok ==> spare == old(spare)
    {
      hide Interval, Shows, Cut;
      ok, start := false, 0;
      if count == 0 {
        return;
      }
      var i := 0;
      while i < |list| && list[i].end + 1 - list[i].start < count
        invariant 0 <= i <= |list|
        invariant forall j :: 0 <= j < i ==> list[j].end + 1 - list[j].start < count
      {
        i := i + 1;
      }
      NoneBefore(list, items, i, count);
      if i == |list| {
        return;
      }
      ok, start := true, list[i].start;
      ShowsCut(list, items, i, start, count);
      InRange(list, items, i, start, count);
      SizeLess(items, start, count);
      CutShapes(list, i, start, start + count - 1);
      cursor := i;
      var r := Range(list[i].start + count, list[i].end);
      if r.start > r.end {
        RangeSetRemove();
      } else {
        list := list[i := r];
      }
      items := items - Interval(start, count);
      itemCount := itemCount - count;
    }

    /** Take a given interval, all of which must be in the set, out of it. Splitting a range in
        two needs a list entry, and nothing changes when there is none. */
    method Get(start: int, count: nat, memory: bool) returns (ok: bool)
      requires Valid() && Interval(start, count) <= items
      modifies this
      ensures Valid()
      ensures ok <==>
        count > 0 && (!(start - 1 in old(items) && start + count in old(items)) || old(spare) || memory)
      ensures items == if ok then old(items) - Interval(start, count) else old(items)
    {
      hide Interval, Shows;
      if count == 0 {
        return false;
      }
      assert start in items;
      NonEmptyItems(list, items);
      ok := Take(start, count, memory);
      if ok {
        SizeLess(items, start, count);
        items := items - Interval(start, count);
        itemCount := itemCount - count;
      }
    }

    /** The list part of Get. */
    method Take(start: int, count: nat, memory: bool) returns (ok: bool)
      requires Shows(list, items) && cursor < |list| && count > 0 && Interval(start, count) <= items
      modifies this`list, this`cursor, this`spare
      ensures ok <==> !Splits(items, start, count) || old(spare) || memory
      ensures ok ==> Shows(list, items - Interval(start, count))
      ensures !ok ==> list == old(list)
      ensures cursor <= |list| && (cursor == |list| ==> list == [])
    {
      hide Interval, Shows, Cut, Splits;
      assert start in items;
      FindRange(start);
      WithinRange(list, items, start, count, cursor);
      ShowsCut(list, items, cursor, start, count);
      NextApart(list, items, cursor);
      SplitsIf(list, items, cursor, start, count);
      ok := CutHere(start, start + count - 1, memory);
    }

    /** Cut an interval out of the range under the cursor. */
    method CutHere(start: int, end: int, memory: bool) returns (ok: bool)
      requires cursor < |list| && list[cursor].start <= start <= end <= list[cursor].end
      requires cursor + 1 < |list| ==> list[cursor].end + 1 != list[cursor + 1].start
      modifies this`list, this`cursor, this`spare
      ensures ok <==> !(old(list[cursor].start) < start && end < old(list[cursor].end)) || old(spare) || memory
      ensures ok ==> list == Cut(old(list), old(cursor), start, end)
      ensures !ok ==> list == old(list)
      ensures cursor <= |list| && (cursor == |list| ==> list == [])
    {
      hide Cut, Added, Inserted;
      CutShapes(list, cursor, start, end);
      var r := list[cursor];
      ok := true;
      if start == r.start && end == r.end {
        RangeSetRemove();
      } else if start == r.start {
        list := list[cursor := Range(end + 1, r.end)];
      } else if end == r.end {
        list := list[cursor := Range(r.start, start - 1)];
      } else {
        AddedPlain(list, cursor + 1, Range(end + 1, r.end));
        InsertIndex(list, cursor + 1, Range(end + 1, r.end));
        ok := RangeSetAdd(end + 1, r.end, true, memory);
        if ok {
          list := list[cursor - 1 := Range(r.start, start - 1)];
        }
      }
    }

    /** Move the cursor to the range that holds a given member of the set. */
    method FindRange(x: int)
      requires Shows(list, items) && cursor < |list| && x in items
      modifies this`cursor
      ensures cursor < |list| && list[cursor].start <= x <= list[cursor].end
    {
      hide Interval;
      ghost var i :| 0 <= i < |list| && list[i].start <= x <= list[i].end;
      if x < list[cursor].start {
        while x < list[cursor].start
          invariant i <= cursor < |list|
        {
          cursor := cursor - 1;
        }
      } else {
        while x > list[cursor].end
          invariant cursor <= i
          decreases i - cursor
        {
          cursor := cursor + 1;
        }
      }
    }

    /** Add an interval beyond the range under the cursor. */
    method RangeSetAddAfter(start: int, end: int, memory: bool) returns (ok: bool)
      requires Valid() && cursor < |list| && start <= end && list[cursor].end < start
      requires forall x :: start <= x <= end ==> !Covers(list, x)
      modifies this`list, this`cursor, this`spare
      ensures ok == (old(spare) || memory)
      ensures ok ==> Coalesced(list) && cursor < |list|
      ensures ok ==> forall x :: Covers(list, x) <==> old(Covers(list, x)) || start <= x <= end
      ensures !ok ==> list == old(list) && cursor <= |list|
      ensures !ok ==> (cursor == |list| <==> list[|list| - 1].end < start)
    {
      hide Covers;
      cursor := cursor + 1;
      while cursor != |list|
        invariant list == old(list) && spare == old(spare)
        invariant 0 < cursor <= |list| && list[cursor - 1].end < start
        decreases |list| - cursor
      {
        Beside(list, cursor, start, end);
        if start < list[cursor].start {
          break;
        }
        cursor := cursor + 1;
      }
      AddedKeeps(list, cursor, Range(start, end));
      ok := RangeSetAdd(start, end, false, memory);
    }

    /** Add an interval before the range under the cursor. */
    method RangeSetAddBefore(start: int, end: int, memory: bool) returns (ok: bool)
      requires Valid() && cursor < |list| && start <= end && end < list[cursor].start
      requires forall x :: start <= x <= end ==> !Covers(list, x)
      modifies this`list, this`cursor, this`spare
      ensures ok == (old(spare) || memory)
      ensures ok ==> Coalesced(list) && cursor < |list|
      ensures ok ==> forall x :: Covers(list, x) <==> old(Covers(list, x)) || start <= x <= end
      ensures !ok ==> list == old(list) && cursor <= |list|
      ensures !ok ==> (cursor == |list| <==> end < list[0].start)
    {
      hide Covers;
      cursor := if cursor == 0 then |list| else cursor - 1;
      while cursor != |list|
        invariant list == old(list) && spare == old(spare)
        invariant cursor < |list| ==> cursor + 1 < |list| && end < list[cursor + 1].start
        invariant cursor == |list| ==> end < list[0].start
        invariant cursor <= |list|
        decreases if cursor == |list| then 0 else cursor + 1
      {
        Beside(list, cursor, start, end);
        if end > list[cursor].end {
          break;
        }
        cursor := if cursor == 0 then |list| else cursor - 1;
      }
      AddedKeeps(list, Place(list, cursor, true), Range(start, end));
      ok := RangeSetAdd(start, end, true, memory);
    }

    /** Add an interval that is not in the set. When the list entry it needs cannot be had the
        set is as before, but the cursor has been moved: it is lost to the anchor exactly when
        the interval lies beyond one end of a non-empty set. */
    method Put(start: int, count: nat, memory: bool) returns (ok: bool)
      requires Valid() && Interval(start, count) !! items
      modifies this
      ensures ok == (count > 0 && (old(spare) || memory))
      ensures ok ==> Valid() && items == old(items) + Interval(start, count)
      ensures !ok ==> Represents() && items == old(items)
      ensures !ok ==> (CursorSet() <==>
        count == 0 || items == {} || ((exists y :: y in items && y < start) && exists y :: y in items && start < y))
    {
      hide Interval, Shows;
      if count == 0 {
        return false;
      }
      ok := Give(start, count, memory);
      if ok {
        items := More(items, start, count);
        itemCount := itemCount + count;
      }
    }

    /** The list part of Put. */
    method Give(start: int, count: nat, memory: bool) returns (ok: bool)
      requires Valid() && count > 0 && Interval(start, count) !! items
      modifies this`list, this`cursor, this`spare
      ensures ok == (old(spare) || memory)
      ensures ok ==> Shows(list, items + Interval(start, count)) && cursor < |list|
      ensures !ok ==> list == old(list) && cursor <= |list|
      ensures !ok ==> (cursor < |list| || list == [] <==> items == {} || Enclosed(items, start))
    {
      var end := start + count - 1;
      ghost var before := list;
      Outside(list, items, start, count);
      hide Covers, Coalesced, Enclosed, Interval, Added;
      if list == [] {
        AddedKeeps(list, 0, Range(start, end));
        ok := RangeSetAdd(start, end, true, memory);
      } else {
        ok := PutBeside(start, end, memory);
      }
      if ok {
        ShowsAdded(before, list, items, start, count);
      }
    }

    /** Add an interval to a non-empty set, on the side of the cursor where it belongs. */
    method PutBeside(start: int, end: int, memory: bool) returns (ok: bool)
      requires Valid() && list != [] && start <= end && forall x :: start <= x <= end ==> !Covers(list, x)
      modifies this`list, this`cursor, this`spare
      ensures ok == (old(spare) || memory)
      ensures ok ==> Coalesced(list) && cursor < |list|
      ensures ok ==> forall x :: Covers(list, x) <==> old(Covers(list, x)) || start <= x <= end
      ensures !ok ==> list == old(list) && cursor <= |list| && (cursor < |list| <==> Enclosed(items, start))
    {
      Beside(list, cursor, start, end);
      if start > list[cursor].end {
        EndsEnclose(list, items, start, end);
        Bounds(list, cursor);
        hide Covers, Coalesced, Enclosed;
        ok := RangeSetAddAfter(start, end, memory);
      } else {
        EndsEnclose(list, items, start, end);
        Bounds(list, cursor);
        hide Covers, Coalesced, Enclosed;
        ok := RangeSetAddBefore(start, end, memory);
      }
    }
  }
}
