/** The balloon's in-place heap sort of page frame numbers. */
module HeapSort {

  function Parent(c: nat): nat
    requires c > 0
  {
    (c - 1) / 2
  }

  /** In the first `count` elements, every node from `lo` on is at least each of its children. */
  ghost predicate HeapFrom(s: seq<int>, lo: nat, count: nat)
    requires count <= |s|
  {
    forall c :: 0 < c < count && lo <= Parent(c) ==> s[Parent(c)] >= s[c]
  }

  /** The same, except that the node `hole` may be smaller than its children; those are still
      no greater than the hole's parent. */
  ghost predicate HeapBut(s: seq<int>, lo: nat, count: nat, hole: nat)
    requires count <= |s|
  {
    && (forall c :: 0 < c < count && lo <= Parent(c) && Parent(c) != hole ==> s[Parent(c)] >= s[c])
    && (forall c :: 0 < c < count && Parent(c) == hole && hole > 0 && lo <= Parent(hole) ==>
          s[Parent(hole)] >= s[c])
  }

  function Swap(s: seq<int>, i: nat, j: nat): seq<int>
    requires i < |s| && j < |s|
  {
    s[i := s[j]][j := s[i]]
  }

  lemma SwapPermutes(s: seq<int>, i: nat, j: nat)
    requires i < |s| && j < |s|
    ensures multiset(Swap(s, i, j)) == multiset(s)
  {
  }

  /** Two arrays with the same elements in all, and the same from `count` on, have the same
      elements before `count`. */
  lemma PrefixPermutes(s: seq<int>, t: seq<int>, count: nat)
    requires |s| == |t| && count <= |s| && s[count..] == t[count..] && multiset(s) == multiset(t)
    ensures multiset(s[..count]) == multiset(t[..count])
  {
    assert s == s[..count] + s[count..] && t == t[..count] + t[count..];
    assert multiset(s) == multiset(s[..count]) + multiset(s[count..]);
    assert multiset(t) == multiset(t[..count]) + multiset(t[count..]);
    assert forall x :: multiset(s[..count])[x] == multiset(s)[x] - multiset(s[count..])[x];
    assert forall x :: multiset(t[..count])[x] == multiset(t)[x] - multiset(t[count..])[x];
  }

  /** Sifting: the larger child moves up to the hole, and the hole moves down to it. */
  lemma Sift(s: seq<int>, lo: nat, count: nat, hole: nat, child: nat)
    requires count <= |s| && lo <= hole < child < count && Parent(child) == hole
    requires HeapBut(s, lo, count, hole) && s[child] >= s[hole]
    requires forall c :: 0 < c < count && Parent(c) == hole ==> s[c] <= s[child]
    ensures HeapBut(Swap(s, hole, child), lo, count, child)
  {
  }

  lemma NoHole(s: seq<int>, lo: nat, count: nat, hole: nat)
    requires count <= |s| && HeapBut(s, lo, count, hole)
    requires forall c :: 0 < c < count && Parent(c) == hole ==> s[c] <= s[hole]
    ensures HeapFrom(s, lo, count)
  {
  }

  /** The root of a heap is its maximum. */
  lemma {:induction false} RootIsMax(s: seq<int>, count: nat, k: nat)
    requires k < count <= |s| && HeapFrom(s, 0, count)
    ensures s[k] <= s[0]
  {
    if k > 0 {
      RootIsMax(s, count, Parent(k));
    }
  }

  method SwapNodes(a: array<int>, i: nat, j: nat)
    requires i < a.Length && j < a.Length
    modifies a
    ensures a[..] == Swap(old(a[..]), i, j)
    ensures multiset(a[..]) == multiset(old(a[..]))
    ensures forall k :: 0 <= k <= a.Length && i < k && j < k ==> a[k..] == old(a[k..])
  {
    SwapPermutes(a[..], i, j);
    a[i], a[j] := a[j], a[i];
  }

  /** The child that has to move up, if the node is not already at least each of its children. */
  method ChooseChild(a: array<int>, node: nat, count: nat) returns (done: bool, child: nat)
    requires node < count <= a.Length
    ensures done ==> forall c :: 0 < c < count && Parent(c) == node ==> a[c] <= a[node]
    ensures !done ==> node < child < count && Parent(child) == node && a[child] >= a[node]
    ensures !done ==> forall c :: 0 < c < count && Parent(c) == node ==> a[c] <= a[child]
  {
    var left := node * 2 + 1;
    var right := node * 2 + 2;
    done, child := false, right;
    if right < count {
      if a[left] < a[node] && a[right] < a[node] {
        done := true;
      } else if a[left] < a[node] && a[right] > a[node] {
        child := right;
      } else if a[right] < a[node] && a[left] > a[node] {
        child := left;
      } else if a[left] > a[right] {
        child := left;
      } else {
        child := right;
      }
    } else if left < count {
      done, child := a[left] < a[node], left;
    } else {
      done := true;
    }
    assert forall c :: 0 < c < count && Parent(c) == node ==> c == left || c == right;
  }

  /** Push the element at `start` down to where it belongs. Everything below it is a heap
      already. Equal elements are allowed; the heap is then not strict. */
  method BalloonHeapPushDown(a: array<int>, start: nat, count: nat)
    requires count <= a.Length && (start < count || count == 0)
    requires HeapFrom(a[..], start + 1, count)
    modifies a
    ensures HeapFrom(a[..], start, count)
    ensures forall p, c :: start <= p && 0 < c < count && (c == 2 * p + 1 || c == 2 * p + 2) ==> a[p] >= a[c]
    ensures multiset(a[..]) == multiset(old(a[..])) && a[count..] == old(a[count..])
  {
    if count == 0 {
      return;
    }
    var node := start;
    OnlyHole(a[..], start, count);
    hide HeapFrom, HeapBut;
    while true
      invariant start <= node < count && HeapBut(a[..], start, count, node)
      invariant multiset(a[..]) == multiset(old(a[..])) && a[count..] == old(a[count..])
      decreases count - node
    {
      var done, child := ChooseChild(a, node, count);
      if done {
        NoHole(a[..], start, count, node);
        HeapMeans(a[..], start, count);
        return;
      }
      Sift(a[..], start, count, node, child);
      SwapNodes(a, node, child);
      node := child;
    }
  }

  lemma OnlyHole(s: seq<int>, start: nat, count: nat)
    requires count <= |s| && HeapFrom(s, start + 1, count)
    ensures HeapBut(s, start, count, start)
  {
  }

  /** Turn the first `count` elements into a max heap. */
  method BalloonCreateHeap(a: array<int>, count: nat)
    requires count <= a.Length
    modifies a
    ensures HeapFrom(a[..], 0, count)
    ensures forall p, c :: 0 <= p && 0 < c < count && (c == 2 * p + 1 || c == 2 * p + 2) ==> a[p] >= a[c]
    ensures multiset(a[..]) == multiset(old(a[..])) && a[count..] == old(a[count..])
  {
    var index := count;
    while index > 0
      invariant 0 <= index <= count && HeapFrom(a[..], index, count)
      invariant multiset(a[..]) == multiset(old(a[..])) && a[count..] == old(a[count..])
    {
      index := index - 1;
      BalloonHeapPushDown(a, index, count);
    }
    HeapMeans(a[..], 0, count);
  }

  ghost predicate Ascending(s: seq<int>) {
    forall i, j :: 0 <= i < j < |s| ==> s[i] <= s[j]
  }

  ghost predicate Strict(s: seq<int>) {
    forall i, j :: 0 <= i < j < |s| ==> s[i] < s[j]
  }

  ghost predicate Distinct(s: seq<int>) {
    forall i, j :: 0 <= i < j < |s| ==> s[i] != s[j]
  }

  /** The first `unsorted` elements are no greater than the rest, and the rest ascend. */
  ghost predicate Split(s: seq<int>, unsorted: nat, count: nat)
    requires unsorted <= count <= |s|
  {
    forall i, j :: 0 <= i < j < count && unsorted <= j ==> s[i] <= s[j]
  }

  /** After the root is swapped out and the rest is permuted, the rest is no greater than it. */
  lemma RestBelowRoot(s: seq<int>, t: seq<int>, n: nat, i: nat)
    requires i < n < |s| && |t| == |s| && HeapFrom(s, 0, n + 1)
    requires multiset(t) == multiset(s) && t[n..] == Swap(s, 0, n)[n..]
    ensures t[i] <= s[0]
    ensures exists k :: 0 <= k <= n && s[k] == t[i]
  {
    var u := Swap(s, 0, n);
    SwapPermutes(s, 0, n);
    PrefixPermutes(u, t, n);
    assert t[i] == t[..n][i];
    assert t[i] in multiset(t[..n]);
    assert t[i] in u[..n];
    var k :| 0 <= k < n && u[..n][k] == t[i];
    var j := if k == 0 then n else k;
    assert s[j] == u[k];
    RootIsMax(s, n + 1, j);
  }

  lemma SplitStep(s: seq<int>, t: seq<int>, n: nat, count: nat)
    requires n < count <= |s| && |t| == |s| && HeapFrom(s, 0, n + 1) && Split(s, n + 1, count)
    requires multiset(t) == multiset(s) && t[n..] == Swap(s, 0, n)[n..]
    ensures Split(t, n, count)
  {
    hide HeapFrom;
    var u := Swap(s, 0, n);
    assert forall j :: n <= j < count ==> t[j] == t[n..][j - n] == u[n..][j - n] == u[j];
    forall i, j | 0 <= i < j < count && n <= j ensures t[i] <= t[j] {
      if i < n {
        RestBelowRoot(s, t, n, i);
        if j > n {
          var k :| 0 <= k <= n && s[k] == t[i];
          assert s[k] <= s[j];
        }
      } else if i == n {
        assert s[0] <= s[j];
      }
    }
  }

  lemma HeapAfterSwap(s: seq<int>, unsorted: nat)
    requires 0 < unsorted <= |s| && HeapFrom(s, 0, unsorted)
    ensures HeapFrom(Swap(s, 0, unsorted - 1), 1, unsorted - 1)
  {
  }

  lemma SameMembersDistinct(s: seq<int>, t: seq<int>)
    requires multiset(s) == multiset(t) && Distinct(s)
    ensures Distinct(t)
  {
    forall i, j | 0 <= i < j < |t| ensures t[i] != t[j] {
      if t[i] == t[j] {
        assert t == t[..i] + [t[i]] + t[i + 1..j] + [t[j]] + t[j + 1..];
        assert multiset(t)[t[i]] >= 2;
        DistinctOnce(s, t[i]);
      }
    }
  }

  lemma {:induction false} DistinctOnce(s: seq<int>, x: int)
    requires Distinct(s)
    ensures multiset(s)[x] <= 1
    decreases |s|
  {
    if s != [] {
      var n := |s| - 1;
      assert s == s[..n] + [s[n]];
      DistinctOnce(s[..n], x);
      if s[n] == x {
        assert x !in s[..n];
      }
    }
  }

  lemma SplitNone(s: seq<int>, count: nat)
    requires count <= |s|
    ensures Split(s, count, count)
  {
  }

  lemma SplitAll(s: seq<int>, count: nat)
    requires count <= |s| && Split(s, 0, count)
    ensures Ascending(s[..count])
  {
  }

  lemma PrefixMeans(s: seq<int>, count: nat)
    requires count <= |s|
    ensures Ascending(s[..count]) ==> forall i, j :: 0 <= i < j < count ==> s[i] <= s[j]
    ensures Strict(s[..count]) ==> forall i, j :: 0 <= i < j < count ==> s[i] < s[j]
    ensures (forall i, j :: 0 <= i < j < count ==> s[i] != s[j]) ==> Distinct(s[..count])
  {
    forall i | 0 <= i < count ensures s[..count][i] == s[i] {
    }
  }

  lemma HeapMeans(s: seq<int>, lo: nat, count: nat)
    requires count <= |s| && HeapFrom(s, lo, count)
    ensures forall p, c :: lo <= p && 0 < c < count && (c == 2 * p + 1 || c == 2 * p + 2) ==> s[p] >= s[c]
  {
    forall p: nat, c: nat | lo <= p && 0 < c < count && (c == 2 * p + 1 || c == 2 * p + 2) ensures s[p] >= s[c] {
      assert Parent(c) == p;
    }
  }

  /** Sort the first `count` elements in place. They come out as an ascending permutation of
      what they were, strictly ascending when they were distinct; the rest is untouched. */
  method BalloonSort(a: array<int>, count: nat)
    requires count <= a.Length
    modifies a
    ensures forall i, j :: 0 <= i < j < count ==> a[i] <= a[j]
    ensures multiset(a[..count]) == multiset(old(a[..count])) && a[count..] == old(a[count..])
    ensures (forall i, j :: 0 <= i < j < count ==> old(a[..])[i] != old(a[..])[j]) ==>
      forall i, j :: 0 <= i < j < count ==> a[i] < a[j]
    ensures Distinct(old(a[..count])) ==> Strict(a[..count])
  {
    hide HeapFrom, Split, Swap;
    BalloonCreateHeap(a, count);
    SplitNone(a[..], count);
    var unsorted := count;
    while unsorted != 0
      invariant 0 <= unsorted <= count && HeapFrom(a[..], 0, unsorted) && Split(a[..], unsorted, count)
      invariant multiset(a[..]) == multiset(old(a[..])) && a[count..] == old(a[count..])
    {
      ghost var before := a[..];
      HeapAfterSwap(before, unsorted);
      SwapPermutes(before, 0, unsorted - 1);
      SwapNodes(a, 0, unsorted - 1);
      BalloonHeapPushDown(a, 0, unsorted - 1);
      SplitStep(before, a[..], unsorted - 1, count);
      assert a[count..] == a[unsorted - 1..][count - (unsorted - 1)..];
      unsorted := unsorted - 1;
    }
    PrefixPermutes(old(a[..]), a[..], count);
    SplitAll(a[..], count);
    if Distinct(old(a[..count])) {
      SameMembersDistinct(old(a[..count]), a[..count]);
    }
    PrefixMeans(old(a[..]), count);
    PrefixMeans(a[..], count);
  }
}
