/** The quicksort benchmark: iterative, median of three, unchecked scans that rely on sentinels,
    insertion sort below a cutoff, and a fixed stack of pending ranges. Pointers are array
    indices; a range with bounds (l, ir) holds the elements l - 1 to ir - 1. */
module QuickSort {
  import opened Arith

  const INSERTION_THRESHOLD := 10
  const NSTACK := 50

  ghost predicate Sorted(s: seq<int>, lo: int, hi: int)
    requires 0 <= lo <= hi <= |s|
  {
    forall x, y :: lo <= x < y < hi ==> s[x] <= s[y]
  }

  /** `t` is `s` with the elements from `lo` to `hi` rearranged. */
  ghost predicate Permuted(s: seq<int>, t: seq<int>, lo: int, hi: int) {
    && 0 <= lo <= hi <= |s| == |t|
    && s[..lo] == t[..lo] && s[hi..] == t[hi..]
    && multiset(s[lo..hi]) == multiset(t[lo..hi])
  }

  lemma PermutedTrans(s: seq<int>, t: seq<int>, u: seq<int>, lo: int, hi: int)
    requires Permuted(s, t, lo, hi) && Permuted(t, u, lo, hi)
    ensures Permuted(s, u, lo, hi)
  {
  }

  /** Exchanging two elements of the range. */
  lemma SwapPermutes(s: seq<int>, lo: int, hi: int, x: int, y: int)
    requires 0 <= lo <= x < hi <= |s| && lo <= y < hi
    ensures Permuted(s, s[x := s[y]][y := s[x]], lo, hi)
  {
    var t := s[x := s[y]][y := s[x]];
    assert t[lo..hi] == s[lo..hi][x - lo := s[lo..hi][y - lo]][y - lo := s[lo..hi][x - lo]];
    assert s[..lo] == t[..lo] && s[hi..] == t[hi..];
  }

  /** Every element of a rearranged range was in the range before. */
  lemma PermutedSource(s: seq<int>, t: seq<int>, lo: int, hi: int, x: int) returns (y: int)
    requires Permuted(s, t, lo, hi) && lo <= x < hi
    ensures lo <= y < hi && s[y] == t[x]
  {
    assert t[x] == t[lo..hi][x - lo];
    assert t[x] in multiset(t[lo..hi]);
    assert t[x] in s[lo..hi];
    var k :| 0 <= k < hi - lo && s[lo..hi][k] == t[x];
    y := lo + k;
  }

  /** Exchanges two elements of a range that is already a rearrangement of `s`. */
  method Swap(a: array<int>, ghost s: seq<int>, ghost lo: int, ghost hi: int, x: int, y: int)
    requires 0 <= lo <= x < hi <= a.Length && lo <= y < hi && Permuted(s, a[..], lo, hi)
    modifies a
    ensures a[x] == old(a[y]) && a[y] == old(a[x])
    ensures forall k :: 0 <= k < a.Length && k != x && k != y ==> a[k] == old(a[k])
    ensures Permuted(s, a[..], lo, hi)
  {
    hide Permuted;
    ghost var t := a[..];
    SwapPermutes(t, lo, hi, x, y);
    PermutedTrans(s, t, t[x := t[y]][y := t[x]], lo, hi);
    var temp := a[x];
    a[x] := a[y];
    a[y] := temp;
    assert a[..] == t[x := t[y]][y := t[x]];
  }

  method SwapIfGreater(a: array<int>, ghost s: seq<int>, ghost lo: int, ghost hi: int, x: int, y: int)
    requires 0 <= lo <= x < hi <= a.Length && lo <= y < hi && Permuted(s, a[..], lo, hi)
    modifies a
    ensures if old(a[x]) > old(a[y]) then a[x] == old(a[y]) && a[y] == old(a[x])
            else a[x] == old(a[x]) && a[y] == old(a[y])
    ensures forall k :: 0 <= k < a.Length && k != x && k != y ==> a[k] == old(a[k])
    ensures Permuted(s, a[..], lo, hi)
  {
    hide Permuted;
    if a[x] > a[y] {
      Swap(a, s, lo, hi, x, y);
    }
  }

  // ---------------------------------------------------------------------------------------
  // Insertion sort

  /** The range up to `i` while the value at the hole `j` sinks to its place. */
  ghost predicate Sinking(u: seq<int>, lo: int, j: int, i: int) {
    && 0 <= lo <= j <= i < |u|
    && (forall x, y :: lo <= x < y <= i && x != j && y != j ==> u[x] <= u[y])
    && (forall y :: j < y <= i ==> u[j] <= u[y])
  }

  /** Letting the value sink by one place, as an exchange. */
  function Sunk(u: seq<int>, j: int): seq<int>
    requires 0 < j < |u|
  {
    u[j := u[j - 1]][j - 1 := u[j]]
  }

  lemma SinkStep(s: seq<int>, u: seq<int>, lo: int, hi: int, j: int, i: int)
    requires Sinking(u, lo, j, i) && lo < j && u[j] < u[j - 1]
    requires i < hi <= |u| && Permuted(s, u, lo, hi)
    ensures Sinking(Sunk(u, j), lo, j - 1, i) && Permuted(s, Sunk(u, j), lo, hi)
  {
    SinkStepOrder(u, lo, j, i);
    hide Sinking, Permuted;
    SwapPermutes(u, lo, hi, j, j - 1);
    PermutedTrans(s, u, Sunk(u, j), lo, hi);
  }

  lemma SinkStepOrder(u: seq<int>, lo: int, j: int, i: int)
    requires Sinking(u, lo, j, i) && lo < j && u[j] < u[j - 1]
    ensures Sinking(Sunk(u, j), lo, j - 1, i)
  {
  }

  /** Shifting the larger element up leaves the value due one place lower. */
  lemma ShiftIsSink(t: seq<int>, j: int, value: int)
    requires 0 < j < |t|
    ensures t[j := t[j - 1]][j - 1 := value] == Sunk(t[j := value], j)
  {
  }

  lemma SinkDone(u: seq<int>, lo: int, j: int, i: int)
    requires Sinking(u, lo, j, i) && (j == lo || u[j - 1] <= u[j])
    ensures Sorted(u, lo, i + 1)
  {
  }

  /** The inner loop of the insertion sort: shifts larger elements up and drops the value in. */
  method InsertOne(a: array<int>, lo: int, ghost hi: int, i: int)
    requires 0 <= lo < i < hi <= a.Length && Sorted(a[..], lo, i)
    modifies a
    ensures Permuted(old(a[..]), a[..], lo, hi)
    ensures Sorted(a[..], lo, i + 1)
  {
    hide Permuted, Sinking, Sunk, Sorted;
    var value := a[i];
    var j := i;
    ghost var u := a[..];
    PermutedRefl(u, lo, hi);
    SinkStart(u, lo, i);
    while value < a[j - 1]
      invariant lo < j <= i
      invariant u == a[..][j := value]
      invariant Permuted(old(a[..]), u, lo, hi) && Sinking(u, lo, j, i)
      decreases j
    {
      SinkStep(old(a[..]), u, lo, hi, j, i);
      ShiftIsSink(a[..], j, value);
      u := Sunk(u, j);
      a[j] := a[j - 1];
      j := j - 1;
      if j == lo {
        break;
      }
    }
    SinkDone(u, lo, j, i);
    a[j] := value;
    assert a[..] == u;
  }

  lemma SinkStart(u: seq<int>, lo: int, i: int)
    requires 0 <= lo < i < |u| && Sorted(u, lo, i)
    ensures Sinking(u, lo, i, i)
  {
  }

  lemma PermutedRefl(s: seq<int>, lo: int, hi: int)
    requires 0 <= lo <= hi <= |s|
    ensures Permuted(s, s, lo, hi)
  {
  }

  /** `insertion_sort(n, arr)` on the `n` elements from `lo`. */
  method InsertionSort(a: array<int>, lo: int, n: nat)
    requires 0 <= lo && lo + n <= a.Length
    modifies a
    ensures Permuted(old(a[..]), a[..], lo, lo + n)
    ensures Sorted(a[..], lo, lo + n)
  {
    hide Permuted;
    PermutedRefl(a[..], lo, lo + n);
    var i := lo + 1;
    while i < lo + n
      invariant lo + 1 <= i
      invariant n > 0 ==> i <= lo + n
      invariant Permuted(old(a[..]), a[..], lo, lo + n)
      invariant n > 0 ==> Sorted(a[..], lo, i)
    {
      ghost var before := a[..];
      InsertOne(a, lo, lo + n, i);
      PermutedTrans(old(a[..]), before, a[..], lo, lo + n);
      i := i + 1;
    }
  }

  // ---------------------------------------------------------------------------------------
  // Partitioning

  ghost predicate AtMost(s: seq<int>, lo: int, hi: int, v: int)
    requires 0 <= lo && hi <= |s|
  {
    forall x :: lo <= x < hi ==> s[x] <= v
  }

  ghost predicate AtLeast(s: seq<int>, lo: int, hi: int, v: int)
    requires 0 <= lo && hi <= |s|
  {
    forall x :: lo <= x < hi ==> v <= s[x]
  }

  /** `while (*i++ < v);` The scan checks no bound: an element of at least `v` stops it. */
  method ScanUp(a: array<int>, start: int, v: int, ghost stop: int) returns (i: int)
    requires 0 <= start <= stop < a.Length && v <= a[stop]
    ensures start < i <= stop + 1
    ensures v <= a[i - 1] && AtMost(a[..], start, i - 1, v)
  {
    i := start;
    while a[i] < v
      invariant start <= i <= stop
      invariant AtMost(a[..], start, i, v)
      decreases stop - i
    {
      i := i + 1;
    }
    i := i + 1;
  }

  /** `while (*(j-- - 2) > v);` */
  method ScanDown(a: array<int>, start: int, v: int, ghost stop: int) returns (j: int)
    requires 0 <= stop <= start - 2 < a.Length && a[stop] <= v
    ensures stop + 1 <= j < start
    ensures a[j - 1] <= v && AtLeast(a[..], j, start - 1, v)
  {
    j := start;
    while a[j - 2] > v
      invariant stop <= j - 2 < start - 1
      invariant AtLeast(a[..], j - 1, start - 1, v)
      decreases j
    {
      j := j - 1;
    }
    j := j - 1;
  }

  ghost predicate Increasing(s: seq<int>, lo: int, hi: int) {
    0 <= lo <= hi <= |s| && forall x, y :: lo <= x < y < hi ==> s[x] < s[y]
  }

  /** The position of the middle element. */
  function Middle(l: int, ir: int): int { (l + ir) / 2 - 1 }

  /** `t` is an increasing range with its middle element exchanged for the one at `l`. */
  ghost predicate MiddleUp(s: seq<int>, t: seq<int>, l: int, ir: int) {
    && 1 <= l && l + INSERTION_THRESHOLD <= ir <= |s| && Increasing(s, l - 1, ir)
    && t == s[Middle(l, ir) := s[l]][l := s[Middle(l, ir)]]
  }

  /** Puts the median of the first, middle and last element at `l`, a smaller one before it and
      a larger one at the end. */
  method MedianOfThree(a: array<int>, l: int, ir: int)
    requires 1 <= l && l + INSERTION_THRESHOLD <= ir <= a.Length
    modifies a
    ensures Permuted(old(a[..]), a[..], l - 1, ir)
    ensures a[l - 1] <= a[l] <= a[ir - 1]
    ensures Increasing(old(a[..]), l - 1, ir) ==> MiddleUp(old(a[..]), a[..], l, ir)
  {
    hide Permuted;
    ghost var s := a[..];
    PermutedRefl(s, l - 1, ir);
    Swap(a, s, l - 1, ir, Middle(l, ir), l);
    ghost var t := s[Middle(l, ir) := s[l]][l := s[Middle(l, ir)]];
    assert a[..] == t;
    SwapIfGreater(a, s, l - 1, ir, l - 1, ir - 1);
    SwapIfGreater(a, s, l - 1, ir, l, ir - 1);
    SwapIfGreater(a, s, l - 1, ir, l - 1, l);
  }

  /** The partitioning loop and the insertion of the pivot. Afterwards nothing before i - 1
      exceeds the pivot and nothing from j - 1 on is below it. */
  method Partition(a: array<int>, l: int, ir: int, ghost before: seq<int>) returns (i: int, j: int)
    requires 1 <= l && l + INSERTION_THRESHOLD <= ir <= a.Length
    requires a[l - 1] <= a[l] <= a[ir - 1]
    modifies a
    ensures l + 1 <= j < i <= ir
    ensures Permuted(old(a[..]), a[..], l - 1, ir)
    ensures AtMost(a[..], l - 1, i - 1, a[j - 1]) && AtLeast(a[..], j - 1, ir, a[j - 1])
    ensures MiddleUp(before, old(a[..]), l, ir) ==>
      a[..] == before && j == Middle(l, ir) + 1 && i == Middle(l, ir) + 2
  {
    hide Permuted, MiddleUp;
    ghost var s := a[..];
    PermutedRefl(s, l - 1, ir);
    i := l + 1;
    j := ir;
    var v := a[l];
    while true
      invariant l + 1 <= i <= j <= ir && i < ir && l + 2 <= j
      invariant a[l] == v
      invariant Permuted(s, a[..], l - 1, ir)
      invariant AtMost(a[..], l - 1, i, v) && AtLeast(a[..], j - 1, ir, v)
      invariant MiddleUp(before, s, l, ir) ==> a[..] == s && i == l + 1 && j == ir
      decreases j - i
    {
      i := ScanUp(a, i, v, if i <= j - 1 then j - 1 else i);
      j := ScanDown(a, j, v, l);
      if MiddleUp(before, s, l, ir) { ScansMeet(before, s, l, ir, i, j); }
      if j < i {
        break;
      }
      Swap(a, s, l - 1, ir, i - 1, j - 1);
    }
    InsertPivot(a, s, l, ir, i, j, v);
    if MiddleUp(before, s, l, ir) { PivotBack(before, s, l, ir); }
  }

  /** On an increasing range the scans stop on either side of the middle. */
  lemma ScansMeet(s: seq<int>, t: seq<int>, l: int, ir: int, i: int, j: int)
    requires MiddleUp(s, t, l, ir) && l + 1 < i <= ir && l + 1 <= j < ir
    requires t[i - 1] >= t[l] && AtMost(t, l + 1, i - 1, t[l])
    requires t[j - 1] <= t[l] && AtLeast(t, j, ir - 1, t[l])
    ensures j == Middle(l, ir) + 1 && i == Middle(l, ir) + 2
  {
    var c := Middle(l, ir);
    assert forall x :: l < x < c ==> s[x] < s[c];
    assert forall x :: c < x < ir ==> s[c] < s[x];
    assert t[l] == s[c] && t[c] == s[l] < s[c];
    assert t[c + 1] == s[c + 1];
  }

  lemma PivotBack(s: seq<int>, t: seq<int>, l: int, ir: int)
    requires MiddleUp(s, t, l, ir)
    ensures var c := Middle(l, ir); t[l := t[c]][c := t[l]] == s
  {
  }

  method InsertPivot(a: array<int>, ghost s: seq<int>, l: int, ghost ir: int, ghost i: int, j: int, v: int)
    requires 1 <= l < j < i <= ir <= a.Length && a[l] == v && a[j - 1] <= v
    requires Permuted(s, a[..], l - 1, ir)
    requires AtMost(a[..], l - 1, i - 1, v) && AtLeast(a[..], j, ir, v)
    modifies a
    ensures Permuted(s, a[..], l - 1, ir) && a[j - 1] == v
    ensures a[..] == old(a[..])[l := old(a[j - 1])][j - 1 := v]
    ensures AtMost(a[..], l - 1, i - 1, v) && AtLeast(a[..], j - 1, ir, v)
  {
    hide Permuted, AtMost, AtLeast;
    ghost var t := a[..];
    ghost var u := t[l := t[j - 1]][j - 1 := t[l]];
    SwapPermutes(t, l - 1, ir, l, j - 1);
    PermutedTrans(s, t, u, l - 1, ir);
    PivotOrder(t, l, ir, i, j, v);
    a[l] := a[j - 1];
    a[j - 1] := v;
    assert a[..] == u;
  }

  lemma PivotOrder(t: seq<int>, l: int, ir: int, i: int, j: int, v: int)
    requires 1 <= l < j < i <= ir <= |t| && t[l] == v && t[j - 1] <= v
    requires AtMost(t, l - 1, i - 1, v) && AtLeast(t, j, ir, v)
    ensures var u := t[l := t[j - 1]][j - 1 := t[l]];
      AtMost(u, l - 1, i - 1, v) && AtLeast(u, j - 1, ir, v)
  {
  }

  // ---------------------------------------------------------------------------------------
  // Pending ranges

  /** The elements l - 1 to ir - 1. */
  datatype Range = Range(l: int, ir: int)

  predicate Inside(c: int, r: Range) { r.l - 1 < c < r.ir }

  /** Nothing before position `c` exceeds anything from `c` on. */
  ghost predicate Cut(s: seq<int>, c: int) {
    forall x, y :: 0 <= x < c <= y < |s| ==> s[x] <= s[y]
  }

  predicate Apart(r: Range, q: Range) { r.ir <= q.l - 1 || q.ir <= r.l - 1 }

  ghost predicate InsideSome(c: int, all: seq<Range>) {
    exists k :: 0 <= k < |all| && Inside(c, all[k])
  }

  /** What remains to be sorted: disjoint ranges, with the array cut at every position that is
      not strictly inside one of them. */
  ghost predicate Pending(s: seq<int>, all: seq<Range>) {
    && (forall k :: 0 <= k < |all| ==> 1 <= all[k].l && all[k].l - 1 <= all[k].ir <= |s|)
    && (forall k, m :: 0 <= k < m < |all| ==> Apart(all[k], all[m]))
    && (forall c :: 0 <= c <= |s| ==> Cut(s, c) || InsideSome(c, all))
  }

  lemma PendingStart(s: seq<int>)
    ensures Pending(s, [Range(1, |s|)])
  {
    var all := [Range(1, |s|)];
    forall c | 0 <= c <= |s|
      ensures Cut(s, c) || InsideSome(c, all)
    {
      if 0 < c < |s| {
        assert Inside(c, all[0]);
      }
    }
  }

  lemma PendingDone(s: seq<int>)
    requires Pending(s, [])
    ensures Sorted(s, 0, |s|)
  {
    forall x, y | 0 <= x < y < |s|
      ensures s[x] <= s[y]
    {
      assert Cut(s, y);
    }
  }

  /** Rearranging a range keeps the cuts that are not strictly inside it. */
  lemma CutKept(s: seq<int>, t: seq<int>, lo: int, hi: int, c: int)
    requires Permuted(s, t, lo, hi) && Cut(s, c) && !(lo < c < hi)
    ensures Cut(t, c)
  {
    forall x, y | 0 <= x < c <= y < |t|
      ensures t[x] <= t[y]
    {
      var x', y' := Source(s, t, lo, hi, x), Source(s, t, lo, hi, y);
      assert s[x'] <= s[y'];
    }
  }

  /** Where an element came from. */
  lemma SourceExists(s: seq<int>, t: seq<int>, lo: int, hi: int, x: int) returns (y: int)
    requires Permuted(s, t, lo, hi) && 0 <= x < |t|
    ensures 0 <= y < |s| && s[y] == t[x]
    ensures if lo <= x < hi then lo <= y < hi else y == x
  {
    if lo <= x < hi {
      y := PermutedSource(s, t, lo, hi, x);
    } else {
      y := x;
      if x < lo { assert s[..lo][x] == t[..lo][x]; } else { assert s[hi..][x - hi] == t[hi..][x - hi]; }
    }
  }

  ghost function Source(s: seq<int>, t: seq<int>, lo: int, hi: int, x: int): (y: int)
    requires Permuted(s, t, lo, hi) && 0 <= x < |t|
    ensures 0 <= y < |s| && s[y] == t[x]
    ensures if lo <= x < hi then lo <= y < hi else y == x
  {
    assert exists y :: 0 <= y < |s| && s[y] == t[x] && (if lo <= x < hi then lo <= y < hi else y == x) by {
      var y := SourceExists(s, t, lo, hi, x);
    }
    var y :| 0 <= y < |s| && s[y] == t[x] && (if lo <= x < hi then lo <= y < hi else y == x);
    y
  }

  /** The ends of a pending range are cuts. */
  lemma EndsAreCuts(s: seq<int>, segs: seq<Range>, r: Range)
    requires Pending(s, segs + [r])
    ensures Cut(s, r.l - 1) && Cut(s, r.ir)
  {
    hide Cut;
    var all := segs + [r];
    assert all[|segs|] == r;
    forall c | c == r.l - 1 || c == r.ir
      ensures !InsideSome(c, all)
    {
      forall k | 0 <= k < |all|
        ensures !Inside(c, all[k])
      {
        if k < |segs| { assert Apart(all[k], all[|segs|]); }
      }
    }
  }

  lemma SortedIsCut(t: seq<int>, lo: int, hi: int, c: int)
    requires 0 <= lo < c < hi <= |t| && Sorted(t, lo, hi) && Cut(t, lo) && Cut(t, hi)
    ensures Cut(t, c)
  {
  }

  /** A range that has been sorted is no longer pending. */
  lemma FinishRange(s: seq<int>, t: seq<int>, segs: seq<Range>, r: Range)
    requires Pending(s, segs + [r]) && Permuted(s, t, r.l - 1, r.ir) && Sorted(t, r.l - 1, r.ir)
    ensures Pending(t, segs)
  {
    hide Cut, Permuted, Sorted;
    var all := segs + [r];
    assert forall k :: 0 <= k < |segs| ==> all[k] == segs[k];
    assert all[|segs|] == r;
    EndsAreCuts(s, segs, r);
    PermutedLength(s, t, r.l - 1, r.ir);
    CutKept(s, t, r.l - 1, r.ir, r.l - 1);
    CutKept(s, t, r.l - 1, r.ir, r.ir);
    forall c | 0 <= c <= |t|
      ensures Cut(t, c) || InsideSome(c, segs)
    {
      if Inside(c, r) {
        SortedIsCut(t, r.l - 1, r.ir, c);
      } else if Cut(s, c) {
        CutKept(s, t, r.l - 1, r.ir, c);
      } else {
        var k :| 0 <= k < |all| && Inside(c, all[k]);
        assert Inside(c, segs[k]);
      }
    }
  }

  lemma PermutedLength(s: seq<int>, t: seq<int>, lo: int, hi: int)
    requires Permuted(s, t, lo, hi)
    ensures |s| == |t|
  {
  }

  lemma PivotIsCut(t: seq<int>, lo: int, hi: int, i: int, j: int, c: int, v: int)
    requires 0 <= lo <= j - 1 <= c <= i - 1 <= hi <= |t| && Cut(t, lo) && Cut(t, hi)
    requires lo < c < hi
    requires AtMost(t, lo, i - 1, v) && AtLeast(t, j - 1, hi, v)
    ensures Cut(t, c)
  {
  }

  /** A partitioned range is replaced by its two sides, in either order. */
  lemma SplitRange(s: seq<int>, t: seq<int>, segs: seq<Range>, r: Range, i: int, j: int, p: Range, q: Range)
    requires Pending(s, segs + [r]) && Permuted(s, t, r.l - 1, r.ir)
    requires r.l + 1 <= j < i <= r.ir
    requires AtMost(t, r.l - 1, i - 1, t[j - 1]) && AtLeast(t, j - 1, r.ir, t[j - 1])
    requires (p == Range(r.l, j - 1) && q == Range(i, r.ir)) || (p == Range(i, r.ir) && q == Range(r.l, j - 1))
    ensures Pending(t, segs + [p] + [q])
  {
    hide Cut, Permuted, AtMost, AtLeast;
    var all, new' := segs + [r], segs + [p] + [q];
    assert all[|segs|] == r && new'[|segs|] == p && new'[|segs| + 1] == q;
    assert forall k :: 0 <= k < |segs| ==> all[k] == segs[k] == new'[k];
    EndsAreCuts(s, segs, r);
    PermutedLength(s, t, r.l - 1, r.ir);
    CutKept(s, t, r.l - 1, r.ir, r.l - 1);
    CutKept(s, t, r.l - 1, r.ir, r.ir);
    forall k, m | 0 <= k < m < |new'|
      ensures Apart(new'[k], new'[m])
    {
      if k < |segs| {
        if m >= |segs| { assert Apart(all[k], all[|segs|]); } else { assert Apart(all[k], all[m]); }
      }
    }
    forall c | 0 <= c <= |t|
      ensures Cut(t, c) || InsideSome(c, new')
    {
      if Inside(c, p) {
        assert Inside(c, new'[|segs|]);
      } else if Inside(c, q) {
        assert Inside(c, new'[|segs| + 1]);
      } else if Inside(c, r) {
        PivotIsCut(t, r.l - 1, r.ir, i, j, c, t[j - 1]);
      } else if Cut(s, c) {
        CutKept(s, t, r.l - 1, r.ir, c);
      } else {
        var k :| 0 <= k < |all| && Inside(c, all[k]);
        assert Inside(c, new'[k]);
      }
    }
  }

  // ---------------------------------------------------------------------------------------
  // The explicit stack

  function Size(r: Range): int { r.ir - r.l + 1 }

  /** A range at depth `k` is small: each level at least halves its size plus one. */
  predicate Shrunk(r: Range, k: nat, n: nat) {
    (Size(r) + 1) * Pow2(k) <= n + 1
  }

  /** The stack words above the unused bottom one hold the pending ranges, lower bound first. */
  ghost predicate Holds(stack: seq<int>, segs: seq<Range>) {
    && 2 * |segs| < |stack|
    && forall k :: 0 <= k < |segs| ==> stack[2 * k + 1] == segs[k].l && stack[2 * k + 2] == segs[k].ir
  }

  ghost predicate AllShrunk(segs: seq<Range>, n: nat) {
    forall k :: 0 <= k < |segs| ==> Size(segs[k]) >= 1 && Shrunk(segs[k], k, n)
  }

  function Total(segs: seq<Range>): int {
    if segs == [] then 0 else Total(segs[..|segs| - 1]) + Size(segs[|segs| - 1])
  }

  lemma TotalPush(segs: seq<Range>, r: Range)
    ensures Total(segs + [r]) == Total(segs) + Size(r)
  {
    assert (segs + [r])[..|segs|] == segs;
  }

  lemma {:induction false} TotalNat(segs: seq<Range>, n: nat)
    requires AllShrunk(segs, n)
    ensures Total(segs) >= 0
  {
    if segs != [] { TotalNat(segs[..|segs| - 1], n); }
  }

  /** The capacity of the stack is enough for `n` elements: the overflowing push would need a
      range of eleven elements after every level of the stack has halved it. */
  predicate StackSuffices(n: nat, nstack: nat) {
    nstack > 0 && n + 1 < 12 * Pow2((nstack - 1) / 2)
  }

  lemma RoomToPush(r: Range, k: nat, n: nat, nstack: nat)
    requires StackSuffices(n, nstack) && Shrunk(r, k, n) && Size(r) > INSERTION_THRESHOLD
    ensures 2 * (k + 1) < nstack
  {
    MulLe(12, Size(r) + 1, Pow2(k));
    if k >= (nstack - 1) / 2 {
      Pow2Monotone((nstack - 1) / 2, k);
    }
  }

  /** The smaller side of a partition is at most half, the larger is smaller than the whole. */
  lemma SidesShrunk(r: Range, small: Range, large: Range, k: nat, n: nat)
    requires Shrunk(r, k, n) && Size(small) <= Size(large) && Size(small) + Size(large) < Size(r)
    requires Size(small) >= 1
    ensures Shrunk(large, k, n) && Shrunk(small, k + 1, n)
  {
    MulLe(Size(large) + 1, Size(r) + 1, Pow2(k));
    MulLe(2 * (Size(small) + 1), Size(r) + 1, Pow2(k));
    Doubling(Size(small) + 1, Pow2(k));
  }

  lemma Doubling(x: int, p: int)
    ensures (2 * x) * p == x * (2 * p)
  {
  }

  /** The benchmark's stack of 50 words carries every array of fewer than 12 * 2^24 - 1
      elements, in particular all of fewer than 11 * 2^24; longer ones overflow it if they are
      increasing, as `SortOrOverflow` shows. */
  lemma FiftyWordsSuffice(n: nat)
    ensures StackSuffices(n, NSTACK) <==> n + 1 < 12 * 0x100_0000
    ensures n < 11 * 0x100_0000 ==> StackSuffices(n, NSTACK)
  {
    Pow2Eight(0);
    Pow2Eight(8);
    Pow2Eight(16);
  }

  /** The sizing rule in the source, at least twice the binary logarithm of the data size, is
      sound: with 2 * k words, k > 0, every array of at most 2^k elements is safe. */
  lemma SizingRule(n: nat, k: nat)
    requires 0 < k && n <= Pow2(k)
    ensures StackSuffices(n, 2 * k)
  {
    assert (2 * k - 1) / 2 == k - 1;
    assert Pow2(k) == 2 * Pow2(k - 1);
  }

  // ---------------------------------------------------------------------------------------
  // The sort

  /** Everything the outer loop maintains between rounds. */
  ghost predicate Progress(input: seq<int>, s: seq<int>, stack: seq<int>, segs: seq<Range>, r: Range) {
    && Permuted(input, s, 0, |input|)
    && Pending(s, segs + [r])
    && Holds(stack, segs)
    && AllShrunk(segs, |input|) && Shrunk(r, |segs|, |input|)
    && (segs != [] ==> Size(r) >= 1)
  }

  lemma ProgressStart(s: seq<int>, stack: seq<int>)
    requires |stack| > 0
    ensures Progress(s, s, stack, [], Range(1, |s|))
  {
    PendingStart(s);
    assert [] + [Range(1, |s|)] == [Range(1, |s|)];
    hide Pending;
  }

  lemma ProgressBounds(input: seq<int>, s: seq<int>, stack: seq<int>, segs: seq<Range>, r: Range)
    requires Progress(input, s, stack, segs, r)
    ensures |s| == |input| && 1 <= r.l && r.l - 1 <= r.ir <= |s|
    ensures 2 * |segs| < |stack| && Total(segs) >= 0
    ensures Shrunk(r, |segs|, |input|)
    ensures segs != [] ==> Size(r) >= 1
  {
    assert (segs + [r])[|segs|] == r;
    TotalNat(segs, |input|);
  }

  lemma WidenPermuted(input: seq<int>, s: seq<int>, t: seq<int>, lo: int, hi: int)
    requires Permuted(input, s, 0, |input|) && Permuted(s, t, lo, hi)
    ensures Permuted(input, t, 0, |input|)
  {
    assert s == s[..lo] + s[lo..hi] + s[hi..];
    assert t == t[..lo] + t[lo..hi] + t[hi..];
    assert s[0..|input|] == s && t[0..|input|] == t;
  }

  lemma PopFacts(stack: seq<int>, segs: seq<Range>, n: nat)
    requires segs != [] && Holds(stack, segs) && AllShrunk(segs, n)
    ensures var d := |segs| - 1;
      && Holds(stack, segs[..d]) && AllShrunk(segs[..d], n)
      && stack[2 * d + 1] == segs[d].l && stack[2 * d + 2] == segs[d].ir
      && Size(segs[d]) >= 1 && Shrunk(segs[d], d, n)
      && Total(segs) == Total(segs[..d]) + Size(segs[d])
  {
    hide Shrunk;
  }

  /** Sorting the current range and taking the next one from the stack. */
  lemma ProgressPop(input: seq<int>, s: seq<int>, t: seq<int>, stack: seq<int>, segs: seq<Range>, r: Range)
    requires Progress(input, s, stack, segs, r) && segs != []
    requires Permuted(s, t, r.l - 1, r.ir) && Sorted(t, r.l - 1, r.ir)
    ensures var d := |segs| - 1;
      && 2 * d + 2 < |stack|
      && Progress(input, t, stack, segs[..d], segs[d])
      && stack[2 * d + 1] == segs[d].l && stack[2 * d + 2] == segs[d].ir
      && Total(segs) == Total(segs[..d]) + Size(segs[d])
  {
    hide Permuted, Pending, Sorted, Shrunk, Total, Size;
    PopFacts(stack, segs, |input|);
    hide Holds, AllShrunk;
    FinishRange(s, t, segs, r);
    WidenPermuted(input, s, t, r.l - 1, r.ir);
    assert segs == segs[..|segs| - 1] + [segs[|segs| - 1]];
  }

  lemma ProgressDone(input: seq<int>, s: seq<int>, t: seq<int>, stack: seq<int>, r: Range)
    requires Progress(input, s, stack, [], r)
    requires Permuted(s, t, r.l - 1, r.ir) && Sorted(t, r.l - 1, r.ir)
    ensures Permuted(input, t, 0, |input|) && Sorted(t, 0, |t|)
  {
    hide Permuted, Pending, Sorted, Shrunk;
    FinishRange(s, t, [], r);
    PendingDone(t);
    WidenPermuted(input, s, t, r.l - 1, r.ir);
  }

  /** Partitioning the current range and pushing its larger side. */
  lemma ProgressPush(input: seq<int>, s: seq<int>, t: seq<int>, stack: seq<int>, segs: seq<Range>, r: Range,
                     i: int, j: int, large: Range, small: Range)
    requires Progress(input, s, stack, segs, r)
    requires Permuted(s, t, r.l - 1, r.ir) && r.l + 1 <= j < i <= r.ir
    requires AtMost(t, r.l - 1, i - 1, t[j - 1]) && AtLeast(t, j - 1, r.ir, t[j - 1])
    requires (large == Range(r.l, j - 1) && small == Range(i, r.ir)) ||
             (large == Range(i, r.ir) && small == Range(r.l, j - 1))
    requires Size(small) <= Size(large) && 2 * (|segs| + 1) < |stack|
    ensures Progress(input, t, stack[2 * |segs| + 1 := large.l][2 * |segs| + 2 := large.ir], segs + [large], small)
    ensures Total(segs + [large]) + Size(small) < Total(segs) + Size(r)
  {
    hide Permuted, Pending, AtMost, AtLeast, Shrunk, Total, Holds, AllShrunk;
    SplitRange(s, t, segs, r, i, j, large, small);
    WidenPermuted(input, s, t, r.l - 1, r.ir);
    SidesShrunk(r, small, large, |segs|, |input|);
    PushFacts(stack, segs, large, |input|);
  }

  lemma PushFacts(stack: seq<int>, segs: seq<Range>, r: Range, n: nat)
    requires Holds(stack, segs) && AllShrunk(segs, n) && 2 * (|segs| + 1) < |stack|
    requires Size(r) >= 1 && Shrunk(r, |segs|, n)
    ensures Holds(stack[2 * |segs| + 1 := r.l][2 * |segs| + 2 := r.ir], segs + [r])
    ensures AllShrunk(segs + [r], n)
    ensures Total(segs + [r]) == Total(segs) + Size(r)
  {
    hide Shrunk, Total, Size;
    TotalPush(segs, r);
  }

  /** `stackp += 2; stackp[0] = ir; stackp[-1] = l;` */
  method Push(stack: array<int>, sp: nat, l: int, ir: int) returns (top: nat)
    requires sp + 2 < stack.Length
    modifies stack
    ensures top == sp + 2
    ensures stack[..] == old(stack[..])[sp + 1 := l][sp + 2 := ir]
  {
    top := sp + 2;
    stack[top] := ir;
    stack[top - 1] := l;
  }

  /** Partitions the current range, pushes the larger side and goes on with the smaller. */
  method PartitionRound(a: array<int>, stack: array<int>, l: int, ir: int, sp: nat, ghost input: seq<int>,
      ghost segs: seq<Range>)
    returns (l': int, ir': int, sp': nat, ghost segs': seq<Range>)
    requires a != stack && sp + 2 < stack.Length
    requires ir - l >= INSERTION_THRESHOLD && sp == 2 * |segs|
    requires Progress(input, a[..], stack[..], segs, Range(l, ir))
    modifies a, stack
    ensures Progress(input, a[..], stack[..], segs', Range(l', ir'))
    ensures sp' == 2 * |segs'|
    ensures Total(segs') + ir' - l' + 1 < Total(segs) + ir - l + 1
    ensures Total(segs') + ir' - l' + 1 >= 0
    ensures Increasing(old(a[..]), l - 1, ir) ==>
      a[..] == old(a[..]) && |segs'| == |segs| + 1 && l' == l && ir' - l' + 1 == (ir - l) / 2
  {
    hide Progress, Permuted, AtMost, AtLeast, Shrunk, Total, Increasing, MiddleUp;
    ghost var r, s := Range(l, ir), a[..];
    ProgressBounds(input, s, stack[..], segs, r);
    MedianOfThree(a, l, ir);
    ghost var t := a[..];
    var i, j := Partition(a, l, ir, s);
    PermutedTrans(s, t, a[..], l - 1, ir);
    if ir - i + 1 >= j - l {
      ProgressPush(input, s, a[..], stack[..], segs, r, i, j, Range(i, ir), Range(l, j - 1));
      sp' := Push(stack, sp, i, ir);
      segs' := segs + [Range(i, ir)];
      l', ir' := l, j - 1;
    } else {
      ProgressPush(input, s, a[..], stack[..], segs, r, i, j, Range(l, j - 1), Range(i, ir));
      sp' := Push(stack, sp, l, j - 1);
      segs' := segs + [Range(l, j - 1)];
      l', ir' := i, ir;
    }
    ProgressBounds(input, a[..], stack[..], segs', Range(l', ir'));
  }

  /** The range at hand after `k` pushes still has eleven elements when the stack is full. */
  ghost predicate Overflows(input: seq<int>, s: seq<int>, r: Range, k: nat, nstack: nat) {
    var most := (nstack - 1) / 2;
    s == input && 0 <= k <= most && Size(r) + 1 >= 12 * Pow2(most - k)
  }

  lemma OverflowStart(input: seq<int>, nstack: nat)
    requires nstack > 0 && !StackSuffices(|input|, nstack)
    ensures Overflows(input, input, Range(1, |input|), 0, nstack)
  {
  }

  /** While it has, it is partitioned; a push either finds the stack full or leaves half. */
  lemma OverflowGoesOn(input: seq<int>, s: seq<int>, r: Range, k: nat, nstack: nat)
    requires nstack > 0 && Overflows(input, s, r, k, nstack)
    ensures Size(r) > INSERTION_THRESHOLD && s == input
    ensures 2 * k + 2 < nstack ==>
      forall r': Range :: Size(r') == (Size(r) - 1) / 2 ==> Overflows(input, s, r', k + 1, nstack)
  {
    var most := (nstack - 1) / 2;
    if 2 * k + 2 < nstack {
      assert Pow2(most - k) == 2 * Pow2(most - k - 1);
    }
  }

  /** The benchmark's `sort` with a stack of `nstack` words. The source does not look whether a push
      finds room; here the sort stops when one does not, and reports it. */
  method SortOrOverflow(a: array<int>, nstack: nat) returns (full: bool)
    requires nstack > 0
    modifies a
    ensures !full ==> Sorted(a[..], 0, a.Length)
    ensures multiset(a[..]) == multiset(old(a[..]))
    ensures StackSuffices(a.Length, nstack) ==> !full
    ensures Increasing(old(a[..]), 0, a.Length) ==> (full <==> !StackSuffices(a.Length, nstack))
  {
    hide Progress, Permuted, Sorted, StackSuffices, Shrunk, Total, Overflows, Increasing;
    ghost var input := a[..];
    ghost var doomed := Increasing(input, 0, |input|) && !StackSuffices(|input|, nstack);
    var ir := a.Length;
    var l := 1;
    var stack := new int[nstack];
    var sp: nat := 0;
    ghost var segs: seq<Range> := [];
    ProgressStart(input, stack[..]);
    if doomed { OverflowStart(input, nstack); }
    full := false;
    while true
      invariant sp == 2 * |segs|
      invariant Progress(input, a[..], stack[..], segs, Range(l, ir))
      invariant doomed ==> Overflows(input, a[..], Range(l, ir), |segs|, nstack)
      decreases Total(segs) + ir - l + 1
    {
      ghost var r, s := Range(l, ir), a[..];
      ProgressBounds(input, s, stack[..], segs, r);
      if doomed { OverflowGoesOn(input, s, r, |segs|, nstack); }
      if ir - l < INSERTION_THRESHOLD {
        InsertionSort(a, l - 1, ir - l + 1);
        if sp == 0 {
          ProgressDone(input, s, a[..], stack[..], r);
          break;
        }
        ProgressPop(input, s, a[..], stack[..], segs, r);
        ir := stack[sp];
        l := stack[sp - 1];
        sp := sp - 2;
        segs := segs[..|segs| - 1];
      } else if sp + 2 >= nstack {
        if StackSuffices(|input|, nstack) { RoomInProgress(input, s, stack[..], segs, r, nstack); }
        PermutedSoFar(input, s, stack[..], segs, r);
        return true;
      } else {
        if doomed { PartIncreasing(input, l - 1, ir); }
        l, ir, sp, segs := PartitionRound(a, stack, l, ir, sp, input, segs);
        assert doomed ==> Size(Range(l, ir)) == (Size(r) - 1) / 2;
      }
    }
    WholePermuted(input, a[..]);
  }

  lemma PartIncreasing(s: seq<int>, lo: int, hi: int)
    requires Increasing(s, 0, |s|) && 0 <= lo <= hi <= |s|
    ensures Increasing(s, lo, hi)
  {
  }

  lemma RoomInProgress(input: seq<int>, s: seq<int>, stack: seq<int>, segs: seq<Range>, r: Range, nstack: nat)
    requires Progress(input, s, stack, segs, r) && StackSuffices(|input|, nstack) && Size(r) > INSERTION_THRESHOLD
    ensures 2 * |segs| + 2 < nstack
  {
    hide Permuted, Pending, Holds, AllShrunk, StackSuffices;
    RoomToPush(r, |segs|, |input|, nstack);
  }

  lemma PermutedSoFar(input: seq<int>, s: seq<int>, stack: seq<int>, segs: seq<Range>, r: Range)
    requires Progress(input, s, stack, segs, r)
    ensures |s| == |input| && multiset(s) == multiset(input)
  {
    hide Pending, Holds, AllShrunk, Shrunk;
    WholePermuted(input, s);
  }

  /** The stack is sufficient, of whatever size: for `n` elements exactly those that satisfy
      `StackSuffices` hold every array; a smaller one overflows on any increasing array. */
  method SortWithStack(a: array<int>, nstack: nat)
    requires StackSuffices(a.Length, nstack)
    modifies a
    ensures Sorted(a[..], 0, a.Length)
    ensures multiset(a[..]) == multiset(old(a[..]))
  {
    NonEmptyStack(a.Length, nstack);
    var full := SortOrOverflow(a, nstack);
  }

  lemma NonEmptyStack(n: nat, nstack: nat)
    requires StackSuffices(n, nstack)
    ensures nstack > 0
  {
  }

  lemma WholePermuted(s: seq<int>, t: seq<int>)
    requires Permuted(s, t, 0, |s|)
    ensures multiset(t) == multiset(s) && |s| == |t|
  {
    assert s[0..|s|] == s && t[0..|s|] == t;
  }

  /** The benchmark's `sort`. */
  method Sort(a: array<int>)
    requires a.Length + 1 < 12 * 0x100_0000
    modifies a
    ensures Sorted(a[..], 0, a.Length)
    ensures multiset(a[..]) == multiset(old(a[..]))
  {
    FiftyWordsSuffice(a.Length);
    SortWithStack(a, NSTACK);
  }
}
