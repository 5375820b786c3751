/** The LSD radix sort benchmark: four passes of histogram, prefix sum and backward scatter
    between two ping-pong buffers, over 32-bit words. Pointers are array indices. */
module RadixSort {
  import opened Arith

  const BASE := 256
  const LOG_BASE := 8
  const WIDTH := 32

  type Word = x: int | 0 <= x < 0x1_0000_0000

  /** `(a >> logExp) % BASE` */
  function Digit(a: Word, logExp: nat): (d: nat)
    ensures d < BASE
  {
    (a / Pow2(logExp)) % BASE
  }

  // ---------------------------------------------------------------------------------------
  // What a pass computes

  /** The elements whose digit is `d`, in their order of appearance. */
  function Bucket(s: seq<Word>, logExp: nat, d: nat): seq<Word> {
    if s == [] then []
    else (if Digit(s[0], logExp) == d then [s[0]] else []) + Bucket(s[1..], logExp, d)
  }

  /** The first `m` buckets, one after the other. */
  function Buckets(s: seq<Word>, logExp: nat, m: nat): seq<Word> {
    if m == 0 then [] else Buckets(s, logExp, m - 1) + Bucket(s, logExp, m - 1)
  }

  function Pass(s: seq<Word>, logExp: nat): seq<Word> { Buckets(s, logExp, BASE) }

  /** All passes over the digits below `logExp`, least significant first. */
  function Passes(s: seq<Word>, logExp: nat): seq<Word> {
    if logExp < LOG_BASE then s else Pass(Passes(s, logExp - LOG_BASE), logExp - LOG_BASE)
  }

  /** Number of elements with a digit below `m`: where bucket `m` starts. */
  function Start(s: seq<Word>, logExp: nat, m: nat): nat { |Buckets(s, logExp, m)| }

  // ---------------------------------------------------------------------------------------
  // A pass is a stable sort by one digit

  /** The value of the low `logExp` bits. */
  function Low(a: Word, logExp: nat): nat { a % Pow2(logExp) }

  ghost predicate SortedByLow(s: seq<Word>, logExp: nat) {
    forall i, j :: 0 <= i < j < |s| ==> Low(s[i], logExp) <= Low(s[j], logExp)
  }

  /** The digit is the next more significant part of the key. */
  lemma LowStep(a: Word, logExp: nat)
    ensures Low(a, logExp + LOG_BASE) == Digit(a, logExp) * Pow2(logExp) + Low(a, logExp)
  {
    Pow2Eight(logExp);
    SplitModulus(a, BASE, Pow2(logExp));
  }

  lemma LowBound(a: Word, logExp: nat)
    ensures 0 <= Low(a, logExp) < Pow2(logExp)
  {
  }

  lemma LowOrder(a: Word, b: Word, logExp: nat)
    requires Digit(a, logExp) < Digit(b, logExp) ||
      (Digit(a, logExp) == Digit(b, logExp) && Low(a, logExp) <= Low(b, logExp))
    ensures Low(a, logExp + LOG_BASE) <= Low(b, logExp + LOG_BASE)
  {
    LowStep(a, logExp);
    LowStep(b, logExp);
    LowBound(a, logExp);
    LowBound(b, logExp);
    hide Low, Digit;
    var p, da, db := Pow2(logExp), Digit(a, logExp), Digit(b, logExp);
    if da < db {
      MulLe(da + 1, db, p);
      MulAddOne(da, p);
    }
  }

  lemma {:induction false} BucketMembers(s: seq<Word>, logExp: nat, d: nat, x: Word)
    ensures multiset(Bucket(s, logExp, d))[x] == if Digit(x, logExp) == d then multiset(s)[x] else 0
  {
    hide Digit;
    if s != [] {
      BucketMembers(s[1..], logExp, d, x);
      assert s == [s[0]] + s[1..];
    }
  }

  lemma {:induction false} BucketsMembers(s: seq<Word>, logExp: nat, m: nat, x: Word)
    ensures multiset(Buckets(s, logExp, m))[x] == if Digit(x, logExp) < m then multiset(s)[x] else 0
  {
    hide Bucket, Digit;
    if m > 0 {
      BucketsMembers(s, logExp, m - 1, x);
      BucketMembers(s, logExp, m - 1, x);
    }
  }

  /** A pass permutes. */
  lemma PassPermutes(s: seq<Word>, logExp: nat)
    ensures multiset(Pass(s, logExp)) == multiset(s)
  {
    forall x: Word
      ensures multiset(Pass(s, logExp))[x] == multiset(s)[x]
    {
      BucketsMembers(s, logExp, BASE, x);
    }
  }

  lemma PassLength(s: seq<Word>, logExp: nat)
    ensures |Pass(s, logExp)| == |s|
  {
    PassPermutes(s, logExp);
    assert |multiset(Pass(s, logExp))| == |multiset(s)|;
  }

  lemma DigitOfMember(s: seq<Word>, logExp: nat, m: nat, i: nat)
    requires i < |Buckets(s, logExp, m)|
    ensures Digit(Buckets(s, logExp, m)[i], logExp) < m
  {
    var x := Buckets(s, logExp, m)[i];
    BucketsMembers(s, logExp, m, x);
    assert x in multiset(Buckets(s, logExp, m));
  }

  lemma DigitInBucket(s: seq<Word>, logExp: nat, d: nat, i: nat)
    requires i < |Bucket(s, logExp, d)|
    ensures Digit(Bucket(s, logExp, d)[i], logExp) == d
  {
    var x := Bucket(s, logExp, d)[i];
    BucketMembers(s, logExp, d, x);
    assert x in multiset(Bucket(s, logExp, d));
  }

  lemma {:induction false} BucketKeepsOrder(s: seq<Word>, logExp: nat, d: nat)
    requires SortedByLow(s, logExp)
    ensures SortedByLow(Bucket(s, logExp, d), logExp)
    ensures forall i :: s != [] && 0 <= i < |Bucket(s, logExp, d)| ==> Low(s[0], logExp) <= Low(Bucket(s, logExp,
      d)[i], logExp)
  {
    hide Low, Digit;
    if s != [] {
      BucketKeepsOrder(s[1..], logExp, d);
      var rest := Bucket(s[1..], logExp, d);
      forall i | 0 <= i < |rest|
        ensures Low(s[0], logExp) <= Low(rest[i], logExp)
      {
        if s[1..] == [] {
        } else {
          assert Low(s[0], logExp) <= Low(s[1], logExp);
        }
      }
    }
  }

  /** Sorted on the lower digits before, sorted on one digit more after. */
  lemma {:induction false} BucketsSort(s: seq<Word>, logExp: nat, m: nat)
    requires SortedByLow(s, logExp)
    ensures SortedByLow(Buckets(s, logExp, m), logExp + LOG_BASE)
  {
    hide Low, Digit, Bucket;
    if m > 0 {
      BucketsSort(s, logExp, m - 1);
      BucketKeepsOrder(s, logExp, m - 1);
      var x, y := Buckets(s, logExp, m - 1), Bucket(s, logExp, m - 1);
      forall i, j | 0 <= i < j < |x + y|
        ensures Low((x + y)[i], logExp + LOG_BASE) <= Low((x + y)[j], logExp + LOG_BASE)
      {
        if |x| <= j {
          DigitInBucket(s, logExp, m - 1, j - |x|);
          if i < |x| {
            DigitOfMember(s, logExp, m - 1, i);
          } else {
            DigitInBucket(s, logExp, m - 1, i - |x|);
          }
          LowOrder((x + y)[i], (x + y)[j], logExp);
        }
      }
    }
  }

  lemma {:induction false} BucketConcat(s: seq<Word>, t: seq<Word>, logExp: nat, d: nat)
    ensures Bucket(s + t, logExp, d) == Bucket(s, logExp, d) + Bucket(t, logExp, d)
  {
    if s == [] {
      assert s + t == t;
    } else {
      hide *;
      assert (s + t)[1..] == s[1..] + t && (s + t)[0] == s[0];
      BucketConcat(s[1..], t, logExp, d);
      BucketUnfolds(s, logExp, d);
      BucketUnfolds(s + t, logExp, d);
    }
  }

  lemma BucketUnfolds(s: seq<Word>, logExp: nat, d: nat)
    requires s != []
    ensures Bucket(s, logExp, d) == (if Digit(s[0], logExp) == d then [s[0]] else []) + Bucket(s[1..], logExp, d)
  {
    hide Digit;
  }

  lemma {:induction false} BucketOfOne(s: seq<Word>, logExp: nat, d: nat, c: nat)
    requires forall i :: 0 <= i < |s| ==> Digit(s[i], logExp) == d
    ensures Bucket(s, logExp, c) == if c == d then s else []
  {
    hide Digit;
    if s != [] {
      BucketOfOne(s[1..], logExp, d, c);
      assert s == [s[0]] + s[1..];
    }
  }

  lemma BucketOfBucket(s: seq<Word>, logExp: nat, d: nat, c: nat)
    ensures Bucket(Bucket(s, logExp, d), logExp, c) == if c == d then Bucket(s, logExp, d) else []
  {
    hide Digit;
    var y := Bucket(s, logExp, d);
    forall i | 0 <= i < |y|
      ensures Digit(y[i], logExp) == d
    {
      DigitInBucket(s, logExp, d, i);
    }
    BucketOfOne(y, logExp, d, c);
  }

  lemma {:induction false} BucketsStable(s: seq<Word>, logExp: nat, m: nat, d: nat)
    ensures Bucket(Buckets(s, logExp, m), logExp, d) == if d < m then Bucket(s, logExp, d) else []
  {
    hide Bucket;
    if m > 0 {
      BucketsStable(s, logExp, m - 1, d);
      BucketConcat(Buckets(s, logExp, m - 1), Bucket(s, logExp, m - 1), logExp, d);
      BucketOfBucket(s, logExp, m - 1, d);
    } else {
      EmptyBucket(logExp, d);
    }
  }

  lemma EmptyBucket(logExp: nat, d: nat)
    ensures Bucket([], logExp, d) == []
  {
  }

  /** A pass is stable: elements that agree on the digit keep their order. */
  lemma PassStable(s: seq<Word>, logExp: nat, d: nat)
    requires d < BASE
    ensures Bucket(Pass(s, logExp), logExp, d) == Bucket(s, logExp, d)
  {
    BucketsStable(s, logExp, BASE, d);
  }

  /** After the passes below `logExp` the sequence is a permutation sorted by its low bits. */
  lemma {:induction false} PassesSort(s: seq<Word>, logExp: nat)
    requires logExp % LOG_BASE == 0
    ensures multiset(Passes(s, logExp)) == multiset(s)
    ensures SortedByLow(Passes(s, logExp), logExp)
  {
    hide Digit, Low, Buckets, SortedByLow;
    if logExp < LOG_BASE {
      NoBitsSorted(s);
    } else {
      var before := logExp - LOG_BASE;
      PassesSort(s, before);
      PassPermutes(Passes(s, before), before);
      BucketsSort(Passes(s, before), before, BASE);
    }
  }

  lemma NoBitsSorted(s: seq<Word>)
    ensures SortedByLow(s, 0)
  {
    assert Pow2(0) == 1;
  }

  ghost predicate Sorted(s: seq<Word>) {
    forall i, j :: 0 <= i < j < |s| ==> s[i] <= s[j]
  }

  lemma FullWidth(a: Word)
    ensures Low(a, WIDTH) == a
  {
    assert Pow2(0) == 1;
    Pow2Eight(0);
    Pow2Eight(8);
    Pow2Eight(16);
    Pow2Eight(24);
  }

  /** Four passes sort. */
  lemma AllPassesSort(s: seq<Word>)
    ensures Sorted(Passes(s, WIDTH)) && multiset(Passes(s, WIDTH)) == multiset(s)
  {
    PassesSort(s, WIDTH);
    var t := Passes(s, WIDTH);
    forall i, j | 0 <= i < j < |t|
      ensures t[i] <= t[j]
    {
      FullWidth(t[i]);
      FullWidth(t[j]);
      assert Low(t[i], WIDTH) <= Low(t[j], WIDTH);
    }
  }

  // ---------------------------------------------------------------------------------------
  // Where the buckets lie

  lemma StartStep(s: seq<Word>, logExp: nat, d: nat)
    ensures Start(s, logExp, d + 1) == Start(s, logExp, d) + |Bucket(s, logExp, d)|
  {
  }

  lemma {:induction false} StartMonotone(s: seq<Word>, logExp: nat, c: nat, d: nat)
    requires c <= d
    ensures Start(s, logExp, c) <= Start(s, logExp, d)
    decreases d
  {
    if c < d {
      StartMonotone(s, logExp, c, d - 1);
      StartStep(s, logExp, d - 1);
    }
  }

  lemma StartEnd(s: seq<Word>, logExp: nat, d: nat)
    requires d <= BASE
    ensures Start(s, logExp, d) <= |s| == Start(s, logExp, BASE)
  {
    PassLength(s, logExp);
    StartMonotone(s, logExp, d, BASE);
  }

  lemma BucketSuffix(s: seq<Word>, logExp: nat, d: nat, p: nat)
    requires p <= |s|
    ensures |Bucket(s[p..], logExp, d)| <= |Bucket(s, logExp, d)|
  {
    assert s == s[..p] + s[p..];
    BucketConcat(s[..p], s[p..], logExp, d);
  }

  // ---------------------------------------------------------------------------------------
  // Histogram and prefix sum

  /** The histogram of the first `p` elements. */
  ghost predicate Counted(s: seq<Word>, logExp: nat, p: nat, b: seq<nat>) {
    |b| == BASE && p <= |s| && forall d :: 0 <= d < BASE ==> b[d] == |Bucket(s[..p], logExp, d)|
  }

  lemma CountStep(s: seq<Word>, logExp: nat, p: nat, b: seq<nat>)
    requires p < |s| && Counted(s, logExp, p, b)
    ensures var d := Digit(s[p], logExp); Counted(s, logExp, p + 1, b[d := b[d] + 1])
  {
    var c := Digit(s[p], logExp);
    forall d | 0 <= d < BASE
      ensures |Bucket(s[..p + 1], logExp, d)| == |Bucket(s[..p], logExp, d)| + (if d == c then 1 else 0)
    {
      assert s[..p + 1] == s[..p] + [s[p]];
      BucketConcat(s[..p], [s[p]], logExp, d);
    }
  }

  lemma CountStart(s: seq<Word>, logExp: nat, b: seq<nat>)
    requires |b| == BASE && forall d :: 0 <= d < BASE ==> b[d] == 0
    ensures Counted(s, logExp, 0, b)
  {
    assert s[..0] == [];
  }

  /** The benchmark's fetch_add: adds and hands back the value before. */
  method FetchAdd(b: array<nat>, i: nat, inc: int) returns (before: nat)
    requires i < b.Length && b[i] + inc >= 0
    modifies b
    ensures before == old(b[i])
    ensures b[..] == old(b[..])[i := old(b[i]) + inc]
  {
    b[i] := b[i] + inc;
    before := b[i] - inc;
  }

  method Clear(bucket: array<nat>)
    modifies bucket
    ensures forall d :: 0 <= d < bucket.Length ==> bucket[d] == 0
  {
    for b := 0 to bucket.Length
      invariant forall d :: 0 <= d < b ==> bucket[d] == 0
    {
      bucket[b] := 0;
    }
  }

  method CountOne(arr: array<Word>, bucket: array<nat>, logExp: nat, p: nat)
    requires p < arr.Length && Counted(arr[..], logExp, p, bucket[..])
    modifies bucket
    ensures Counted(arr[..], logExp, p + 1, bucket[..])
  {
    hide Counted, Digit;
    CountedSize(arr[..], logExp, p, bucket[..]);
    CountStep(arr[..], logExp, p, bucket[..]);
    var _ := FetchAdd(bucket, Digit(arr[p], logExp), 1);
  }

  lemma CountedSize(s: seq<Word>, logExp: nat, p: nat, b: seq<nat>)
    requires Counted(s, logExp, p, b)
    ensures |b| == BASE
  {
  }

  /** Histogram of the digits, four elements at a time and then the rest. */
  method Histogram(arr: array<Word>, bucket: array<nat>, logExp: nat)
    requires bucket.Length == BASE
    modifies bucket
    ensures Counted(arr[..], logExp, arr.Length, bucket[..])
  {
    hide Counted;
    Clear(bucket);
    CountStart(arr[..], logExp, bucket[..]);
    var p := 0;
    while p < arr.Length - 3
      invariant 0 <= p <= arr.Length
      invariant Counted(arr[..], logExp, p, bucket[..])
    {
      CountOne(arr, bucket, logExp, p);
      CountOne(arr, bucket, logExp, p + 1);
      CountOne(arr, bucket, logExp, p + 2);
      CountOne(arr, bucket, logExp, p + 3);
      p := p + 4;
    }
    while p < arr.Length
      invariant 0 <= p <= arr.Length
      invariant Counted(arr[..], logExp, p, bucket[..])
    {
      CountOne(arr, bucket, logExp, p);
      p := p + 1;
    }
  }

  /** The first `m` counters have become end positions. */
  ghost predicate Summed(s: seq<Word>, logExp: nat, m: nat, b: seq<nat>) {
    && |b| == BASE && m <= BASE
    && (forall d :: 0 <= d < m ==> b[d] == Start(s, logExp, d + 1))
    && (forall d :: m <= d < BASE ==> b[d] == |Bucket(s, logExp, d)|)
  }

  lemma SumStart(s: seq<Word>, logExp: nat, b: seq<nat>)
    requires Counted(s, logExp, |s|, b)
    ensures Summed(s, logExp, 1, b) && b[0] == Start(s, logExp, 1)
  {
    assert s[..|s|] == s;
    StartStep(s, logExp, 0);
  }

  lemma SumStep(s: seq<Word>, logExp: nat, m: nat, b: seq<nat>)
    requires m < BASE && Summed(s, logExp, m, b)
    ensures Summed(s, logExp, m + 1, b[m := b[m] + Start(s, logExp, m)])
    ensures Start(s, logExp, m) + b[m] == Start(s, logExp, m + 1)
  {
    StartStep(s, logExp, m);
  }

  method SumOne(ghost s: seq<Word>, bucket: array<nat>, ghost logExp: nat, m: nat, prev: nat) returns (next: nat)
    requires bucket.Length == BASE && m < BASE
    requires Summed(s, logExp, m, bucket[..]) && prev == Start(s, logExp, m)
    modifies bucket
    ensures Summed(s, logExp, m + 1, bucket[..]) && next == Start(s, logExp, m + 1)
  {
    hide Summed, Start;
    SumStep(s, logExp, m, bucket[..]);
    var count := FetchAdd(bucket, m, prev);
    next := prev + count;
  }

  /** Turns counts into end positions, two counters at a time from the third on. */
  method PrefixSum(ghost s: seq<Word>, bucket: array<nat>, ghost logExp: nat)
    requires bucket.Length == BASE && Counted(s, logExp, |s|, bucket[..])
    modifies bucket
    ensures Summed(s, logExp, BASE, bucket[..])
  {
    hide Counted, Summed, Start;
    SumStart(s, logExp, bucket[..]);
    var prev := bucket[0];
    prev := SumOne(s, bucket, logExp, 1, prev);
    var b := 2;
    while b < BASE
      invariant 2 <= b <= BASE && b % 2 == 0
      invariant Summed(s, logExp, b, bucket[..]) && prev == Start(s, logExp, b)
    {
      prev := SumOne(s, bucket, logExp, b, prev);
      prev := SumOne(s, bucket, logExp, b + 1, prev);
      b := b + 2;
    }
  }

  // ---------------------------------------------------------------------------------------
  // Backward scatter

  /** Bucket `d` of the output once the elements from `p` on are placed: the counter `at` points
      at the last one placed, and from there to the end of the bucket they stand in order. */
  ghost predicate Segment(s: seq<Word>, logExp: nat, p: nat, d: nat, at: nat, t: seq<Word>) {
    && p <= |s| == |t|
    && Start(s, logExp, d) <= at <= Start(s, logExp, d + 1) <= |t|
    && t[at..Start(s, logExp, d + 1)] == Bucket(s[p..], logExp, d)
  }

  ghost predicate Scattered(s: seq<Word>, logExp: nat, p: nat, b: seq<nat>, t: seq<Word>) {
    |b| == BASE && |s| == |t| && p <= |s| && forall d :: 0 <= d < BASE ==> Segment(s, logExp, p, d, b[d], t)
  }

  lemma ScatterStart(s: seq<Word>, logExp: nat, b: seq<nat>, t: seq<Word>)
    requires Summed(s, logExp, BASE, b) && |t| == |s|
    ensures Scattered(s, logExp, |s|, b, t)
  {
    assert s[|s|..] == [];
    forall d | 0 <= d < BASE
      ensures Segment(s, logExp, |s|, d, b[d], t)
    {
      StartStep(s, logExp, d);
      StartEnd(s, logExp, d + 1);
    }
  }

  lemma BucketStep(s: seq<Word>, logExp: nat, p: nat, d: nat)
    requires p < |s|
    ensures Bucket(s[p..], logExp, d) ==
      (if Digit(s[p], logExp) == d then [s[p]] else []) + Bucket(s[p + 1..], logExp, d)
  {
    assert s[p..][1..] == s[p + 1..];
  }

  /** There is room for one more element in its own bucket. */
  lemma RoomInBucket(s: seq<Word>, logExp: nat, p: nat, d: nat, at: nat, t: seq<Word>)
    requires p < |s| && d == Digit(s[p], logExp) && Segment(s, logExp, p + 1, d, at, t)
    ensures Start(s, logExp, d) < at
  {
    hide Start, Bucket, Digit;
    BucketStep(s, logExp, p, d);
    BucketSuffix(s, logExp, d, p);
    StartStep(s, logExp, d);
  }

  lemma PlaceOwn(s: seq<Word>, logExp: nat, p: nat, d: nat, at: nat, t: seq<Word>)
    requires p < |s| && d == Digit(s[p], logExp) && Segment(s, logExp, p + 1, d, at, t)
    ensures 0 < at <= |t| && Segment(s, logExp, p, d, at - 1, t[at - 1 := s[p]])
  {
    hide Start, Bucket, Digit;
    RoomInBucket(s, logExp, p, d, at, t);
    BucketStep(s, logExp, p, d);
    var end := Start(s, logExp, d + 1);
    assert t[at - 1 := s[p]][at - 1..end] == [s[p]] + t[at..end];
  }

  lemma PlaceOther(s: seq<Word>, logExp: nat, p: nat, c: nat, d: nat, i: nat, at: nat, t: seq<Word>)
    requires p < |s| && c == Digit(s[p], logExp) && c != d && Segment(s, logExp, p + 1, d, at, t)
    requires Start(s, logExp, c) <= i < Start(s, logExp, c + 1) && i < |t|
    ensures Segment(s, logExp, p, d, at, t[i := s[p]])
  {
    hide Start, Bucket, Digit;
    BucketStep(s, logExp, p, d);
    if c < d { StartMonotone(s, logExp, c + 1, d); } else { StartMonotone(s, logExp, d + 1, c); }
    var end := Start(s, logExp, d + 1);
    assert t[i := s[p]][at..end] == t[at..end];
  }

  /** Placing the next element, going backwards, below the last one placed in its bucket. */
  lemma ScatterStep(s: seq<Word>, logExp: nat, p: nat, b: seq<nat>, t: seq<Word>)
    requires p < |s| && Scattered(s, logExp, p + 1, b, t)
    ensures var c := Digit(s[p], logExp);
      0 < b[c] <= |t| && Scattered(s, logExp, p, b[c := b[c] - 1], t[b[c] - 1 := s[p]])
  {
    hide Segment, Digit;
    var c := Digit(s[p], logExp);
    PlaceOwn(s, logExp, p, c, b[c], t);
    SegmentBounds(s, logExp, p, c, b[c] - 1, t[b[c] - 1 := s[p]]);
    SegmentBounds(s, logExp, p + 1, c, b[c], t);
    forall d | 0 <= d < BASE && d != c
      ensures Segment(s, logExp, p, d, b[d], t[b[c] - 1 := s[p]])
    {
      PlaceOther(s, logExp, p, c, d, b[c] - 1, b[d], t);
    }
  }

  lemma SegmentBounds(s: seq<Word>, logExp: nat, p: nat, d: nat, at: nat, t: seq<Word>)
    requires Segment(s, logExp, p, d, at, t)
    ensures Start(s, logExp, d) <= at <= Start(s, logExp, d + 1)
  {
    hide Start, Bucket;
  }

  lemma {:induction false} SegmentsJoin(s: seq<Word>, logExp: nat, b: seq<nat>, t: seq<Word>, m: nat)
    requires Scattered(s, logExp, 0, b, t) && m <= BASE
    ensures Start(s, logExp, m) <= |t| && t[..Start(s, logExp, m)] == Buckets(s, logExp, m)
  {
    hide Bucket, Segment;
    StartEnd(s, logExp, m);
    if m > 0 {
      SegmentsJoin(s, logExp, b, t, m - 1);
      FullSegment(s, logExp, m - 1, b[m - 1], t);
      var at, end := Start(s, logExp, m - 1), Start(s, logExp, m);
      assert t[..end] == t[..at] + t[at..end];
    }
  }

  lemma FullSegment(s: seq<Word>, logExp: nat, d: nat, at: nat, t: seq<Word>)
    requires Segment(s, logExp, 0, d, at, t)
    ensures Start(s, logExp, d + 1) <= |t|
    ensures Start(s, logExp, d) <= Start(s, logExp, d + 1)
    ensures t[Start(s, logExp, d)..Start(s, logExp, d + 1)] == Bucket(s, logExp, d)
  {
    hide Start, Bucket;
    StartStep(s, logExp, d);
    assert s[0..] == s;
    assert |t[at..Start(s, logExp, d + 1)]| == |Bucket(s, logExp, d)|;
  }

  /** Once everything is placed the output is the stable sort by the digit. */
  lemma ScatterDone(s: seq<Word>, logExp: nat, b: seq<nat>, t: seq<Word>)
    requires Scattered(s, logExp, 0, b, t)
    ensures t == Pass(s, logExp)
  {
    hide Bucket, Buckets, Segment;
    SegmentsJoin(s, logExp, b, t, BASE);
    StartEnd(s, logExp, BASE);
    assert t[..|t|] == t;
  }

  method Scatter(arr: array<Word>, scratch: array<Word>, bucket: array<nat>, logExp: nat)
    requires arr != scratch && arr.Length == scratch.Length && bucket.Length == BASE
    requires Summed(arr[..], logExp, BASE, bucket[..])
    modifies scratch, bucket
    ensures scratch[..] == Pass(arr[..], logExp)
  {
    hide Scattered, Summed, Digit, Pass;
    ghost var s := arr[..];
    ScatterStart(s, logExp, bucket[..], scratch[..]);
    var p := arr.Length - 1;
    while p >= 3
      invariant -1 <= p < arr.Length
      invariant Scattered(s, logExp, p + 1, bucket[..], scratch[..])
    {
      ScatterFour(arr, scratch, bucket, logExp, p);
      p := p - 4;
    }
    while p >= 0
      invariant -1 <= p < arr.Length
      invariant Scattered(s, logExp, p + 1, bucket[..], scratch[..])
    {
      ScatterStep(s, logExp, p, bucket[..], scratch[..]);
      var d := Digit(arr[p], logExp);
      bucket[d] := bucket[d] - 1;
      scratch[bucket[d]] := arr[p];
      p := p - 1;
    }
    ScatterDone(s, logExp, bucket[..], scratch[..]);
  }

  /** Four elements at once: all counters are taken before anything is written. */
  method ScatterFour(arr: array<Word>, scratch: array<Word>, bucket: array<nat>, logExp: nat, p: nat)
    requires arr != scratch && arr.Length == scratch.Length && bucket.Length == BASE
    requires 3 <= p < arr.Length && Scattered(arr[..], logExp, p + 1, bucket[..], scratch[..])
    modifies scratch, bucket
    ensures Scattered(arr[..], logExp, p - 3, bucket[..], scratch[..])
  {
    hide Scattered, Digit;
    ghost var s := arr[..];
    ghost var t0 := scratch[..];
    var a0, a1, a2, a3 := arr[p], arr[p - 1], arr[p - 2], arr[p - 3];
    ScatterStep(s, logExp, p, bucket[..], t0);
    var s0 := FetchAdd(bucket, Digit(a0, logExp), -1);
    ghost var t1 := t0[s0 - 1 := a0];
    ScatterStep(s, logExp, p - 1, bucket[..], t1);
    var s1 := FetchAdd(bucket, Digit(a1, logExp), -1);
    ghost var t2 := t1[s1 - 1 := a1];
    ScatterStep(s, logExp, p - 2, bucket[..], t2);
    var s2 := FetchAdd(bucket, Digit(a2, logExp), -1);
    ghost var t3 := t2[s2 - 1 := a2];
    ScatterStep(s, logExp, p - 3, bucket[..], t3);
    var s3 := FetchAdd(bucket, Digit(a3, logExp), -1);
    scratch[s0 - 1] := a0;
    scratch[s1 - 1] := a1;
    scratch[s2 - 1] := a2;
    scratch[s3 - 1] := a3;
    assert scratch[..] == t3[s3 - 1 := a3];
  }

  // ---------------------------------------------------------------------------------------
  // The sort

  /** One round of the sort: the stable sort of `arr` by the digit at `logExp`, in `scratch`. */
  method SortPass(arr: array<Word>, scratch: array<Word>, bucket: array<nat>, logExp: nat)
    requires arr != scratch && arr.Length == scratch.Length && bucket.Length == BASE
    modifies scratch, bucket
    ensures scratch[..] == Pass(arr[..], logExp)
  {
    hide *;
    Histogram(arr, bucket, logExp);
    PrefixSum(arr[..], bucket, logExp);
    Scatter(arr, scratch, bucket, logExp);
  }

  lemma OneMorePass(s: seq<Word>, logExp: nat)
    ensures Passes(s, logExp + LOG_BASE) == Pass(Passes(s, logExp), logExp)
  {
    hide Pass;
  }

  /** Four passes between the two buffers; the result lands in the input buffer, so the final
      copy of the benchmark is never taken. */
  method Sort(arrIn: array<Word>, scratchIn: array<Word>)
    requires arrIn != scratchIn && arrIn.Length == scratchIn.Length
    modifies arrIn, scratchIn
    ensures arrIn[..] == Passes(old(arrIn[..]), WIDTH)
    ensures Sorted(arrIn[..]) && multiset(arrIn[..]) == multiset(old(arrIn[..]))
  {
    ghost var input := arrIn[..];
    AllPassesSort(input);
    NoPassYet(input);
    hide Passes, Pass, Sorted;
    var logExp := 0;
    var bucket := new nat[BASE];
    var arr, scratch := arrIn, scratchIn;
    while logExp < WIDTH
      invariant logExp == 0 || logExp == 8 || logExp == 16 || logExp == 24 || logExp == WIDTH
      invariant logExp == 8 || logExp == 24 ==> arr == scratchIn && scratch == arrIn
      invariant logExp == 0 || logExp == 16 || logExp == WIDTH ==> arr == arrIn && scratch == scratchIn
      invariant arr[..] == Passes(input, logExp)
    {
      SortPass(arr, scratch, bucket, logExp);
      OneMorePass(input, logExp);
      arr, scratch := scratch, arr;
      logExp := logExp + LOG_BASE;
    }
    if arr != arrIn {
      assert false;
    }
  }

  lemma NoPassYet(s: seq<Word>)
    ensures Passes(s, 0) == s
  {
  }
}
