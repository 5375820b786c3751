/** The parallel vector addition: every core runs the same program, whose five parts are
    separated by the barrier of module `Barrier`; the cores share the result vector. One step is
    one load from or one store to that vector, or one step of the barrier. */
module Vvadd {
  import Arith
  import Barrier

  // ---------------------------------------------------------------------------------------
  // The sequential pieces

  /** `verifyDouble`: 0 when the vectors agree, else one more than the first index that differs. */
  ghost predicate IsVerdict(code: int, test: seq<int>, expected: seq<int>)
    requires |test| == |expected|
  {
    if code == 0 then test == expected
    else 1 <= code <= |test| && test[code - 1] != expected[code - 1] && test[..code - 1] == expected[..code - 1]
  }

  method VerifyDouble(test: array<int>, expected: array<int>) returns (code: int)
    requires test.Length == expected.Length
    ensures IsVerdict(code, test[..], expected[..])
  {
    var n, i := test.Length, 0;
    while i < n / 2 * 2
      invariant 0 <= i <= n && i % 2 == 0
      invariant test[..i] == expected[..i]
    {
      var t0, t1 := test[i], test[i + 1];
      var v0, v1 := expected[i], expected[i + 1];
      var eq1, eq2 := t0 == v0, t1 == v1;
      if !(eq1 && eq2) {
        assert test[..i + 1][..i] == test[..i] && expected[..i + 1][..i] == expected[..i];
        return i + 1 + if eq1 then 1 else 0;
      }
      i := i + 2;
    }
    if n % 2 != 0 && test[n - 1] != expected[n - 1] {
      return n;
    }
    return 0;
  }

  function Owner(j: nat, ncores: nat): (c: nat)
    requires ncores > 0
    ensures c < ncores
  {
    j % ncores
  }

  lemma OwnerBounds(i: nat, j: nat, ncores: nat)
    requires ncores > 0
    ensures Owner(j, ncores) <= j
    ensures j < ncores ==> Owner(j, ncores) == j
    ensures Owner(i + ncores, ncores) == Owner(i, ncores)
    ensures Owner(j, ncores) == Owner(i, ncores) && i < j ==> i + ncores <= j
  {
    NextInClass(i, ncores);
    FirstInClass(j, ncores);
    if j % ncores == i % ncores && i < j { GapInClass(i, j, ncores); }
  }

  lemma NextInClass(i: nat, m: nat)
    requires m > 0
    ensures (i + m) % m == i % m
  {
    Arith.MulAddOne(i / m, m);
    Arith.DivModUnique(i + m, m, i / m + 1, i % m);
  }

  lemma FirstInClass(j: nat, m: nat)
    requires m > 0
    ensures j % m <= j && (j < m ==> j % m == j)
  {
    Arith.MulLe(0, j / m, m);
    if j < m { Arith.DivModUnique(j, m, 0, j); }
  }

  lemma GapInClass(i: nat, j: nat, m: nat)
    requires m > 0 && j % m == i % m && i < j
    ensures i + m <= j
  {
    var q, p := j / m, i / m;
    if q <= p {
      Arith.MulLe(q, p, m);
    } else {
      Arith.MulLe(p + 1, q, m);
      Arith.MulAddOne(p, m);
    }
  }

  /** One core's share: the indices in its residue class, and no other. `x` may be `z` itself. */
  method AddShare(coreid: nat, ncores: nat, n: nat, x: array<int>, y: array<int>, z: array<int>)
    requires coreid < ncores && n <= x.Length && n <= y.Length && n <= z.Length
    modifies z
    ensures forall j :: 0 <= j < z.Length ==>
      z[j] == if j < n && Owner(j, ncores) == coreid then old(x[j]) + old(y[j]) else old(z[j])
  {
    hide Owner;
    var i := coreid;
    OwnerBounds(coreid, coreid, ncores);
    forall j: nat | Owner(j, ncores) == coreid
      ensures j >= coreid
    {
      OwnerBounds(j, j, ncores);
    }
    while i < n
      invariant Owner(i, ncores) == coreid
      invariant forall j :: 0 <= j < z.Length ==>
        z[j] == if j < i && j < n && Owner(j, ncores) == coreid then old(x[j]) + old(y[j]) else old(z[j])
      invariant forall j :: i <= j < n ==> x[j] == old(x[j]) && y[j] == old(y[j])
    {
      z[i] := x[i] + y[i];
      forall j: nat | i < j && Owner(j, ncores) == coreid
        ensures i + ncores <= j
      {
        OwnerBounds(i, j, ncores);
      }
      OwnerBounds(i, i, ncores);
      i := i + ncores;
    }
  }

  // ---------------------------------------------------------------------------------------
  // The parallel program

  /** The read-only data: both inputs and the vector that the results are checked against. */
  datatype Data = Data(input1: seq<int>, input2: seq<int>, expected: seq<int>)

  ghost predicate SameLength(d: Data) {
    |d.input1| == |d.input2| == |d.expected|
  }

  /** Where a core stands in the current part of its program. */
  datatype Work =
    | Adding(i: nat)
    | Added(i: nat, sum: int)
    | Checking(i: nat)
    | CheckingSecond(i: nat, first: int)
    | Copying(i: nat)
    | Idle
    | Exited(code: int)

  /** `first` and `second` count, for each index, the stores done by the two additions. */
  datatype System =
    System(barrier: Barrier.State, work: seq<Work>, results: seq<int>, first: seq<nat>, second: seq<nat>)

  ghost predicate Shape(d: Data, s: System) {
    && SameLength(d)
    && |s.results| == |s.first| == |s.second| == |d.input1|
    && |s.work| == |s.barrier.threads| > 0
  }

  /** What a core does first after leaving its `part`-th barrier. */
  function Start(part: nat, core: nat): Work {
    if part == 1 || part == 3 then Adding(core)
    else if (part == 2 || part == 4) && core == 0 then Checking(0)
    else if part < 5 then Idle
    else Exited(0)
  }

  /** After a successful check: copy the input back, or nothing. */
  function Checked(part: nat): Work {
    if part == 2 then Copying(0) else Idle
  }

  function AddStep(d: Data, s: System, c: nat, part: nat, w: Work): System
    requires Shape(d, s) && c < |s.work| && (w.Adding? || w.Added?)
  {
    var i := w.i;
    if i >= |s.results| then s.(work := s.work[c := Idle])
    else match w
      case Adding(_) =>
        var x := if part == 1 then d.input1[i] else s.results[i];
        s.(work := s.work[c := Added(i, x + d.input2[i])])
      case Added(_, sum) =>
        s.(work := s.work[c := Adding(i + |s.work|)], results := s.results[i := sum],
           first := if part == 1 then s.first[i := s.first[i] + 1] else s.first,
           second := if part == 1 then s.second else s.second[i := s.second[i] + 1])
  }

  function CheckStep(d: Data, s: System, part: nat, w: Work): Work
    requires Shape(d, s) && (w.Checking? || w.CheckingSecond?)
  {
    var i := w.i;
    match w
    case Checking(_) =>
      if i + 1 < |s.results| then CheckingSecond(i, s.results[i])
      else if i < |s.results| && s.results[i] != d.expected[i] then Exited(i + 1)
      else Checked(part)
    case CheckingSecond(_, first) =>
      if i + 1 >= |s.results| then w
      else if first != d.expected[i] then Exited(i + 1)
      else if s.results[i + 1] != d.expected[i + 1] then Exited(i + 2)
      else Checking(i + 2)
  }

  function BarrierStep(s: System, c: nat): System
    requires c < |s.work| == |s.barrier.threads|
  {
    var b := Barrier.Next(s.barrier, c);
    s.(barrier := b,
       work := if b.threads[c].pc == Barrier.Outside then s.work[c := Start(b.threads[c].passed, c)] else s.work)
  }

  function Step(d: Data, s: System, c: nat): System
    requires Shape(d, s) && c < |s.work|
  {
    var me := s.barrier.threads[c];
    if me.pc != Barrier.Outside then BarrierStep(s, c)
    else match s.work[c]
      case Adding(_) => AddStep(d, s, c, me.passed, s.work[c])
      case Added(_, _) => AddStep(d, s, c, me.passed, s.work[c])
      case Checking(_) => s.(work := s.work[c := CheckStep(d, s, me.passed, s.work[c])])
      case CheckingSecond(_, _) => s.(work := s.work[c := CheckStep(d, s, me.passed, s.work[c])])
      case Copying(i) =>
        if i >= |s.results| then s.(work := s.work[c := Idle])
        else s.(work := s.work[c := Copying(i + 1)], results := s.results[i := d.input1[i]])
      case Idle => BarrierStep(s, c)
      case Exited(_) => s
  }

  // ---------------------------------------------------------------------------------------
  // Invariant

  function Sum(d: Data, j: nat): int
    requires SameLength(d) && j < |d.input1|
  {
    d.input1[j] + d.input2[j]
  }

  function Sums(d: Data): (r: seq<int>)
    requires SameLength(d)
    ensures |r| == |d.input1| && forall j :: 0 <= j < |r| ==> r[j] == Sum(d, j)
  {
    seq(|d.input1|, j requires 0 <= j < |d.input1| => Sum(d, j))
  }

  ghost predicate VerifiedTo(d: Data, i: nat)
    requires SameLength(d)
  {
    i <= |d.expected| && forall j :: 0 <= j < i ==> d.expected[j] == Sum(d, j)
  }

  ghost predicate WorkOk(d: Data, w: Work, c: nat, ncores: nat, part: nat)
    requires SameLength(d) && ncores > 0
  {
    var n := |d.expected|;
    match w
    case Adding(i) => (part == 1 || part == 3) && Owner(i, ncores) == c
    case Added(i, sum) => (part == 1 || part == 3) && Owner(i, ncores) == c && i < n && sum == Sum(d, i)
    case Checking(i) => c == 0 && (part == 2 || part == 4) && VerifiedTo(d, i)
    case CheckingSecond(i, first) =>
      c == 0 && (part == 2 || part == 4) && VerifiedTo(d, i) && i + 1 < n && first == Sum(d, i)
    case Copying(i) => c == 0 && part == 2 && i <= n && VerifiedTo(d, n)
    case Idle => part < 5 && (c == 0 && (part == 2 || part == 4) ==> VerifiedTo(d, n))
    case Exited(code) =>
      && (code == 0 ==> part == 5)
      && (code != 0 ==> c == 0 && IsVerdict(code, Sums(d), d.expected))
  }

  /** All of core `c`'s indices below this one are finished in part `k`. */
  function Progress(s: System, c: nat, k: nat): nat
    requires c < |s.work| == |s.barrier.threads|
  {
    var me := s.barrier.threads[c];
    if me.entered == k + 1 then |s.results|
    else if me.pc != Barrier.Outside then 0
    else match s.work[c]
      case Adding(i) => i
      case Added(i, _) => i
      case Copying(i) => i
      case Idle => |s.results|
      case _ => 0
  }

  /** The core that writes index `j` in part `k`. */
  function Responsible(k: nat, j: nat, ncores: nat): (c: nat)
    requires ncores > 0
    ensures c < ncores
  {
    if k == 2 then 0 else Owner(j, ncores)
  }

  predicate Done(s: System, k: nat, j: nat)
    requires |s.work| == |s.barrier.threads| > 0
  {
    Progress(s, Responsible(k, j, |s.work|), k) > j
  }

  /** What index `j` of the result vector holds in part `k`, and how often it was stored to. */
  ghost predicate CellOk(d: Data, k: nat, j: nat, done: bool, r: int, first: nat, second: nat)
    requires SameLength(d) && j < |d.input1|
  {
    && (k == 1 && done ==> r == Sum(d, j))
    && (k == 2 ==> r == if done then d.input1[j] else Sum(d, j))
    && (k == 3 ==> r == if done then Sum(d, j) else d.input1[j])
    && (k >= 4 ==> r == Sum(d, j))
    && first == (if k > 1 || (k == 1 && done) then 1 else 0)
    && second == (if k > 3 || (k == 3 && done) then 1 else 0)
  }

  ghost predicate CellsOk(d: Data, s: System, k: nat)
    requires Shape(d, s)
  {
    forall j :: 0 <= j < |s.results| ==>
      CellOk(d, k, j, Done(s, k, j), s.results[j], s.first[j], s.second[j])
  }

  ghost predicate CoreOk(d: Data, s: System, c: nat, k: nat)
    requires Shape(d, s) && c < |s.work|
  {
    if s.barrier.threads[c].pc == Barrier.Outside then WorkOk(d, s.work[c], c, |s.work|, k)
    else s.work[c] == Idle
  }

  ghost predicate CoresOk(d: Data, s: System, k: nat)
    requires Shape(d, s)
  {
    forall c :: 0 <= c < |s.work| ==> CoreOk(d, s, c, k)
  }

  /** Once core 0 has arrived at the barrier after a check, the check has succeeded. */
  ghost predicate CheckOk(d: Data, s: System, k: nat)
    requires Shape(d, s)
  {
    k <= 5 &&
    (k >= 3 || (k == 2 && s.barrier.threads[0].entered == 3) ==> VerifiedTo(d, |d.expected|))
    && (k == 5 ==> forall c :: 0 <= c < |s.work| ==> s.barrier.threads[c].entered == 5)
  }

  ghost predicate Inv(d: Data, s: System, k: nat) {
    && Shape(d, s)
    && Barrier.Inv(s.barrier, k)
    && CoresOk(d, s, k)
    && CheckOk(d, s, k)
    && CellsOk(d, s, k)
  }

  // ---------------------------------------------------------------------------------------
  // Every step keeps the invariant

  /** A step of core `c` that moves neither the barrier nor any other core's work. */
  lemma LocalStep(d: Data, s: System, s': System, c: nat, k: nat)
    requires Inv(d, s, k) && Shape(d, s') && c < |s.work|
    requires s'.barrier == s.barrier && s'.work == s.work[c := s'.work[c]]
    requires CoreOk(d, s', c, k) && CellsOk(d, s', k)
    ensures Inv(d, s', k)
  {
    hide WorkOk, CellsOk, Barrier.Inv;
    forall u | 0 <= u < |s'.work|
      ensures CoreOk(d, s', u, k)
    {
      if u != c { assert CoreOk(d, s, u, k); }
    }
  }

  /** Neither the vector nor what is finished changes. */
  lemma SameCells(d: Data, s: System, s': System, k: nat)
    requires Shape(d, s) && Shape(d, s') && CellsOk(d, s, k)
    requires s'.results == s.results && s'.first == s.first && s'.second == s.second
    requires 1 <= k <= 3 ==> forall j :: 0 <= j < |s.results| ==> Done(s', k, j) == Done(s, k, j)
    ensures CellsOk(d, s', k)
  {
    hide Done;
    forall j | 0 <= j < |s'.results|
      ensures CellOk(d, k, j, Done(s', k, j), s'.results[j], s'.first[j], s'.second[j])
    {
      assert CellOk(d, k, j, Done(s, k, j), s.results[j], s.first[j], s.second[j]);
    }
  }

  /** Index `i` alone changes, and is now finished. */
  lemma OneCell(d: Data, s: System, s': System, k: nat, i: nat)
    requires Shape(d, s) && Shape(d, s') && CellsOk(d, s, k) && i < |s.results|
    requires s'.results == s.results[i := s'.results[i]]
    requires s'.first == s.first[i := s'.first[i]] && s'.second == s.second[i := s'.second[i]]
    requires forall j :: 0 <= j < |s.results| && j != i ==> Done(s', k, j) == Done(s, k, j)
    requires CellOk(d, k, i, Done(s', k, i), s'.results[i], s'.first[i], s'.second[i])
    ensures CellsOk(d, s', k)
  {
    hide Done;
    forall j | 0 <= j < |s'.results|
      ensures CellOk(d, k, j, Done(s', k, j), s'.results[j], s'.first[j], s'.second[j])
    {
      if j != i { assert CellOk(d, k, j, Done(s, k, j), s.results[j], s.first[j], s.second[j]); }
    }
  }

  lemma OutsidePart(d: Data, s: System, c: nat, k: nat)
    requires Inv(d, s, k) && c < |s.work| && s.barrier.threads[c].pc == Barrier.Outside
    ensures s.barrier.threads[c].passed == s.barrier.threads[c].entered == k
    ensures WorkOk(d, s.work[c], c, |s.work|, k)
  {
    hide WorkOk, CellsOk;
    assert Barrier.ThreadOk(s.barrier.threads[c], k);
    assert CoreOk(d, s, c, k);
  }

  lemma LoadStep(d: Data, s: System, c: nat, k: nat)
    requires Inv(d, s, k) && c < |s.work|
    requires s.barrier.threads[c].pc == Barrier.Outside && s.work[c].Adding?
    ensures Inv(d, Step(d, s, c), k)
  {
    hide Owner, Barrier.Inv;
    OutsidePart(d, s, c, k);
    var s', i := Step(d, s, c), s.work[c].i;
    assert s' == AddStep(d, s, c, k, s.work[c]);
    if i < |s.results| {
      assert CellOk(d, k, i, Done(s, k, i), s.results[i], s.first[i], s.second[i]);
      assert Responsible(k, i, |s.work|) == c;
    }
    forall j | 0 <= j < |s.results|
      ensures Done(s', k, j) == Done(s, k, j)
    {
      assert Responsible(k, j, |s.work|) < |s.work|;
    }
    SameCells(d, s, s', k);
    LocalStep(d, s, s', c, k);
  }

  lemma StoreStep(d: Data, s: System, c: nat, k: nat)
    requires Inv(d, s, k) && c < |s.work|
    requires s.barrier.threads[c].pc == Barrier.Outside && s.work[c].Added?
    ensures Inv(d, Step(d, s, c), k)
  {
    hide Owner, Barrier.Inv;
    OutsidePart(d, s, c, k);
    var s', i, nc := Step(d, s, c), s.work[c].i, |s.work|;
    assert s' == AddStep(d, s, c, k, s.work[c]);
    OwnerBounds(i, i, nc);
    assert CellOk(d, k, i, Done(s, k, i), s.results[i], s.first[i], s.second[i]);
    forall j | 0 <= j < |s.results| && j != i
      ensures Done(s', k, j) == Done(s, k, j)
    {
      OwnerBounds(i, j, nc);
    }
    OneCell(d, s, s', k, i);
    LocalStep(d, s, s', c, k);
  }

  lemma CopyStep(d: Data, s: System, c: nat, k: nat)
    requires Inv(d, s, k) && c < |s.work|
    requires s.barrier.threads[c].pc == Barrier.Outside && s.work[c].Copying?
    ensures Inv(d, Step(d, s, c), k)
  {
    hide Owner, Barrier.Inv;
    OutsidePart(d, s, c, k);
    var s', i := Step(d, s, c), s.work[c].i;
    if i < |s.results| {
      assert CellOk(d, k, i, Done(s, k, i), s.results[i], s.first[i], s.second[i]);
      OneCell(d, s, s', k, i);
    } else {
      SameCells(d, s, s', k);
    }
    LocalStep(d, s, s', c, k);
  }

  lemma VerifiedMore(d: Data, i: nat)
    requires SameLength(d) && VerifiedTo(d, i) && i < |d.expected| && d.expected[i] == Sum(d, i)
    ensures VerifiedTo(d, i + 1)
  {
  }

  lemma VerifiedBound(d: Data, i: nat)
    requires SameLength(d) && VerifiedTo(d, i)
    ensures i <= |d.expected|
  {
  }

  /** The first index that differs is core 0's verdict. */
  lemma Mismatch(d: Data, i: nat)
    requires SameLength(d) && VerifiedTo(d, i) && i < |d.expected| && d.expected[i] != Sum(d, i)
    ensures IsVerdict(i + 1, Sums(d), d.expected)
  {
    assert Sums(d)[..i] == d.expected[..i];
  }

  /** A check never reads an index that is still being computed. */
  lemma ReadsSum(d: Data, s: System, c: nat, k: nat, j: nat)
    requires Inv(d, s, k) && c < |s.work| && j < |s.results|
    requires s.barrier.threads[c].pc == Barrier.Outside && (s.work[c].Checking? || s.work[c].CheckingSecond?)
    ensures s.results[j] == Sum(d, j)
  {
    hide Barrier.Inv;
    OutsidePart(d, s, c, k);
    assert CellOk(d, k, j, Done(s, k, j), s.results[j], s.first[j], s.second[j]);
  }

  lemma CheckWork(d: Data, s: System, c: nat, k: nat)
    requires Inv(d, s, k) && c < |s.work|
    requires s.barrier.threads[c].pc == Barrier.Outside && (s.work[c].Checking? || s.work[c].CheckingSecond?)
    ensures WorkOk(d, CheckStep(d, s, k, s.work[c]), c, |s.work|, k)
  {
    hide Barrier.Inv, CellsOk, Owner, VerifiedTo, IsVerdict, Sum, Sums;
    OutsidePart(d, s, c, k);
    var w, n := s.work[c], |d.expected|;
    var i := w.i;
    if w.Checking? {
      if i < n {
        ReadsSum(d, s, c, k, i);
        if i + 1 == n { CheckOne(d, i); }
      } else {
        VerifiedBound(d, i);
      }
    } else {
      ReadsSum(d, s, c, k, i + 1);
      CheckOne(d, i);
      if d.expected[i] == Sum(d, i) { CheckOne(d, i + 1); }
    }
  }

  lemma CheckOne(d: Data, i: nat)
    requires SameLength(d) && VerifiedTo(d, i) && i < |d.expected|
    ensures if d.expected[i] == Sum(d, i) then VerifiedTo(d, i + 1) else IsVerdict(i + 1, Sums(d), d.expected)
  {
    if d.expected[i] == Sum(d, i) { VerifiedMore(d, i); } else { Mismatch(d, i); }
  }

  lemma CheckingStep(d: Data, s: System, c: nat, k: nat)
    requires Inv(d, s, k) && c < |s.work|
    requires s.barrier.threads[c].pc == Barrier.Outside && (s.work[c].Checking? || s.work[c].CheckingSecond?)
    ensures Inv(d, Step(d, s, c), k)
  {
    hide Barrier.Inv, CellsOk, Owner, VerifiedTo, IsVerdict, Sum, Sums;
    OutsidePart(d, s, c, k);
    CheckWork(d, s, c, k);
    var s' := Step(d, s, c);
    SameCells(d, s, s', k);
    LocalStep(d, s, s', c, k);
  }

  lemma StartOk(d: Data, c: nat, ncores: nat, part: nat)
    requires SameLength(d) && c < ncores && part <= 5
    ensures WorkOk(d, Start(part, c), c, ncores, part)
  {
    OwnerBounds(c, c, ncores);
  }

  /** Nothing that a core is responsible for is finished when it starts a part. */
  lemma StartNotDone(s: System, c: nat, k: nat, j: nat)
    requires c < |s.work| == |s.barrier.threads| && 1 <= k <= 3
    requires s.barrier.threads[c].pc == Barrier.Outside && s.barrier.threads[c].entered == k
    requires s.work[c] == Start(k, c) && Responsible(k, j, |s.work|) == c
    ensures !Done(s, k, j)
  {
    OwnerBounds(j, j, |s.work|);
  }

  /** A step of core `c` in the barrier that does not complete it. */
  lemma InnerStep(d: Data, s: System, c: nat, k: nat)
    requires Inv(d, s, k) && c < |s.work|
    requires s.barrier.threads[c].pc != Barrier.Outside || s.work[c] == Idle
    requires s.barrier.threads[c].pc != Barrier.Publishing
    ensures Inv(d, Step(d, s, c), k)
  {
    hide Barrier.Inv, CellsOk, Owner, VerifiedTo, IsVerdict, Sum, Sums, WorkOk;
    var s', me := Step(d, s, c), s.barrier.threads[c];
    assert s' == BarrierStep(s, c);
    Barrier.InvStep(s.barrier, k, c);
    InnerCores(d, s, c, k);
    InnerDone(d, s, c, k);
    SameCells(d, s, s', k);
    InnerCheck(d, s, c, k);
  }

  lemma InnerCores(d: Data, s: System, c: nat, k: nat)
    requires Inv(d, s, k) && c < |s.work|
    requires s.barrier.threads[c].pc != Barrier.Outside || s.work[c] == Idle
    requires s.barrier.threads[c].pc != Barrier.Publishing
    ensures CoresOk(d, BarrierStep(s, c), k)
  {
    hide CellsOk, Owner, VerifiedTo, IsVerdict, Sum, Sums, WorkOk;
    var s', me := BarrierStep(s, c), s.barrier.threads[c];
    assert Barrier.ThreadOk(me, k) && CoreOk(d, s, c, k);
    StartOk(d, c, |s.work|, k);
    forall u | 0 <= u < |s'.work|
      ensures CoreOk(d, s', u, k)
    {
      if u != c { assert CoreOk(d, s, u, k); }
    }
  }

  lemma InnerDone(d: Data, s: System, c: nat, k: nat)
    requires Inv(d, s, k) && c < |s.work|
    requires s.barrier.threads[c].pc != Barrier.Outside || s.work[c] == Idle
    requires s.barrier.threads[c].pc != Barrier.Publishing
    ensures 1 <= k <= 3 ==> forall j :: 0 <= j < |s.results| ==> Done(BarrierStep(s, c), k, j) == Done(s, k, j)
  {
    hide CellsOk, Owner, VerifiedTo, IsVerdict, Sum, Sums, WorkOk, Start, Responsible;
    var s', me := BarrierStep(s, c), s.barrier.threads[c];
    assert Barrier.ThreadOk(me, k) && CoreOk(d, s, c, k);
    if 1 <= k <= 3 {
      forall j | 0 <= j < |s.results|
        ensures Done(s', k, j) == Done(s, k, j)
      {
        if Responsible(k, j, |s.work|) == c && me.pc == Barrier.Spinning && s'.barrier != s.barrier {
          StartNotDone(s', c, k, j);
        }
      }
    }
  }

  lemma InnerCheck(d: Data, s: System, c: nat, k: nat)
    requires Inv(d, s, k) && c < |s.work|
    requires s.barrier.threads[c].pc != Barrier.Outside || s.work[c] == Idle
    requires s.barrier.threads[c].pc != Barrier.Publishing
    ensures CheckOk(d, BarrierStep(s, c), k)
  {
    hide CellsOk, Owner, VerifiedTo, IsVerdict, Sum, Sums;
    var s', me := BarrierStep(s, c), s.barrier.threads[c];
    assert Barrier.ThreadOk(me, k) && CoreOk(d, s, c, k);
  }

  /** The step that completes barrier `k + 1`: part `k` is finished at every index. */
  lemma LastStep(d: Data, s: System, c: nat, k: nat)
    requires Inv(d, s, k) && c < |s.work| && s.barrier.threads[c].pc == Barrier.Publishing
    ensures Inv(d, Step(d, s, c), k + 1)
  {
    hide Barrier.Inv, CellsOk, Owner, VerifiedTo, IsVerdict, Sum, Sums, WorkOk, CoresOk;
    Barrier.InvStep(s.barrier, k, c);
    EveryoneArrived(s, c, k);
    assert s.barrier.threads[c].entered == k + 1;
    StartOk(d, c, |s.work|, k + 1);
    LastCores(d, s, c, k);
    LastCells(d, s, c, k);
  }

  lemma EveryoneArrived(s: System, c: nat, k: nat)
    requires Barrier.Inv(s.barrier, k) && c < |s.work| == |s.barrier.threads|
    requires s.barrier.threads[c].pc == Barrier.Publishing
    ensures forall u :: 0 <= u < |s.work| ==> s.barrier.threads[u].entered == k + 1 == s.barrier.threads[u].passed + 1
    ensures forall u :: 0 <= u < |s.work| && u != c ==> s.barrier.threads[u].pc == Barrier.Spinning
  {
    assert Barrier.Completing(s.barrier.threads[c].pc);
    forall u | 0 <= u < |s.work|
      ensures s.barrier.threads[u].entered == k + 1 == s.barrier.threads[u].passed + 1
      ensures u != c ==> s.barrier.threads[u].pc == Barrier.Spinning
    {
      assert Barrier.ThreadOk(s.barrier.threads[u], k);
      if u != c { assert Barrier.Waits(s.barrier.threads[u], k + 1); }
    }
  }

  lemma LastCores(d: Data, s: System, c: nat, k: nat)
    requires Shape(d, s) && CoresOk(d, s, k) && c < |s.work| && s.barrier.threads[c].pc == Barrier.Publishing
    requires s.barrier.threads[c].entered == k + 1 && k + 1 <= 5
    requires forall u :: 0 <= u < |s.work| && u != c ==> s.barrier.threads[u].pc == Barrier.Spinning
    ensures CoresOk(d, Step(d, s, c), k + 1)
  {
    hide CellsOk, Owner, VerifiedTo, IsVerdict, Sum, Sums, WorkOk, Start;
    var s', next := Step(d, s, c), k + 1;
    StartOk(d, c, |s.work|, next);
    forall u | 0 <= u < |s'.work|
      ensures CoreOk(d, s', u, next)
    {
      if u != c { assert CoreOk(d, s, u, k); }
    }
  }

  lemma LastCells(d: Data, s: System, c: nat, k: nat)
    requires Shape(d, s) && CellsOk(d, s, k) && c < |s.work| && s.barrier.threads[c].pc == Barrier.Publishing
    requires forall u :: 0 <= u < |s.work| ==> s.barrier.threads[u].entered == k + 1
    requires forall u :: 0 <= u < |s.work| && u != c ==> s.barrier.threads[u].pc == Barrier.Spinning
    ensures CellsOk(d, Step(d, s, c), k + 1)
  {
    hide Owner, Sum, Start, Responsible;
    var s' := Step(d, s, c);
    forall j | 0 <= j < |s'.results|
      ensures CellOk(d, k + 1, j, Done(s', k + 1, j), s'.results[j], s'.first[j], s'.second[j])
    {
      assert Done(s, k, j);
      assert CellOk(d, k, j, true, s.results[j], s.first[j], s.second[j]);
      if 1 <= k + 1 <= 3 && Responsible(k + 1, j, |s.work|) == c {
        StartNotDone(s', c, k + 1, j);
      }
    }
  }

  /** Every step of every core keeps the invariant. */
  lemma InvStep(d: Data, s: System, c: nat, k: nat)
    requires Inv(d, s, k) && c < |s.work|
    ensures Inv(d, Step(d, s, c), Barrier.Completed(s.barrier, k, c))
  {
    assert Shape(d, s);
    hide Inv;
    var pc := s.barrier.threads[c].pc;
    if pc == Barrier.Publishing {
      LastStep(d, s, c, k);
    } else if pc != Barrier.Outside || s.work[c].Idle? {
      InnerStep(d, s, c, k);
    } else {
      match s.work[c]
      case Adding(_) => LoadStep(d, s, c, k);
      case Added(_, _) => StoreStep(d, s, c, k);
      case Copying(_) => CopyStep(d, s, c, k);
      case Exited(_) =>
      case _ => CheckingStep(d, s, c, k);
    }
  }

  // ---------------------------------------------------------------------------------------
  // Every schedule

  /** The start: nobody has entered a barrier, and the result vector may hold anything. */
  function Init(d: Data, ncores: nat, results: seq<int>): System {
    System(Barrier.Init(ncores), seq(ncores, (c: nat) => Start(0, c)), results,
           seq(|results|, j => 0), seq(|results|, j => 0))
  }

  lemma InitInv(d: Data, ncores: nat, results: seq<int>)
    requires SameLength(d) && |results| == |d.input1| && ncores > 0
    ensures Inv(d, Init(d, ncores, results), 0)
  {
    Barrier.InitInv(ncores);
  }

  /** The state after the cores named in `schedule` have each done one step, in order. */
  ghost function Run(d: Data, ncores: nat, results: seq<int>, schedule: seq<nat>): (s: System)
    requires SameLength(d) && |results| == |d.input1| && ncores > 0
    requires Barrier.ValidSchedule(schedule, ncores)
    ensures Shape(d, s) && |s.work| == ncores
  {
    if schedule == [] then Init(d, ncores, results)
    else
      var i := |schedule| - 1;
      assert Barrier.ValidSchedule(schedule[..i], ncores);
      Step(d, Run(d, ncores, results, schedule[..i]), schedule[i])
  }

  lemma {:induction false} RunInv(d: Data, ncores: nat, results: seq<int>, schedule: seq<nat>) returns (k: nat)
    requires SameLength(d) && |results| == |d.input1| && ncores > 0
    requires Barrier.ValidSchedule(schedule, ncores)
    ensures Inv(d, Run(d, ncores, results, schedule), k)
  {
    hide Inv, Step;
    if schedule == [] {
      InitInv(d, ncores, results);
      k := 0;
    } else {
      var i := |schedule| - 1;
      assert Barrier.ValidSchedule(schedule[..i], ncores);
      var before := Run(d, ncores, results, schedule[..i]);
      k := RunInv(d, ncores, results, schedule[..i]);
      InvStep(d, before, schedule[i], k);
      k := Barrier.Completed(before.barrier, k, schedule[i]);
    }
  }

  /** Under every interleaving: a core that exits with 0 leaves the sums in the result vector,
      each index having been stored to exactly once in each addition; the program exits with
      another code only when the reference vector is not the sums, and then with the first
      index, counted from 1, at which it is not. */
  lemma EndToEnd(d: Data, ncores: nat, results: seq<int>, schedule: seq<nat>, c: nat)
    requires SameLength(d) && |results| == |d.input1| && ncores > 0
    requires Barrier.ValidSchedule(schedule, ncores) && c < ncores
    requires Run(d, ncores, results, schedule).work[c].Exited?
    ensures var s := Run(d, ncores, results, schedule);
            && IsVerdict(s.work[c].code, Sums(d), d.expected)
            && (s.work[c].code == 0 ==>
                 && s.results == Sums(d)
                 && forall j :: 0 <= j < |results| ==> s.first[j] == 1 && s.second[j] == 1)
  {
    var k := RunInv(d, ncores, results, schedule);
    var s := Run(d, ncores, results, schedule);
    ExitedOk(d, s, c, k);
  }

  lemma ExitedOk(d: Data, s: System, c: nat, k: nat)
    requires Inv(d, s, k) && c < |s.work| && s.work[c].Exited?
    ensures IsVerdict(s.work[c].code, Sums(d), d.expected)
    ensures s.work[c].code == 0 ==>
      (s.results == Sums(d) && forall j :: 0 <= j < |s.results| ==> s.first[j] == 1 && s.second[j] == 1)
  {
    hide Barrier.Inv, Owner, Done;
    assert CoreOk(d, s, c, k);
    if s.work[c].code == 0 {
      forall j | 0 <= j < |s.results|
        ensures s.results[j] == Sum(d, j) && s.first[j] == 1 && s.second[j] == 1
      {
        assert CellOk(d, k, j, Done(s, k, j), s.results[j], s.first[j], s.second[j]);
      }
      assert s.results == Sums(d);
      assert d.expected == Sums(d);
    }
  }

  /** Whenever core 0 is checking, in either check, every index it can read holds its sum. */
  lemma ChecksReadSums(d: Data, ncores: nat, results: seq<int>, schedule: seq<nat>, j: nat)
    requires SameLength(d) && |results| == |d.input1| && ncores > 0 && j < |results|
    requires Barrier.ValidSchedule(schedule, ncores)
    ensures var s := Run(d, ncores, results, schedule);
            (s.barrier.threads[0].pc == Barrier.Outside && (s.work[0].Checking? || s.work[0].CheckingSecond?) ==>
              s.results[j] == Sum(d, j))
  {
    hide Inv, Step;
    var k := RunInv(d, ncores, results, schedule);
    var s := Run(d, ncores, results, schedule);
    if s.barrier.threads[0].pc == Barrier.Outside && (s.work[0].Checking? || s.work[0].CheckingSecond?) {
      ReadsSum(d, s, 0, k, j);
    }
  }

  /** No deadlock: until some core has exited, some core's next step changes the state. */
  lemma SomeoneWorks(d: Data, ncores: nat, results: seq<int>, schedule: seq<nat>) returns (c: nat)
    requires SameLength(d) && |results| == |d.input1| && ncores > 0
    requires Barrier.ValidSchedule(schedule, ncores)
    requires forall u :: 0 <= u < ncores ==> !Run(d, ncores, results, schedule).work[u].Exited?
    ensures c < ncores
    ensures var s := Run(d, ncores, results, schedule); Step(d, s, c) != s
  {
    var k := RunInv(d, ncores, results, schedule);
    var s := Run(d, ncores, results, schedule);
    c := WorkRemains(d, s, k);
  }

  lemma WorkRemains(d: Data, s: System, k: nat) returns (c: nat)
    requires Inv(d, s, k)
    requires forall u :: 0 <= u < |s.work| ==> !s.work[u].Exited?
    ensures c < |s.work| && Step(d, s, c) != s
  {
    hide Barrier.Inv, CellsOk, Owner, VerifiedTo, IsVerdict, Sum, Sums, CheckOk;
    if u :| 0 <= u < |s.work| && s.barrier.threads[u].pc == Barrier.Outside {
      c := u;
      assert CoreOk(d, s, c, k);
      if s.work[c] == Idle {
        assert Step(d, s, c).barrier.threads[c].pc != Barrier.Outside;
      } else {
        assert Step(d, s, c).work[c] != s.work[c];
      }
    } else {
      c := Barrier.InvMoves(s.barrier, k);
      assert Step(d, s, c).barrier.threads[c].pc != s.barrier.threads[c].pc;
    }
  }
}
