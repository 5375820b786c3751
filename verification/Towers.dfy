/** The Towers of Hanoi, played with linked lists whose nodes come from a fixed pool: popping a
    disc gives its node back to the free list, pushing one takes a node from it. */
module Towers {
  import opened Arith

  // ---------------------------------------------------------------------------------------
  // The game

  /** The discs on three pegs, the top one first. */
  type Pegs = p: seq<seq<int>> | |p| == 3 witness [[], [], []]

  type Peg = n: nat | n < 3

  datatype Move = Move(from: Peg, to: Peg)

  function Apply(p: Pegs, m: Move): Pegs {
    if p[m.from] == [] || m.from == m.to then p
    else p[m.from := p[m.from][1..]][m.to := [p[m.from][0]] + p[m.to]]
  }

  /** There is a disc to move, and it does not go on top of a smaller one. */
  predicate Legal(p: Pegs, m: Move) {
    m.from != m.to && p[m.from] != [] && (p[m.to] != [] ==> p[m.from][0] < p[m.to][0])
  }

  function RunMoves(p: Pegs, ms: seq<Move>): Pegs
    decreases |ms|
  {
    if ms == [] then p else RunMoves(Apply(p, ms[0]), ms[1..])
  }

  predicate AllLegal(p: Pegs, ms: seq<Move>)
    decreases |ms|
  {
    ms == [] || (Legal(p, ms[0]) && AllLegal(Apply(p, ms[0]), ms[1..]))
  }

  /** The recursive strategy. */
  function Moves(n: nat, s: Peg, t: Peg, d: Peg): seq<Move> {
    if n <= 1 then [Move(s, d)] else Moves(n - 1, s, d, t) + [Move(s, d)] + Moves(n - 1, t, s, d)
  }

  lemma {:induction false} RunAppend(p: Pegs, ms: seq<Move>, ns: seq<Move>)
    ensures RunMoves(p, ms + ns) == RunMoves(RunMoves(p, ms), ns)
    ensures AllLegal(p, ms + ns) <==> AllLegal(p, ms) && AllLegal(RunMoves(p, ms), ns)
    decreases |ms|
  {
    if ms == [] {
      assert ms + ns == ns;
    } else {
      assert (ms + ns)[1..] == ms[1..] + ns;
      RunAppend(Apply(p, ms[0]), ms[1..], ns);
    }
  }

  predicate Distinct(s: Peg, t: Peg, d: Peg) { s != t && t != d && s != d }

  /** The top `n` discs of one peg, in their order, on top of another; the third as it was. */
  function Shifted(p: Pegs, n: nat, s: Peg, d: Peg): Pegs
    requires n <= |p[s]| && s != d
  {
    p[s := p[s][n..]][d := p[s][..n] + p[d]]
  }

  /** The strategy moves the top `n` discs in order, whatever their sizes. */
  lemma {:induction false} MovesShift(p: Pegs, n: nat, s: Peg, t: Peg, d: Peg)
    requires 1 <= n <= |p[s]| && Distinct(s, t, d)
    ensures RunMoves(p, Moves(n, s, t, d)) == Shifted(p, n, s, d)
    decreases n
  {
    if n == 1 {
      assert RunMoves(p, [Move(s, d)]) == Apply(p, Move(s, d));
      assert p[s][..1] == [p[s][0]];
    } else {
      var q := Shifted(p, n - 1, s, t);
      MovesShift(p, n - 1, s, d, t);
      var r := Apply(q, Move(s, d));
      MovesShift(r, n - 1, t, s, d);
      RunAppend(p, Moves(n - 1, s, d, t) + [Move(s, d)], Moves(n - 1, t, s, d));
      RunAppend(p, Moves(n - 1, s, d, t), [Move(s, d)]);
      assert RunMoves(q, [Move(s, d)]) == r;
      ThreeParts(p, n, s, t, d);
    }
  }

  lemma ThreeParts(p: Pegs, n: nat, s: Peg, t: Peg, d: Peg)
    requires 2 <= n <= |p[s]| && Distinct(s, t, d)
    ensures var r := Apply(Shifted(p, n - 1, s, t), Move(s, d));
      n - 1 <= |r[t]| && Shifted(r, n - 1, t, d) == Shifted(p, n, s, d)
  {
    var q := Shifted(p, n - 1, s, t);
    var r := Apply(q, Move(s, d));
    assert r[s] == p[s][n..] && r[d] == [p[s][n - 1]] + p[d] && r[t] == p[s][..n - 1] + p[t];
    var w := Shifted(r, n - 1, t, d);
    assert r[t][n - 1..] == p[t] && r[t][..n - 1] == p[s][..n - 1];
    assert p[s][..n - 1] + ([p[s][n - 1]] + p[d]) == p[s][..n] + p[d];
    assert w[s] == p[s][n..] && w[t] == p[t] && w[d] == p[s][..n] + p[d];
    assert forall i :: 0 <= i < 3 ==> w[i] == Shifted(p, n, s, d)[i];
  }

  lemma {:induction false} MovesCount(n: nat, s: Peg, t: Peg, d: Peg)
    requires n >= 1
    ensures |Moves(n, s, t, d)| == Pow2(n) - 1
  {
    if n > 1 {
      MovesCount(n - 1, s, d, t);
      MovesCount(n - 1, t, s, d);
    } else {
      assert Pow2(1) == 2 * Pow2(0);
    }
  }

  /** Smaller discs lie on larger ones. */
  predicate Ordered(peg: seq<int>) {
    forall i, j :: 0 <= i < j < |peg| ==> peg[i] < peg[j]
  }

  predicate AllOrdered(p: Pegs) { Ordered(p[0]) && Ordered(p[1]) && Ordered(p[2]) }

  /** A legal move keeps every peg in order. */
  lemma LegalKeepsOrder(p: Pegs, m: Move)
    requires AllOrdered(p) && Legal(p, m)
    ensures AllOrdered(Apply(p, m))
  {
    var q := Apply(p, m);
    assert Ordered(q[m.from]) by { assert q[m.from] == p[m.from][1..]; }
    assert Ordered(q[m.to]) by { assert q[m.to] == [p[m.from][0]] + p[m.to]; }
  }

  /** At every step of a legal sequence of moves, no larger disc lies on a smaller one. */
  lemma {:induction false} OrderedThroughout(p: Pegs, ms: seq<Move>, k: nat)
    requires AllOrdered(p) && AllLegal(p, ms) && k <= |ms|
    ensures AllOrdered(RunMoves(p, ms[..k]))
    decreases |ms|
  {
    if k > 0 {
      LegalKeepsOrder(p, ms[0]);
      OrderedThroughout(Apply(p, ms[0]), ms[1..], k - 1);
      assert ms[..k][1..] == ms[1..][..k - 1];
    }
  }

  /** The discs to be moved are smaller than everything on the other two pegs. */
  predicate CanMove(p: Pegs, n: nat, s: Peg, t: Peg, d: Peg) {
    && 1 <= n <= |p[s]| && Distinct(s, t, d) && AllOrdered(p)
    && (p[t] != [] ==> p[s][n - 1] < p[t][0]) && (p[d] != [] ==> p[s][n - 1] < p[d][0])
  }

  /** Then every move of the strategy is legal. */
  lemma {:induction false} MovesLegal(p: Pegs, n: nat, s: Peg, t: Peg, d: Peg)
    requires CanMove(p, n, s, t, d)
    ensures AllLegal(p, Moves(n, s, t, d))
    decreases n
  {
    if n == 1 {
      assert [Move(s, d)][1..] == [];
    } else {
      var q := Shifted(p, n - 1, s, t);
      var m := Move(s, d);
      Increases(p, s, n - 2, n - 1);
      hide Apply, Shifted, Legal, AllOrdered;
      MovesLegal(p, n - 1, s, d, t);
      MovesShift(p, n - 1, s, d, t);
      MiddleLegal(p, n, s, t, d);
      var r := Apply(q, m);
      MovesLegal(r, n - 1, t, s, d);
      RunAppend(p, Moves(n - 1, s, d, t), [m]);
      RunAppend(p, Moves(n - 1, s, d, t) + [m], Moves(n - 1, t, s, d));
      OneMove(q, m);
    }
  }

  lemma OneMove(p: Pegs, m: Move)
    ensures RunMoves(p, [m]) == Apply(p, m) && (AllLegal(p, [m]) <==> Legal(p, m))
  {
    assert RunMoves(Apply(p, m), []) == Apply(p, m);
  }

  /** Between the two recursive calls, the largest disc can move, and then the others onto it. */
  lemma MiddleLegal(p: Pegs, n: nat, s: Peg, t: Peg, d: Peg)
    requires CanMove(p, n, s, t, d) && n >= 2
    ensures var q := Shifted(p, n - 1, s, t);
      Legal(q, Move(s, d)) && CanMove(Apply(q, Move(s, d)), n - 1, t, s, d)
  {
    Increases(p, s, n - 2, n - 1);
    if n < |p[s]| { Increases(p, s, n - 2, n); }
    hide AllOrdered, Apply, Shifted, Legal;
    var q := Shifted(p, n - 1, s, t);
    ShiftedOrdered(p, n - 1, s, t, d);
    MiddlePegs(p, n, s, t, d);
    LegalKeepsOrder(q, Move(s, d));
    MiddleCanMove(p, Apply(q, Move(s, d)), n, s, t, d);
  }

  lemma MiddleCanMove(p: Pegs, r: Pegs, n: nat, s: Peg, t: Peg, d: Peg)
    requires 2 <= n <= |p[s]| && Distinct(s, t, d) && AllOrdered(r)
    requires r[s] == p[s][n..] && r[d] == [p[s][n - 1]] + p[d] && r[t] == p[s][..n - 1] + p[t]
    requires p[s][n - 2] < p[s][n - 1] && (n < |p[s]| ==> p[s][n - 2] < p[s][n])
    ensures CanMove(r, n - 1, t, s, d)
  {
    hide AllOrdered;
    assert r[t][n - 2] == p[s][n - 2];
  }

  lemma Increases(p: Pegs, s: Peg, i: nat, j: nat)
    requires AllOrdered(p) && i < j < |p[s]|
    ensures p[s][i] < p[s][j]
  {
  }

  lemma MiddlePegs(p: Pegs, n: nat, s: Peg, t: Peg, d: Peg)
    requires 2 <= n <= |p[s]| && Distinct(s, t, d) && (p[d] != [] ==> p[s][n - 1] < p[d][0])
    ensures var q := Shifted(p, n - 1, s, t);
      var r := Apply(q, Move(s, d));
      && Legal(q, Move(s, d))
      && r[s] == p[s][n..] && r[d] == [p[s][n - 1]] + p[d] && r[t] == p[s][..n - 1] + p[t]
  {
    var q := Shifted(p, n - 1, s, t);
    assert q[s] == p[s][n - 1..] && q[t] == p[s][..n - 1] + p[t] && q[d] == p[d];
  }

  lemma ShiftedOrdered(p: Pegs, n: nat, s: Peg, t: Peg, d: Peg)
    requires 1 <= n <= |p[s]| && Distinct(s, t, d) && AllOrdered(p) && (p[t] != [] ==> p[s][n - 1] < p[t][0])
    ensures AllOrdered(Shifted(p, n, s, t))
  {
    var q := Shifted(p, n, s, t);
    assert Ordered(p[s]) && Ordered(p[t]);
    assert Ordered(q[s]) by { assert q[s] == p[s][n..]; }
    StackOrdered(p[s][..n], p[t]);
    assert q[d] == p[d];
  }

  lemma StackOrdered(a: seq<int>, b: seq<int>)
    requires Ordered(a) && Ordered(b) && (a != [] && b != [] ==> a[|a| - 1] < b[0])
    ensures Ordered(a + b)
  {
    forall i, j | 0 <= i < j < |a + b|
      ensures (a + b)[i] < (a + b)[j]
    {
      if i < |a| && j >= |a| {
        assert a[i] <= a[|a| - 1] < b[0] <= b[j - |a|];
      }
    }
  }

  // ---------------------------------------------------------------------------------------
  // Lists in the pool. A pointer is the number of a node, or NULL.

  const NULL: int := -1

  /** The number of the free list, beside the three pegs. */
  const FREE: nat := 3

  /** Following `next` from `head` visits `nodes` and ends in NULL. */
  predicate Chain(next: seq<int>, head: int, nodes: seq<nat>)
    decreases |nodes|
  {
    if nodes == [] then head == NULL
    else head == nodes[0] && nodes[0] < |next| && Chain(next, next[nodes[0]], nodes[1..])
  }

  lemma {:induction false} ChainFrame(next: seq<int>, head: int, nodes: seq<nat>, n: nat, v: int)
    requires Chain(next, head, nodes) && n < |next| && n !in nodes
    ensures Chain(next[n := v], head, nodes)
    decreases |nodes|
  {
    if nodes != [] { ChainFrame(next, next[nodes[0]], nodes[1..], n, v); }
  }

  ghost predicate NoDuplicates(s: seq<nat>) {
    forall i, j :: 0 <= i < j < |s| ==> s[i] != s[j]
  }

  /** The four lists split the pool: `place` says which list each node is on. */
  ghost predicate Partition(nodes: seq<seq<nat>>, place: seq<nat>) {
    && |nodes| == 4
    && (forall l, i :: 0 <= l < 4 && 0 <= i < |nodes[l]| ==> nodes[l][i] < |place| && place[nodes[l][i]] == l)
    && (forall l :: 0 <= l < 4 ==> NoDuplicates(nodes[l]))
    && (forall n :: 0 <= n < |place| ==> place[n] < 4 && n in nodes[place[n]])
  }

  ghost predicate Linked(next: seq<int>, head: seq<int>, nodes: seq<seq<nat>>)
  {
    |head| == |nodes| == 4 && forall l :: 0 <= l < 4 ==> Chain(next, head[l], nodes[l])
  }

  /** The first node of list `l` becomes the first node of list `k`. */
  function NodesMoved(nodes: seq<seq<nat>>, l: nat, k: nat): seq<seq<nat>>
    requires |nodes| == 4 && l < 4 && k < 4 && nodes[l] != []
  {
    nodes[l := nodes[l][1..]][k := [nodes[l][0]] + nodes[k]]
  }

  lemma PartitionMoved(nodes: seq<seq<nat>>, place: seq<nat>, l: nat, k: nat)
    requires Partition(nodes, place) && l < 4 && k < 4 && l != k && nodes[l] != []
    ensures nodes[l][0] < |place|
    ensures Partition(NodesMoved(nodes, l, k), place[nodes[l][0] := k])
  {
    var n, nodes' := nodes[l][0], NodesMoved(nodes, l, k);
    var place' := place[n := k];
    assert NoDuplicates(nodes[l]) && NoDuplicates(nodes[k]);
    forall m | 0 <= m < 4
      ensures NoDuplicates(nodes'[m])
    {
      assert NoDuplicates(nodes[m]);
    }
    forall x | 0 <= x < |place'|
      ensures place'[x] < 4 && x in nodes'[place'[x]]
    {
      StillListed(nodes, place, l, k, x);
    }
  }

  lemma StillListed(nodes: seq<seq<nat>>, place: seq<nat>, l: nat, k: nat, x: nat)
    requires Partition(nodes, place) && l < 4 && k < 4 && l != k && nodes[l] != [] && x < |place|
    ensures var place' := place[nodes[l][0] := k];
      place'[x] < 4 && x in NodesMoved(nodes, l, k)[place'[x]]
  {
    hide NoDuplicates;
    var n, nodes' := nodes[l][0], NodesMoved(nodes, l, k);
    assert x in nodes[place[x]];
    if x == n {
      assert nodes'[k][0] == x;
    } else if place[x] == k {
      var i :| 0 <= i < |nodes[k]| && nodes[k][i] == x;
      assert nodes'[k][i + 1] == x;
    } else if place[x] == l {
      var i :| 0 <= i < |nodes[l]| && nodes[l][i] == x;
      assert nodes'[l][i - 1] == x;
    }
  }

  lemma LinkedMoved(next: seq<int>, head: seq<int>, nodes: seq<seq<nat>>, place: seq<nat>, l: nat, k: nat)
    requires Linked(next, head, nodes) && Partition(nodes, place) && |next| == |place|
    requires l < 4 && k < 4 && l != k && nodes[l] != []
    ensures var n := nodes[l][0];
      && n < |next| && head[l] == n
      && Linked(next[n := head[k]], head[l := next[n]][k := n], NodesMoved(nodes, l, k))
  {
    var n, nodes' := nodes[l][0], NodesMoved(nodes, l, k);
    var next', head' := next[n := head[k]], head[l := next[n]][k := n];
    assert Chain(next, head[l], nodes[l]) && Chain(next, head[k], nodes[k]);
    assert NoDuplicates(nodes[l]);
    forall m | 0 <= m < 4
      ensures Chain(next', head'[m], nodes'[m])
    {
      if m == l {
        ChainFrame(next, next[n], nodes[l][1..], n, head[k]);
      } else {
        assert Chain(next, head[m], nodes[m]);
        ChainFrame(next, head[m], nodes[m], n, head[k]);
        if m == k { assert nodes'[k][1..] == nodes[k]; }
      }
    }
  }

  // ---------------------------------------------------------------------------------------
  // The game on linked lists

  function Values(val: seq<int>, nodes: seq<nat>): (r: seq<int>)
    requires forall i :: 0 <= i < |nodes| ==> nodes[i] < |val|
    ensures |r| == |nodes|
  {
    seq(|nodes|, i requires 0 <= i < |nodes| => val[nodes[i]])
  }

  ghost predicate InPool(n: nat, nodes: seq<seq<nat>>) {
    |nodes| == 4 && forall l, i :: 0 <= l < 4 && 0 <= i < |nodes[l]| ==> nodes[l][i] < n
  }

  lemma PartitionInPool(nodes: seq<seq<nat>>, place: seq<nat>)
    requires Partition(nodes, place)
    ensures InPool(|place|, nodes)
  {
  }

  ghost function BoardOf(val: seq<int>, nodes: seq<seq<nat>>): Pegs
    requires InPool(|val|, nodes)
  {
    [Values(val, nodes[0]), Values(val, nodes[1]), Values(val, nodes[2])]
  }

  lemma NotElsewhere(nodes: seq<seq<nat>>, place: seq<nat>, l: nat, m: nat)
    requires Partition(nodes, place) && l < 4 && m < 4 && l != m && nodes[l] != []
    ensures nodes[l][0] !in nodes[m]
  {
    hide NoDuplicates;
    assert place[nodes[l][0]] == l;
  }

  lemma ValuesKept(val: seq<int>, nodes: seq<nat>, n: nat, v: int)
    requires (forall i :: 0 <= i < |nodes| ==> nodes[i] < |val|) && n < |val| && n !in nodes
    ensures Values(val[n := v], nodes) == Values(val, nodes)
  {
  }

  lemma PushBoard(val: seq<int>, nodes: seq<seq<nat>>, place: seq<nat>, l: Peg, v: int)
    requires Partition(nodes, place) && |place| == |val| && nodes[FREE] != []
    ensures InPool(|val|, nodes) && InPool(|val|, NodesMoved(nodes, FREE, l)) && nodes[FREE][0] < |val|
    ensures BoardOf(val[nodes[FREE][0] := v], NodesMoved(nodes, FREE, l))
         == BoardOf(val, nodes)[l := [v] + Values(val, nodes[l])]
  {
    var n, nodes' := nodes[FREE][0], NodesMoved(nodes, FREE, l);
    NotElsewhere(nodes, place, FREE, 0);
    NotElsewhere(nodes, place, FREE, 1);
    NotElsewhere(nodes, place, FREE, 2);
    PartitionInPool(nodes, place);
    hide Partition;
    ValuesKept(val, nodes[0], n, v);
    ValuesKept(val, nodes[1], n, v);
    ValuesKept(val, nodes[2], n, v);
    assert Values(val[n := v], [n] + nodes[l]) == [v] + Values(val[n := v], nodes[l]);
  }

  lemma BoardIs(val: seq<int>, nodes: seq<seq<nat>>, l: Peg)
    requires InPool(|val|, nodes)
    ensures |nodes| == 4 && forall i :: 0 <= i < |nodes[l]| ==> nodes[l][i] < |val|
    ensures BoardOf(val, nodes)[l] == Values(val, nodes[l])
  {
  }

  lemma PopBoard(val: seq<int>, nodes: seq<seq<nat>>, l: Peg)
    requires InPool(|val|, nodes) && nodes[l] != []
    ensures InPool(|val|, NodesMoved(nodes, l, FREE))
    ensures BoardOf(val, NodesMoved(nodes, l, FREE)) == BoardOf(val, nodes)[l := Values(val, nodes[l])[1..]]
  {
    assert Values(val, nodes[l][1..]) == Values(val, nodes[l])[1..];
  }

  function Iota(from: nat, n: nat): (r: seq<nat>)
    ensures |r| == n
  {
    seq(n, i requires 0 <= i < n => from + i)
  }

  /** Discs 1 to `n`, the smallest on top. */
  function Discs(from: nat, n: nat): (r: seq<int>)
    ensures |r| == n
  {
    seq(n, i requires 0 <= i < n => from + i)
  }

  lemma {:induction false} FreshChain(next: seq<int>, from: nat, n: nat)
    requires from + n == |next|
    requires forall i :: from <= i < |next| ==> next[i] == if i == |next| - 1 then NULL else i + 1
    ensures Chain(next, if n == 0 then NULL else from, Iota(from, n))
    decreases n
  {
    if n > 0 {
      FreshChain(next, from + 1, n - 1);
      assert Iota(from, n)[1..] == Iota(from + 1, n - 1);
    }
  }

  lemma FreshPartition(n: nat)
    ensures Partition([[], [], [], Iota(0, n)], seq(n, i => FREE))
  {
    var nodes, place := [[], [], [], Iota(0, n)], seq(n, i => FREE);
    forall x | 0 <= x < n
      ensures place[x] < 4 && x in nodes[place[x]]
    {
      assert nodes[FREE][x] == x;
    }
  }

  lemma NothingBelow(from: nat)
    ensures Discs(from, 0) == []
  {
  }

  lemma DiscOnTop(v: nat, i: nat)
    ensures [v] + Discs(v + 1, i) == Discs(v, i + 1)
  {
  }

  function Put(p: Pegs, d: Peg, v: int): Pegs { p[d := [v] + p[d]] }

  class Towers {
    /** The pool: `g_nodePool`. */
    const val: array<int>
    const next: array<int>
    /** The heads and sizes of the three pegs and, last, of the free list, whose size is only ever
        set at the start. */
    var head: seq<int>
    var size: seq<int>
    var numDiscs: int
    var numMoves: int
    ghost var nodes: seq<seq<nat>>
    ghost var place: seq<nat>
    /** The discs moved so far, since the last initialisation. */
    ghost var trace: seq<Move>

    ghost predicate Valid()
      reads this, val, next
    {
      && val != next && val.Length == next.Length == |place|
      && |head| == |size| == |nodes| == 4
      && Partition(nodes, place) && InPool(|place|, nodes) && Linked(next[..], head, nodes)
      && (forall l :: 0 <= l < 3 ==> size[l] == |nodes[l]|)
      && |nodes[0]| + |nodes[1]| + |nodes[2]| + |nodes[3]| == val.Length
    }

    /** The discs on the pegs, read off the lists. */
    ghost function Board(): Pegs
      requires Valid()
      reads this, val, next
    {
      BoardOf(val[..], nodes)
    }

    method ListPush(l: Peg, v: int)
      requires Valid() && nodes[FREE] != []
      modifies this`head, this`size, this`nodes, this`place, val, next
      ensures Valid() && Board() == old(Board())[l := [v] + old(Board())[l]]
      ensures nodes == NodesMoved(old(nodes), FREE, l)
    {
      hide Partition, Linked, Chain, BoardOf, InPool;
      PushBoard(val[..], nodes, place, l, v);
      BoardIs(val[..], nodes, l);
      PartitionMoved(nodes, place, FREE, l);
      LinkedMoved(next[..], head, nodes, place, FREE, l);
      var newNode := head[FREE];
      head := head[FREE := next[newNode]];
      next[newNode] := head[l];
      head := head[l := newNode];
      val[newNode] := v;
      size := size[l := size[l] + 1];
      ghost var n := nodes[FREE][0];
      place := place[n := l];
      nodes := NodesMoved(nodes, FREE, l);
    }

    method ListPop(l: Peg) returns (v: int)
      requires Valid() && nodes[l] != []
      modifies this`head, this`size, this`nodes, this`place, next
      ensures Valid() && Board() == old(Board())[l := old(Board())[l][1..]] && v == old(Board())[l][0]
      ensures nodes == NodesMoved(old(nodes), l, FREE) && nodes[FREE] != []
    {
      hide Partition, Linked, Chain, BoardOf, InPool;
      PopBoard(val[..], nodes, l);
      BoardIs(val[..], nodes, l);
      PartitionMoved(nodes, place, l, FREE);
      LinkedMoved(next[..], head, nodes, place, l, FREE);
      v := val[head[l]];
      var freedNode := head[l];
      head := head[l := next[freedNode]];
      next[freedNode] := head[FREE];
      head := head[FREE := freedNode];
      size := size[l := size[l] - 1];
      ghost var n := nodes[l][0];
      place := place[n := FREE];
      nodes := NodesMoved(nodes, l, FREE);
    }

    /** The free list takes in the whole pool, and the pegs are empty. */
    constructor (n: nat)
      requires n >= 1
      ensures Valid() && fresh(val) && fresh(next) && val.Length == n && Board() == [[], [], []]
    {
      val := new int[n](i => if i == n - 1 then 99 else i);
      next := new int[n](i => if i == n - 1 then NULL else i + 1);
      head := [NULL, NULL, NULL, 0];
      size := [0, 0, 0, n];
      numDiscs, numMoves := 0, 0;
      nodes := [[], [], [], Iota(0, n)];
      place := seq(n, i => FREE);
      trace := [];
      new;
      FreshPartition(n);
      FreshChain(next[..], 0, n);
    }

    method ListClear(l: Peg)
      requires Valid()
      modifies this`head, this`size, this`nodes, this`place, next
      ensures Valid() && Board() == old(Board())[l := []]
    {
      BoardLength(l);
      while size[l] > 0
        invariant Valid()
        invariant |Board()[l]| == size[l]
        invariant Board() == old(Board())[l := Board()[l]]
        decreases size[l]
      {
        assert Linked(next[..], head, nodes);
        var v := ListPop(l);
        BoardLength(l);
      }
      assert Board()[l] == [];
    }

    lemma BoardLength(l: Peg)
      requires Valid()
      ensures |Board()[l]| == size[l] == |nodes[l]|
    {
    }

    method Init(n: nat)
      requires Valid() && n <= val.Length && Board() == [[], [], []]
      modifies this, val, next
      ensures Valid() && Board() == [Discs(1, n), [], []]
      ensures numDiscs == n && numMoves == 0 && trace == []
    {
      hide Partition, Linked, BoardOf, InPool, Discs;
      numDiscs := n;
      numMoves := 0;
      trace := [];
      ListInit();
      NothingBelow(n + 1);
      var i := 0;
      while i < n
        invariant i <= n && Valid() && numDiscs == n && numMoves == 0 && trace == []
        invariant Board() == [Discs(n - i + 1, i), [], []]
      {
        FreeNodes();
        ListPush(0, n - i);
        DiscOnTop(n - i, i);
        i := i + 1;
      }
    }

    /** `list_init` of the three pegs, which are empty already. */
    method ListInit()
      requires Valid() && Board() == [[], [], []]
      modifies this`head, this`size
      ensures Valid() && Board() == [[], [], []]
    {
      EmptyLists();
      head := head[0 := NULL][1 := NULL][2 := NULL];
      size := size[0 := 0][1 := 0][2 := 0];
      assert head == old(head) && size == old(size);
    }

    /** A disc that is not on a peg has a node on the free list. */
    lemma FreeNodes()
      requires Valid() && |Board()[0]| + |Board()[1]| + |Board()[2]| < val.Length
      ensures nodes[FREE] != []
    {
      BoardLength(0);
      BoardLength(1);
      BoardLength(2);
    }

    /** Empty pegs have null heads and sizes 0 already. */
    lemma EmptyLists()
      requires Valid() && Board() == [[], [], []]
      ensures nodes[0] == nodes[1] == nodes[2] == []
      ensures head[0] == head[1] == head[2] == NULL && size[0] == size[1] == size[2] == 0
    {
      BoardLength(0);
      BoardLength(1);
      BoardLength(2);
      assert Chain(next[..], head[0], nodes[0]) && Chain(next[..], head[1], nodes[1]) && Chain(next[..], head[2],
          nodes[2]);
    }

    method Clear()
      requires Valid() && 0 <= numDiscs <= val.Length
      modifies this, val, next
      ensures Valid() && Board() == [Discs(1, old(numDiscs)), [], []]
      ensures numDiscs == old(numDiscs) && numMoves == 0 && trace == []
    {
      ListClear(0);
      ListClear(1);
      ListClear(2);
      Init(numDiscs);
    }

    /** The recursive solution. It plays exactly the moves of the strategy. */
    method SolveH(n: nat, s: Peg, t: Peg, d: Peg)
      requires Valid() && 1 <= n <= |Board()[s]| && Distinct(s, t, d)
      modifies this`head, this`size, this`nodes, this`place, this`numMoves, this`trace, val, next
      ensures Valid() && trace == old(trace) + Moves(n, s, t, d)
      ensures Board() == Shifted(old(Board()), n, s, d) == RunMoves(old(Board()), Moves(n, s, t, d))
      ensures numMoves == old(numMoves) + Pow2(n) - 1
      decreases n
    {
      hide Partition, Linked, BoardOf, InPool, RunMoves, Moves, Pow2;
      ghost var p := Board();
      MovesShift(p, n, s, t, d);
      MovesStep(n, s, t, d);
      if n == 1 {
        SolveOne(s, d);
      } else {
        OneThenThree(p, n, s, t, d);
        hide Shifted;
        SolveH(n - 1, s, d, t);
        SolveH(1, s, t, d);
        SolveH(n - 1, t, s, d);
      }
    }

    /** The bottom of the recursion. */
    method SolveOne(s: Peg, d: Peg)
      requires Valid() && Board()[s] != [] && s != d
      modifies this`head, this`size, this`nodes, this`place, this`numMoves, this`trace, val, next
      ensures Valid() && trace == old(trace) + [Move(s, d)] && numMoves == old(numMoves) + 1
      ensures Board() == Shifted(old(Board()), 1, s, d)
    {
      OneDisc(Board(), s, d);
      hide Shifted;
      MoveDisc(s, d);
      numMoves := numMoves + 1;
      trace := trace + [Move(s, d)];
    }

    /** A disc comes off one peg and goes onto another. */
    method MoveDisc(s: Peg, d: Peg)
      requires Valid() && Board()[s] != [] && s != d
      modifies this`head, this`size, this`nodes, this`place, val, next
      ensures Valid() && Board() == Put(old(Board())[s := old(Board())[s][1..]], d, old(Board())[s][0])
    {
      BoardLength(s);
      hide Partition, Linked, BoardOf, InPool, NodesMoved;
      var v := ListPop(s);
      ListPush(d, v);
    }

    /** Returns 0 exactly when all the discs are on the last peg, in order, after the least possible
        number of moves; otherwise says what is wrong. */
    method Verify() returns (code: int)
      requires Valid() && numDiscs >= 0
      ensures code == 0 <==> Board() == [[], [], Discs(1, numDiscs)] && numMoves == Pow2(numDiscs) - 1
      ensures code == 2 <==> Board()[0] != []
      ensures code == 3 <==> Board()[0] == [] && Board()[1] != []
      ensures code in {0, 2, 3, 4, 5, 6}
    {
      BoardLength(0);
      BoardLength(1);
      BoardLength(2);
      if size[0] != 0 { return 2; }
      if size[1] != 0 { return 3; }
      if size[2] != numDiscs { return 4; }
      var ptr, count := head[2], 0;
      assert Chain(next[..], head[2], nodes[2]);
      assert nodes[2][0..] == nodes[2];
      while ptr != NULL
        invariant 0 <= count <= |nodes[2]| && Chain(next[..], ptr, nodes[2][count..])
        invariant forall i :: 0 <= i < count ==> Board()[2][i] == i + 1
        decreases |nodes[2]| - count
      {
        assert nodes[2][count..][1..] == nodes[2][count + 1..];
        count := count + 1;
        if val[ptr] != count {
          assert Board()[2][count - 1] != Discs(1, numDiscs)[count - 1];
          return 5;
        }
        ptr := next[ptr];
      }
      assert Board()[2] == Discs(1, numDiscs);
      if numMoves != Pow2(numDiscs) - 1 { return 6; }
      return 0;
    }
  }

  lemma MovesStep(n: nat, s: Peg, t: Peg, d: Peg)
    requires n >= 1
    ensures n == 1 ==> Moves(n, s, t, d) == [Move(s, d)] && Pow2(n) == 2
    ensures n > 1 ==> Moves(n, s, t, d) == Moves(n - 1, s, d, t) + Moves(1, s, t, d) + Moves(n - 1, t, s, d)
    ensures n > 1 ==> Pow2(n) == 2 * Pow2(n - 1) && Pow2(1) == 2
  {
    assert Pow2(1) == 2 * Pow2(0);
  }

  lemma OneDisc(p: Pegs, s: Peg, d: Peg)
    requires p[s] != [] && s != d
    ensures Put(p[s := p[s][1..]], d, p[s][0]) == Shifted(p, 1, s, d)
  {
    assert p[s][..1] == [p[s][0]];
  }

  lemma OneThenThree(p: Pegs, n: nat, s: Peg, t: Peg, d: Peg)
    requires 1 <= n <= |p[s]| && Distinct(s, t, d)
    ensures n >= 2 ==> var q := Shifted(p, n - 1, s, t);
      && 1 <= |q[s]| && n - 1 <= |Shifted(q, 1, s, d)[t]|
      && Shifted(Shifted(q, 1, s, d), n - 1, t, d) == Shifted(p, n, s, d)
  {
    if n >= 2 {
      var q := Shifted(p, n - 1, s, t);
      ThreeParts(p, n, s, t, d);
      OneDisc(q, s, d);
    }
  }

  /** The whole program, with or without a rehearsal, for any number of discs. */
  method Play(n: nat, preallocate: bool) returns (code: int, ghost moves: seq<Move>)
    requires n >= 1
    ensures code == 0 && |moves| == Pow2(n) - 1
    ensures AllLegal([Discs(1, n), [], []], moves) && RunMoves([Discs(1, n), [], []], moves) == [[], [], Discs(1, n)]
  {
    ghost var p: Pegs := [Discs(1, n), [], []];
    StartCanMove(n);
    MovesLegal(p, n, 0, 1, 2);
    MovesCount(n, 0, 1, 2);
    MovesShift(p, n, 0, 1, 2);
    AllShifted(n);
    hide Partition, Linked, BoardOf, InPool, Discs, RunMoves, AllLegal, Moves, CanMove, Shifted, Pow2;
    var towers := new Towers(n);
    towers.Init(n);
    if preallocate {
      towers.SolveH(towers.numDiscs, 0, 1, 2);
    }
    towers.Clear();
    towers.SolveH(towers.numDiscs, 0, 1, 2);
    code := towers.Verify();
    moves := towers.trace;
    assert moves == Moves(n, 0, 1, 2);
  }

  lemma StartCanMove(n: nat)
    requires n >= 1
    ensures CanMove([Discs(1, n), [], []], n, 0, 1, 2)
  {
  }

  lemma AllShifted(n: nat)
    ensures Shifted([Discs(1, n), [], []], n, 0, 2) == [[], [], Discs(1, n)]
  {
    assert Discs(1, n)[..n] + [] == Discs(1, n);
    assert Discs(1, n)[n..] == [];
  }
}
