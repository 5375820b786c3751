/** The sense-reversing barrier as a state machine: any number of threads, one atomic memory
    operation per step, sequentially consistent, reused without bound. */
module Barrier {
  /** Where a thread stands: outside the barrier; with its own sense flipped; having arrived last
      and about to clear the counter; about to publish the new sense; or waiting for it. */
  datatype Pc = Outside | Flipped | Clearing | Publishing | Spinning

  /** `sense` is the thread-local flag. The counters record how many barriers the thread has
      entered and left. */
  datatype Thread = Thread(pc: Pc, sense: bool, entered: nat, passed: nat)

  /** The two shared words and the threads. */
  datatype State = State(count: int, sense: bool, threads: seq<Thread>)

  const NEW_THREAD := Thread(Outside, false, 0, 0)

  function Init(n: nat): State {
    State(0, false, seq(n, i => NEW_THREAD))
  }

  /** The next atomic operation of thread `t`. */
  function Next(s: State, t: nat): State
    requires t < |s.threads|
  {
    var me := s.threads[t];
    match me.pc
    case Outside =>
      s.(threads := s.threads[t := Thread(Flipped, !me.sense, me.entered + 1, me.passed)])
    case Flipped =>
      // __sync_fetch_and_add(&count, 1) == ncores - 1
      var last := s.count == |s.threads| - 1;
      s.(count := s.count + 1, threads := s.threads[t := me.(pc := if last then Clearing else Spinning)])
    case Clearing =>
      s.(count := 0, threads := s.threads[t := me.(pc := Publishing)])
    case Publishing =>
      s.(sense := me.sense, threads := s.threads[t := me.(pc := Outside, passed := me.entered)])
    case Spinning =>
      if s.sense != me.sense then s
      else s.(threads := s.threads[t := me.(pc := Outside, passed := me.entered)])
  }

  // ---------------------------------------------------------------------------------------
  // Invariant

  /** The thread waits in barrier number `e`. */
  predicate Waits(t: Thread, e: nat) { t.pc == Spinning && t.entered == e }

  function Waiting(threads: seq<Thread>, e: nat): nat {
    if threads == [] then 0
    else (if Waits(threads[0], e) then 1 else 0) + Waiting(threads[1..], e)
  }

  predicate IsOdd(n: nat) { n % 2 == 1 }

  /** What is known of one thread when `k` barriers have been completed. */
  predicate ThreadOk(t: Thread, k: nat) {
    && t.sense == IsOdd(t.entered)
    && match t.pc
       case Outside => t.entered == t.passed == k
       case Spinning => t.passed + 1 == t.entered && (t.entered == k || t.entered == k + 1)
       case _ => t.entered == k + 1 && t.passed == k
  }

  predicate Completing(pc: Pc) { pc == Clearing || pc == Publishing }

  ghost predicate OthersWait(s: State, t: nat, e: nat) {
    forall u :: 0 <= u < |s.threads| && u != t ==> Waits(s.threads[u], e)
  }

  /** `k` barriers have been completed: the shared sense tells their parity, every thread is on
      one side or the other of the next, and the counter holds the arrivals, except between the
      last arrival and the publication, when everybody else waits. */
  ghost predicate Inv(s: State, k: nat) {
    && s.sense == IsOdd(k)
    && (forall t :: 0 <= t < |s.threads| ==> ThreadOk(s.threads[t], k))
    && (forall t :: 0 <= t < |s.threads| && Completing(s.threads[t].pc) ==>
         OthersWait(s, t, k + 1) && s.count == if s.threads[t].pc == Clearing then |s.threads| else 0)
    && ((forall t :: 0 <= t < |s.threads| ==> !Completing(s.threads[t].pc)) ==>
         s.count == Waiting(s.threads, k + 1) && (|s.threads| > 0 ==> s.count < |s.threads|))
  }

  lemma {:induction false} NoneWaiting(threads: seq<Thread>, e: nat)
    requires forall t :: 0 <= t < |threads| ==> !Waits(threads[t], e)
    ensures Waiting(threads, e) == 0
  {
    if threads != [] {
      forall t | 0 <= t < |threads[1..]|
        ensures !Waits(threads[1..][t], e)
      {
        assert threads[1..][t] == threads[t + 1];
      }
      NoneWaiting(threads[1..], e);
    }
  }

  lemma {:induction false} WaitingUpdate(threads: seq<Thread>, t: nat, me: Thread, e: nat)
    requires t < |threads|
    ensures Waiting(threads[t := me], e) ==
      Waiting(threads, e) - (if Waits(threads[t], e) then 1 else 0) + (if Waits(me, e) then 1 else 0)
  {
    if t > 0 {
      assert threads[t := me][1..] == threads[1..][t - 1 := me];
      WaitingUpdate(threads[1..], t - 1, me, e);
    } else {
      assert threads[t := me][1..] == threads[1..];
    }
  }

  lemma {:induction false} WaitingBound(threads: seq<Thread>, e: nat, t: nat)
    requires t < |threads| && !Waits(threads[t], e)
    ensures Waiting(threads, e) < |threads|
  {
    if t > 0 {
      WaitingBound(threads[1..], e, t - 1);
    } else {
      WaitingAtMost(threads[1..], e);
    }
  }

  lemma {:induction false} WaitingAtMost(threads: seq<Thread>, e: nat)
    ensures Waiting(threads, e) <= |threads|
  {
    if threads != [] { WaitingAtMost(threads[1..], e); }
  }

  /** When all but one are counted as waiting, they all wait. */
  lemma {:induction false} AllOthersWait(threads: seq<Thread>, e: nat, t: nat)
    requires t < |threads| && !Waits(threads[t], e) && Waiting(threads, e) == |threads| - 1
    ensures forall u :: 0 <= u < |threads| && u != t ==> Waits(threads[u], e)
  {
    if u :| 0 <= u < |threads| && u != t && !Waits(threads[u], e) {
      var one := threads[u].(pc := Spinning, entered := e);
      WaitingUpdate(threads, u, one, e);
      WaitingBound(threads[u := one], e, t);
    }
  }

  lemma InitInv(n: nat)
    ensures Inv(Init(n), 0)
  {
    NoneWaiting(Init(n).threads, 1);
  }

  /** The number of completed barriers after a step of thread `t`. */
  function Completed(s: State, k: nat, t: nat): nat
    requires t < |s.threads|
  {
    if s.threads[t].pc == Publishing then k + 1 else k
  }

  lemma InvEnter(s: State, k: nat, t: nat)
    requires Inv(s, k) && t < |s.threads| && s.threads[t].pc == Outside
    ensures Inv(Next(s, t), k)
  {
    WaitingUpdate(s.threads, t, Next(s, t).threads[t], k + 1);
  }

  lemma InvArrive(s: State, k: nat, t: nat)
    requires Inv(s, k) && t < |s.threads| && s.threads[t].pc == Flipped
    ensures Inv(Next(s, t), k)
  {
    var s' := Next(s, t);
    WaitingUpdate(s.threads, t, s'.threads[t], k + 1);
    if s.count == |s.threads| - 1 {
      AllOthersWait(s.threads, k + 1, t);
    } else {
      WaitingAtMost(s'.threads, k + 1);
    }
  }

  lemma InvClear(s: State, k: nat, t: nat)
    requires Inv(s, k) && t < |s.threads| && s.threads[t].pc == Clearing
    ensures Inv(Next(s, t), k)
  {
    assert Completing(s.threads[t].pc);
    assert Completing(Next(s, t).threads[t].pc);
  }

  lemma InvPublish(s: State, k: nat, t: nat)
    requires Inv(s, k) && t < |s.threads| && s.threads[t].pc == Publishing
    ensures Inv(Next(s, t), k + 1)
  {
    assert Completing(s.threads[t].pc);
    NoneWaiting(Next(s, t).threads, k + 2);
  }

  lemma InvSpin(s: State, k: nat, t: nat)
    requires Inv(s, k) && t < |s.threads| && s.threads[t].pc == Spinning
    ensures Inv(Next(s, t), k)
  {
    if s.sense == s.threads[t].sense {
      assert s.threads[t].entered == k;
      WaitingUpdate(s.threads, t, Next(s, t).threads[t], k + 1);
    }
  }

  /** Every atomic step of every thread keeps the invariant. */
  lemma InvStep(s: State, k: nat, t: nat)
    requires Inv(s, k) && t < |s.threads|
    ensures Inv(Next(s, t), Completed(s, k, t))
  {
    match s.threads[t].pc
    case Outside => InvEnter(s, k, t);
    case Flipped => InvArrive(s, k, t);
    case Clearing => InvClear(s, k, t);
    case Publishing => InvPublish(s, k, t);
    case Spinning => InvSpin(s, k, t);
  }

  // ---------------------------------------------------------------------------------------
  // Every schedule

  ghost predicate ValidSchedule(schedule: seq<nat>, n: nat) {
    forall i :: 0 <= i < |schedule| ==> schedule[i] < n
  }

  /** The state after the threads named in `schedule` have each done one atomic step, in order. */
  ghost function Run(n: nat, schedule: seq<nat>): (s: State)
    requires ValidSchedule(schedule, n)
    ensures |s.threads| == n
  {
    if schedule == [] then Init(n)
    else
      var i := |schedule| - 1;
      assert ValidSchedule(schedule[..i], n);
      Next(Run(n, schedule[..i]), schedule[i])
  }

  /** The number of barriers completed along a schedule. */
  ghost function Barriers(n: nat, schedule: seq<nat>): nat
    requires ValidSchedule(schedule, n)
  {
    if schedule == [] then 0
    else
      var i := |schedule| - 1;
      assert ValidSchedule(schedule[..i], n);
      Completed(Run(n, schedule[..i]), Barriers(n, schedule[..i]), schedule[i])
  }

  lemma {:induction false} RunInv(n: nat, schedule: seq<nat>)
    requires ValidSchedule(schedule, n)
    ensures Inv(Run(n, schedule), Barriers(n, schedule))
  {
    hide Inv;
    if schedule == [] {
      InitInv(n);
    } else {
      var i := |schedule| - 1;
      assert ValidSchedule(schedule[..i], n);
      RunInv(n, schedule[..i]);
      InvStep(Run(n, schedule[..i]), Barriers(n, schedule[..i]), schedule[i]);
    }
  }

  /** Safety: whatever the interleaving and however often the barrier is reused, a thread has
      left at most the barriers that every thread has entered, two threads are never more than
      one barrier apart, and the counter stays within the number of threads. */
  lemma Safety(n: nat, schedule: seq<nat>, t: nat, u: nat)
    requires ValidSchedule(schedule, n) && t < n && u < n
    ensures var s := Run(n, schedule);
            && s.threads[t].passed <= s.threads[u].entered
            && s.threads[t].passed <= s.threads[u].passed + 1
            && s.threads[t].entered <= s.threads[u].entered + 1
            && 0 <= s.count <= n
  {
    RunInv(n, schedule);
    InvSafety(Run(n, schedule), Barriers(n, schedule), t, u);
  }

  lemma InvSafety(s: State, k: nat, t: nat, u: nat)
    requires Inv(s, k) && t < |s.threads| && u < |s.threads|
    ensures s.threads[t].passed <= s.threads[u].entered
    ensures s.threads[t].passed <= s.threads[u].passed + 1
    ensures s.threads[t].entered <= s.threads[u].entered + 1
    ensures 0 <= s.count <= |s.threads|
  {
    assert ThreadOk(s.threads[t], k) && ThreadOk(s.threads[u], k);
    if x :| 0 <= x < |s.threads| && Completing(s.threads[x].pc) {
      assert ThreadOk(s.threads[x], k);
    }
  }

  // ---------------------------------------------------------------------------------------
  // Progress

  lemma InvMoves(s: State, k: nat) returns (t: nat)
    requires Inv(s, k) && |s.threads| > 0
    requires forall u :: 0 <= u < |s.threads| ==> s.threads[u].pc != Outside
    ensures t < |s.threads| && Next(s, t).threads[t].pc != s.threads[t].pc
  {
    if u :| 0 <= u < |s.threads| && s.threads[u].pc != Spinning {
      t := u;
    } else {
      t := NotWaiting(s.threads, k + 1);
      assert ThreadOk(s.threads[t], k);
    }
  }

  /** When every thread is inside the barrier, some thread's next operation is not a vain poll. */
  lemma SomeoneMoves(n: nat, schedule: seq<nat>) returns (t: nat)
    requires ValidSchedule(schedule, n) && n > 0
    requires forall u :: 0 <= u < n ==> Run(n, schedule).threads[u].pc != Outside
    ensures t < n && Next(Run(n, schedule), t) != Run(n, schedule)
  {
    RunInv(n, schedule);
    t := InvMoves(Run(n, schedule), Barriers(n, schedule));
  }

  lemma {:induction false} NotWaiting(threads: seq<Thread>, e: nat) returns (t: nat)
    requires Waiting(threads, e) < |threads|
    ensures t < |threads| && !Waits(threads[t], e)
  {
    if Waits(threads[0], e) {
      t := NotWaiting(threads[1..], e);
      t := t + 1;
    } else {
      t := 0;
    }
  }

  /** How many effective steps the thread can still do before it is outside again. */
  function Rank(t: Thread, sense: bool): nat {
    match t.pc
    case Outside => 0
    case Flipped => 5
    case Clearing => 4
    case Publishing => 3
    case Spinning => if t.sense == sense then 1 else 2
  }

  function TotalRank(threads: seq<Thread>, sense: bool): nat {
    if threads == [] then 0 else Rank(threads[0], sense) + TotalRank(threads[1..], sense)
  }

  lemma {:induction false} TotalRankUpdate(threads: seq<Thread>, t: nat, me: Thread, sense: bool)
    requires t < |threads|
    ensures TotalRank(threads[t := me], sense)
         == TotalRank(threads, sense) - Rank(threads[t], sense) + Rank(me, sense)
  {
    if t > 0 {
      assert threads[t := me][1..] == threads[1..][t - 1 := me];
      TotalRankUpdate(threads[1..], t - 1, me, sense);
    } else {
      assert threads[t := me][1..] == threads[1..];
    }
  }

  lemma {:induction false} Released(threads: seq<Thread>, sense: bool)
    requires forall t :: 0 <= t < |threads| && threads[t].pc == Spinning ==> threads[t].sense == sense
    ensures TotalRank(threads, sense) <= TotalRank(threads, !sense)
  {
    if threads != [] {
      assert Rank(threads[0], sense) <= Rank(threads[0], !sense);
      Released(threads[1..], sense);
    }
  }

  /** Publishing the new sense releases every waiting thread. */
  lemma PublishReleases(s: State, k: nat, t: nat)
    requires Inv(s, k) && t < |s.threads| && s.threads[t].pc == Publishing
    ensures var s' := Next(s, t); TotalRank(s'.threads, s'.sense) <= TotalRank(s'.threads, s.sense)
  {
    hide TotalRank;
    var s' := Next(s, t);
    assert Completing(s.threads[t].pc) && ThreadOk(s.threads[t], k);
    assert s'.sense == !s.sense;
    forall u | 0 <= u < |s'.threads| && s'.threads[u].pc == Spinning
      ensures s'.threads[u].sense == s'.sense
    {
      assert u != t && Waits(s.threads[u], k + 1) && ThreadOk(s.threads[u], k);
    }
    Released(s'.threads, s'.sense);
  }

  lemma RankDrops(s: State, k: nat, t: nat)
    requires Inv(s, k) && t < |s.threads| && s.threads[t].pc != Outside && Next(s, t) != s
    ensures TotalRank(Next(s, t).threads, Next(s, t).sense) < TotalRank(s.threads, s.sense)
  {
    hide Inv, TotalRank;
    var s' := Next(s, t);
    TotalRankUpdate(s.threads, t, s'.threads[t], s.sense);
    if s.threads[t].pc == Publishing {
      PublishReleases(s, k, t);
    }
  }

  /** No livelock: a step that changes the state without a thread entering the barrier uses up
      rank, and there are at most five units of it per thread. */
  lemma StepsRunOut(n: nat, schedule: seq<nat>, t: nat)
    requires ValidSchedule(schedule, n) && t < n
    ensures var s := Run(n, schedule);
            && TotalRank(s.threads, s.sense) <= 5 * n
            && (s.threads[t].pc != Outside && Next(s, t) != s ==>
                 TotalRank(Next(s, t).threads, Next(s, t).sense) < TotalRank(s.threads, s.sense))
  {
    hide Inv, TotalRank, Next;
    var s := Run(n, schedule);
    RunInv(n, schedule);
    RankAtMost(s.threads, s.sense);
    if s.threads[t].pc != Outside && Next(s, t) != s {
      RankDrops(s, Barriers(n, schedule), t);
    }
  }

  lemma {:induction false} RankAtMost(threads: seq<Thread>, sense: bool)
    ensures TotalRank(threads, sense) <= 5 * |threads|
  {
    if threads != [] { RankAtMost(threads[1..], sense); }
  }
}
