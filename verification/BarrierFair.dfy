/** Fairness: if every thread keeps coming, every thread that has entered the barrier leaves it. */
module BarrierFair {
  import opened Barrier

  /** The state and the number of completed barriers after more steps, from any state. */
  ghost function After(s: State, k: nat, steps: seq<nat>): (r: (State, nat))
    requires ValidSchedule(steps, |s.threads|)
    ensures |r.0.threads| == |s.threads|
  {
    if steps == [] then (s, k)
    else
      var i := |steps| - 1;
      assert ValidSchedule(steps[..i], |s.threads|);
      var (t, j) := After(s, k, steps[..i]);
      (Next(t, steps[i]), Completed(t, j, steps[i]))
  }

  lemma {:induction false} RunAfter(n: nat, first: seq<nat>, steps: seq<nat>)
    requires ValidSchedule(first, n) && ValidSchedule(steps, n)
    ensures ValidSchedule(first + steps, n)
    ensures After(Run(n, first), Barriers(n, first), steps) == (Run(n, first + steps), Barriers(n, first + steps))
  {
    hide Next, Completed;
    if steps == [] {
      assert first + steps == first;
    } else {
      var i := |steps| - 1;
      var all := first + steps;
      assert all[..|all| - 1] == first + steps[..i] && all[|all| - 1] == steps[i];
      RunAfter(n, first, steps[..i]);
    }
  }

  lemma {:induction false} AfterJoins(s: State, k: nat, a: seq<nat>, b: seq<nat>)
    requires ValidSchedule(a, |s.threads|) && ValidSchedule(b, |s.threads|)
    ensures ValidSchedule(a + b, |s.threads|)
    ensures After(s, k, a + b) == After(After(s, k, a).0, After(s, k, a).1, b)
  {
    hide Next, Completed;
    if b == [] {
      assert a + b == a;
    } else {
      var i := |b| - 1;
      assert (a + b)[..|a + b| - 1] == a + b[..i];
      AfterJoins(s, k, a, b[..i]);
    }
  }

  lemma {:induction false} AfterInv(s: State, k: nat, steps: seq<nat>)
    requires Inv(s, k) && ValidSchedule(steps, |s.threads|)
    ensures Inv(After(s, k, steps).0, After(s, k, steps).1) && After(s, k, steps).1 >= k
  {
    hide Inv, Next;
    if steps != [] {
      var i := |steps| - 1;
      AfterInv(s, k, steps[..i]);
      InvStep(After(s, k, steps[..i]).0, After(s, k, steps[..i]).1, steps[i]);
    }
  }

  // ---------------------------------------------------------------------------------------
  // What is missing to complete the barrier

  /** The steps that the thread has yet to do until it waits in barrier `k + 1`. */
  function Left(t: Thread, k: nat): nat {
    match t.pc
    case Outside => 2
    case Flipped => 1
    case Spinning => if t.entered == k + 1 then 0 else 3
    case _ => 0
  }

  function LeftAll(threads: seq<Thread>, k: nat): nat {
    if threads == [] then 0 else Left(threads[0], k) + LeftAll(threads[1..], k)
  }

  ghost predicate SomePublishes(s: State) {
    exists t :: 0 <= t < |s.threads| && s.threads[t].pc == Publishing
  }

  /** The steps to go: those of the threads, and the last one's clearing and publishing. */
  ghost function Need(s: State, k: nat): nat {
    LeftAll(s.threads, k) + if SomePublishes(s) then 1 else 2
  }

  lemma {:induction false} LeftAtMost(threads: seq<Thread>, k: nat)
    ensures LeftAll(threads, k) <= 3 * |threads|
  {
    if threads != [] { LeftAtMost(threads[1..], k); }
  }

  lemma {:induction false} LeftUpdate(threads: seq<Thread>, t: nat, me: Thread, k: nat)
    requires t < |threads|
    ensures LeftAll(threads[t := me], k) == LeftAll(threads, k) - Left(threads[t], k) + Left(me, k)
  {
    if t > 0 {
      assert threads[t := me][1..] == threads[1..][t - 1 := me];
      LeftUpdate(threads[1..], t - 1, me, k);
    } else {
      assert threads[t := me][1..] == threads[1..];
    }
  }

  /** A step of a thread that waits in the barrier under way is a vain poll. */
  lemma VainPoll(s: State, k: nat, t: nat)
    requires Inv(s, k) && t < |s.threads| && Waits(s.threads[t], k + 1)
    ensures Next(s, t) == s
  {
    assert ThreadOk(s.threads[t], k);
  }

  /** Whoever publishes is the only one that does not wait. */
  lemma PublisherOthersWait(s: State, k: nat, t: nat)
    requires Inv(s, k) && t < |s.threads| && !Waits(s.threads[t], k + 1)
    ensures forall u :: 0 <= u < |s.threads| && s.threads[u].pc == Publishing ==> u == t
  {
    forall u | 0 <= u < |s.threads| && s.threads[u].pc == Publishing
      ensures u == t
    {
      assert Completing(s.threads[u].pc);
    }
  }

  /** Any other step completes the barrier or is one of those to go. */
  lemma StepCounts(s: State, k: nat, t: nat)
    requires Inv(s, k) && t < |s.threads| && !Waits(s.threads[t], k + 1)
    ensures Completed(s, k, t) > k || Need(Next(s, t), k) < Need(s, k)
  {
    var s' := Next(s, t);
    assert ThreadOk(s.threads[t], k);
    LeftUpdate(s.threads, t, s'.threads[t], k);
    if s.threads[t].pc == Clearing {
      assert Completing(s.threads[t].pc);
      assert s'.threads[t].pc == Publishing && SomePublishes(s');
    } else if s.threads[t].pc != Publishing {
      PublisherOthersWait(s, k, t);
    }
  }

  lemma NeedNeverGrows(s: State, k: nat, t: nat)
    requires Inv(s, k) && t < |s.threads|
    ensures Completed(s, k, t) > k || Need(Next(s, t), k) <= Need(s, k)
  {
    hide Inv, Need, Next;
    if Waits(s.threads[t], k + 1) { VainPoll(s, k, t); } else { StepCounts(s, k, t); }
  }

  /** As long as the barrier is not complete, some thread does not wait in it. */
  lemma SomeoneMissing(s: State, k: nat) returns (t: nat)
    requires Inv(s, k) && |s.threads| > 0
    ensures t < |s.threads| && !Waits(s.threads[t], k + 1)
  {
    if u :| 0 <= u < |s.threads| && Completing(s.threads[u].pc) {
      t := u;
    } else {
      t := NotWaiting(s.threads, k + 1);
    }
  }

  lemma {:induction false} Unstepped(s: State, k: nat, steps: seq<nat>, t: nat)
    requires ValidSchedule(steps, |s.threads|) && t < |s.threads| && t !in steps
    ensures After(s, k, steps).0.threads[t] == s.threads[t]
  {
    if steps != [] {
      var i := |steps| - 1;
      assert steps[i] in steps && forall x :: x in steps[..i] ==> x in steps;
      Unstepped(s, k, steps[..i], t);
    }
  }

  /** Some steps, among them one of a thread that did not wait. */
  lemma {:induction false} StepsCount(s: State, k: nat, steps: seq<nat>, t: nat)
    requires Inv(s, k) && ValidSchedule(steps, |s.threads|) && t < |s.threads| && !Waits(s.threads[t], k + 1)
    ensures var (s', k') := After(s, k, steps);
      k' > k || (k' == k && Need(s', k) <= Need(s, k) && (t in steps ==> Need(s', k) < Need(s, k)))
  {
    hide Inv, Need, Next, Waits;
    if steps != [] {
      var i := |steps| - 1;
      var (s1, k1) := After(s, k, steps[..i]);
      StepsCount(s, k, steps[..i], t);
      AfterInv(s, k, steps[..i]);
      if k1 == k {
        NeedNeverGrows(s1, k, steps[i]);
        if t !in steps[..i] && t in steps {
          assert steps == steps[..i] + [steps[i]];
          Unstepped(s, k, steps[..i], t);
          StepCounts(s1, k, t);
        }
      }
    }
  }

  // ---------------------------------------------------------------------------------------
  // Rounds

  /** Every thread steps at least once, in any order and any number of times. */
  ghost predicate IsRound(steps: seq<nat>, n: nat) {
    ValidSchedule(steps, n) && forall t: nat :: t < n ==> t in steps
  }

  function Flat(rounds: seq<seq<nat>>): seq<nat> {
    if rounds == [] then [] else rounds[0] + Flat(rounds[1..])
  }

  ghost predicate AllRounds(rounds: seq<seq<nat>>, n: nat) {
    forall i :: 0 <= i < |rounds| ==> IsRound(rounds[i], n)
  }

  lemma {:induction false} FlatIsValid(rounds: seq<seq<nat>>, n: nat)
    requires AllRounds(rounds, n)
    ensures ValidSchedule(Flat(rounds), n)
  {
    if rounds != [] { FlatIsValid(rounds[1..], n); }
  }

  /** As many rounds as there are steps to go complete the barrier. */
  lemma {:induction false} RoundsComplete(s: State, k: nat, rounds: seq<seq<nat>>)
    requires Inv(s, k) && |s.threads| > 0 && AllRounds(rounds, |s.threads|) && |rounds| >= Need(s, k)
    ensures ValidSchedule(Flat(rounds), |s.threads|) && After(s, k, Flat(rounds)).1 > k
    decreases |rounds|
  {
    FlatIsValid(rounds, |s.threads|);
    assert Need(s, k) >= 1;
    hide Inv, Need, Next, Waits, After;
    var rest := rounds[1..];
    assert IsRound(rounds[0], |s.threads|);
    FlatIsValid(rest, |s.threads|);
    AfterJoins(s, k, rounds[0], Flat(rest));
    AfterInv(s, k, rounds[0]);
    var (s1, k1) := After(s, k, rounds[0]);
    if k1 > k {
      AfterInv(s1, k1, Flat(rest));
    } else {
      var t := SomeoneMissing(s, k);
      StepsCount(s, k, rounds[0], t);
      RoundsComplete(s1, k, rest);
    }
  }

  /** Under every schedule, from whatever has gone before: rounds in which every thread keeps coming,
      three for each thread and two more, complete another barrier. */
  lemma AnotherBarrier(n: nat, first: seq<nat>, rounds: seq<seq<nat>>)
    requires n > 0 && ValidSchedule(first, n) && AllRounds(rounds, n) && |rounds| >= 3 * n + 2
    ensures ValidSchedule(first + Flat(rounds), n)
    ensures Barriers(n, first + Flat(rounds)) > Barriers(n, first)
  {
    RunInv(n, first);
    FlatIsValid(rounds, n);
    RunAfter(n, first, Flat(rounds));
    LeftAtMost(Run(n, first).threads, Barriers(n, first));
    hide Inv, Run, Barriers;
    RoundsComplete(Run(n, first), Barriers(n, first), rounds);
  }

  lemma {:induction false} FlatJoins(a: seq<seq<nat>>, b: seq<seq<nat>>)
    ensures Flat(a + b) == Flat(a) + Flat(b)
  {
    if a == [] {
      assert a + b == b;
    } else {
      assert (a + b)[0] == a[0] && (a + b)[1..] == a[1..] + b;
      FlatJoins(a[1..], b);
    }
  }

  /** Twice as many release every thread from every barrier that it had entered. */
  lemma EveryoneReleased(n: nat, first: seq<nat>, rounds: seq<seq<nat>>, t: nat)
    requires t < n && ValidSchedule(first, n) && AllRounds(rounds, n) && |rounds| >= 2 * (3 * n + 2)
    ensures ValidSchedule(first + Flat(rounds), n)
    ensures Run(n, first + Flat(rounds)).threads[t].passed >= Run(n, first).threads[t].entered
  {
    var half := 3 * n + 2;
    var a, b := rounds[..half], rounds[half..];
    assert rounds == a + b;
    FlatJoins(a, b);
    FlatIsValid(rounds, n);
    FlatIsValid(a, n);
    assert first + Flat(a) + Flat(b) == first + Flat(rounds);
    AnotherBarrier(n, first, a);
    AnotherBarrier(n, first + Flat(a), b);
    RunInv(n, first);
    RunInv(n, first + Flat(rounds));
    hide Run, Barriers, Inv, Flat, IsRound, ValidSchedule;
    TwoLater(Run(n, first), Barriers(n, first), Run(n, first + Flat(rounds)), Barriers(n, first + Flat(rounds)), t);
  }

  lemma TwoLater(s: State, k: nat, s': State, k': nat, t: nat)
    requires Inv(s, k) && Inv(s', k') && k' >= k + 2 && t < |s.threads| == |s'.threads|
    ensures s'.threads[t].passed >= s.threads[t].entered
  {
    assert ThreadOk(s.threads[t], k) && ThreadOk(s'.threads[t], k');
  }
}
