/**
 `mapWithConcurrency`: a few runners share a cursor into the items and a results array. A runner takes
 an index, awaits the worker, stores the result and takes the next; between a runner's steps any other
 runner may move. Items are never undefined and the worker never rejects.
 */
module WorkerPool {
  import opened Wrappers
  import Sets

  datatype Runner = Idle | Working(index: nat) | Stopped

  /** `taken` is history: the indices handed to the worker, in the order of the calls. */
  datatype Pool<R> = Pool(cursor: nat, runners: seq<Runner>, results: seq<Option<R>>, taken: seq<nat>)

  function Min(a: nat, b: nat): nat { if a < b then a else b }

  function Start<T, R>(items: seq<T>, limit: nat): Pool<R> {
    Pool(0, seq(Min(limit, |items|), _ => Idle), seq(|items|, _ => None), [])
  }

  /** One step of runner `r`. */
  function Step<T, R>(p: Pool<R>, items: seq<T>, worker: T -> R, r: nat): Pool<R>
    requires r < |p.runners| && |p.results| == |items|
    requires p.runners[r].Working? ==> p.runners[r].index < |items|
  {
    match p.runners[r]
    case Idle =>
      if p.cursor < |items| then
        Pool(p.cursor + 1, p.runners[r := Working(p.cursor)], p.results, p.taken + [p.cursor])
      else
        Pool(p.cursor + 1, p.runners[r := Stopped], p.results, p.taken)
    case Working(i) => p.(results := p.results[i := Some(worker(items[i]))], runners := p.runners[r := Idle])
    case Stopped => p
  }

  /** The index the cursor has reached, if it still is one. */
  function Reached<R>(p: Pool<R>): nat { Min(p.cursor, |p.results|) }

  ghost predicate InFlight<R>(p: Pool<R>, i: nat) {
    exists r :: 0 <= r < |p.runners| && p.runners[r] == Working(i)
  }

  ghost predicate Inv<T, R>(p: Pool<R>, items: seq<T>, worker: T -> R) {
    && |p.results| == |items|
    && (forall r :: 0 <= r < |p.runners| && p.runners[r].Working? ==> p.runners[r].index < Reached(p))
    && (forall r, q :: 0 <= r < q < |p.runners| && p.runners[r].Working? && p.runners[q].Working? ==>
          p.runners[r].index != p.runners[q].index)
    && (forall r :: 0 <= r < |p.runners| && p.runners[r].Stopped? ==> p.cursor >= |items|)
    && (forall i :: 0 <= i < Reached(p) ==> (p.results[i].None? <==> InFlight(p, i)))
    && (forall i :: 0 <= i < Reached(p) && p.results[i].Some? ==> p.results[i].value == worker(items[i]))
    && (forall i :: Reached(p) <= i < |items| ==> p.results[i].None?)
    && |p.taken| == Reached(p) && (forall i :: 0 <= i < Reached(p) ==> p.taken[i] == i)
  }

  /** A runner that takes an index puts just that one in flight. */
  lemma TakeKeepsInv<T, R>(p: Pool<R>, items: seq<T>, worker: T -> R, r: nat)
    requires Inv(p, items, worker) && r < |p.runners| && p.runners[r].Idle?
    ensures Inv(Step(p, items, worker, r), items, worker)
  {
    var after := Step(p, items, worker, r);
    forall i | 0 <= i < Reached(after)
      ensures after.results[i].None? <==> InFlight(after, i)
    {
      if i < Reached(p) {
        if InFlight(p, i) {
          var q :| 0 <= q < |p.runners| && p.runners[q] == Working(i);
          assert after.runners[q] == Working(i);
        }
        if InFlight(after, i) {
          var q :| 0 <= q < |after.runners| && after.runners[q] == Working(i);
          assert p.runners[q] == Working(i);
        }
      } else {
        assert after.runners[r] == Working(i);
      }
    }
  }

  lemma FinishKeepsInv<T, R>(p: Pool<R>, items: seq<T>, worker: T -> R, r: nat)
    requires Inv(p, items, worker) && r < |p.runners| && p.runners[r].Working?
    ensures p.runners[r].index < |items| && Inv(Step(p, items, worker, r), items, worker)
  {
    var after := Step(p, items, worker, r);
    forall i | 0 <= i < Reached(after)
      ensures after.results[i].None? <==> InFlight(after, i)
    {
      if InFlight(p, i) && i != p.runners[r].index {
        var q :| 0 <= q < |p.runners| && p.runners[q] == Working(i);
        assert after.runners[q] == Working(i);
      }
      if InFlight(after, i) {
        var q :| 0 <= q < |after.runners| && after.runners[q] == Working(i);
        assert p.runners[q] == Working(i);
      }
    }
  }

  lemma StepKeepsInv<T, R>(p: Pool<R>, items: seq<T>, worker: T -> R, r: nat)
    requires Inv(p, items, worker) && r < |p.runners|
    ensures p.runners[r].Working? ==> p.runners[r].index < |items|
    ensures Inv(Step(p, items, worker, r), items, worker)
  {
    match p.runners[r]
    case Idle => TakeKeepsInv(p, items, worker, r);
    case Working(_) => FinishKeepsInv(p, items, worker, r);
    case Stopped =>
  }

  // ---------------------------------------------------------------- every interleaving

  /** A schedule says which runner moves next. */
  ghost predicate IsRun<T(!new), R(!new)>(
      states: seq<Pool<R>>, items: seq<T>, limit: nat, worker: T -> R, schedule: seq<nat>)
  {
    && |states| == |schedule| + 1 && states[0] == Start(items, limit)
    && forall k :: 0 <= k < |schedule| ==>
         && schedule[k] < |states[k].runners| && |states[k].results| == |items|
         && (states[k].runners[schedule[k]].Working? ==> states[k].runners[schedule[k]].index < |items|)
         && states[k + 1] == Step(states[k], items, worker, schedule[k])
  }

  lemma {:induction false} RunKeepsInv<T(!new), R(!new)>(
      states: seq<Pool<R>>, items: seq<T>, limit: nat, worker: T -> R, schedule: seq<nat>, k: nat)
    requires IsRun(states, items, limit, worker, schedule) && k < |states|
    ensures Inv(states[k], items, worker) && |states[k].runners| == Min(limit, |items|)
  {
    if k > 0 {
      RunKeepsInv(states, items, limit, worker, schedule, k - 1);
      StepKeepsInv(states[k - 1], items, worker, schedule[k - 1]);
    }
  }

  predicate Finished<R>(p: Pool<R>) {
    forall r :: 0 <= r < |p.runners| ==> p.runners[r].Stopped?
  }

  /** At every moment each index has been handed out at most once, and at most `limit` are in flight. */
  lemma AtMostLimitInFlight<T(!new), R(!new)>(
      states: seq<Pool<R>>, items: seq<T>, limit: nat, worker: T -> R, schedule: seq<nat>, k: nat)
    requires IsRun(states, items, limit, worker, schedule) && k < |states|
    ensures forall i, j :: 0 <= i < j < |states[k].taken| ==> states[k].taken[i] != states[k].taken[j]
    ensures |set i | 0 <= i < |items| && InFlight(states[k], i)| <= limit
  {
    RunKeepsInv(states, items, limit, worker, schedule, k);
    var p := states[k];
    var flying := set i | 0 <= i < |items| && InFlight(p, i);
    forall i | i in flying
      ensures i in WorkingOn(p.runners)
    {
      var r :| 0 <= r < |p.runners| && p.runners[r] == Working(i);
      WorkingOnHas(p.runners, r);
    }
    WorkingOnIsSmall(p.runners);
    Sets.SubsetIsSmaller(flying, WorkingOn(p.runners));
  }

  function WorkingOn(runners: seq<Runner>): set<nat> {
    if runners == [] then {}
    else WorkingOn(runners[1..]) + if runners[0].Working? then {runners[0].index} else {}
  }

  lemma {:induction false} WorkingOnHas(runners: seq<Runner>, r: nat)
    requires r < |runners| && runners[r].Working?
    ensures runners[r].index in WorkingOn(runners)
  {
    if r > 0 { WorkingOnHas(runners[1..], r - 1); }
  }

  lemma {:induction false} WorkingOnIsSmall(runners: seq<Runner>)
    ensures |WorkingOn(runners)| <= |runners|
  {
    if runners != [] { WorkingOnIsSmall(runners[1..]); }
  }

  /**
   When all runners have stopped, every item was processed exactly once and every result is the
   worker's answer for its item, if and only if there was a runner at all or nothing to do.
   */
  lemma FinishedPoolMapsItems<T(!new), R(!new)>(
      states: seq<Pool<R>>, items: seq<T>, limit: nat, worker: T -> R, schedule: seq<nat>, k: nat)
    requires IsRun(states, items, limit, worker, schedule) && k < |states| && Finished(states[k])
    ensures (limit > 0 || items == []) <==>
              && states[k].taken == seq(|items|, i => i)
              && states[k].results == seq(|items|, i requires 0 <= i < |items| => Some(worker(items[i])))
  {
    RunKeepsInv(states, items, limit, worker, schedule, k);
    var p := states[k];
    if limit > 0 && items != [] {
      assert p.runners[0].Stopped?;
      forall i | 0 <= i < |items|
        ensures p.results[i] == Some(worker(items[i]))
      {
        assert !InFlight(p, i);
      }
    }
    if limit == 0 && items != [] {
      if schedule == [] {
        assert p.results[0].None?; } else { StepsNeedARunner(states, items, limit, worker, schedule);
      }
    }
  }

  /** Somebody has to move: a schedule with a step in it has a runner. */
  lemma StepsNeedARunner<T(!new), R(!new)>(
      states: seq<Pool<R>>, items: seq<T>, limit: nat, worker: T -> R, schedule: seq<nat>)
    requires IsRun(states, items, limit, worker, schedule) && schedule != []
    ensures limit > 0
  {
    assert schedule[0] < |states[0].runners|;
  }

  // ---------------------------------------------------------------- termination

  function Weight(r: Runner): nat {
    match r
    case Stopped => 0
    case Idle => 1
    case Working(_) => 2
  }

  function TotalWeight(runners: seq<Runner>): nat {
    if runners == [] then 0 else Weight(runners[0]) + TotalWeight(runners[1..])
  }

  /** The steps that are still to be taken: two for each item not yet handed out, and what its runners have left. */
  function StepsLeft<R>(p: Pool<R>): nat {
    2 * (|p.results| - Reached(p)) + TotalWeight(p.runners)
  }

  lemma {:induction false} WeightOfUpdate(runners: seq<Runner>, r: nat, to: Runner)
    requires r < |runners|
    ensures TotalWeight(runners[r := to]) == TotalWeight(runners) - Weight(runners[r]) + Weight(to)
  {
    if r == 0 {
      assert runners[0 := to][1..] == runners[1..];
    } else {
      WeightOfUpdate(runners[1..], r - 1, to);
      assert runners[r := to][1..] == runners[1..][r - 1 := to];
    }
  }

  /** Every step of a runner that has not stopped brings the pool one step closer to its end, whichever moves. */
  lemma PoolTerminates<T, R>(p: Pool<R>, items: seq<T>, worker: T -> R, r: nat)
    requires Inv(p, items, worker) && r < |p.runners| && !p.runners[r].Stopped?
    ensures p.runners[r].Working? ==> p.runners[r].index < |items|
    ensures StepsLeft(Step(p, items, worker, r)) == StepsLeft(p) - 1
  {
    WeightOfUpdate(p.runners, r, Step(p, items, worker, r).runners[r]);
  }

  lemma {:induction false} WeightOfIdle(n: nat)
    ensures TotalWeight(seq(n, _ => Idle)) == n
  {
    if n > 0 {
      WeightOfIdle(n - 1);
      assert seq(n, _ => Idle)[1..] == seq(n - 1, _ => Idle);
    }
  }

  lemma {:induction false} WeightlessIff(runners: seq<Runner>)
    ensures TotalWeight(runners) == 0 <==> forall r :: 0 <= r < |runners| ==> runners[r].Stopped?
  {
    if runners != [] {
      WeightlessIff(runners[1..]);
      assert forall r :: 1 <= r < |runners| ==> runners[r] == runners[1..][r - 1];
    }
  }

  /**
   However the runners that are left take turns: the pool makes exactly two steps per item and one per
   runner, and has finished exactly when it has made them.
   */
  lemma {:induction false} StepsAreExact<T(!new), R(!new)>(
      states: seq<Pool<R>>, items: seq<T>, limit: nat, worker: T -> R, schedule: seq<nat>, k: nat)
    requires IsRun(states, items, limit, worker, schedule) && k < |states|
    requires forall j :: 0 <= j < |schedule| ==>
               schedule[j] < |states[j].runners| && !states[j].runners[schedule[j]].Stopped?
    ensures k + StepsLeft(states[k]) == 2 * |items| + Min(limit, |items|)
    ensures limit > 0 || items == [] ==> (Finished(states[k]) <==> k == 2 * |items| + Min(limit, |items|))
  {
    if k == 0 {
      WeightOfIdle(Min(limit, |items|));
    } else {
      StepsAreExact(states, items, limit, worker, schedule, k - 1);
      RunKeepsInv(states, items, limit, worker, schedule, k - 1);
      PoolTerminates(states[k - 1], items, worker, schedule[k - 1]);
    }
    RunKeepsInv(states, items, limit, worker, schedule, k);
    WeightlessIff(states[k].runners);
  }
}
