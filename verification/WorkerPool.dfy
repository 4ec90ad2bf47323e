/**
 forEachConcurrent: workers that share one index. A step is what a worker does between two
 awaits, so every interleaving of the workers is a sequence of steps.
 */
module WorkerPool {

  datatype Worker = Ready | Working(item: nat) | Done

  /** `completed` lists the items whose work is finished, in the order it finished. */
  datatype Pool = Pool(size: nat, next: nat, workers: seq<Worker>, completed: seq<nat>)

  function Min(a: nat, b: nat): nat {
    if a < b then a else b
  }

  function Start(size: nat, concurrency: nat): Pool {
    Pool(size, 0, seq(Min(size, concurrency), _ => Ready), [])
  }

  /** The loop test and nextIndex++, or the end of an item's work. */
  function Advance(p: Pool, w: nat): Pool
    requires w < |p.workers|
  {
    match p.workers[w]
    case Ready =>
      if p.next < p.size then p.(next := p.next + 1, workers := p.workers[w := Working(p.next)])
      else p.(workers := p.workers[w := Done])
    case Working(item) => p.(workers := p.workers[w := Ready], completed := p.completed + [item])
    case Done => p
  }

  predicate Finished(p: Pool) {
    forall w | 0 <= w < |p.workers| :: p.workers[w] == Done
  }

  ghost predicate Distinct<T>(xs: seq<T>) {
    forall i, j | 0 <= i < j < |xs| :: xs[i] != xs[j]
  }

  predicate InFlight(p: Pool, item: nat) {
    exists w | 0 <= w < |p.workers| :: p.workers[w] == Working(item)
  }

  /** Every item handed out is in flight at one worker or completed once, and never both. */
  ghost predicate Inv(p: Pool) {
    && p.next <= p.size
    && Distinct(p.completed)
    && (forall item | item in p.completed :: item < p.next && !InFlight(p, item))
    && (forall item | 0 <= item < p.next :: item in p.completed || InFlight(p, item))
    && (forall w | 0 <= w < |p.workers| && p.workers[w].Working? :: p.workers[w].item < p.next)
    && (forall v, w | 0 <= v < w < |p.workers| && p.workers[v].Working? :: p.workers[v] != p.workers[w])
    && (forall w | 0 <= w < |p.workers| && p.workers[w].Done? :: p.next == p.size)
    && (p.size > 0 ==> |p.workers| > 0)
  }

  lemma StartKeeps(size: nat, concurrency: nat)
    requires concurrency > 0
    ensures Inv(Start(size, concurrency)) && |Start(size, concurrency).workers| <= concurrency
  {
  }

  lemma AdvanceKeeps(p: Pool, w: nat)
    requires Inv(p) && w < |p.workers|
    ensures Inv(Advance(p, w)) && |Advance(p, w).workers| == |p.workers| && Advance(p, w).size == p.size
  {
    var after := Advance(p, w);
    assert p.workers[w].Working? ==> InFlight(p, p.workers[w].item);
    forall item | item != p.next && p.workers[w] != Working(item)
      ensures InFlight(after, item) <==> InFlight(p, item)
    {
      if InFlight(p, item) {
        var v :| 0 <= v < |p.workers| && p.workers[v] == Working(item);
        assert after.workers[v] == Working(item);
      }
    }
    assert p.workers[w].Ready? && p.next < p.size ==> after.workers[w] == Working(p.next);
  }

  function WorkLeft(workers: seq<Worker>): nat {
    if workers == [] then 0
    else WorkLeft(workers[1..]) + (match workers[0] case Ready => 1 case Working(_) => 2 case Done => 0)
  }

  /** Steps left in any schedule: each item not handed out takes two, then every worker stops. */
  function StepsLeft(p: Pool): int {
    2 * (p.size - p.next) + WorkLeft(p.workers)
  }

  lemma {:induction false} WorkLeftUpdate(workers: seq<Worker>, w: nat, worker: Worker)
    requires w < |workers|
    ensures WorkLeft(workers[w := worker]) == WorkLeft(workers) - WorkLeft([workers[w]]) + WorkLeft([worker])
    decreases |workers|
  {
    if w > 0 {
      assert workers[w := worker][1..] == workers[1..][w - 1 := worker];
      WorkLeftUpdate(workers[1..], w - 1, worker);
    } else {
      assert workers[0 := worker][1..] == workers[1..];
    }
  }

  /**
   Every schedule ends: a step of a worker that is not done leaves fewer steps, and work in flight can
   always step.
   */
  lemma AdvanceShrinks(p: Pool, w: nat)
    requires Inv(p) && w < |p.workers| && p.workers[w] != Done
    ensures 0 <= StepsLeft(Advance(p, w)) < StepsLeft(p)
  {
    WorkLeftUpdate(p.workers, w, Advance(p, w).workers[w]);
    assert Advance(p, w).workers == p.workers[w := Advance(p, w).workers[w]];
  }

  ghost predicate Complete(items: seq<nat>, size: nat) {
    Distinct(items) && forall i :: i in items <==> 0 <= i < size
  }

  /** When all workers are done, every item was completed exactly once. */
  lemma FinishedTheorem(p: Pool)
    requires Inv(p) && Finished(p)
    ensures Complete(p.completed, p.size)
  {
    assert p.size > 0 ==> p.workers[0] == Done;
    assert forall item :: !InFlight(p, item);
  }

  function Flights(workers: seq<Worker>): (n: nat)
    ensures n <= |workers|
  {
    if workers == [] then 0 else Flights(workers[1..]) + (if workers[0].Working? then 1 else 0)
  }

  function RunPool(p: Pool, schedule: seq<nat>): Pool
    decreases |schedule|
  {
    if schedule == [] then p
    else if schedule[0] < |p.workers| then RunPool(Advance(p, schedule[0]), schedule[1..])
    else RunPool(p, schedule[1..])
  }

  lemma {:induction false} RunKeeps(p: Pool, schedule: seq<nat>)
    requires Inv(p)
    ensures Inv(RunPool(p, schedule))
    ensures |RunPool(p, schedule).workers| == |p.workers| && RunPool(p, schedule).size == p.size
    decreases |schedule|
  {
    if schedule != [] {
      if schedule[0] < |p.workers| {
        AdvanceKeeps(p, schedule[0]);
        RunKeeps(Advance(p, schedule[0]), schedule[1..]);
      } else {
        RunKeeps(p, schedule[1..]);
      }
    }
  }

  /**
   For every schedule: no item is worked on twice, at most min(items, concurrency) are in flight,
   and once all workers are done every item was completed exactly once.
   */
  lemma PoolTheorem(size: nat, concurrency: nat, schedule: seq<nat>)
    requires concurrency > 0
    ensures var p := RunPool(Start(size, concurrency), schedule);
            && Distinct(p.completed)
            && (forall item | item in p.completed :: item < size && !InFlight(p, item))
            && Flights(p.workers) <= Min(size, concurrency)
            && (Finished(p) ==> Complete(p.completed, size))
  {
    StartKeeps(size, concurrency);
    RunKeeps(Start(size, concurrency), schedule);
    var p := RunPool(Start(size, concurrency), schedule);
    if Finished(p) {
      FinishedTheorem(p);
    }
  }
}
