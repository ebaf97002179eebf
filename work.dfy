/**
 * Work items, the outcome of running them, and the specification functions
 * that say which items a worker runs and which failure is captured.
 */
module Work {
  import opened Wrappers

  /** The two lanes of the scheduler. */
  datatype Priority = Normal | Background

  /** An action delegate, known to the model only by an identifier. */
  datatype Action = Action(id: nat)

  /** A queued unit of work: the lane it was submitted to and its action. */
  datatype WorkItem = WorkItem(kind: Priority, run: Action)

  /** An exception thrown by an action, known only by an identifier. */
  datatype Exception = Exception(id: nat)

  /** What running an action did: returned normally, or threw. */
  datatype Outcome = Completed | Threw(ex: Exception)

  /** The exception an outcome raised, if any. */
  function Raised(o: Outcome): Option<Exception>
  {
    if o.Threw? then Some(o.ex) else None
  }

  /** A single failure slot that keeps its first value. */
  function FirstWins(current: Option<Exception>, candidate: Option<Exception>): Option<Exception>
  {
    if current.Some? then current else candidate
  }

  /** The exception of the first item in `items` whose action throws. */
  function FirstFailure(items: seq<WorkItem>, run: WorkItem -> Outcome): Option<Exception>
  {
    if items == [] then None
    else if run(items[0]).Threw? then Some(run(items[0]).ex)
    else FirstFailure(items[1..], run)
  }

  /**
   * The items a single worker runs from a normal lane holding `items`:
   * everything up to and including the first item that throws, because that
   * throw empties the rest of the lane.
   */
  function RunThroughFirstFailure(items: seq<WorkItem>, run: WorkItem -> Outcome): seq<WorkItem>
  {
    if items == [] then []
    else if run(items[0]).Threw? then [items[0]]
    else [items[0]] + RunThroughFirstFailure(items[1..], run)
  }

  /**
   * No failure is reported exactly when every action completes, and a
   * reported failure is the exception of an actual item, every earlier item
   * having completed.
   */
  lemma {:induction false} FirstFailureIsFirstThrow(items: seq<WorkItem>, run: WorkItem -> Outcome)
    ensures FirstFailure(items, run).None? <==> forall i :: 0 <= i < |items| ==> run(items[i]).Completed?
    ensures FirstFailure(items, run).Some? ==>
      exists k :: 0 <= k < |items| && run(items[k]) == Threw(FirstFailure(items, run).value)
        && forall j :: 0 <= j < k ==> run(items[j]).Completed?
  {
    if items != [] && !run(items[0]).Threw? {
      var rest := items[1..];
      FirstFailureIsFirstThrow(rest, run);
      assert forall i :: 1 <= i < |items| ==> items[i] == rest[i - 1];
      if FirstFailure(rest, run).Some? {
        var k :| 0 <= k < |rest| && run(rest[k]) == Threw(FirstFailure(rest, run).value)
          && forall j :: 0 <= j < k ==> run(rest[j]).Completed?;
        assert run(items[k + 1]) == Threw(FirstFailure(items, run).value);
        assert forall j :: 0 <= j < k + 1 ==> run(items[j]).Completed? by {
          forall j | 0 <= j < k + 1 ensures run(items[j]).Completed? {
            if j > 0 { assert items[j] == rest[j - 1]; }
          }
        }
      }
    }
  }

  /** Appending one item: the first failure is the old one, else the new item's. */
  lemma {:induction false} FirstFailureAppend(items: seq<WorkItem>, x: WorkItem, run: WorkItem -> Outcome)
    ensures FirstFailure(items + [x], run) == FirstWins(FirstFailure(items, run), Raised(run(x)))
  {
    if items == [] {
      assert [x][1..] == [];
    } else {
      assert (items + [x])[1..] == items[1..] + [x];
      FirstFailureAppend(items[1..], x, run);
    }
  }

  /**
   * What a normal-lane worker runs is a prefix of the lane; every item but
   * the last completed, and when it stops early the last item threw. It
   * reports the same first failure as the whole lane would.
   */
  lemma {:induction false} RunThroughFirstFailureIsPrefix(items: seq<WorkItem>, run: WorkItem -> Outcome)
    ensures var r := RunThroughFirstFailure(items, run);
      |r| <= |items| && r == items[..|r|]
      && (forall j :: 0 <= j < |r| - 1 ==> run(r[j]).Completed?)
      && (|r| < |items| ==> r != [] && run(r[|r| - 1]).Threw?)
      && FirstFailure(r, run) == FirstFailure(items, run)
  {
    if items != [] && !run(items[0]).Threw? {
      var rest := items[1..];
      RunThroughFirstFailureIsPrefix(rest, run);
      var r' := RunThroughFirstFailure(rest, run);
      var r := RunThroughFirstFailure(items, run);
      assert r == [items[0]] + r';
      assert r[1..] == r';
      assert r == items[..|r|] by {
        assert items == [items[0]] + rest;
      }
      forall j | 0 <= j < |r| - 1 ensures run(r[j]).Completed? {
        if j > 0 { assert r[j] == r'[j - 1]; }
      }
    } else if items != [] {
      assert RunThroughFirstFailure(items, run) == [items[0]];
      assert [items[0]][1..] == [];
    }
  }

  /** A lane with no throwing action is run in full. */
  lemma {:induction false} RunThroughAllWhenNoFailure(items: seq<WorkItem>, run: WorkItem -> Outcome)
    requires FirstFailure(items, run).None?
    ensures RunThroughFirstFailure(items, run) == items
  {
    if items != [] {
      RunThroughAllWhenNoFailure(items[1..], run);
    }
  }

  /** When the item at `k` is the first to throw, the worker runs exactly items `0..k`. */
  lemma {:induction false} RunThroughStopsAt(items: seq<WorkItem>, k: nat, run: WorkItem -> Outcome)
    requires k < |items|
    requires FirstFailure(items[..k], run).None?
    requires run(items[k]).Threw?
    ensures RunThroughFirstFailure(items, run) == items[..k + 1]
  {
    if k > 0 {
      assert items[..k][1..] == items[1..][..k - 1];
      assert run(items[0]).Completed?;
      RunThroughStopsAt(items[1..], k - 1, run);
      assert items[..k + 1] == [items[0]] + items[1..][..k];
    }
  }

  /**
   * How far a lone normal-lane worker has got through the lane `queue`:
   * either no failure yet, having run a prefix with the rest still queued,
   * or done after the first failure emptied the lane.
   */
  ghost predicate NormalProgress(queue: seq<WorkItem>, ran: seq<WorkItem>, rest: seq<WorkItem>, run: WorkItem -> Outcome)
  {
    || (FirstFailure(ran, run).None? && |ran| <= |queue| && ran == queue[..|ran|] && rest == queue[|ran|..])
    || (rest == [] && ran == RunThroughFirstFailure(queue, run))
  }

  /** Running the front item keeps `NormalProgress`; a throw empties the lane. */
  lemma NormalProgressStep(queue: seq<WorkItem>, ran: seq<WorkItem>, rest: seq<WorkItem>, run: WorkItem -> Outcome)
    requires NormalProgress(queue, ran, rest, run) && rest != []
    ensures FirstFailure(ran, run).None?
    ensures NormalProgress(queue, ran + [rest[0]], if run(rest[0]).Threw? then [] else rest[1..], run)
  {
    var w := rest[0];
    FirstFailureAppend(ran, w, run);
    assert queue[|ran|] == w;
    assert queue[..|ran| + 1] == ran + [w];
    if run(w).Threw? {
      RunThroughStopsAt(queue, |ran|, run);
    }
  }

  /** A normal-lane worker that finds the lane empty has run exactly `RunThroughFirstFailure`. */
  lemma NormalProgressDone(queue: seq<WorkItem>, ran: seq<WorkItem>, run: WorkItem -> Outcome)
    requires NormalProgress(queue, ran, [], run)
    ensures ran == RunThroughFirstFailure(queue, run)
  {
    if FirstFailure(ran, run).None? && |ran| <= |queue| && ran == queue[..|ran|] && [] == queue[|ran|..] {
      assert |ran| == |queue|;
      assert ran == queue;
      RunThroughAllWhenNoFailure(queue, run);
    }
  }

  /**
   * The lanes of the worker tasks started for a pool: `normalWorkers`
   * normal-lane workers followed by `backgroundWorkers` background-lane ones.
   */
  function PoolLayout(normalWorkers: nat, backgroundWorkers: nat): seq<Priority>
  {
    seq(normalWorkers, _ => Normal) + seq(backgroundWorkers, _ => Background)
  }

  /** The number of workers serving `lane`. */
  function WorkersOn(workers: seq<Priority>, lane: Priority): nat
  {
    if workers == [] then 0
    else (if workers[0] == lane then 1 else 0) + WorkersOn(workers[1..], lane)
  }

  lemma {:induction false} WorkersOnAppend(a: seq<Priority>, b: seq<Priority>, lane: Priority)
    ensures WorkersOn(a + b, lane) == WorkersOn(a, lane) + WorkersOn(b, lane)
  {
    if a == [] {
      assert a + b == b;
    } else {
      assert (a + b)[1..] == a[1..] + b;
      WorkersOnAppend(a[1..], b, lane);
    }
  }

  lemma {:induction false} WorkersOnUniform(n: nat, p: Priority, lane: Priority)
    ensures WorkersOn(seq(n, _ => p), lane) == if p == lane then n else 0
  {
    if n > 0 {
      assert seq(n, _ => p)[1..] == seq(n - 1, _ => p);
      WorkersOnUniform(n - 1, p, lane);
    }
  }

  /** A pool layout has exactly the requested number of workers per lane. */
  lemma PoolLayoutCounts(normalWorkers: nat, backgroundWorkers: nat)
    ensures |PoolLayout(normalWorkers, backgroundWorkers)| == normalWorkers + backgroundWorkers
    ensures WorkersOn(PoolLayout(normalWorkers, backgroundWorkers), Normal) == normalWorkers
    ensures WorkersOn(PoolLayout(normalWorkers, backgroundWorkers), Background) == backgroundWorkers
  {
    var n := seq(normalWorkers, _ => Normal);
    var b := seq(backgroundWorkers, _ => Background);
    WorkersOnAppend(n, b, Normal);
    WorkersOnAppend(n, b, Background);
    WorkersOnUniform(normalWorkers, Normal, Normal);
    WorkersOnUniform(normalWorkers, Normal, Background);
    WorkersOnUniform(backgroundWorkers, Background, Normal);
    WorkersOnUniform(backgroundWorkers, Background, Background);
  }
}
