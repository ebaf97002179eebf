/**
 * Whole runs of the scheduler, one worker per lane, with the actions'
 * behaviour fixed: the scheduler's usage scenarios, proved of the model.
 */
module Scenarios {
  import opened Wrappers
  import opened Work
  import opened Scheduler

  /** The behaviour where the action numbered `id` throws and every other one completes. */
  function ThrowsOn(id: nat): WorkItem -> Outcome
  {
    (w: WorkItem) => if w.run.id == id then Threw(Exception(id)) else Completed
  }

  /** The behaviour where every action completes. */
  function NeverThrows(): WorkItem -> Outcome
  {
    (w: WorkItem) => Completed
  }

  /** Five normal actions, none failing: all run, in order, and no error is returned. */
  method HappyPathScenario() returns (error: Option<Exception>, ranNormal: seq<WorkItem>)
    ensures error == None
    ensures ranNormal == seq(5, (i: nat) => WorkItem(Normal, Action(i)))
  {
    var q := new EventQueue(2);
    var i := 0;
    while i < 5
      invariant 0 <= i <= 5
      invariant q.Valid() && !q.started && q.lastError == None && !q.normalClosed
      invariant q.normal == seq(i, (k: nat) => WorkItem(Normal, Action(k))) && q.background == []
    {
      var path := q.Enqueue(Normal, Some(Action(i)));
      i := i + 1;
    }
    q.EnsureStarted();
    var run := NeverThrows();
    ghost var queued := q.normal;
    ranNormal := q.WorkerLoop(Normal, run);
    assert forall k :: 0 <= k < |queued| ==> run(queued[k]).Completed?;
    FirstFailureIsFirstThrow(queued, run);
    RunThroughAllWhenNoFailure(queued, run);
    var ranBackground := q.WorkerLoop(Background, run);
    q.CloseLanes();
    error := q.JoinWorkers();
  }

  /**
   * A failing normal action is queued before a second normal action: the
   * second never runs, a normal action submitted afterwards is dropped, and
   * the failure is returned.
   */
  method FailFastScenario() returns (error: Option<Exception>, ranNormal: seq<WorkItem>, later: EnqueuePath)
    ensures error == Some(Exception(1))
    ensures ranNormal == [WorkItem(Normal, Action(1))]
    ensures later == Dropped
  {
    var q := new EventQueue(1);
    var path := q.Enqueue(Normal, Some(Action(1)));
    path := q.Enqueue(Normal, Some(Action(2)));
    q.EnsureStarted();
    var run := ThrowsOn(1);
    ghost var queued := q.normal;
    ranNormal := q.WorkerLoop(Normal, run);
    RunThroughStopsAt(queued, 0, run);
    assert ranNormal == queued[..1];
    later := q.Enqueue(Normal, Some(Action(3)));
    var ranBackground := q.WorkerLoop(Background, run);
    q.CloseLanes();
    error := q.JoinWorkers();
  }

  /**
   * A failing normal action, then background actions submitted before and
   * after the failure: every background action runs and the failure is
   * still returned.
   */
  method BackgroundImmunityScenario() returns (error: Option<Exception>, ranBackground: seq<WorkItem>)
    ensures error == Some(Exception(1))
    ensures ranBackground == [WorkItem(Background, Action(2)), WorkItem(Background, Action(3))]
  {
    var q := new EventQueue(1);
    var path := q.Enqueue(Normal, Some(Action(1)));
    path := q.Enqueue(Background, Some(Action(2)));
    q.EnsureStarted();
    var run := ThrowsOn(1);
    ghost var queued := q.normal;
    var ranNormal := q.WorkerLoop(Normal, run);
    RunThroughStopsAt(queued, 0, run);
    path := q.Enqueue(Background, Some(Action(3)));
    ranBackground := q.WorkerLoop(Background, run);
    q.CloseLanes();
    error := q.JoinWorkers();
  }

  /**
   * The completion signal is sticky: starting an empty scheduler fires it,
   * and work submitted afterwards is counted while the signal stays set.
   * That work is still run before the workers can be joined.
   */
  method LateSubmissionScenario()
    returns (drainedAfterSubmit: bool, pendingAfterSubmit: int, ranBackground: seq<WorkItem>, error: Option<Exception>)
    ensures drainedAfterSubmit && pendingAfterSubmit == 1
    ensures ranBackground == [WorkItem(Background, Action(7))]
    ensures error == None
  {
    var q := new EventQueue(3);
    q.EnsureStarted();
    var path := q.Enqueue(Background, Some(Action(7)));
    drainedAfterSubmit, pendingAfterSubmit := q.drained, q.pending;
    ranBackground := q.WorkerLoop(Background, NeverThrows());
    q.CloseLanes();
    error := q.JoinWorkers();
  }
}
