/**
 * The two-lane work scheduler. Each method is one atomic step of the
 * scheduler's bookkeeping; concurrent threads are modelled as an arbitrary
 * sequence of these calls, and a blocking call as a step whose `requires`
 * is the condition it waits for.
 */
module Scheduler {
  import opened Wrappers
  import opened Work

  /** Thrown by construction when the concurrency is not positive. */
  datatype ConstructionError = ArgumentOutOfRange(maxConcurrency: int)

  /** Which path an `Enqueue` call took. */
  datatype EnqueuePath =
    | NullAction  // the action was null: ArgumentNullException, nothing changes
    | Dropped     // normal work after a captured failure: silently ignored
    | Rejected    // the lane was closed: counted, then uncounted again
    | Queued      // appended to its lane and counted

  class EventQueue {
    const maxConcurrency: nat
    const backgroundMaxConcurrency: nat

    // The two channels, front first, and whether their writers are complete.
    var normal: seq<WorkItem>
    var background: seq<WorkItem>
    var normalClosed: bool
    var backgroundClosed: bool

    /** Items accepted and not yet retired (run to completion or discarded). */
    var pending: int
    /** Items taken by a worker whose run has not finished. */
    var inFlight: nat
    var started: bool
    /** The captured failure; the first writer wins. */
    var lastError: Option<Exception>
    /** The one-shot completion signal. */
    var drained: bool
    /** The lane of each started worker task, in start order. */
    var workers: seq<Priority>

    /** The queue of `lane`. */
    function Lane(lane: Priority): seq<WorkItem>
      reads this
    {
      if lane == Normal then normal else background
    }

    /**
     * The scheduler's invariant: the counter accounts for every queued and
     * every running item, a captured failure has closed and emptied the
     * normal lane, the completion signal is set only once the pool has
     * started, and a started pool with nothing pending has it set.
     */
    ghost predicate Valid()
      reads this
    {
      && maxConcurrency > 0
      && backgroundMaxConcurrency == 4 * maxConcurrency
      && (forall i :: 0 <= i < |normal| ==> normal[i].kind == Normal)
      && (forall i :: 0 <= i < |background| ==> background[i].kind == Background)
      && pending == |normal| + |background| + inFlight
      && (lastError.Some? ==> normalClosed && normal == [])
      && (normalClosed ==> lastError.Some? || drained)
      && (backgroundClosed ==> drained)
      && (drained ==> started)
      && (started && pending == 0 ==> drained)
      && (inFlight > 0 ==> started)
      && workers == (if started then PoolLayout(maxConcurrency, backgroundMaxConcurrency) else [])
    }

    /** Construction; a non-positive concurrency throws (see `Create`). */
    constructor (maxConcurrency: int)
      requires maxConcurrency > 0
      ensures Valid()
      ensures this.maxConcurrency == maxConcurrency
      ensures backgroundMaxConcurrency == 4 * maxConcurrency
      ensures normal == [] && background == [] && !normalClosed && !backgroundClosed
      ensures pending == 0 && inFlight == 0 && !started && lastError == None && !drained
    {
      this.maxConcurrency := maxConcurrency;
      backgroundMaxConcurrency := 4 * maxConcurrency;
      normal, background := [], [];
      normalClosed, backgroundClosed := false, false;
      pending, inFlight := 0, 0;
      started, drained := false, false;
      lastError := None;
      workers := [];
    }

    /**
     * Submits `action` to the lane `kind`. Normal work is dropped once a
     * failure is captured; background work never is. An accepted item is
     * counted before it is appended; if the lane is already closed the
     * append fails and the count is taken back.
     */
    method Enqueue(kind: Priority, action: Option<Action>) returns (path: EnqueuePath)
      requires Valid()
      modifies this`normal, this`background, this`pending, this`drained
      ensures Valid()
      ensures path == (if action.None? then NullAction
                       else if kind == Normal && lastError.Some? then Dropped
                       else if (if kind == Normal then normalClosed else backgroundClosed) then Rejected
                       else Queued)
      ensures path == Queued ==>
        Lane(kind) == old(Lane(kind)) + [WorkItem(kind, action.value)] && pending == old(pending) + 1
      ensures path != Queued ==> normal == old(normal) && background == old(background) && pending == old(pending)
      ensures kind == Normal ==> background == old(background)
      ensures kind == Background ==> normal == old(normal)
      ensures drained == old(drained)
    {
      if action.None? {
        return NullAction;
      }
      if kind == Normal && lastError.Some? {
        return Dropped;
      }
      pending := pending + 1;
      var work := WorkItem(kind, action.value);
      var closed := if kind == Normal then normalClosed else backgroundClosed;
      if closed {
        DecrementPending();
        path := Rejected;
      } else {
        if kind == Normal {
          normal := normal + [work];
        } else {
          background := background + [work];
        }
        path := Queued;
      }
    }

    /**
     * Starts the worker pool once. The first call sets `started`, signals
     * completion at once if nothing is pending, and starts the workers;
     * later calls change nothing.
     */
    method EnsureStarted()
      requires Valid()
      modifies this`started, this`drained, this`workers
      ensures Valid()
      ensures started
      ensures old(started) ==> drained == old(drained) && workers == old(workers)
      ensures !old(started) ==> drained == (pending == 0)
      ensures |workers| == maxConcurrency + backgroundMaxConcurrency
      ensures WorkersOn(workers, Normal) == maxConcurrency
      ensures WorkersOn(workers, Background) == backgroundMaxConcurrency
    {
      PoolLayoutCounts(maxConcurrency, backgroundMaxConcurrency);
      if started {
        return;
      }
      started := true;
      if pending == 0 {
        drained := true;
      }
      var tasks := StartWorkers();
      workers := tasks[..];
    }

    /**
     * Creates one task per worker: the normal-lane workers first, then the
     * background-lane workers; each task is represented by its lane.
     */
    method StartWorkers() returns (tasks: array<Priority>)
      ensures tasks.Length == maxConcurrency + backgroundMaxConcurrency
      ensures forall i :: 0 <= i < maxConcurrency ==> tasks[i] == Normal
      ensures forall i :: maxConcurrency <= i < tasks.Length ==> tasks[i] == Background
      ensures tasks[..] == PoolLayout(maxConcurrency, backgroundMaxConcurrency)
    {
      tasks := new Priority[maxConcurrency + backgroundMaxConcurrency];
      var i := 0;
      while i < maxConcurrency
        invariant 0 <= i <= maxConcurrency
        invariant forall k :: 0 <= k < i ==> tasks[k] == Normal
      {
        tasks[i] := Normal;
        i := i + 1;
      }
      while i < tasks.Length
        invariant maxConcurrency <= i <= tasks.Length
        invariant forall k :: 0 <= k < maxConcurrency ==> tasks[k] == Normal
        invariant forall k :: maxConcurrency <= k < i ==> tasks[k] == Background
      {
        tasks[i] := Background;
        i := i + 1;
      }
      assert tasks[..] == PoolLayout(maxConcurrency, backgroundMaxConcurrency);
    }

    /**
     * A worker's `TryRead`: takes the front item of `lane`, if any, and
     * holds it as running. Workers exist only once the pool has started.
     */
    method TakeNext(lane: Priority) returns (item: Option<WorkItem>)
      requires Valid() && started
      modifies this`normal, this`background, this`inFlight
      ensures Valid()
      ensures item.Some? <==> old(Lane(lane)) != []
      ensures item.Some? ==> item.value == old(Lane(lane))[0] && item.value.kind == lane
      ensures Lane(lane) == if item.Some? then old(Lane(lane))[1..] else old(Lane(lane))
      ensures inFlight == old(inFlight) + (if item.Some? then 1 else 0)
      ensures lane == Normal ==> background == old(background)
      ensures lane == Background ==> normal == old(normal)
    {
      if lane == Normal {
        if normal == [] {
          return None;
        }
        item := Some(normal[0]);
        normal := normal[1..];
      } else {
        if background == [] {
          return None;
        }
        item := Some(background[0]);
        background := background[1..];
      }
      inFlight := inFlight + 1;
    }

    /**
     * The end of `Run` for one running item: a throw is offered to the
     * failure slot, and in every case the item is retired exactly once.
     */
    method Finish(outcome: Outcome)
      requires Valid() && inFlight > 0
      modifies this`inFlight, this`pending, this`drained, this`lastError, this`normal, this`normalClosed
      ensures Valid()
      ensures inFlight == old(inFlight) - 1
      ensures lastError == FirstWins(old(lastError), Raised(outcome))
      ensures normal == (if old(lastError).None? && outcome.Threw? then [] else old(normal))
      ensures background == old(background)
      ensures pending == old(pending) - 1 - (|old(normal)| - |normal|)
      ensures drained == (old(drained) || pending == 0)
      ensures normalClosed == (old(normalClosed) || lastError.Some?)
    {
      if outcome.Threw? {
        TrySetError(outcome.ex);
      }
      inFlight := inFlight - 1;
      DecrementPending();
    }

    /**
     * Captures `ex` if no failure is captured yet: closes the normal lane
     * and discards what it holds. A second failure changes nothing.
     */
    method TrySetError(ex: Exception)
      requires Valid()
      modifies this`lastError, this`normalClosed, this`normal, this`pending, this`drained
      ensures Valid()
      ensures old(lastError).Some? ==>
        lastError == old(lastError) && normal == old(normal) && normalClosed == old(normalClosed)
        && pending == old(pending) && drained == old(drained)
      ensures old(lastError).None? ==>
        lastError == Some(ex) && normalClosed && normal == [] && pending == old(pending) - |old(normal)|
      ensures background == old(background)
      ensures drained == (old(drained) || (started && pending == 0))
    {
      if lastError.Some? {
        return;
      }
      lastError := Some(ex);
      normalClosed := true;
      DrainAndDrop();
    }

    /** Discards every item of the normal lane, retiring each one. */
    method DrainAndDrop()
      requires pending == |normal| + |background| + inFlight
      requires started && pending == 0 ==> drained
      modifies this`normal, this`pending, this`drained
      ensures normal == []
      ensures pending == old(pending) - |old(normal)|
      ensures drained == (old(drained) || (started && pending == 0))
    {
      while normal != []
        invariant pending == |normal| + |background| + inFlight
        invariant |normal| <= |old(normal)| && pending == old(pending) - (|old(normal)| - |normal|)
        invariant drained == (old(drained) || (started && pending == 0))
        decreases |normal|
      {
        normal := normal[1..];
        DecrementPending();
      }
    }

    /** Retires one item; the completion signal fires when the count reaches zero after start. */
    method DecrementPending()
      modifies this`pending, this`drained
      ensures pending == old(pending) - 1
      ensures drained == (old(drained) || (started && pending == 0))
    {
      pending := pending - 1;
      if started && pending == 0 {
        drained := true;
      }
    }

    /**
     * One turn of a worker's inner loop: `TryRead` on `lane`, then `Run` on
     * the item taken, whose action behaves as `run` says.
     */
    method RunNext(lane: Priority, run: WorkItem -> Outcome) returns (item: Option<WorkItem>)
      requires Valid() && started
      modifies this`normal, this`background, this`inFlight, this`pending, this`drained,
               this`lastError, this`normalClosed
      ensures Valid() && inFlight == old(inFlight)
      ensures item.Some? <==> old(Lane(lane)) != []
      ensures item.Some? ==> item.value == old(Lane(lane))[0]
      ensures lastError == FirstWins(old(lastError), if item.Some? then Raised(run(item.value)) else None)
      ensures drained == (old(drained) || pending == 0)
      ensures normalClosed == (old(normalClosed) || lastError.Some?)
      ensures background == (if lane == Background && item.Some? then old(background)[1..] else old(background))
      ensures normal == (if old(lastError).None? && lastError.Some? then []
                         else if lane == Normal && item.Some? then old(normal)[1..]
                         else old(normal))
    {
      item := TakeNext(lane);
      if item.Some? {
        Finish(run(item.value));
      }
    }

    /**
     * One worker serving `lane` alone: it takes items from the front and runs
     * them until the lane is empty. On the normal lane it stops after the
     * first throw, whose capture empties the lane; on the background lane it
     * runs everything.
     */
    method WorkerLoop(lane: Priority, run: WorkItem -> Outcome) returns (ran: seq<WorkItem>)
      requires Valid() && started
      modifies this`normal, this`background, this`inFlight, this`pending, this`drained,
               this`lastError, this`normalClosed
      ensures Valid()
      ensures Lane(lane) == [] && inFlight == old(inFlight)
      ensures lane == Normal ==> ran == RunThroughFirstFailure(old(normal), run) && background == old(background)
      ensures lane == Background ==> ran == old(background)
      ensures lane == Background ==>
        normal == (if old(lastError).None? && lastError.Some? then [] else old(normal))
      ensures lastError == FirstWins(old(lastError), FirstFailure(ran, run))
      ensures drained == (old(drained) || pending == 0)
      ensures normalClosed == (old(normalClosed) || lastError.Some?)
    {
      ghost var queue := old(Lane(lane));
      ran := [];
      var more := true;
      while more
        invariant Valid() && inFlight == old(inFlight)
        invariant !more ==> Lane(lane) == []
        invariant lastError == FirstWins(old(lastError), FirstFailure(ran, run))
        invariant drained == (old(drained) || pending == 0)
        invariant normalClosed == (old(normalClosed) || lastError.Some?)
        invariant lane == Background ==>
          |ran| <= |queue| && ran == queue[..|ran|] && background == queue[|ran|..]
          && normal == (if old(lastError).None? && lastError.Some? then [] else old(normal))
        invariant lane == Normal ==> background == old(background)
        invariant lane == Normal ==> NormalProgress(queue, ran, normal, run)
        decreases |Lane(lane)| + (if more then 1 else 0)
      {
        ghost var before := normal;
        var item := RunNext(lane, run);
        if item.Some? {
          var w := item.value;
          FirstFailureAppend(ran, w, run);
          if lane == Normal {
            NormalProgressStep(queue, ran, before, run);
          }
          ran := ran + [w];
        } else {
          more := false;
        }
      }
      if lane == Normal {
        NormalProgressDone(queue, ran, run);
      }
    }

    /**
     * The part of `WaitCompletion` after the completion signal has fired:
     * both lanes are closed so that idle workers exit.
     */
    method CloseLanes()
      requires Valid() && drained
      modifies this`normalClosed, this`backgroundClosed
      ensures Valid()
      ensures normalClosed && backgroundClosed
    {
      normalClosed := true;
      backgroundClosed := true;
    }

    /**
     * The end of `WaitCompletion`: once every worker has exited (both lanes
     * closed and empty, nothing running), the captured failure is returned.
     */
    method JoinWorkers() returns (error: Option<Exception>)
      requires Valid() && normalClosed && backgroundClosed && pending == 0
      ensures error == lastError
      ensures normal == [] && background == [] && inFlight == 0 && drained
    {
      error := lastError;
    }
  }

  /** Construction as a result: a non-positive concurrency is an error. */
  method Create(maxConcurrency: int) returns (r: Result<EventQueue, ConstructionError>)
    ensures r.Failure? <==> maxConcurrency <= 0
    ensures r.Failure? ==> r.error == ArgumentOutOfRange(maxConcurrency)
    ensures r.Success? ==>
      fresh(r.value) && r.value.Valid() && r.value.maxConcurrency == maxConcurrency
      && r.value.backgroundMaxConcurrency == 4 * maxConcurrency
      && r.value.pending == 0 && !r.value.started && r.value.lastError.None?
  {
    if maxConcurrency <= 0 {
      return Failure(ArgumentOutOfRange(maxConcurrency));
    }
    var q := new EventQueue(maxConcurrency);
    return Success(q);
  }
}
