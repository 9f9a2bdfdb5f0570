/** The pump: it ends, it starts the oldest first, and it leaves no slot free while a task waits. */
module PumpProofs {
  import opened Text
  import opened Patterns
  import opened Tasks
  import opened Scheduler
  import opened SchedulerProofs

  /** As many launches as it takes are a run of steps, so everything a step keeps the pump keeps. */
  lemma {:induction false} PumpIsLaunches(w: World) returns (steps: seq<Step>)
    ensures Runs(w, steps, Pump(w)) && forall s | s in steps :: s == Launch
    decreases Count(w.rows, Queued)
  {
    hide AfterLaunch, CanPop;
    steps := [];
    if CanLaunch(w) {
      var i := Oldest(w.rows).value;
      LaunchUsesOneUp(w, i);
      var later := PumpIsLaunches(AfterLaunch(w, i));
      steps := [Launch] + later;
      assert steps[1..] == later;
      assert Enabled(w, Launch) && Next(w, Launch) == AfterLaunch(w, i);
    }
  }

  lemma PumpSafe(w: World)
    requires Safe(w)
    ensures Safe(Pump(w))
  {
    hide Safe, Pump, Runs;
    var steps := PumpIsLaunches(w);
    RunSafe(w, steps, Pump(w));
  }

  /** In a safe world a launch waits only for a slot and a queued task. */
  lemma LaunchReady(w: World)
    requires Safe(w)
    ensures CanLaunch(w) <==> FreeSlot(w) && Oldest(w.rows).Some?
  {
    if Oldest(w.rows).Some? {
      var i := Oldest(w.rows).value;
      assert RowSafe(w.rows[i], i in Ran(w.log));
    }
  }

  lemma NoneQueued(w: World)
    ensures Oldest(w.rows).None? <==> Count(w.rows, Queued) == 0
  {
    CountNone(w.rows, Queued);
  }

  /** The pump ends with nothing queued or every slot taken. */
  lemma {:induction false} PumpDrains(w: World)
    requires Safe(w)
    ensures Drained(Pump(w))
    decreases Count(w.rows, Queued)
  {
    hide Safe, AfterLaunch;
    LaunchReady(w);
    NoneQueued(w);
    if CanLaunch(w) {
      var i := Oldest(w.rows).value;
      LaunchUsesOneUp(w, i);
      LaunchSafe(w, i);
      PumpDrains(AfterLaunch(w, i));
    }
  }

  lemma LaunchKeepsMax(w: World, i: nat)
    requires i < |w.rows|
    ensures AfterLaunch(w, i).max == w.max
  {
  }

  /** It starts exactly as many as there are slots and tasks for. */
  lemma {:induction false} PumpFills(w: World)
    requires Safe(w)
    ensures var started := Min(Count(w.rows, Queued), Max(0, w.max - Count(w.rows, Running)));
            && Count(Pump(w).rows, Running) == Count(w.rows, Running) + started
            && Count(Pump(w).rows, Queued) == Count(w.rows, Queued) - started
    decreases Count(w.rows, Queued)
  {
    hide Safe, AfterLaunch, CanPop;
    LaunchReady(w);
    NoneQueued(w);
    if CanLaunch(w) {
      var i := Oldest(w.rows).value;
      LaunchUsesOneUp(w, i);
      LaunchSafe(w, i);
      LaunchKeepsMax(w, i);
      PumpFills(AfterLaunch(w, i));
    }
  }

  /** A row the pump started had its turn; every other row is untouched. */
  lemma {:induction false} PumpLeavesOthers(w: World, i: nat)
    requires i < |w.rows|
    ensures |Pump(w).rows| == |w.rows|
    ensures Pump(w).rows[i] == w.rows[i]
            || (w.rows[i].state.Queued? && CanPop(w.rows[i]) && Pump(w).rows[i] == Launched(w.rows[i]))
    decreases Count(w.rows, Queued)
  {
    hide Launched, CanPop;
    if CanLaunch(w) {
      var k := Oldest(w.rows).value;
      var w' := AfterLaunch(w, k);
      LaunchUsesOneUp(w, k);
      PumpLeavesOthers(w', i);
      LaunchedRuns(w.rows[k]);
      assert i != k ==> w'.rows[i] == w.rows[i];
    }
  }

  lemma LaunchedRuns(t: Task)
    requires CanPop(t)
    ensures Launched(t).state == Running && Launched(t).created == t.created
  {
  }

  /** Oldest first: no task still waiting is older than one the pump started. */
  lemma {:induction false} PumpStartsOldest(w: World, i: nat, j: nat)
    requires i < |w.rows| && j < |w.rows|
    requires w.rows[i].state.Queued? && Pump(w).rows[i] != w.rows[i]
    requires w.rows[j].state.Queued? && Pump(w).rows[j] == w.rows[j]
    ensures w.rows[i].created < w.rows[j].created || (w.rows[i].created == w.rows[j].created && i <= j)
    decreases Count(w.rows, Queued)
  {
    hide Launched, CanPop;
    if CanLaunch(w) {
      var k := Oldest(w.rows).value;
      var w' := AfterLaunch(w, k);
      LaunchUsesOneUp(w, k);
      LaunchedRuns(w.rows[k]);
      if i != k {
        assert w'.rows[i] == w.rows[i];
        if j == k {
          PumpLeavesOthers(w', j);
        } else {
          assert w'.rows[j] == w.rows[j];
          PumpStartsOldest(w', i, j);
        }
      }
    }
  }

  /** The queued rows that stand ahead of this one. */
  function QueuedAhead(rows: seq<Task>, i: nat): set<nat>
    requires i < |rows|
  {
    set j: nat | j < |rows| && j != i && rows[j].state.Queued? && Tasks.Ahead(rows, j, i)
  }

  lemma OldestHasNoneAhead(rows: seq<Task>)
    requires Oldest(rows).Some?
    ensures QueuedAhead(rows, Oldest(rows).value) == {}
  {
  }

  lemma LaunchTakesOneAhead(w: World, i: nat)
    requires i < |w.rows| && w.rows[i].state.Queued? && Oldest(w.rows).Some? && Oldest(w.rows).value != i
    requires CanPop(w.rows[Oldest(w.rows).value])
    ensures var k := Oldest(w.rows).value;
            k in QueuedAhead(w.rows, i) && QueuedAhead(AfterLaunch(w, k).rows, i) == QueuedAhead(w.rows, i) - {k}
  {
    hide Launched, CanPop;
    var k := Oldest(w.rows).value;
    var rows := AfterLaunch(w, k).rows;
    LaunchedRuns(w.rows[k]);
    forall j: nat ensures j in QueuedAhead(rows, i) <==> j in QueuedAhead(w.rows, i) && j != k {
      assert j < |rows| && j != k ==> rows[j] == w.rows[j];
      assert rows[i] == w.rows[i] && rows[k].created == w.rows[k].created;
    }
  }

  /** Which tasks the pump starts, exactly: the ones with fewer queued tasks ahead of them than there are free slots. */
  lemma {:induction false} PumpStartsExactly(w: World, i: nat)
    requires Safe(w) && i < |w.rows| && w.rows[i].state.Queued?
    ensures CanPop(w.rows[i])
    ensures var row := Pump(w).rows[i];
            if |QueuedAhead(w.rows, i)| < w.max - Count(w.rows, Running) then row == Launched(w.rows[i])
            else row == w.rows[i]
    decreases Count(w.rows, Queued)
  {
    assert CanPop(w.rows[i]) by { QueuedCanPop(w, i); }
    hide Safe, Launched, CanPop, QueuedAhead;
    LaunchReady(w);
    if CanLaunch(w) {
      var k := Oldest(w.rows).value;
      LaunchUsesOneUp(w, k);
      LaunchSafe(w, k);
      if k == i {
        OldestHasNoneAhead(w.rows);
        LaunchedRuns(w.rows[i]);
        PumpLeavesOthers(AfterLaunch(w, i), i);
      } else {
        LaunchTakesOneAhead(w, i);
        PumpStartsExactly(AfterLaunch(w, k), i);
      }
    }
  }

  lemma QueuedCanPop(w: World, i: nat)
    requires Safe(w) && i < |w.rows| && w.rows[i].state.Queued?
    ensures CanPop(w.rows[i])
  {
    assert RowSafe(w.rows[i], i in Ran(w.log));
  }

  // ------------------------------------------------------------ operations

  /** What the routes and the turns call. */
  datatype Op =
    | Starting(request: Request)
    | Telling(account: string, task: nat, text: string, mode: string, tools: seq<string>)
    | Cancelling(account: string, task: nat)
    | Finishing(index: nat, outcome: Outcome)
    | Watching(task: nat, seen: Seen)

  predicate Callable(w: World, op: Op) {
    match op
    case Finishing(k, _) => k < |w.flight|
    case Watching(i, _) => i < |w.rows|
    case _ => true
  }

  function Serve(w: World, op: Op): World
    requires Callable(w, op)
  {
    match op
    case Starting(r) => Start(w, r).0
    case Telling(account, i, text, mode, tools) => Message(w, account, i, text, mode, tools).0
    case Cancelling(account, i) => Cancel(w, account, i).0
    case Finishing(k, o) => Finish(w, k, o)
    case Watching(i, seen) => AfterProgress(w, i, seen)
  }

  /** The step an operation takes before it pumps, when it takes one. */
  function Opening(w: World, op: Op): Option<Step>
    requires Callable(w, op)
  {
    match op
    case Starting(r) => if StartProblem(r).Some? then None else Some(Create(RowFor(r)))
    case Telling(account, i, text, mode, tools) =>
      if MessageProblem(w, account, i, text, mode, tools).Some? then None
      else Some(Tell(i, Note(Strip(text), mode, tools)))
    case Cancelling(account, i) => if Finds(w, account, i) && Live(w.rows[i]) then Some(Stop(i)) else None
    case Finishing(k, o) => Some(Settle(k, o))
    case Watching(i, seen) => Some(Progress(i, seen))
  }

  /** Every operation is one step and then the pump, or changes nothing. */
  lemma ServeIsSteps(w: World, op: Op)
    requires Callable(w, op)
    ensures var s := Opening(w, op);
            && (s.Some? ==> Enabled(w, s.value))
            && Serve(w, op)
               == if s.None? then w else if s.value.Progress? then Next(w, s.value) else Pump(Next(w, s.value))
  {
    hide Pump, Strip, ModelName, ToolRules, AfterSettle, AfterStop, AfterTell;
  }

  lemma ServeSafe(w: World, op: Op)
    requires Safe(w) && Callable(w, op)
    ensures Safe(Serve(w, op))
  {
    hide Safe, Serve, Opening, Enabled, Next;
    ServeIsSteps(w, op);
    var s := Opening(w, op);
    if s.Some? {
      StepSafe(w, s.value);
      PumpSafe(Next(w, s.value));
    }
  }

  /** Progress and refusals change no state, so what was drained stays drained; everything else pumps. */
  lemma ServeDrained(w: World, op: Op)
    requires Safe(w) && Callable(w, op)
    requires Drained(w) || (Opening(w, op).Some? && !Opening(w, op).value.Progress?)
    ensures Drained(Serve(w, op))
  {
    hide Safe, Serve, Opening, Enabled, Next, Drained, Callable;
    ServeIsSteps(w, op);
    var s := Opening(w, op);
    if s.Some? {
      StepSafe(w, s.value);
      if s.value.Progress? { ProgressDrained(w, s.value); } else { PumpDrains(Next(w, s.value)); }
    }
  }

  lemma ProgressDrained(w: World, s: Step)
    requires s.Progress? && Enabled(w, s) && Drained(w)
    ensures Drained(Next(w, s))
  {
    var t := Progressed(w.rows[s.task], s.seen);
    CountUpdate(w.rows, s.task, t, Queued);
    CountUpdate(w.rows, s.task, t, Running);
  }

  ghost predicate Serves(w: World, ops: seq<Op>, end: World)
    decreases |ops|
  {
    if ops == [] then w == end else Callable(w, ops[0]) && Serves(Serve(w, ops[0]), ops[1..], end)
  }

  /** Once a pump has run, no slot is ever left free while a task waits, whatever is asked and however turns end. */
  lemma {:induction false} StaysDrained(w: World, ops: seq<Op>, end: World)
    requires Safe(w) && Drained(w) && Serves(w, ops, end)
    ensures Safe(end) && Drained(end)
    decreases |ops|
  {
    hide Safe, Drained, Serve, Callable;
    if ops != [] {
      ServeSafe(w, ops[0]);
      ServeDrained(w, ops[0]);
      StaysDrained(Serve(w, ops[0]), ops[1..], end);
    }
  }

  /** Start-up itself does not pump: what was queued waits for the first operation that does. */
  lemma RestartDrainedExactly(w: World, max: int)
    ensures Drained(AfterRestart(w, max)) <==> max <= 0 || Count(w.rows, Queued) == 0
  {
    hide Interrupted;
    var w' := AfterRestart(w, max);
    forall i | 0 <= i < |w'.rows| ensures w'.rows[i].state != Running { InterruptedState(w.rows[i]); }
    CountNone(w'.rows, Running);
    CountNone(w'.rows, Queued);
    CountNone(w.rows, Queued);
    forall i | 0 <= i < |w'.rows| ensures w'.rows[i].state == Queued <==> w.rows[i].state == Queued {
      InterruptedState(w.rows[i]);
    }
  }

  lemma InterruptedState(t: Task)
    ensures !Interrupted(t).state.Running? && (Interrupted(t).state.Queued? <==> t.state.Queued?)
  {
  }
}
