/** What every run of the scheduler keeps. */
module SchedulerProofs {
  import opened Text
  import opened Patterns
  import opened Tasks
  import opened Scheduler

  // ------------------------------------------------------------ reading the log

  /** The tasks that have ever run. */
  function Ran(log: seq<Event>): set<nat> {
    if log == [] then {}
    else Ran(log[..|log| - 1]) + (match log[|log| - 1] case Began(turn, _) => {turn.task} case _ => {})
  }

  /** The follow-ups accepted for a task, in order. */
  function AcceptedFor(log: seq<Event>, i: nat): seq<Note> {
    if log == [] then []
    else AcceptedFor(log[..|log| - 1], i)
         + (match log[|log| - 1] case Accepted(task, note) => if task == i then [note] else [] case _ => [])
  }

  function TakenBy(e: Event, i: nat): seq<Note> {
    match e
    case Began(turn, taken) => if turn.task == i && taken.Some? then [taken.value] else []
    case Dropped(task, notes) => if task == i then notes else []
    case _ => []
  }

  /** The follow-ups that left a task's queue, in order: each started one turn, or a cancel dropped it. */
  function RemovedFor(log: seq<Event>, i: nat): seq<Note> {
    if log == [] then [] else RemovedFor(log[..|log| - 1], i) + TakenBy(log[|log| - 1], i)
  }

  lemma LogSnoc(log: seq<Event>, e: Event, i: nat)
    ensures Ran(log + [e]) == Ran(log) + (match e case Began(turn, _) => {turn.task} case _ => {})
    ensures AcceptedFor(log + [e], i)
            == AcceptedFor(log, i)
             + (match e case Accepted(task, note) => if task == i then [note] else [] case _ => [])
    ensures RemovedFor(log + [e], i) == RemovedFor(log, i) + TakenBy(e, i)
  {
    assert (log + [e])[..|log|] == log;
  }

  // ------------------------------------------------------------ the invariant of a row

  /** A row's fields agree with each other and with whether the task has ever run. */
  ghost predicate RowSafe(t: Task, ran: bool) {
    && (t.state.Queued? && t.turns > 0 ==> t.notes != [])
    && (t.turns > 0 || t.state.Running? || t.state.Failed? || t.state.Idle? ==> ran)
    && (!t.state.Running? ==> (t.resumable <==> ran))
    && (t.state.Idle? ==> t.notes == [] && t.turns > 0)
    && (t.state.Cancelled? ==> t.notes == [])
    && forall k | 0 <= k < |t.notes| :: t.notes[k].text != ""
  }

  ghost predicate RowsSafe(w: World) {
    forall i | 0 <= i < |w.rows| :: RowSafe(w.rows[i], i in Ran(w.log))
  }

  ghost predicate TurnsKnown(w: World) {
    && (forall k | 0 <= k < |w.flight| :: w.flight[k].task < |w.rows| && w.flight[k].task in Ran(w.log))
    && forall i | i in Ran(w.log) :: i < |w.rows|
  }

  ghost predicate SlotsKept(w: World) { Count(w.rows, Running) <= Max(0, w.max) }

  ghost predicate Safe(w: World) { RowsSafe(w) && TurnsKnown(w) && SlotsKept(w) }

  /** A step that changes one row, and perhaps logs that it ran. */
  lemma OneRow(w: World, w': World, i: nat, t: Task)
    requires RowsSafe(w) && i < |w.rows| && w'.rows == w.rows[i := t]
    requires Ran(w'.log) == Ran(w.log) || Ran(w'.log) == Ran(w.log) + {i}
    requires RowSafe(t, i in Ran(w'.log))
    ensures RowsSafe(w')
  {
    hide RowSafe, Ran;
    forall k | 0 <= k < |w'.rows| ensures RowSafe(w'.rows[k], k in Ran(w'.log)) {
      if k != i { assert w'.rows[k] == w.rows[k]; }
    }
  }

  lemma ToldSafe(t: Task, note: Note, ran: bool)
    requires RowSafe(t, ran) && note.text != "" && !Refused(t)
    ensures RowSafe(Told(t, note), ran)
  {
  }

  lemma StoppedSafe(t: Task, ran: bool)
    requires RowSafe(t, ran) && Live(t)
    ensures RowSafe(Stopped(t), ran)
  {
  }

  lemma LaunchedSafe(t: Task, ran: bool)
    requires RowSafe(t, ran) && t.state.Queued?
    ensures CanPop(t) && RowSafe(Launched(t), true)
  {
  }

  lemma SettledSafe(t: Task, o: Outcome)
    requires RowSafe(t, true)
    ensures RowSafe(Settled(t, o), true)
  {
  }

  lemma InterruptedSafe(t: Task, ran: bool)
    requires RowSafe(t, ran)
    ensures RowSafe(Interrupted(t), ran) && !Interrupted(t).state.Running?
  {
  }

  lemma TellSafe(w: World, i: nat, note: Note)
    requires Safe(w) && Enabled(w, Tell(i, note))
    ensures Safe(AfterTell(w, i, note))
  {
    hide RowSafe, Ran, Told, Count, Refused;
    var w' := AfterTell(w, i, note);
    LogSnoc(w.log, Accepted(i, note), i);
    ToldSafe(w.rows[i], note, i in Ran(w.log));
    OneRow(w, w', i, Told(w.rows[i], note));
    CountUpdate(w.rows, i, Told(w.rows[i], note), Running);
    ToldState(w.rows[i], note);
  }

  lemma ToldState(t: Task, note: Note)
    ensures Told(t, note).state.Running? <==> t.state.Running?
  {
  }

  lemma StopSafe(w: World, i: nat)
    requires Safe(w) && Enabled(w, Stop(i))
    ensures Safe(AfterStop(w, i))
  {
    hide RowSafe, Ran, Stopped, Count;
    var w' := AfterStop(w, i);
    LogSnoc(w.log, Dropped(i, w.rows[i].notes), i);
    StoppedSafe(w.rows[i], i in Ran(w.log));
    OneRow(w, w', i, Stopped(w.rows[i]));
    CountUpdate(w.rows, i, Stopped(w.rows[i]), Running);
    StoppedState(w.rows[i]);
  }

  lemma StoppedState(t: Task)
    requires Live(t)
    ensures Stopped(t).state == Cancelled
  {
  }

  lemma LaunchSafe(w: World, i: nat)
    requires Safe(w) && FreeSlot(w) && i < |w.rows| && w.rows[i].state.Queued?
    ensures CanPop(w.rows[i]) && Safe(AfterLaunch(w, i))
  {
    hide RowSafe, Ran, Launched, Count, CanPop;
    var t, w' := w.rows[i], AfterLaunch(w, i);
    LaunchedSafe(t, i in Ran(w.log));
    LogSnoc(w.log, Began(TurnOf(i, t), NextNote(t)), i);
    OneRow(w, w', i, Launched(t));
    LaunchUsesOneUp(w, i);
  }

  lemma SettleSafe(w: World, k: nat, o: Outcome)
    requires Safe(w) && k < |w.flight|
    ensures Safe(AfterSettle(w, k, o))
  {
    hide RowSafe, Ran, Settled, Count;
    var turn, w' := w.flight[k], AfterSettle(w, k, o);
    LogSnoc(w.log, Ended(turn), turn.task);
    SettledSafe(w.rows[turn.task], o);
    OneRow(w, w', turn.task, Settled(w.rows[turn.task], o));
    CountUpdate(w.rows, turn.task, Settled(w.rows[turn.task], o), Running);
    SettledState(w.rows[turn.task], o);
    forall j | 0 <= j < |w'.flight| ensures w'.flight[j] in w.flight {
      assert w'.flight[j] == if j < k then w.flight[j] else w.flight[j + 1];
    }
  }

  lemma SettledState(t: Task, o: Outcome)
    ensures !Settled(t, o).state.Running?
    ensures Settled(t, o).state.Cancelled? <==> t.state.Cancelled?
  {
  }

  lemma ProgressSafe(w: World, i: nat, seen: Seen)
    requires Safe(w) && i < |w.rows|
    ensures Safe(AfterProgress(w, i, seen))
  {
    ProgressedSafe(w.rows[i], seen, i in Ran(w.log));
    ProgressedState(w.rows[i], seen);
    hide RowSafe, Ran, Progressed, Count;
    OneRow(w, AfterProgress(w, i, seen), i, Progressed(w.rows[i], seen));
    CountUpdate(w.rows, i, Progressed(w.rows[i], seen), Running);
  }

  lemma ProgressedSafe(t: Task, seen: Seen, ran: bool)
    requires RowSafe(t, ran)
    ensures RowSafe(Progressed(t, seen), ran)
  {
  }

  lemma ProgressedState(t: Task, seen: Seen)
    ensures Progressed(t, seen).state == t.state
    ensures Progressed(t, seen).notes == t.notes && Progressed(t, seen).brief == t.brief
  {
  }

  lemma CreateSafe(w: World, row: Task)
    requires Safe(w) && Fresh(row)
    ensures Safe(AfterCreate(w, row))
  {
    var w', n := AfterCreate(w, row), |w.rows|;
    hide Ran, Count;
    CountSnoc(w.rows, row, Running);
    assert n !in Ran(w.log);
    assert RowSafe(row, false);
    hide RowSafe;
    forall i | 0 <= i < |w'.rows| ensures RowSafe(w'.rows[i], i in Ran(w'.log)) {
      if i < n { assert w'.rows[i] == w.rows[i]; }
    }
  }

  lemma RestartSafe(w: World, max: int)
    requires Safe(w)
    ensures Safe(AfterRestart(w, max))
  {
    hide RowSafe, Ran, Count, Interrupted;
    var w' := AfterRestart(w, max);
    forall i | 0 <= i < |w'.rows| ensures RowSafe(w'.rows[i], i in Ran(w'.log)) && w'.rows[i].state != Running {
      InterruptedSafe(w.rows[i], i in Ran(w.log));
    }
    CountNone(w'.rows, Running);
  }

  lemma StepSafe(w: World, s: Step)
    requires Safe(w) && Enabled(w, s)
    ensures Safe(Next(w, s))
  {
    hide Safe, AfterCreate, AfterTell, AfterStop, AfterLaunch, AfterSettle, AfterProgress, AfterRestart;
    match s
    case Create(row) => CreateSafe(w, row);
    case Tell(i, note) => TellSafe(w, i, note);
    case Stop(i) => StopSafe(w, i);
    case Launch => LaunchSafe(w, Oldest(w.rows).value);
    case Settle(k, o) => SettleSafe(w, k, o);
    case Progress(i, seen) => ProgressSafe(w, i, seen);
    case Restart(max) => RestartSafe(w, max);
  }

  lemma {:induction false} RunSafe(w: World, steps: seq<Step>, end: World)
    requires Safe(w) && Runs(w, steps, end)
    ensures Safe(end)
    decreases |steps|
  {
    hide Safe, Next, Enabled;
    if steps != [] {
      StepSafe(w, steps[0]);
      RunSafe(Next(w, steps[0]), steps[1..], end);
    }
  }

  lemma EmptySafe(max: int)
    ensures Safe(Empty(max))
  {
  }

  // ------------------------------------------------------------ what that means

  /** However the steps interleave, running tasks never outnumber the slots. */
  lemma NeverOverbooked(max: int, steps: seq<Step>, end: World)
    requires Runs(Empty(max), steps, end)
    ensures Count(end.rows, Running) <= Max(0, end.max)
  {
    hide RowsSafe, TurnsKnown;
    EmptySafe(max);
    RunSafe(Empty(max), steps, end);
  }

  /** Taking the next follow-up never fails: a queued task that has had a turn has one waiting. */
  lemma QueuedHasMessage(max: int, steps: seq<Step>, end: World, i: nat)
    requires Runs(Empty(max), steps, end) && i < |end.rows| && end.rows[i].state.Queued? && end.rows[i].turns > 0
    ensures end.rows[i].notes != []
  {
    EmptySafe(max);
    RunSafe(Empty(max), steps, end);
    assert RowSafe(end.rows[i], i in Ran(end.log));
  }

  /** Outside `running`, a task can be resumed exactly when it has ever run. */
  lemma ResumableMeansRan(max: int, steps: seq<Step>, end: World, i: nat)
    requires Runs(Empty(max), steps, end) && i < |end.rows| && !end.rows[i].state.Running?
    ensures end.rows[i].resumable <==> i in Ran(end.log)
  {
    EmptySafe(max);
    RunSafe(Empty(max), steps, end);
    assert RowSafe(end.rows[i], i in Ran(end.log));
  }

  /** The refusal for a task that is over means exactly one thing: it was cancelled before it ever ran. */
  lemma RefusedMeansNeverRan(max: int, steps: seq<Step>, end: World, i: nat)
    requires Runs(Empty(max), steps, end) && i < |end.rows|
    ensures Refused(end.rows[i]) <==> end.rows[i].state.Cancelled? && i !in Ran(end.log)
  {
    EmptySafe(max);
    RunSafe(Empty(max), steps, end);
    assert RowSafe(end.rows[i], i in Ran(end.log));
  }

  /** So that is what a conflict tells the caller, and the one thing it can tell. */
  lemma ConflictMeansNeverRan(max: int, steps: seq<Step>, end: World, account: string, i: nat, text: string,
                              mode: string, tools: seq<string>)
    requires Runs(Empty(max), steps, end)
    ensures var reply := Message(end, account, i, text, mode, tools).1;
            reply.Err? && Status(reply.error) == 409 ==>
              Finds(end, account, i) && end.rows[i].state.Cancelled? && i !in Ran(end.log)
  {
    hide Runs, Ran, Pump, Strip, ToolRules;
    if i < |end.rows| { RefusedMeansNeverRan(max, steps, end, i); }
  }

  // ------------------------------------------------------------ follow-ups are first in, first out, and conserved

  /** What was accepted for a task is what left its queue and then what waits in it. */
  ghost predicate Conserved(w: World) {
    forall i: nat :: AcceptedFor(w.log, i) == RemovedFor(w.log, i) + (if i < |w.rows| then w.rows[i].notes else [])
  }

  lemma ConservedAt(w: World, i: nat)
    requires Conserved(w)
    ensures AcceptedFor(w.log, i) == RemovedFor(w.log, i) + (if i < |w.rows| then w.rows[i].notes else [])
  {
  }

  /** The event is about row `i`, and says what it did to the row's follow-ups. */
  ghost predicate Explains(e: Event, i: nat, before: seq<Note>, after: seq<Note>) {
    match e
    case Accepted(task, note) => task == i && after == before + [note]
    case Began(turn, _) => turn.task == i && TakenBy(e, i) + after == before
    case Dropped(task, _) => task == i && TakenBy(e, i) + after == before
    case Ended(_) => after == before
  }

  lemma ExplainedOne(log: seq<Event>, e: Event, i: nat, before: seq<Note>, after: seq<Note>)
    requires AcceptedFor(log, i) == RemovedFor(log, i) + before && Explains(e, i, before, after)
    ensures AcceptedFor(log + [e], i) == RemovedFor(log + [e], i) + after
  {
    LogSnoc(log, e, i);
    var removed := RemovedFor(log, i);
    hide AcceptedFor, RemovedFor;
    match e
    case Accepted(task, note) => Regroup3(removed, before, [note]);
    case Began(turn, _) => Regroup3(removed, TakenBy(e, i), after);
    case Dropped(task, _) => Regroup3(removed, TakenBy(e, i), after);
    case Ended(_) =>
  }

  lemma OtherUntouched(log: seq<Event>, e: Event, i: nat, j: nat, before: seq<Note>, after: seq<Note>)
    requires i != j && Explains(e, i, before, after)
    ensures AcceptedFor(log + [e], j) == AcceptedFor(log, j) && RemovedFor(log + [e], j) == RemovedFor(log, j)
  {
    LogSnoc(log, e, j);
    hide AcceptedFor, RemovedFor;
  }

  /** A step that logs one event about one row. */
  lemma LoggedConserved(w: World, w': World, i: nat, t: Task, e: Event)
    requires Conserved(w) && i < |w.rows| && w'.rows == w.rows[i := t] && w'.log == w.log + [e]
    requires Explains(e, i, w.rows[i].notes, t.notes)
    ensures Conserved(w')
  {
    hide AcceptedFor, RemovedFor, Explains;
    forall j: nat
      ensures AcceptedFor(w'.log, j) == RemovedFor(w'.log, j) + (if j < |w'.rows| then w'.rows[j].notes else [])
    {
      ConservedAt(w, j);
      if j == i {
        ExplainedOne(w.log, e, i, w.rows[i].notes, t.notes);
      } else {
        OtherUntouched(w.log, e, i, j, w.rows[i].notes, t.notes);
      }
    }
  }

  lemma SameConserved(w: World, w': World)
    requires Conserved(w) && w'.log == w.log && |w.rows| <= |w'.rows|
    requires forall i | 0 <= i < |w'.rows| :: w'.rows[i].notes == if i < |w.rows| then w.rows[i].notes else []
    ensures Conserved(w')
  {
    hide AcceptedFor, RemovedFor;
    forall j: nat
      ensures AcceptedFor(w'.log, j) == RemovedFor(w'.log, j) + (if j < |w'.rows| then w'.rows[j].notes else [])
    {
      ConservedAt(w, j);
    }
  }

  lemma LaunchConserved(w: World, i: nat)
    requires Conserved(w) && i < |w.rows|
    ensures Conserved(AfterLaunch(w, i))
  {
    hide Conserved;
    if CanPop(w.rows[i]) {
      var t := w.rows[i];
      LoggedConserved(w, AfterLaunch(w, i), i, Launched(t), Began(TurnOf(i, t), NextNote(t)));
    }
  }

  lemma SettleConserved(w: World, k: nat, o: Outcome)
    requires Conserved(w) && k < |w.flight| && w.flight[k].task < |w.rows|
    ensures Conserved(AfterSettle(w, k, o))
  {
    hide Conserved;
    var turn := w.flight[k];
    LoggedConserved(w, AfterSettle(w, k, o), turn.task, Settled(w.rows[turn.task], o), Ended(turn));
  }

  lemma TellConserved(w: World, i: nat, note: Note)
    requires Conserved(w) && i < |w.rows|
    ensures Conserved(AfterTell(w, i, note))
  {
    hide Conserved;
    LoggedConserved(w, AfterTell(w, i, note), i, Told(w.rows[i], note), Accepted(i, note));
  }

  lemma StopConserved(w: World, i: nat)
    requires Conserved(w) && i < |w.rows| && Live(w.rows[i])
    ensures Conserved(AfterStop(w, i))
  {
    hide Conserved;
    LoggedConserved(w, AfterStop(w, i), i, Stopped(w.rows[i]), Dropped(i, w.rows[i].notes));
  }

  lemma StepConserved(w: World, s: Step)
    requires Safe(w) && Conserved(w) && Enabled(w, s)
    ensures Conserved(Next(w, s))
  {
    hide Conserved, RowsSafe, Ran, AfterLaunch, AfterSettle, AfterTell, AfterStop;
    match s
    case Create(row) => SameConserved(w, Next(w, s));
    case Tell(i, note) => TellConserved(w, i, note);
    case Stop(i) => StopConserved(w, i);
    case Launch => LaunchConserved(w, Oldest(w.rows).value);
    case Settle(k, o) => SettleConserved(w, k, o);
    case Progress(i, seen) => SameConserved(w, Next(w, s));
    case Restart(max) => SameConserved(w, Next(w, s));
  }

  lemma {:induction false} RunConserved(w: World, steps: seq<Step>, end: World)
    requires Safe(w) && Conserved(w) && Runs(w, steps, end)
    ensures Conserved(end)
    decreases |steps|
  {
    hide Safe, Conserved, Next, Enabled;
    if steps != [] {
      StepSafe(w, steps[0]);
      StepConserved(w, steps[0]);
      RunConserved(Next(w, steps[0]), steps[1..], end);
    }
  }

  /**
   * First in, first out, and nothing lost: over any run, what a task was told is, in order, the follow-ups that each
   * started one turn or were dropped by a cancel, and then the ones still waiting.
   */
  lemma FollowUpsInOrder(max: int, steps: seq<Step>, end: World, i: nat)
    requires Runs(Empty(max), steps, end) && i < |end.rows|
    ensures AcceptedFor(end.log, i) == RemovedFor(end.log, i) + end.rows[i].notes
  {
    EmptySafe(max);
    assert Conserved(Empty(max));
    RunConserved(Empty(max), steps, end);
    ConservedAt(end, i);
  }

  // ------------------------------------------------------------ what a turn runs on

  /** A turn that resumes a session is prompted by the follow-up it took; a first turn runs the brief. */
  ghost predicate Prompted(e: Event, rows: seq<Task>) {
    e.Began? ==>
      && e.turn.task < |rows|
      && (e.turn.resume <==> e.taken.Some?)
      && (if e.turn.resume then e.taken.value.text != "" && e.turn.prompt == e.taken.value.text
                                && e.turn.allow == e.taken.value.tools
          else e.turn.prompt == rows[e.turn.task].brief && e.turn.allow == [])
  }

  ghost predicate AllPrompted(w: World) {
    forall k | 0 <= k < |w.log| :: Prompted(w.log[k], w.rows)
  }

  lemma BriefsStay(w: World, s: Step, i: nat)
    requires Enabled(w, s) && i < |w.rows|
    ensures |w.rows| <= |Next(w, s).rows| && Next(w, s).rows[i].brief == w.rows[i].brief
  {
    hide Oldest, OldestOf;
  }

  lemma LogGrows(w: World, s: Step)
    requires Enabled(w, s)
    ensures var log' := Next(w, s).log;
            log' == w.log || (|log'| == |w.log| + 1 && log'[..|w.log|] == w.log)
    ensures var log' := Next(w, s).log;
            |log'| > |w.log| && log'[|w.log|].Began? ==> s.Launch?
  {
    hide Oldest, OldestOf;
  }

  lemma LaunchPrompted(w: World, i: nat)
    requires Safe(w) && i < |w.rows| && w.rows[i].state.Queued?
    ensures var w' := AfterLaunch(w, i); |w'.log| == |w.log| + 1 && Prompted(w'.log[|w.log|], w'.rows)
  {
    hide Ran;
    assert RowSafe(w.rows[i], i in Ran(w.log));
  }

  lemma StepPrompted(w: World, s: Step)
    requires Safe(w) && AllPrompted(w) && Enabled(w, s)
    ensures AllPrompted(Next(w, s))
  {
    hide Safe, Next, Enabled, AfterLaunch;
    var w' := Next(w, s);
    LogGrows(w, s);
    if s.Launch? { LaunchStep(w); }
    forall k | 0 <= k < |w'.log| ensures Prompted(w'.log[k], w'.rows) {
      if k < |w.log| {
        assert w'.log[k] == w'.log[..|w.log|][k] == w.log[k];
        if w.log[k].Began? { BriefsStay(w, s, w.log[k].turn.task); }
      }
    }
  }

  lemma LaunchStep(w: World)
    requires Safe(w) && Enabled(w, Launch)
    ensures var w' := Next(w, Launch); |w'.log| == |w.log| + 1 && Prompted(w'.log[|w.log|], w'.rows)
  {
    hide Safe, AfterLaunch, Prompted;
    LaunchPrompted(w, Oldest(w.rows).value);
  }

  lemma {:induction false} RunPrompted(w: World, steps: seq<Step>, end: World)
    requires Safe(w) && AllPrompted(w) && Runs(w, steps, end)
    ensures AllPrompted(end)
    decreases |steps|
  {
    hide Safe, AllPrompted, Next, Enabled;
    if steps != [] {
      StepSafe(w, steps[0]);
      StepPrompted(w, steps[0]);
      RunPrompted(Next(w, steps[0]), steps[1..], end);
    }
  }

  /** Over any run, every turn that resumes a session runs a message, and never the brief again. */
  lemma ResumedByMessage(max: int, steps: seq<Step>, end: World, k: nat)
    requires Runs(Empty(max), steps, end) && k < |end.log|
    ensures Prompted(end.log[k], end.rows)
  {
    EmptySafe(max);
    RunPrompted(Empty(max), steps, end);
  }
}
