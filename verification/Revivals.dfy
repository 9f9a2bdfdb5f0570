/** What a message does to a task that is over, and what the person is told about it. */
module Revivals {
  import opened Text
  import opened Patterns
  import opened Tasks
  import opened Scheduler
  import opened SchedulerProofs
  import opened PumpProofs
  import opened TurnsProofs

  // ------------------------------------------------------------ what the revived turn runs

  /** What ends task `i`'s wait: it begins a turn, or a cancel empties its queue. */
  predicate Decides(e: Event, i: nat) {
    match e
    case Began(turn, _) => turn.task == i
    case Dropped(task, _) => task == i
    case _ => false
  }

  /** Task `i` waits for a slot with these follow-ups first, nothing of it in flight, and so many turns counted. */
  ghost predicate Awaits(w: World, i: nat, turns: nat, brief: string, waiting: seq<Note>) {
    && i < |w.rows| && w.rows[i].state.Queued? && w.rows[i].turns == turns && w.rows[i].brief == brief
    && waiting <= w.rows[i].notes && !InFlight(w, i)
    && (turns > 0 ==> waiting != [] && waiting[0].text != "")
  }

  /** A turn that resumes on the first follow-up when some turn has been counted, and runs the brief when none has. */
  predicate RunsAsCounted(e: Event, turns: nat, brief: string, waiting: seq<Note>)
    requires turns > 0 ==> waiting != []
  {
    && e.Began? && (e.turn.resume <==> turns > 0)
    && e.taken == (if turns > 0 then Some(waiting[0]) else None)
    && e.turn.prompt == if turns > 0 then waiting[0].text else brief
  }

  /** A step leaves the task waiting as it was, unless its one event decides. */
  ghost predicate WaitsOn(w: World, w': World, i: nat, turns: nat, brief: string, waiting: seq<Note>)
    requires turns > 0 ==> waiting != []
  {
    if w'.log == w.log then Awaits(w', i, turns, brief, waiting)
    else
      && |w'.log| == |w.log| + 1
      && var e := w'.log[|w.log|];
         && (e.Began? && e.turn.task == i ==> RunsAsCounted(e, turns, brief, waiting))
         && (!Decides(e, i) ==> Awaits(w', i, turns, brief, waiting))
  }

  lemma FlightApart(w: World, w': World, i: nat)
    requires !InFlight(w, i) && forall k | 0 <= k < |w'.flight| :: w'.flight[k] in w.flight || w'.flight[k].task != i
    ensures !InFlight(w', i)
  {
  }

  lemma LaunchWaits(w: World, i: nat, j: nat, turns: nat, brief: string, waiting: seq<Note>)
    requires Awaits(w, i, turns, brief, waiting) && j < |w.rows|
    ensures WaitsOn(w, AfterLaunch(w, j), i, turns, brief, waiting)
  {
    hide InFlight, Launched;
    var w' := AfterLaunch(w, j);
    if CanPop(w.rows[j]) {
      assert w'.log[|w.log|] == Began(TurnOf(j, w.rows[j]), NextNote(w.rows[j]));
      if j != i { FlightApart(w, w', i); }
    }
  }

  lemma SettleWaits(w: World, i: nat, k: nat, o: Outcome, turns: nat, brief: string, waiting: seq<Note>)
    requires Awaits(w, i, turns, brief, waiting) && k < |w.flight|
    ensures WaitsOn(w, AfterSettle(w, k, o), i, turns, brief, waiting)
  {
    var w' := AfterSettle(w, k, o);
    assert w.flight[k].task != i;
    assert w'.log[|w.log|] == Ended(w.flight[k]);
    hide InFlight, Settled;
    forall j | 0 <= j < |w'.flight| ensures w'.flight[j] in w.flight {
      assert w'.flight[j] == if j < k then w.flight[j] else w.flight[j + 1];
    }
    FlightApart(w, w', i);
  }

  lemma TellWaits(w: World, i: nat, j: nat, note: Note, turns: nat, brief: string, waiting: seq<Note>)
    requires Awaits(w, i, turns, brief, waiting) && j < |w.rows|
    ensures WaitsOn(w, AfterTell(w, j, note), i, turns, brief, waiting)
  {
    var w' := AfterTell(w, j, note);
    assert w'.log[|w.log|] == Accepted(j, note);
    hide InFlight;
    FlightApart(w, w', i);
  }

  lemma StopWaits(w: World, i: nat, j: nat, turns: nat, brief: string, waiting: seq<Note>)
    requires Awaits(w, i, turns, brief, waiting) && j < |w.rows| && Live(w.rows[j])
    ensures WaitsOn(w, AfterStop(w, j), i, turns, brief, waiting)
  {
    var w' := AfterStop(w, j);
    assert w'.log[|w.log|] == Dropped(j, w.rows[j].notes);
    hide InFlight, Stopped;
    FlightApart(w, w', i);
  }

  lemma QuietWaits(w: World, w': World, i: nat, turns: nat, brief: string, waiting: seq<Note>)
    requires Awaits(w, i, turns, brief, waiting) && w'.log == w.log && i < |w'.rows| && w'.rows[i] == w.rows[i]
    requires w'.flight == w.flight || w'.flight == []
    ensures WaitsOn(w, w', i, turns, brief, waiting)
  {
    hide InFlight;
    FlightApart(w, w', i);
  }

  lemma StepWaits(w: World, s: Step, i: nat, turns: nat, brief: string, waiting: seq<Note>)
    requires Awaits(w, i, turns, brief, waiting) && Enabled(w, s)
    ensures WaitsOn(w, Next(w, s), i, turns, brief, waiting)
  {
    hide WaitsOn, InFlight, AfterTell, AfterStop, AfterLaunch, AfterSettle, Oldest;
    match s
    case Create(_) => QuietWaits(w, Next(w, s), i, turns, brief, waiting);
    case Tell(j, note) => TellWaits(w, i, j, note, turns, brief, waiting);
    case Stop(j) => StopWaits(w, i, j, turns, brief, waiting);
    case Launch => LaunchWaits(w, i, Oldest(w.rows).value, turns, brief, waiting);
    case Settle(k, o) => SettleWaits(w, i, k, o, turns, brief, waiting);
    case Progress(_, _) => QuietWaits(w, Next(w, s), i, turns, brief, waiting);
    case Restart(_) => QuietWaits(w, Next(w, s), i, turns, brief, waiting);
  }

  /** A run only adds to the log. */
  lemma {:induction false} RunKeepsLog(w: World, steps: seq<Step>, end: World)
    requires Runs(w, steps, end)
    ensures w.log <= end.log
    decreases |steps|
  {
    hide Next, Enabled;
    if steps != [] {
      LogGrows(w, steps[0]);
      RunKeepsLog(Next(w, steps[0]), steps[1..], end);
    }
  }

  /** Over any run, the first event that decides, when it begins a turn, begins it as counted. */
  lemma {:induction false} FirstBeganAsCounted(w: World, steps: seq<Step>, end: World, i: nat, turns: nat,
                                               brief: string, waiting: seq<Note>, k: nat)
    requires Awaits(w, i, turns, brief, waiting) && Runs(w, steps, end)
    requires |w.log| <= k < |end.log| && end.log[k].Began? && end.log[k].turn.task == i
    requires forall j | |w.log| <= j < k :: !Decides(end.log[j], i)
    ensures RunsAsCounted(end.log[k], turns, brief, waiting)
    decreases |steps|
  {
    hide Next, Enabled, RunsAsCounted, InFlight;
    if steps != [] {
      var w' := Next(w, steps[0]);
      StepWaits(w, steps[0], i, turns, brief, waiting);
      RunKeepsLog(w', steps[1..], end);
      if w'.log != w.log { assert end.log[|w.log|] == w'.log[|w.log|]; }
      if w'.log == w.log || k > |w.log| {
        FirstBeganAsCounted(w', steps[1..], end, i, turns, brief, waiting, k);
      }
    }
  }

  /** A guarded message finds no turn of an ended task unsettled. */
  lemma NothingUnsettled(w: World, i: nat, note: Note)
    requires OneTurn(w) && i < |w.rows| && Over(w.rows[i]) && Guarded(w, Tell(i, note))
    ensures !InFlight(w, i)
  {
  }

  lemma ToldAwaits(w: World, i: nat, note: Note)
    requires Safe(w) && OneTurn(w) && i < |w.rows| && Over(w.rows[i]) && w.rows[i].resumable && note.text != ""
    requires Guarded(w, Tell(i, note))
    ensures Enabled(w, Tell(i, note))
    ensures Awaits(AfterTell(w, i, note), i, w.rows[i].turns, w.rows[i].brief, w.rows[i].notes + [note])
  {
    assert RowSafe(w.rows[i], i in Ran(w.log));
    NothingUnsettled(w, i, note);
    var t := Told(w.rows[i], note);
    assert t.notes == w.rows[i].notes + [note];
    assert AfterTell(w, i, note).rows[i] == t;
    if w.rows[i].turns > 0 && w.rows[i].notes != [] { assert t.notes[0] == w.rows[i].notes[0]; }
    hide InFlight, Ran;
    FlightApart(w, AfterTell(w, i, note), i);
  }

  /**
   * A message revives an ended task. Whatever then happens, in whatever order, the next turn of that task, unless a
   * cancel comes first, resumes the session on the oldest follow-up exactly when some turn had been counted when the
   * message came; when none had, it runs the brief again and takes no message. The message must be a guarded one.
   */
  lemma RevivedRunsMessageExactly(w: World, i: nat, note: Note, steps: seq<Step>, end: World, k: nat)
    requires Safe(w) && OneTurn(w) && i < |w.rows| && Over(w.rows[i]) && w.rows[i].resumable && note.text != ""
    requires Guarded(w, Tell(i, note)) && Runs(AfterTell(w, i, note), steps, end)
    requires |w.log| < k < |end.log| && end.log[k].Began? && end.log[k].turn.task == i
    requires forall j | |w.log| < j < k :: !Decides(end.log[j], i)
    ensures end.log[k].turn.resume <==> w.rows[i].turns > 0
    ensures end.log[k].taken == if w.rows[i].turns > 0 then Some((w.rows[i].notes + [note])[0]) else None
    ensures end.log[k].turn.prompt
            == if w.rows[i].turns > 0 then (w.rows[i].notes + [note])[0].text else w.rows[i].brief
  {
    hide Safe, OneTurn, Guarded, Runs, Awaits;
    ToldAwaits(w, i, note);
    var waiting := w.rows[i].notes + [note];
    FirstBeganAsCounted(AfterTell(w, i, note), steps, end, i, w.rows[i].turns, w.rows[i].brief, waiting, k);
  }

  function Killed(): Outcome { Outcome(false, "interrupted", "", 0.0, 0, []) }

  function AfterKill(): World { AfterSettle(AfterStop(AfterFirst(), 0), 0, Killed()) }

  function AfterRevival(): World { AfterLaunch(AfterTell(AfterKill(), 0, Again()), 0) }

  function RevivalSteps(): seq<Step> {
    [Create(SomeRow()), Launch, Stop(0), Settle(0, Killed()), Tell(0, Again()), Launch]
  }

  lemma KillSettles()
    ensures var w3 := AfterStop(AfterFirst(), 0);
            && Enabled(AfterFirst(), Stop(0)) && Enabled(w3, Settle(0, Killed()))
            && Next(w3, Settle(0, Killed())) == AfterKill()
    ensures AfterKill().flight == [] && AfterKill().max == 1
    ensures var rows := AfterKill().rows;
            && |rows| == 1 && rows[0].state.Cancelled? && rows[0].turns == 0 && rows[0].resumable
            && rows[0].notes == [] && rows[0].brief == SomeRow().brief
  {
    FirstHalf();
    hide AfterFirst, Count, Oldest;
    var w3 := AfterStop(AfterFirst(), 0);
    assert w3.rows == [Stopped(Launched(SomeRow()))] && w3.rows[0].state.Cancelled?;
    assert AfterKill().rows == w3.rows[0 := w3.rows[0]] == w3.rows;
  }

  lemma RevivalLaunches()
    ensures var w5 := AfterTell(AfterKill(), 0, Again());
            && Enabled(AfterKill(), Tell(0, Again())) && Enabled(w5, Launch) && Next(w5, Launch) == AfterRevival()
    ensures |AfterRevival().log| > 0 && |AfterRevival().rows| == 1
    ensures var last := AfterRevival().log[|AfterRevival().log| - 1];
            last.Began? && last.taken.None? && !last.turn.resume && last.turn.prompt == SomeRow().brief
    ensures AfterRevival().rows[0].state.Running? && AfterRevival().rows[0].notes == [Again()]
  {
    KillSettles();
    hide AfterKill, Count, Oldest;
    var w5 := AfterTell(AfterKill(), 0, Again());
    assert w5.rows[0].turns == 0 && w5.rows[0].notes == [Again()];
    OneRowCounts(w5);
  }

  lemma RevivalTail()
    ensures Runs(AfterKill(), [Tell(0, Again()), Launch], AfterRevival())
    ensures GuardedRun(AfterKill(), [Tell(0, Again()), Launch])
  {
    KillSettles();
    RevivalLaunches();
    var w5 := AfterTell(AfterKill(), 0, Again());
    assert !InFlight(AfterKill(), 0);
    hide Runs, GuardedRun, Oldest, Count, AfterKill, AfterRevival, Again, InFlight;
    RunsNow(AfterRevival());
    GuardedNow(AfterRevival());
    Prefixed(w5, Launch, [], AfterRevival());
    Prefixed(AfterKill(), Tell(0, Again()), [Launch], AfterRevival());
  }

  /**
   * Start a task, interrupt its first turn, let that settle, and message it: the turn that starts runs the brief from
   * the beginning, with the message still waiting. The run is a guarded one: nothing is out of turn.
   */
  lemma BriefRunsAgain()
    ensures Runs(Empty(1), RevivalSteps(), AfterRevival()) && GuardedRun(Empty(1), RevivalSteps())
    ensures |AfterRevival().log| > 0 && |AfterRevival().rows| == 1
    ensures var last := AfterRevival().log[|AfterRevival().log| - 1];
            last.Began? && last.taken.None? && !last.turn.resume && last.turn.prompt == SomeRow().brief
    ensures AfterRevival().rows[0].state.Running? && AfterRevival().rows[0].notes == [Again()]
  {
    FirstHalf();
    KillSettles();
    RevivalLaunches();
    RevivalTail();
    hide Runs, GuardedRun, Oldest, Count, AfterFirst, AfterKill, AfterRevival, SomeRow, Again, Killed, InFlight;
    hide RevivalSteps;
    var w1, w2, w6 := AfterCreate(Empty(1), SomeRow()), AfterFirst(), AfterRevival();
    var later := [Settle(0, Killed())] + [Tell(0, Again()), Launch];
    Prefixed(AfterStop(w2, 0), Settle(0, Killed()), [Tell(0, Again()), Launch], w6);
    Prefixed(w2, Stop(0), later, w6);
    Prefixed(w1, Launch, [Stop(0)] + later, w6);
    Prefixed(Empty(1), Create(SomeRow()), [Launch] + ([Stop(0)] + later), w6);
    assert RevivalSteps() == [Create(SomeRow())] + ([Launch] + ([Stop(0)] + later)) by { StepsListed(); }
  }

  lemma StepsListed()
    ensures RevivalSteps()
            == [Create(SomeRow())] + ([Launch] + ([Stop(0)] + ([Settle(0, Killed())] + [Tell(0, Again()), Launch])))
  {
    hide SomeRow, Killed, Again;
  }

  function AfterHaste(): World { AfterTell(AfterStop(AfterFirst(), 0), 0, Again()) }

  function AfterLateSettle(): World { AfterSettle(AfterHaste(), 0, Done()) }

  function HastySteps(): seq<Step> {
    [Create(SomeRow()), Launch, Stop(0), Tell(0, Again()), Settle(0, Done()), Launch]
  }

  lemma HasteReached()
    ensures var w3 := AfterStop(AfterFirst(), 0);
            && Enabled(AfterFirst(), Stop(0)) && Enabled(w3, Tell(0, Again())) && |w3.rows| == 1
            && Over(w3.rows[0]) && w3.rows[0].resumable && w3.rows[0].turns == 0
            && !Guarded(w3, Tell(0, Again()))
    ensures AfterHaste().max == 1 && |AfterHaste().flight| == 1 && AfterHaste().flight[0].task == 0
    ensures var rows := AfterHaste().rows;
            |rows| == 1 && rows[0].state.Queued? && rows[0].turns == 0 && rows[0].notes == [Again()]
  {
    FirstHalf();
    hide AfterFirst, Count, Oldest;
    var w3 := AfterStop(AfterFirst(), 0);
    assert w3.flight[0].task == 0;
    assert InFlight(w3, 0);
  }

  lemma LateSettleReached()
    ensures Enabled(AfterHaste(), Settle(0, Done())) && Enabled(AfterLateSettle(), Launch)
    ensures |AfterLateSettle().rows| == 1 && Oldest(AfterLateSettle().rows) == Some(0)
    ensures var last := AfterLaunch(AfterLateSettle(), 0).log;
            && |last| > 0 && last[|last| - 1].Began? && last[|last| - 1].turn.resume
            && last[|last| - 1].taken == Some(Again())
  {
    HasteReached();
    hide AfterHaste, Count, Oldest;
    var w5 := AfterLateSettle();
    assert w5.rows[0].state.Queued? && w5.rows[0].turns == 1 && w5.rows[0].notes == [Again()];
    OneRowCounts(w5);
  }

  /**
   * Outside the guard the count at the time of the message decides nothing: the killed turn settles later, counts, and
   * the next turn resumes on the message although no turn had been counted when it came.
   */
  lemma HastyMessageResumes()
    ensures Runs(Empty(1), HastySteps(), AfterLaunch(AfterLateSettle(), 0))
    ensures var told := AfterStop(AfterFirst(), 0);
            |told.rows| == 1 && told.rows[0].turns == 0 && !Guarded(told, Tell(0, Again()))
    ensures var log := AfterLaunch(AfterLateSettle(), 0).log;
            && |log| > 0 && log[|log| - 1].Began? && log[|log| - 1].turn.resume
            && log[|log| - 1].taken == Some(Again())
  {
    FirstHalf();
    HasteReached();
    LateSettleReached();
    HastyListed();
    var w1, w2, w3 := AfterCreate(Empty(1), SomeRow()), AfterFirst(), AfterStop(AfterFirst(), 0);
    var w4, w5 := AfterHaste(), AfterLateSettle();
    var w6 := AfterLaunch(w5, 0);
    assert Next(w5, Launch) == w6 && Next(w4, Settle(0, Done())) == w5 && Next(w3, Tell(0, Again())) == w4;
    hide Runs, Oldest, Count, AfterFirst, AfterHaste, AfterLateSettle, AfterLaunch, SomeRow, Again, Done, HastySteps;
    hide InFlight;
    RunsNow(w6);
    RunsFirst(w5, Launch, [], w6);
    RunsFirst(w4, Settle(0, Done()), [Launch] + [], w6);
    var later := [Settle(0, Done())] + ([Launch] + []);
    RunsFirst(w3, Tell(0, Again()), later, w6);
    RunsFirst(w2, Stop(0), [Tell(0, Again())] + later, w6);
    RunsFirst(w1, Launch, [Stop(0)] + ([Tell(0, Again())] + later), w6);
    RunsFirst(Empty(1), Create(SomeRow()), [Launch] + ([Stop(0)] + ([Tell(0, Again())] + later)), w6);
  }

  lemma HastyListed()
    ensures var later := [Settle(0, Done())] + ([Launch] + []);
            HastySteps() == [Create(SomeRow())] + ([Launch] + ([Stop(0)] + ([Tell(0, Again())] + later)))
  {
    hide SomeRow, Done, Again;
  }

  lemma GuardedNow(w: World)
    ensures GuardedRun(w, [])
  {
  }

  lemma Prefixed(w: World, s: Step, later: seq<Step>, end: World)
    requires Enabled(w, s) && Guarded(w, s) && Runs(Next(w, s), later, end) && GuardedRun(Next(w, s), later)
    ensures Runs(w, [s] + later, end) && GuardedRun(w, [s] + later)
  {
    assert ([s] + later)[1..] == later;
  }

  // ------------------------------------------------------------ what the person is told

  /** The reply says the message waits for the current turn, and nothing waits. */
  predicate Misled(w: World, account: string, i: nat, text: string, mode: string, tools: seq<string>)
    requires MessageProblem(w, account, i, text, mode, tools).None?
  {
    var (after, reply) := Message(w, account, i, text, mode, tools);
    reply == Ok(MidTurn) && after.rows[i].notes == []
  }

  /**
   * The reply calls a message queued behind a turn when that turn is the message's own exactly when the message woke a
   * task with some turn counted and nothing waiting already, and fewer tasks are queued ahead than slots are free.
   */
  lemma MisledExactly(w: World, account: string, i: nat, text: string, mode: string, tools: seq<string>)
    requires Safe(w) && MessageProblem(w, account, i, text, mode, tools).None?
    ensures Misled(w, account, i, text, mode, tools)
            <==> && !Live(w.rows[i]) && w.rows[i].turns > 0 && w.rows[i].notes == []
                 && |QueuedAhead(w.rows, i)| < w.max - Count(w.rows, Running)
  {
    hide Strip, ToolRules, Safe, Pump, QueuedAhead;
    var note := Note(Strip(text), mode, tools);
    StepSafe(w, Tell(i, note));
    if Live(w.rows[i]) { LiveKeepsWaiting(w, i, note); } else { WokenStarts(w, i, note); }
  }

  /** A message to a live task is never taken by the pump that follows it. */
  lemma LiveKeepsWaiting(w: World, i: nat, note: Note)
    requires Safe(w) && i < |w.rows| && Live(w.rows[i])
    ensures Pump(AfterTell(w, i, note)).rows[i].notes != []
  {
    var told := AfterTell(w, i, note);
    assert RowSafe(w.rows[i], i in Ran(w.log));
    hide Pump, Safe, Ran;
    PumpLeavesOthers(told, i);
  }

  lemma TellKeepsAhead(w: World, i: nat, note: Note)
    requires i < |w.rows|
    ensures QueuedAhead(AfterTell(w, i, note).rows, i) == QueuedAhead(w.rows, i)
  {
    var rows := AfterTell(w, i, note).rows;
    assert rows[i].created == w.rows[i].created;
    hide Told;
    forall j: nat ensures j in QueuedAhead(rows, i) <==> j in QueuedAhead(w.rows, i) {
      assert j < |rows| && j != i ==> rows[j] == w.rows[j];
    }
  }

  /** A task woken by a message is started by the pump that follows exactly when few enough are queued ahead of it. */
  lemma WokenStarts(w: World, i: nat, note: Note)
    requires i < |w.rows| && !Live(w.rows[i]) && Safe(AfterTell(w, i, note))
    ensures var row := Pump(AfterTell(w, i, note)).rows[i];
            if |QueuedAhead(w.rows, i)| < w.max - Count(w.rows, Running)
            then row.state.Running? && (row.notes == [] <==> w.rows[i].turns > 0 && w.rows[i].notes == [])
            else row.state.Queued?
  {
    hide Safe, Pump, QueuedAhead;
    var told := AfterTell(w, i, note);
    CountUpdate(w.rows, i, Told(w.rows[i], note), Running);
    TellKeepsAhead(w, i, note);
    PumpStartsExactly(told, i);
    WokenNotes(w.rows[i], note);
  }

  lemma WokenNotes(t: Task, note: Note)
    requires !Live(t)
    ensures CanPop(Told(t, note)) && (Launched(Told(t, note)).notes == [] <==> t.turns > 0 && t.notes == [])
    ensures Launched(Told(t, note)).state.Running?
  {
  }

  /** From a drained world, where nothing waits while a slot is free, that is whether a slot is free. */
  lemma MisledWhenDrained(w: World, account: string, i: nat, text: string, mode: string, tools: seq<string>)
    requires Safe(w) && Drained(w) && MessageProblem(w, account, i, text, mode, tools).None?
    ensures Misled(w, account, i, text, mode, tools)
            <==> !Live(w.rows[i]) && FreeSlot(w) && w.rows[i].turns > 0 && w.rows[i].notes == []
  {
    hide Safe, Misled, MessageProblem;
    assert i < |w.rows| by { Accepts(w, account, i, text, mode, tools); }
    MisledExactly(w, account, i, text, mode, tools);
    if FreeSlot(w) {
      CountNone(w.rows, Queued);
      assert QueuedAhead(w.rows, i) == {};
    }
  }

  lemma Accepts(w: World, account: string, i: nat, text: string, mode: string, tools: seq<string>)
    requires MessageProblem(w, account, i, text, mode, tools).None?
    ensures i < |w.rows|
  {
    hide Strip, ToolRules;
  }

  /** So it is for every idle task when a slot is free. */
  lemma IdleMessageStartsAtOnce(w: World, account: string, i: nat, text: string, mode: string, tools: seq<string>)
    requires Safe(w) && Drained(w) && FreeSlot(w) && MessageProblem(w, account, i, text, mode, tools).None?
    requires w.rows[i].state.Idle?
    ensures Misled(w, account, i, text, mode, tools)
  {
    assert RowSafe(w.rows[i], i in Ran(w.log));
    hide Safe, Misled, Drained, FreeSlot, MessageProblem;
    MisledWhenDrained(w, account, i, text, mode, tools);
  }

  function Done(): Outcome { Outcome(true, "", "done", 0.0, 1, []) }

  function AfterDone(): World { AfterSettle(AfterFirst(), 0, Done()) }

  function IdleSteps(): seq<Step> { [Create(SomeRow()), Launch, Settle(0, Done())] }

  lemma DoneIsIdle()
    ensures Enabled(AfterFirst(), Settle(0, Done())) && Next(AfterFirst(), Settle(0, Done())) == AfterDone()
    ensures AfterDone().max == 1 && |AfterDone().rows| == 1
    ensures var row := AfterDone().rows[0]; row.state.Idle? && row.turns == 1 && row.notes == [] && row.account == "me"
  {
    FirstHalf();
    hide AfterFirst, Count, Oldest;
  }

  lemma DoneIsReached()
    ensures Runs(Empty(1), IdleSteps(), AfterDone()) && Safe(AfterDone())
  {
    FirstHalf();
    DoneIsIdle();
    EmptySafe(1);
    var w1 := AfterCreate(Empty(1), SomeRow());
    assert Enabled(Empty(1), Create(SomeRow())) && Next(Empty(1), Create(SomeRow())) == w1;
    assert Enabled(AfterFirst(), Settle(0, Done()));
    hide Runs, AfterFirst, SomeRow, AfterDone, Safe;
    RunsNow(AfterDone());
    RunsFirst(AfterFirst(), Settle(0, Done()), [], AfterDone());
    RunsFirst(w1, Launch, [Settle(0, Done())], AfterDone());
    RunsFirst(Empty(1), Create(SomeRow()), [Launch, Settle(0, Done())], AfterDone());
    RunSafe(Empty(1), IdleSteps(), AfterDone());
  }

  lemma DoneIsDrained()
    ensures Drained(AfterDone()) && FreeSlot(AfterDone())
    ensures MessageProblem(AfterDone(), "me", 0, "go on", "", []).None?
  {
    DoneIsIdle();
    GoOnStays();
    hide AfterDone, Strip, Oldest;
    OneRowCounts(AfterDone());
    CountNone(AfterDone().rows, Queued);
  }

  /** The smallest such run: one task, its first turn done, and one message. */
  lemma MisledAfterOneTurn()
    ensures Runs(Empty(1), IdleSteps(), AfterDone()) && Safe(AfterDone()) && Drained(AfterDone())
    ensures MessageProblem(AfterDone(), "me", 0, "go on", "", []).None?
    ensures Misled(AfterDone(), "me", 0, "go on", "", [])
  {
    DoneIsReached();
    DoneIsDrained();
    DoneIsIdle();
    hide Runs, AfterDone, Safe, Misled, Drained, FreeSlot, MessageProblem;
    IdleMessageStartsAtOnce(AfterDone(), "me", 0, "go on", "", []);
  }

  lemma GoOnStays()
    ensures Strip("go on") == "go on"
  {
    assert !IsSpace('g') && !IsSpace('n');
    assert StripLeft("go on") == "go on" && StripRight("go on") == "go on";
  }
}
