/** One turn per task: when it holds, exactly which step breaks it, and a run that does. */
module TurnsProofs {
  import opened Text
  import opened Tasks
  import opened Scheduler
  import opened SchedulerProofs

  ghost predicate InFlight(w: World, i: nat) {
    exists k | 0 <= k < |w.flight| :: w.flight[k].task == i
  }

  /** No task has two unsettled turns. */
  ghost predicate Distinct(w: World) {
    forall a, b | 0 <= a < b < |w.flight| :: w.flight[a].task != w.flight[b].task
  }

  /** Every unsettled turn has a running row, or one that was cancelled under it. */
  ghost predicate Manned(w: World) {
    forall k | 0 <= k < |w.flight| ::
      w.flight[k].task < |w.rows|
      && (w.rows[w.flight[k].task].state.Running? || w.rows[w.flight[k].task].state.Cancelled?)
  }

  /** Running rows and unsettled turns not cancelled correspond one to one. */
  ghost predicate OneTurn(w: World) {
    && Distinct(w) && Manned(w)
    && forall i | 0 <= i < |w.rows| && w.rows[i].state.Running? :: InFlight(w, i)
  }

  /** No message to a cancelled task whose killed turn has yet to settle. */
  ghost predicate Guarded(w: World, s: Step) {
    s.Tell? ==> !(s.task < |w.rows| && w.rows[s.task].state.Cancelled? && InFlight(w, s.task))
  }

  /** A step that leaves the flight alone and changes one row. */
  lemma SameFlight(w: World, w': World, i: nat, t: Task)
    requires OneTurn(w) && i < |w.rows| && w'.rows == w.rows[i := t] && w'.flight == w.flight
    requires t.state.Running? <==> w.rows[i].state.Running? && !t.state.Cancelled?
    requires !InFlight(w, i) || t.state.Running? || t.state.Cancelled?
    ensures OneTurn(w')
  {
    forall k | 0 <= k < |w'.flight|
      ensures w'.flight[k].task < |w'.rows|
              && (w'.rows[w'.flight[k].task].state.Running? || w'.rows[w'.flight[k].task].state.Cancelled?) {
      if w.flight[k].task == i { assert InFlight(w, i); }
    }
    forall j | 0 <= j < |w'.rows| && w'.rows[j].state.Running? ensures InFlight(w', j) {
      assert w.rows[j].state.Running?;
      var k :| 0 <= k < |w.flight| && w.flight[k].task == j;
      assert w'.flight[k].task == j;
    }
  }

  lemma TellOneTurn(w: World, i: nat, note: Note)
    requires Safe(w) && OneTurn(w) && Enabled(w, Tell(i, note)) && Guarded(w, Tell(i, note))
    ensures OneTurn(AfterTell(w, i, note))
  {
    var t := Told(w.rows[i], note);
    if InFlight(w, i) {
      var k :| 0 <= k < |w.flight| && w.flight[k].task == i;
      assert w.rows[i].state.Running?;
    }
    hide OneTurn, Safe, InFlight;
    SameFlight(w, AfterTell(w, i, note), i, t);
  }

  lemma TellBreaks(w: World, i: nat, note: Note)
    requires Enabled(w, Tell(i, note)) && !Guarded(w, Tell(i, note))
    ensures !Manned(AfterTell(w, i, note))
  {
    var w' := AfterTell(w, i, note);
    var k :| 0 <= k < |w.flight| && w.flight[k].task == i;
    assert w'.flight[k].task == i && w'.rows[i].state.Queued?;
  }

  lemma StopOneTurn(w: World, i: nat)
    requires OneTurn(w) && i < |w.rows| && Live(w.rows[i])
    ensures OneTurn(AfterStop(w, i))
  {
    var t := Stopped(w.rows[i]);
    hide OneTurn, InFlight;
    SameFlight(w, AfterStop(w, i), i, t);
  }

  lemma ProgressOneTurn(w: World, i: nat, seen: Seen)
    requires OneTurn(w) && i < |w.rows|
    ensures OneTurn(AfterProgress(w, i, seen))
  {
    ProgressedState(w.rows[i], seen);
    if InFlight(w, i) {
      var k :| 0 <= k < |w.flight| && w.flight[k].task == i;
      assert w.rows[i].state.Running? || w.rows[i].state.Cancelled?;
    }
    hide OneTurn, InFlight, Progressed;
    SameFlight(w, AfterProgress(w, i, seen), i, Progressed(w.rows[i], seen));
  }

  lemma LaunchOneTurn(w: World, i: nat)
    requires OneTurn(w) && i < |w.rows| && w.rows[i].state.Queued?
    ensures OneTurn(AfterLaunch(w, i))
  {
    if CanPop(w.rows[i]) {
      var w', n := AfterLaunch(w, i), |w.flight|;
      assert w'.rows[i].state.Running? && w'.flight[n].task == i;
      hide Launched, TurnOf, CanPop;
      assert forall k | 0 <= k < n :: w'.flight[k] == w.flight[k];
      assert forall j | 0 <= j < |w.rows| && j != i :: w'.rows[j] == w.rows[j];
      forall j | 0 <= j < |w'.rows| && w'.rows[j].state.Running? ensures InFlight(w', j) {
        if j == i {
          assert w'.flight[n].task == j;
        } else {
          var k :| 0 <= k < n && w.flight[k].task == j;
          assert w'.flight[k].task == j;
        }
      }
    }
  }

  lemma SettleOneTurn(w: World, k: nat, o: Outcome)
    requires OneTurn(w) && k < |w.flight|
    ensures OneTurn(AfterSettle(w, k, o))
  {
    var w', i := AfterSettle(w, k, o), w.flight[k].task;
    assert w.rows[i].state.Running? || w.rows[i].state.Cancelled?;
    SettledState(w.rows[i], o);
    hide Settled;
    assert forall j | 0 <= j < |w'.flight| :: w'.flight[j] == if j < k then w.flight[j] else w.flight[j + 1];
    assert forall j | 0 <= j < |w.rows| && j != i :: w'.rows[j] == w.rows[j];
    forall j | 0 <= j < |w'.rows| && w'.rows[j].state.Running? ensures InFlight(w', j) {
      assert j != i;
      var m :| 0 <= m < |w.flight| && w.flight[m].task == j;
      assert m != k;
      assert w'.flight[if m < k then m else m - 1].task == j;
    }
  }

  lemma CreateOneTurn(w: World, row: Task)
    requires OneTurn(w) && Fresh(row)
    ensures OneTurn(AfterCreate(w, row))
  {
    var w' := AfterCreate(w, row);
    assert forall j | 0 <= j < |w.rows| :: w'.rows[j] == w.rows[j];
    forall j | 0 <= j < |w'.rows| && w'.rows[j].state.Running? ensures InFlight(w', j) {
      assert w.rows[j].state.Running?;
      var k :| 0 <= k < |w.flight| && w.flight[k].task == j;
      assert w'.flight[k].task == j;
    }
  }

  lemma RestartOneTurn(w: World, max: int)
    ensures OneTurn(AfterRestart(w, max))
  {
  }

  /** From a world with one turn per task, a step keeps it exactly when it is not the unguarded message. */
  lemma OneTurnExactly(w: World, s: Step)
    requires Safe(w) && OneTurn(w) && Enabled(w, s)
    ensures OneTurn(Next(w, s)) <==> Guarded(w, s)
  {
    hide Safe, InFlight, AfterTell, AfterStop, AfterProgress, AfterLaunch, AfterSettle, AfterCreate, AfterRestart;
    match s
    case Create(row) => CreateOneTurn(w, row);
    case Tell(i, note) => if Guarded(w, s) { TellOneTurn(w, i, note); } else { TellBreaks(w, i, note); }
    case Stop(i) => StopOneTurn(w, i);
    case Launch => LaunchOneTurn(w, Oldest(w.rows).value);
    case Settle(k, o) => SettleOneTurn(w, k, o);
    case Progress(i, seen) => ProgressOneTurn(w, i, seen);
    case Restart(max) => RestartOneTurn(w, max);
  }

  ghost predicate GuardedRun(w: World, steps: seq<Step>)
    decreases |steps|
  {
    steps == [] || (Enabled(w, steps[0]) && Guarded(w, steps[0]) && GuardedRun(Next(w, steps[0]), steps[1..]))
  }

  lemma {:induction false} OneTurnAlong(w: World, steps: seq<Step>, end: World)
    requires Safe(w) && OneTurn(w) && Runs(w, steps, end) && GuardedRun(w, steps)
    ensures Safe(end) && OneTurn(end)
    decreases |steps|
  {
    hide Safe, OneTurn, Next, Enabled, Guarded;
    if steps != [] {
      StepSafe(w, steps[0]);
      OneTurnExactly(w, steps[0]);
      OneTurnAlong(Next(w, steps[0]), steps[1..], end);
    }
  }

  /**
   * Over every run in which no cancelled task is messaged before its killed turn settles: a task has at most one
   * unsettled turn, and its row is running exactly when it has one and was not cancelled.
   */
  lemma OneTurnPerTask(max: int, steps: seq<Step>, end: World, i: nat)
    requires Runs(Empty(max), steps, end) && GuardedRun(Empty(max), steps) && i < |end.rows|
    ensures Distinct(end)
    ensures end.rows[i].state.Running? <==> InFlight(end, i) && !end.rows[i].state.Cancelled?
  {
    EmptySafe(max);
    OneTurnAlong(Empty(max), steps, end);
    if InFlight(end, i) {
      var k :| 0 <= k < |end.flight| && end.flight[k].task == i;
    }
  }

  // ------------------------------------------------------------ the run that breaks it

  function SomeRow(): Task { Created("me", "fix it", "fix the build", "/src", "edits", "", 0) }

  function Again(): Note { Note("go on", "", []) }

  function AfterFirst(): World { AfterLaunch(AfterCreate(Empty(1), SomeRow()), 0) }

  function AfterSecond(): World { AfterLaunch(AfterTell(AfterStop(AfterFirst(), 0), 0, Again()), 0) }

  function BreakingSteps(): seq<Step> { [Create(SomeRow()), Launch, Stop(0), Tell(0, Again()), Launch] }

  lemma OneRowCounts(w: World)
    requires |w.rows| == 1
    ensures Count(w.rows, Running) == (if w.rows[0].state.Running? then 1 else 0)
    ensures w.rows[0].state.Queued? ==> Oldest(w.rows) == Some(0)
  {
    CountSnoc([], w.rows[0], Running);
    assert [] + [w.rows[0]] == w.rows;
    if w.rows[0].state.Queued? { OldestAlone(w); }
  }

  lemma FirstHalf()
    ensures var w1 := AfterCreate(Empty(1), SomeRow());
            && Fresh(SomeRow()) && Enabled(w1, Launch) && Next(w1, Launch) == AfterFirst()
            && AfterFirst().rows == [Launched(SomeRow())] && AfterFirst().max == 1
            && |AfterFirst().flight| == 1 && AfterFirst().flight[0].task == 0
  {
    hide Oldest, Count;
    var w1 := AfterCreate(Empty(1), SomeRow());
    assert w1.rows == [SomeRow()];
    OneRowCounts(w1);
  }

  lemma SecondHalf()
    ensures var w3 := AfterStop(AfterFirst(), 0); var w4 := AfterTell(w3, 0, Again());
            && Enabled(AfterFirst(), Stop(0)) && Enabled(w3, Tell(0, Again())) && Enabled(w4, Launch)
            && Next(w4, Launch) == AfterSecond()
            && |AfterSecond().rows| == 1 && AfterSecond().rows[0].state.Running?
            && |AfterSecond().flight| == 2 && AfterSecond().flight[0].task == AfterSecond().flight[1].task == 0
  {
    FirstHalf();
    hide Oldest, Count, AfterFirst;
    var w3 := AfterStop(AfterFirst(), 0);
    var w4 := AfterTell(w3, 0, Again());
    OneRowCounts(w4);
  }

  /**
   * Start a task, stop it, and message it before the killed turn has settled: with one slot, two turns on one session.
   */
  lemma TwoTurnsOnOneTask()
    ensures Runs(Empty(1), BreakingSteps(), AfterSecond())
    ensures Count(AfterSecond().rows, Running) == 1 && |AfterSecond().flight| == 2 && !Distinct(AfterSecond())
  {
    FirstHalf();
    SecondHalf();
    var w1, w2, w5 := AfterCreate(Empty(1), SomeRow()), AfterFirst(), AfterSecond();
    var w3 := AfterStop(w2, 0);
    var w4 := AfterTell(w3, 0, Again());
    OneRowCounts(w5);
    hide Runs, Oldest, Count, AfterFirst, AfterSecond, SomeRow, Again;
    RunsNow(w5);
    RunsFirst(w4, Launch, [], w5);
    RunsFirst(w3, Tell(0, Again()), [Launch], w5);
    RunsFirst(w2, Stop(0), [Tell(0, Again()), Launch], w5);
    RunsFirst(w1, Launch, [Stop(0), Tell(0, Again()), Launch], w5);
    RunsFirst(Empty(1), Create(SomeRow()), [Launch, Stop(0), Tell(0, Again()), Launch], w5);
  }

  lemma OldestAlone(w: World)
    requires |w.rows| == 1 && w.rows[0].state.Queued?
    ensures Oldest(w.rows) == Some(0)
  {
  }

  lemma RunsNow(w: World)
    ensures Runs(w, [], w)
  {
  }

  lemma RunsFirst(w: World, s: Step, later: seq<Step>, end: World)
    requires Enabled(w, s) && Runs(Next(w, s), later, end)
    ensures Runs(w, [s] + later, end)
  {
    assert ([s] + later)[1..] == later;
  }
}
