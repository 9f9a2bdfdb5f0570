/** The service itself: one object over the table, its slots, and the turns it started. */
module CoderService {
  import opened Text
  import opened Patterns
  import opened Tasks
  import opened Scheduler
  import opened SchedulerProofs
  import opened PumpProofs

  /** How many rows are running. */
  method LiveCount(rows: seq<Task>) returns (n: nat)
    ensures n == Count(rows, Running)
  {
    n := 0;
    assert rows[..0] == [];
    for i := 0 to |rows|
      invariant n == Count(rows[..i], Running)
    {
      assert rows[..i + 1] == rows[..i] + [rows[i]];
      CountSnoc(rows[..i], rows[i], Running);
      if rows[i].state.Running? { n := n + 1; }
    }
    assert rows[..|rows|] == rows;
  }

  /** A scan of the table for the row that `Oldest` names. */
  method NextQueued(rows: seq<Task>) returns (best: Option<nat>)
    ensures best == Oldest(rows)
  {
    best := None;
    for i := 0 to |rows|
      invariant best == OldestOf(rows, i)
    {
      if rows[i].state.Queued? && (best.None? || rows[i].created < rows[best.value].created) { best := Some(i); }
    }
  }

  lemma CountNothing()
    ensures Count([], Running) == 0
  {
  }

  /** Every row through `Interrupted`, counting the ones that changed. */
  method MarkInterrupted(rows: seq<Task>) returns (marked: seq<Task>, changed: nat)
    ensures marked == InterruptedRows(rows) && changed == Count(rows, Running)
  {
    hide Interrupted, Count;
    marked, changed := [], 0;
    CountNothing();
    assert rows[..0] == [];
    for i := 0 to |rows|
      invariant |marked| == i && forall k | 0 <= k < i :: marked[k] == Interrupted(rows[k])
      invariant changed == Count(rows[..i], Running)
    {
      assert rows[..i + 1] == rows[..i] + [rows[i]];
      CountSnoc(rows[..i], rows[i], Running);
      if rows[i].state.Running? { changed := changed + 1; }
      marked := marked + [Interrupted(rows[i])];
    }
    assert rows[..|rows|] == rows;
  }

  class CoderService {
    var rows: seq<Task>
    var flight: seq<Turn>
    const maxLive: int
    ghost var log: seq<Event>

    ghost function Current(): World
      reads this
    {
      World(rows, flight, maxLive, log)
    }

    /** Open the table a dead process left, and fail what it left running. */
    constructor (store: seq<Task>, max: int, ghost before: World)
      requires store == before.rows
      ensures Current() == AfterRestart(before, max)
    {
      var marked, changed := MarkInterrupted(store);
      rows, flight, maxLive, log := marked, [], max, before.log;
    }

    /** Start queued turns while there are slots, the oldest first. Each launch is one saved row and one new turn. */
    method Pump()
      requires Safe(Current())
      modifies this
      ensures Current() == Scheduler.Pump(old(Current())) && Safe(Current()) && Drained(Current())
    {
      ghost var before := Current();
      PumpDrains(before);
      hide Safe, Drained, RowSafe, Launched;
      var live := LiveCount(rows);
      while live < maxLive
        invariant live == Count(rows, Running) && Safe(Current())
        invariant Scheduler.Pump(Current()) == Scheduler.Pump(before)
        decreases Count(rows, Queued)
      {
        LaunchReady(Current());
        var best := NextQueued(rows);
        if best.None? { return; }
        var i, task := best.value, rows[best.value];
        LaunchSafe(Current(), i);
        LaunchUsesOneUp(Current(), i);
        var taken := None;
        var notes := task.notes;
        if task.turns > 0 {
          taken, notes := Some(notes[0]), notes[1..];
        }
        var prompt := if taken.Some? && taken.value.text != "" then taken.value.text else task.brief;
        var level := if taken.Some? && taken.value.mode != "" then taken.value.mode else task.level;
        var allow := if taken.Some? then taken.value.tools else [];
        var resume := task.turns > 0;
        task := task.(notes := notes, level := level);
        if resume { task := task.(result := "", denials := []); }
        task := Saved(task.(state := Running));
        LaunchedStepwise(rows[i], task, Turn(i, prompt, resume, level, allow), taken, i);
        ghost var next := AfterLaunch(Current(), i);
        rows := rows[i := task];
        flight := flight + [Turn(i, prompt, resume, level, allow)];
        log := log + [Began(Turn(i, prompt, resume, level, allow), taken)];
        assert Current() == next;
        live := LiveCount(rows);
      }
    }

    method Start(r: Request) returns (reply: Result<nat, Refusal>)
      requires Safe(Current())
      modifies this
      ensures Current() == Scheduler.Start(old(Current()), r).0 && reply == Scheduler.Start(old(Current()), r).1
      ensures Safe(Current())
    {
      hide Safe, Scheduler.Pump, ModelName, Strip;
      ServeSafe(Current(), Starting(r));
      if Strip(r.brief) == "" { return Err(EmptyBrief); }
      if r.level !in MODES { return Err(BadRunLevel); }
      if r.model != "" && !ModelName(r.model) { return Err(BadModel); }
      if r.directory == "" || r.directory[0] != '/' { return Err(NotAbsolute); }
      if !r.isDirectory { return Err(NotADirectory); }
      CreateSafe(Current(), RowFor(r));
      reply := Ok(|rows|);
      rows := rows + [RowFor(r)];
      Pump();
    }

    /** Queue one follow-up turn, and say when it runs. */
    method Message(account: string, i: nat, text: string, mode: string, tools: seq<string>)
        returns (reply: Result<Said, Refusal>)
      requires Safe(Current())
      modifies this
      ensures Current() == Scheduler.Message(old(Current()), account, i, text, mode, tools).0
      ensures reply == Scheduler.Message(old(Current()), account, i, text, mode, tools).1
      ensures Safe(Current())
    {
      hide Safe, Scheduler.Pump, ToolRules, Strip;
      ghost var before := Current();
      ServeSafe(before, Telling(account, i, text, mode, tools));
      if Strip(text) == "" { return Err(EmptyMessage); }
      if mode != "" && mode !in MODES { return Err(BadRunLevel); }
      if !ToolRules(tools) { return Err(BadTools); }
      if !(i < |rows| && rows[i].account == account) { return Err(NoSuchTask); }
      var task := rows[i];
      if tools != [] && (if mode != "" then mode else task.level) == "plan" { return Err(PlanAllowsNothing); }
      if Over(task) && !task.resumable { return Err(AlreadyOver); }
      var note := Note(Strip(text), mode, tools);
      TellSafe(before, i, note);
      task := task.(notes := task.notes + [note]);
      if task.state.Idle? || task.state.Failed? || task.state.Cancelled? {
        task := task.(state := Queued);
      }
      rows := rows[i := Saved(task)];
      log := log + [Accepted(i, note)];
      assert Current() == AfterTell(before, i, note);
      Pump();
      var running := LiveCount(rows);
      reply := Ok(if rows[i].state.Running? then MidTurn else Behind(running));
    }

    /** A live row stopped and the slot refilled; a row that is over is left alone, so cancelling again does nothing. */
    method Cancel(account: string, i: nat) returns (reply: Result<nat, Refusal>)
      requires Safe(Current())
      modifies this
      ensures Current() == Scheduler.Cancel(old(Current()), account, i).0
      ensures reply == Scheduler.Cancel(old(Current()), account, i).1
      ensures Safe(Current())
    {
      hide Safe, Scheduler.Pump;
      ghost var before := Current();
      ServeSafe(before, Cancelling(account, i));
      if !(i < |rows| && rows[i].account == account) { return Err(NoSuchTask); }
      var task := rows[i];
      if !Live(task) { return Ok(i); }
      StopSafe(before, i);
      ghost var dropped := task.notes;
      if task.state.Running? {
        task := task.(resumable := true, detail := INTERRUPTED_BY_PERSON);
      } else {
        task := task.(detail := CANCELLED_BEFORE);
      }
      task := task.(state := Cancelled, notes := []);
      rows := rows[i := Saved(task)];
      log := log + [Dropped(i, dropped)];
      assert Current() == AfterStop(before, i);
      Pump();
      reply := Ok(i);
    }

    /** A turn ended: settle its row, and fill the slot it held. */
    method Settle(k: nat, o: Outcome)
      requires Safe(Current()) && k < |flight|
      modifies this
      ensures Current() == Finish(old(Current()), k, o) && Safe(Current())
    {
      hide Safe, Scheduler.Pump, Count;
      ghost var before := Current();
      ServeSafe(before, Finishing(k, o));
      SettleSafe(before, k, o);
      var turn := flight[k];
      flight := flight[..k] + flight[k + 1..];
      log := log + [Ended(turn)];
      if turn.task < |rows| && !rows[turn.task].state.Cancelled? {
        var task := rows[turn.task];
        task := task.(turns := task.turns + (if o.turns == 0 then 1 else o.turns), cost := task.cost + o.cost,
                      resumable := true, denials := o.denials);
        if !o.ok {
          task := task.(state := Failed, detail := o.detail);
        } else if task.notes != [] {
          task := task.(state := Queued, detail := QUEUED_NEXT, result := o.result);
        } else {
          task := task.(state := Idle, detail := TURN_OVER, result := o.result);
        }
        rows := rows[turn.task := Saved(task)];
      }
      assert Current() == AfterSettle(before, k, o);
      Pump();
    }

    /** Live counters onto a running row, and onto no other. */
    method Progress(i: nat, seen: Seen)
      requires Safe(Current())
      modifies this
      ensures Current() == (if i < old(|rows|) then AfterProgress(old(Current()), i, seen) else old(Current()))
      ensures Safe(Current())
    {
      hide Safe;
      if i >= |rows| || !rows[i].state.Running? {
        if i < |rows| { assert rows[i := rows[i]] == rows; }
        return;
      }
      ProgressSafe(Current(), i, seen);
      rows := rows[i := Saved(rows[i].(toolUses := seen.toolUses, lastTool := seen.lastTool,
                                       lastText := Clip(seen.lastText, SNIPPET_CHARS)))];
    }
  }

  lemma LaunchedStepwise(before: Task, after: Task, turn: Turn, taken: Option<Note>, i: nat)
    requires CanPop(before)
    requires taken == if before.turns > 0 then Some(before.notes[0]) else None
    requires turn.task == i && turn.resume == (before.turns > 0)
    requires turn.prompt == if taken.Some? && taken.value.text != "" then taken.value.text else before.brief
    requires turn.level == if taken.Some? && taken.value.mode != "" then taken.value.mode else before.level
    requires turn.allow == if taken.Some? then taken.value.tools else []
    requires after == Saved((if before.turns > 0
                             then before.(notes := before.notes[1..], level := turn.level, result := "", denials := [])
                             else before.(notes := before.notes, level := turn.level)).(state := Running))
    ensures after == Launched(before) && turn == TurnOf(i, before) && taken == NextNote(before)
  {
  }
}
