/** What each operation leaves in a task's row, field by field, and whose rows it touches. */
module TaskFields {
  import opened Text
  import opened Patterns
  import opened Tasks
  import opened Scheduler
  import opened SchedulerProofs
  import opened PumpProofs

  function FirstOf(t: string, n: nat): string { if |t| <= n then t else t[..n] }

  /** Who asked for the task, what for, where, and when: no operation changes any of it. */
  predicate SameErrand(a: Task, b: Task) {
    && a.account == b.account && a.title == b.title && a.brief == b.brief && a.directory == b.directory
    && a.model == b.model && a.created == b.created
  }

  predicate SameCounters(a: Task, b: Task) {
    a.toolUses == b.toolUses && a.lastTool == b.lastTool && a.lastText == b.lastText
  }

  /** The row is as it was, but for its result, of which a save keeps the first 20,000 characters. */
  predicate ResultKept(old': Task, new': Task) { new'.result == FirstOf(old'.result, 20000) }

  // ------------------------------------------------------------ a turn ends

  /** What a settled row says of its turn: it failed, a follow-up waits, or it is over. */
  predicate Reports(before: Task, after: Task, o: Outcome) {
    && (after.state.Failed? <==> !o.ok)
    && (after.state.Queued? <==> o.ok && before.notes != [])
    && (after.state.Idle? <==> o.ok && before.notes == [])
    && (!o.ok ==> after.detail == o.detail && ResultKept(before, after))
    && (o.ok ==> after.result == FirstOf(o.result, 20000))
    && (after.state.Queued? ==> after.detail == "a queued message starts its next turn")
    && (after.state.Idle? ==> after.detail == "the turn is over; a message resumes the session")
    && after.turns == before.turns + (if o.turns == 0 then 1 else o.turns)
    && after.cost == before.cost + o.cost && after.denials == o.denials && after.resumable
  }

  /** A turn's outcome reaches its own row and no other, and a cancelled row not at all. */
  lemma SettledReads(w: World, k: nat, o: Outcome)
    requires k < |w.flight|
    ensures var i, after := w.flight[k].task, AfterSettle(w, k, o);
            && |after.rows| == |w.rows| && after.flight == w.flight[..k] + w.flight[k + 1..]
            && (forall j | 0 <= j < |w.rows| && (j != i || w.rows[j].state.Cancelled?) :: after.rows[j] == w.rows[j])
            && (i < |w.rows| && !w.rows[i].state.Cancelled? ==>
                  && Reports(w.rows[i], after.rows[i], o)
                  && SameErrand(w.rows[i], after.rows[i]) && SameCounters(w.rows[i], after.rows[i])
                  && after.rows[i].notes == w.rows[i].notes && after.rows[i].level == w.rows[i].level)
  {
  }

  /** The row once a slot has been filled: as it was settled, or running its next follow-up. */
  predicate MovesOn(settled: Task, after: Task) {
    && settled.state.Queued? && settled.notes != [] && after.state.Running?
    && after.notes == settled.notes[1..] && after.result == "" && after.denials == []
    && after.level == (if settled.notes[0].mode != "" then settled.notes[0].mode else settled.level)
    && after.turns == settled.turns && after.cost == settled.cost && after.detail == settled.detail
    && after.resumable == settled.resumable && SameErrand(settled, after) && SameCounters(settled, after)
  }

  lemma SettledHasTurns(w: World, k: nat, o: Outcome)
    requires k < |w.flight| && w.flight[k].task < |w.rows| && !w.rows[w.flight[k].task].state.Cancelled?
    ensures AfterSettle(w, k, o).rows[w.flight[k].task].turns > 0
  {
  }

  lemma LaunchedReads(t: Task)
    requires t.state.Queued? && t.turns > 0 && t.notes != []
    ensures MovesOn(t, Launched(t))
  {
  }

  /**
   * After the whole operation the row reports its turn, failed or over; only a follow-up of its own moves it on, and
   * does so exactly when fewer tasks are queued ahead of it than slots are free.
   */
  lemma FinishedReads(w: World, k: nat, o: Outcome)
    requires Safe(w) && k < |w.flight| && !w.rows[w.flight[k].task].state.Cancelled?
    ensures var i, settled := w.flight[k].task, AfterSettle(w, k, o);
            var after := Finish(w, k, o).rows[i];
            && Reports(w.rows[i], settled.rows[i], o)
            && (!o.ok || w.rows[i].notes == [] ==> after == settled.rows[i])
            && (o.ok && w.rows[i].notes != [] ==>
                  if |QueuedAhead(settled.rows, i)| < settled.max - Count(settled.rows, Running)
                  then MovesOn(settled.rows[i], after) else after == settled.rows[i])
  {
    var i, settled := w.flight[k].task, AfterSettle(w, k, o);
    SettledReads(w, k, o);
    SettleSafe(w, k, o);
    SettledHasTurns(w, k, o);
    hide Safe, Pump, AfterSettle, QueuedAhead, Count, Launched, SameErrand, SameCounters;
    PumpLeavesOthers(settled, i);
    if o.ok && w.rows[i].notes != [] {
      PumpStartsExactly(settled, i);
      LaunchedReads(settled.rows[i]);
    }
  }

  // ------------------------------------------------------------ a turn starts

  /** The one turn a launch adds, and what its row then says. */
  lemma LaunchReads(w: World)
    requires Enabled(w, Launch) && CanPop(w.rows[Oldest(w.rows).value])
    ensures var i, after := Oldest(w.rows).value, Next(w, Launch);
            var t, row := w.rows[i], after.rows[i];
            var mode := if t.turns > 0 then t.notes[0].mode else "";
            && |after.rows| == |w.rows| && (forall j | 0 <= j < |w.rows| && j != i :: after.rows[j] == w.rows[j])
            && |after.flight| == |w.flight| + 1 && after.flight[..|w.flight|] == w.flight
            && var turn := after.flight[|w.flight|];
               && turn.task == i && turn.resume == (t.turns > 0) && turn.level == row.level
               && turn.prompt == (if t.turns > 0 && t.notes[0].text != "" then t.notes[0].text else t.brief)
               && turn.allow == (if t.turns > 0 then t.notes[0].tools else [])
               && row.state.Running? && row.level == (if mode != "" then mode else t.level)
               && row.notes == (if t.turns > 0 then t.notes[1..] else t.notes)
               && (if t.turns > 0 then row.result == "" && row.denials == []
                   else ResultKept(t, row) && row.denials == t.denials)
               && row.turns == t.turns && row.cost == t.cost && row.detail == t.detail && row.resumable == t.resumable
               && SameErrand(t, row) && SameCounters(t, row)
  {
  }

  /** The task a launch starts is queued, and none queued was created before it, nor as early and inserted before it. */
  lemma LaunchesTheOldest(w: World, j: nat)
    requires Enabled(w, Launch) && j < |w.rows| && w.rows[j].state.Queued?
    ensures var i := Oldest(w.rows).value;
            && w.rows[i].state.Queued?
            && (w.rows[i].created < w.rows[j].created || (w.rows[i].created == w.rows[j].created && i <= j))
  {
  }

  // ------------------------------------------------------------ a follow-up, a cancel, progress, a restart

  /** A follow-up joins the end of its task's queue, and wakes the task unless it is queued or running. */
  lemma ToldReads(w: World, i: nat, note: Note)
    requires i < |w.rows|
    ensures var t, row := w.rows[i], AfterTell(w, i, note).rows[i];
            && AfterTell(w, i, note).rows == w.rows[i := row] && AfterTell(w, i, note).flight == w.flight
            && row.notes == t.notes + [note]
            && row.state == (if t.state.Running? then Running else Queued)
            && ResultKept(t, row) && SameErrand(t, row) && SameCounters(t, row) && row.level == t.level
            && row.turns == t.turns && row.cost == t.cost && row.detail == t.detail && row.resumable == t.resumable
            && row.denials == t.denials
  {
  }

  /** A cancel drops the follow-ups, and says whether there is a session to go back to. */
  lemma StoppedReads(w: World, i: nat)
    requires i < |w.rows| && Live(w.rows[i])
    ensures var t, row := w.rows[i], AfterStop(w, i).rows[i];
            && AfterStop(w, i).rows == w.rows[i := row] && AfterStop(w, i).flight == w.flight
            && row.state.Cancelled? && row.notes == []
            && row.resumable == (t.state.Running? || t.resumable)
            && row.detail == (if t.state.Running? then "interrupted by the person; a message resumes the session"
                              else "cancelled by the person before it started")
            && ResultKept(t, row) && SameErrand(t, row) && SameCounters(t, row) && row.level == t.level
            && row.turns == t.turns && row.cost == t.cost && row.denials == t.denials
  {
  }

  /** Live counters: the tool uses, the last tool and the first 160 characters of the last text, each in its place. */
  lemma ProgressReads(w: World, i: nat, seen: Seen)
    requires i < |w.rows|
    ensures var t, row := w.rows[i], AfterProgress(w, i, seen).rows[i];
            && AfterProgress(w, i, seen) == w.(rows := w.rows[i := row])
            && (!t.state.Running? ==> row == t)
            && (t.state.Running? ==>
                  && row.toolUses == seen.toolUses && row.lastTool == seen.lastTool
                  && row.lastText == FirstOf(seen.lastText, 160)
                  && row.state.Running? && ResultKept(t, row) && SameErrand(t, row) && row.level == t.level
                  && row.turns == t.turns && row.cost == t.cost && row.detail == t.detail
                  && row.resumable == t.resumable && row.notes == t.notes && row.denials == t.denials)
  {
  }

  /** A restart fails what was running, keeps its session, and touches nothing else in the table. */
  lemma RestartReads(w: World, max: int, i: nat)
    requires i < |w.rows|
    ensures var t, after := w.rows[i], AfterRestart(w, max);
            && after.flight == [] && after.max == max && |after.rows| == |w.rows|
            && var row := after.rows[i];
               && (!t.state.Running? ==> row == t)
               && (t.state.Running? ==>
                     && row.state.Failed? && row.resumable
                     && row.detail == "the bridge restarted while this ran; the session is resumable with a message"
                     && row == t.(state := Failed, resumable := true, detail := row.detail))
  {
  }

  // ------------------------------------------------------------ who may ask for what

  predicate White(c: char) { c == ' ' || 9 <= c as int <= 13 || 28 <= c as int <= 31 }

  /** Something is said: a character that is not white. */
  predicate Says(text: string) { exists k | 0 <= k < |text| :: !White(text[k]) }

  lemma SaysExactly(text: string)
    ensures Strip(text) != "" <==> Says(text)
  {
    var a, b := StripExactly(text);
    assert forall c: char :: IsSpace(c) <==> White(c);
  }

  predicate IsLevel(level: string) { level == "plan" || level == "ask" || level == "edits" || level == "full" }

  predicate LowerOrDigit(c: char) { 'a' <= c <= 'z' || '0' <= c <= '9' }

  predicate Letter(c: char) { 'a' <= c <= 'z' || 'A' <= c <= 'Z' }

  /** A model's name: a lower-case letter or a figure, and up to 63 more of those, stops, hyphens and brackets. */
  predicate IsModelName(m: string) {
    && 0 < |m| < 65 && LowerOrDigit(m[0])
    && forall k | 1 <= k < |m| :: LowerOrDigit(m[k]) || m[k] in ".-[]"
  }

  /** A tool's name: a letter, and up to 99 more letters, figures and underscores. */
  predicate IsToolName(name: string) {
    && 0 < |name| < 101 && Letter(name[0])
    && forall k | 1 <= k < |name| :: Letter(name[k]) || '0' <= name[k] <= '9' || name[k] == '_'
  }

  /** What may stand in a rule's parentheses. */
  predicate IsArgument(arg: string) {
    0 < |arg| < 201 && forall k | 0 <= k < |arg| :: arg[k] != '(' && arg[k] != ')' && arg[k] != '\r' && arg[k] != '\n'
  }

  lemma ModelNameExactly(m: string)
    ensures ModelName(m) <==> IsModelName(m)
  {
  }

  /** A tool rule is a name, or a name and an argument in parentheses. */
  lemma ToolRuleExactly(rule: string)
    ensures ToolRule(rule)
            <==> IsToolName(rule)
                 || exists n | 0 <= n < |rule| - 1 :: IsToolName(rule[..n]) && rule[n] == '('
                      && IsArgument(rule[n + 1..|rule| - 1]) && rule[|rule| - 1] == ')'
  {
    if ToolRule(rule) { RuleParts(rule); }
    if IsToolName(rule) { NameIsRule(rule); }
    if n :| 0 <= n < |rule| - 1 && IsToolName(rule[..n]) && rule[n] == '('
            && IsArgument(rule[n + 1..|rule| - 1]) && rule[|rule| - 1] == ')' {
      PartsAreRule(rule, n);
    }
  }

  lemma ToolNameExactly(name: string)
    ensures ToolName(name) <==> IsToolName(name)
    ensures ToolName(name) ==> '(' !in name
  {
    if ToolName(name) {
      forall k | 1 <= k < |name| ensures Letter(name[k]) || '0' <= name[k] <= '9' || name[k] == '_' {
        assert IsWord(name[k]);
      }
    }
  }

  lemma RuleParts(rule: string)
    requires ToolRule(rule)
    ensures IsToolName(rule)
            || exists n | 0 <= n < |rule| - 1 :: IsToolName(rule[..n]) && rule[n] == '('
                 && IsArgument(rule[n + 1..|rule| - 1]) && rule[|rule| - 1] == ')'
  {
    var open := FirstIndex(rule, '(');
    ToolNameExactly(if open < 0 then rule else rule[..open]);
    hide IsToolName, ToolName;
    if open >= 0 {
      var arg := rule[open + 1..|rule| - 1];
      forall k | 0 <= k < |arg| ensures arg[k] !in "()\r\n" { assert arg[k] == rule[open + 1 + k]; }
      assert IsArgument(arg);
    }
  }

  lemma NameIsRule(rule: string)
    requires IsToolName(rule)
    ensures ToolRule(rule)
  {
    hide ToolName, IsToolName;
    ToolNameExactly(rule);
  }

  lemma PartsAreRule(rule: string, n: nat)
    requires n < |rule| - 1 && IsToolName(rule[..n]) && rule[n] == '(' && IsArgument(rule[n + 1..|rule| - 1])
    requires rule[|rule| - 1] == ')'
    ensures ToolRule(rule)
  {
    hide ToolName, IsToolName;
    var arg := rule[n + 1..|rule| - 1];
    ToolNameExactly(rule[..n]);
    FirstIndexOf(rule[..n], '(', rule[n + 1..]);
    assert rule == rule[..n] + ['('] + rule[n + 1..];
    forall k | n < k < |rule| - 1 ensures rule[k] !in "()\r\n" { assert rule[k] == arg[k - n - 1]; }
  }

  // ------------------------------------------------------------ requests

  /** What a delegation must be to be taken on. */
  predicate Startable(r: Request) {
    && Says(r.brief) && IsLevel(r.level) && (r.model == "" || IsModelName(r.model))
    && r.directory != "" && r.directory[0] == '/' && r.isDirectory
  }

  /** A title of its own, or the start of the brief. */
  predicate Titled(r: Request, title: string) {
    title == if Says(r.title) then Strip(r.title) else FirstOf(Strip(r.brief), 60)
  }

  /** What is said of a delegation that is not taken on: the first thing wrong with it. */
  function FirstWrong(r: Request): Refusal {
    if !Says(r.brief) then EmptyBrief
    else if !IsLevel(r.level) then BadRunLevel
    else if r.model != "" && !IsModelName(r.model) then BadModel
    else if r.directory == "" || r.directory[0] != '/' then NotAbsolute
    else NotADirectory
  }

  lemma StartableExactly(r: Request)
    ensures StartProblem(r).None? <==> Startable(r)
    ensures !Startable(r) ==> StartProblem(r) == Some(FirstWrong(r)) && Status(FirstWrong(r)) == 422
  {
    hide Strip, ModelName, IsModelName;
    SaysExactly(r.brief);
    ModelNameExactly(r.model);
  }

  /** A delegation is taken on exactly when it is one; its row is what was asked for, waiting or already running. */
  lemma StartExactly(w: World, r: Request)
    ensures var (after, reply) := Start(w, r);
            && (reply.Ok? <==> Startable(r))
            && (reply.Err? ==> after == w && reply.error == FirstWrong(r) && Status(reply.error) == 422)
            && (reply.Ok? ==>
                  && reply.value == |w.rows| && |after.rows| == |w.rows| + 1
                  && var row := after.rows[|w.rows|];
                     && row.account == r.account && row.brief == Strip(r.brief) && row.directory == r.directory
                     && row.level == r.level && row.model == r.model && row.created == r.now && Titled(r, row.title)
                     && (row.state.Queued? || row.state.Running?) && row.turns == 0 && row.notes == []
                     && !row.resumable && row.detail == "" && row.result == "" && row.cost == 0.0
                     && row.toolUses == 0 && row.lastTool == "" && row.lastText == "" && row.denials == [])
  {
    hide Pump, Strip, StartProblem, Startable, Says;
    StartableExactly(r);
    if StartProblem(r).None? {
      var begun := AfterCreate(w, RowFor(r));
      PumpLeavesOthers(begun, |w.rows|);
      SaysExactly(r.title);
    }
  }

  /** Another account's task, or none: the answer is the same, and nothing changes. */
  lemma StrangersFindNothing(w: World, account: string, i: nat, text: string, mode: string, tools: seq<string>)
    requires i < |w.rows| ==> w.rows[i].account != account
    ensures Cancel(w, account, i) == (w, Err(NoSuchTask)) && Status(NoSuchTask) == 404
    ensures Says(text) && (mode == "" || IsLevel(mode)) && ToolRules(tools) ==>
              Message(w, account, i, text, mode, tools) == (w, Err(NoSuchTask))
  {
    hide Strip, ToolRules, Says;
    SaysExactly(text);
  }

  /** Tools are allowed only where tools may be used. */
  predicate ToolsAllowed(t: Task, mode: string, tools: seq<string>) {
    tools == [] || (mode != "plan" && (mode != "" || t.level != "plan"))
  }

  /** What a follow-up must be, to whom, to be taken. */
  predicate Tellable(w: World, account: string, i: nat, text: string, mode: string, tools: seq<string>) {
    && Says(text) && (mode == "" || IsLevel(mode))
    && |tools| <= 10 && (forall k | 0 <= k < |tools| :: ToolRule(tools[k]))
    && i < |w.rows| && w.rows[i].account == account && ToolsAllowed(w.rows[i], mode, tools)
    && (w.rows[i].state.Failed? || w.rows[i].state.Cancelled? ==> w.rows[i].resumable)
  }

  /** What is said of a follow-up that is not taken: the first thing wrong with it, its task last. */
  function FirstAmiss(w: World, account: string, i: nat, text: string, mode: string, tools: seq<string>): Refusal {
    if !Says(text) then EmptyMessage
    else if mode != "" && !IsLevel(mode) then BadRunLevel
    else if |tools| > 10 || exists k | 0 <= k < |tools| :: !ToolRule(tools[k]) then BadTools
    else if i >= |w.rows| || w.rows[i].account != account then NoSuchTask
    else if !ToolsAllowed(w.rows[i], mode, tools) then PlanAllowsNothing
    else AlreadyOver
  }

  /** A follow-up is taken exactly when it may be; the reply tells whether its task is now running. */
  lemma MessageExactly(w: World, account: string, i: nat, text: string, mode: string, tools: seq<string>)
    ensures var (after, reply) := Message(w, account, i, text, mode, tools);
            && (reply.Ok? <==> Tellable(w, account, i, text, mode, tools))
            && (reply.Err? ==> after == w && reply.error == FirstAmiss(w, account, i, text, mode, tools))
            && (reply.Ok? ==>
                  && after == Pump(AfterTell(w, i, Note(Strip(text), mode, tools)))
                  && (reply.value == MidTurn <==> after.rows[i].state.Running?)
                  && (reply.value.Behind? ==> reply.value.running == Count(after.rows, Running)))
  {
    hide Pump, Strip, Says, ToolRule, Count;
    SaysExactly(text);
  }

  /** A cancel of one's own task stops it when it is live, and does nothing to one that is over or idle. */
  lemma CancelExactly(w: World, account: string, i: nat)
    ensures var (after, reply) := Cancel(w, account, i);
            && (reply.Ok? <==> i < |w.rows| && w.rows[i].account == account)
            && (reply.Ok? && (w.rows[i].state.Queued? || w.rows[i].state.Running?) ==>
                  after == Pump(AfterStop(w, i)) && after.rows[i].state.Cancelled? && after.rows[i].notes == [])
            && (reply.Ok? && !w.rows[i].state.Queued? && !w.rows[i].state.Running? ==> after == w)
            && (reply.Err? ==> after == w)
  {
    if Finds(w, account, i) && Live(w.rows[i]) {
      var stopped := AfterStop(w, i);
      hide Pump;
      PumpLeavesOthers(stopped, i);
    }
  }
}
