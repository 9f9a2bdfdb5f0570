/** The delegation scheduler as a state machine: task rows, turns in flight, and every step that changes them. */
module Scheduler {
  import opened Text
  import opened Patterns
  import opened Tasks

  /** A turn started and not yet settled. A task is named by its place in the table. */
  datatype Turn = Turn(task: nat, prompt: string, resume: bool, level: string, allow: seq<string>)

  /** What happened, in order. It decides nothing; it is what the theorems about whole runs speak of. */
  datatype Event =
    | Accepted(task: nat, note: Note)
    | Began(turn: Turn, taken: Option<Note>)
    | Dropped(task: nat, notes: seq<Note>)
    | Ended(turn: Turn)

  datatype World = World(rows: seq<Task>, flight: seq<Turn>, max: int, log: seq<Event>)

  /** One atomic read-modify-write. A pump is any number of launches. */
  datatype Step =
    | Create(row: Task)
    | Tell(task: nat, note: Note)
    | Stop(task: nat)
    | Launch
    | Settle(index: nat, outcome: Outcome)
    | Progress(task: nat, seen: Seen)
    | Restart(max: int)

  // ------------------------------------------------------------ steps

  predicate Fresh(t: Task) {
    t.state.Queued? && t.turns == 0 && t.notes == [] && !t.resumable
  }

  predicate Refused(t: Task) { Over(t) && !t.resumable }

  predicate FreeSlot(w: World) { Count(w.rows, Running) < w.max }

  /** The service takes this step only here. */
  predicate Enabled(w: World, s: Step) {
    match s
    case Create(row) => Fresh(row)
    case Tell(i, note) => i < |w.rows| && note.text != "" && !Refused(w.rows[i])
    case Stop(i) => i < |w.rows| && Live(w.rows[i])
    case Launch => FreeSlot(w) && Oldest(w.rows).Some?
    case Settle(k, _) => k < |w.flight|
    case Progress(i, _) => i < |w.rows|
    case Restart(_) => true
  }

  /** There is a follow-up to take where the code takes one. */
  predicate CanPop(t: Task) { t.turns > 0 ==> t.notes != [] }

  function TurnOf(i: nat, t: Task): Turn
    requires CanPop(t)
  {
    Turn(i, Prompt(t), t.turns > 0, Launched(t).level, if t.turns > 0 then t.notes[0].tools else [])
  }

  function AfterCreate(w: World, row: Task): World { w.(rows := w.rows + [row]) }

  function AfterTell(w: World, i: nat, note: Note): World
    requires i < |w.rows|
  {
    w.(rows := w.rows[i := Told(w.rows[i], note)], log := w.log + [Accepted(i, note)])
  }

  function AfterStop(w: World, i: nat): World
    requires i < |w.rows| && Live(w.rows[i])
  {
    w.(rows := w.rows[i := Stopped(w.rows[i])], log := w.log + [Dropped(i, w.rows[i].notes)])
  }

  /** Taking a follow-up from an empty list raises, and the row is not saved. */
  function AfterLaunch(w: World, i: nat): World
    requires i < |w.rows|
  {
    var t := w.rows[i];
    if !CanPop(t) then w
    else w.(rows := w.rows[i := Launched(t)], flight := w.flight + [TurnOf(i, t)],
            log := w.log + [Began(TurnOf(i, t), NextNote(t))])
  }

  function AfterSettle(w: World, k: nat, o: Outcome): World
    requires k < |w.flight|
  {
    var turn := w.flight[k];
    var landed := w.(flight := w.flight[..k] + w.flight[k + 1..], log := w.log + [Ended(turn)]);
    if turn.task < |w.rows| then landed.(rows := w.rows[turn.task := Settled(w.rows[turn.task], o)]) else landed
  }

  function AfterProgress(w: World, i: nat, seen: Seen): World
    requires i < |w.rows|
  {
    w.(rows := w.rows[i := Progressed(w.rows[i], seen)])
  }

  function InterruptedRows(rows: seq<Task>): (r: seq<Task>)
    ensures |r| == |rows| && forall i | 0 <= i < |rows| :: r[i] == Interrupted(rows[i])
  {
    seq(|rows|, i requires 0 <= i < |rows| => Interrupted(rows[i]))
  }

  /** The process dies with its turns; a new one opens the same table. */
  function AfterRestart(w: World, max: int): World { World(InterruptedRows(w.rows), [], max, w.log) }

  function Next(w: World, s: Step): World
    requires Enabled(w, s)
  {
    match s
    case Create(row) => AfterCreate(w, row)
    case Tell(i, note) => AfterTell(w, i, note)
    case Stop(i) => AfterStop(w, i)
    case Launch => AfterLaunch(w, Oldest(w.rows).value)
    case Settle(k, o) => AfterSettle(w, k, o)
    case Progress(i, seen) => AfterProgress(w, i, seen)
    case Restart(max) => AfterRestart(w, max)
  }

  function Empty(max: int): World { World([], [], max, []) }

  /** Any steps the service can take, in any order and however interleaved. */
  ghost predicate Runs(w: World, steps: seq<Step>, end: World)
    decreases |steps|
  {
    if steps == [] then w == end else Enabled(w, steps[0]) && Runs(Next(w, steps[0]), steps[1..], end)
  }

  // ------------------------------------------------------------ the pump

  lemma LaunchUsesOneUp(w: World, i: nat)
    requires i < |w.rows| && w.rows[i].state.Queued? && CanPop(w.rows[i])
    ensures Count(AfterLaunch(w, i).rows, Queued) == Count(w.rows, Queued) - 1
    ensures Count(AfterLaunch(w, i).rows, Running) == Count(w.rows, Running) + 1
  {
    CountUpdate(w.rows, i, Launched(w.rows[i]), Queued);
    CountUpdate(w.rows, i, Launched(w.rows[i]), Running);
  }

  predicate CanLaunch(w: World) {
    FreeSlot(w) && var best := Oldest(w.rows); best.Some? && CanPop(w.rows[best.value])
  }

  /** Start queued turns while there are slots, the oldest first. */
  function Pump(w: World): (r: World)
    ensures |r.rows| == |w.rows| && r.max == w.max
    decreases Count(w.rows, Queued)
  {
    if CanLaunch(w) then
      LaunchUsesOneUp(w, Oldest(w.rows).value);
      Pump(AfterLaunch(w, Oldest(w.rows).value))
    else w
  }

  /** No slot is free, or nothing waits. */
  predicate Drained(w: World) { !FreeSlot(w) || Count(w.rows, Queued) == 0 }

  // ------------------------------------------------------------ requests

  datatype Refusal =
    | EmptyBrief | BadRunLevel | BadModel | NotAbsolute | NotADirectory
    | EmptyMessage | BadTools | PlanAllowsNothing | NoSuchTask | AlreadyOver

  function Status(r: Refusal): (code: nat)
    ensures code == 404 <==> r == NoSuchTask
    ensures code == 409 <==> r == AlreadyOver
  {
    match r
    case NoSuchTask => 404
    case AlreadyOver => 409
    case _ => 422
  }

  const MODES: seq<string> := ["plan", "ask", "edits", "full"]

  predicate ModelChar(c: char) { 'a' <= c <= 'z' || '0' <= c <= '9' || c == '.' || c == '-' || c == '[' || c == ']' }

  predicate ModelName(m: string) {
    && 1 <= |m| <= 64 && ModelChar(m[0]) && m[0] !in ".-[]" && forall k | 0 <= k < |m| :: ModelChar(m[k])
  }

  const MAX_ALLOWED_TOOLS := 10

  predicate ToolName(name: string) {
    && 1 <= |name| <= 100 && ('a' <= name[0] <= 'z' || 'A' <= name[0] <= 'Z')
    && forall k | 0 <= k < |name| :: IsWord(name[k])
  }

  /** A name, and perhaps one argument in parentheses. */
  predicate ToolRule(rule: string) {
    var open := FirstIndex(rule, '(');
    && ToolName(if open < 0 then rule else rule[..open])
    && (open >= 0 ==> 3 <= |rule| - open <= 202 && rule[|rule| - 1] == ')'
                      && forall k | open < k < |rule| - 1 :: rule[k] !in "()\r\n")
  }

  predicate ToolRules(rules: seq<string>) {
    |rules| <= MAX_ALLOWED_TOOLS && forall k | 0 <= k < |rules| :: ToolRule(rules[k])
  }

  /** A delegation asked for. Whether the directory exists is the machine's to say, and the time the clock's. */
  datatype Request = Request(account: string, brief: string, directory: string, isDirectory: bool, level: string,
                             title: string, model: string, now: int)

  function StartProblem(r: Request): Option<Refusal> {
    if Strip(r.brief) == "" then Some(EmptyBrief)
    else if r.level !in MODES then Some(BadRunLevel)
    else if r.model != "" && !ModelName(r.model) then Some(BadModel)
    else if r.directory == "" || r.directory[0] != '/' then Some(NotAbsolute)
    else if !r.isDirectory then Some(NotADirectory)
    else None
  }

  function RowFor(r: Request): Task {
    var title := if Strip(r.title) != "" then Strip(r.title) else Clip(Strip(r.brief), TITLE_CHARS);
    Created(r.account, title, Strip(r.brief), r.directory, r.level, r.model, r.now)
  }

  function Start(w: World, r: Request): (World, Result<nat, Refusal>) {
    if StartProblem(r).Some? then (w, Err(StartProblem(r).value))
    else (Pump(AfterCreate(w, RowFor(r))), Ok(|w.rows|))
  }

  /** The row exists and is this account's: the two ways of not being found are not told apart. */
  predicate Finds(w: World, account: string, i: nat) { i < |w.rows| && w.rows[i].account == account }

  function MessageProblem(w: World, account: string, i: nat, text: string, mode: string, tools: seq<string>):
      Option<Refusal>
  {
    if Strip(text) == "" then Some(EmptyMessage)
    else if mode != "" && mode !in MODES then Some(BadRunLevel)
    else if !ToolRules(tools) then Some(BadTools)
    else if !Finds(w, account, i) then Some(NoSuchTask)
    else if tools != [] && (if mode != "" then mode else w.rows[i].level) == "plan" then Some(PlanAllowsNothing)
    else if Refused(w.rows[i]) then Some(AlreadyOver)
    else None
  }

  /** What the person is told about when the message runs. */
  datatype Said = MidTurn | Behind(running: nat)

  function Reply(w: World, i: nat): Said
    requires i < |w.rows|
  {
    if w.rows[i].state.Running? then MidTurn else Behind(Count(w.rows, Running))
  }

  function Message(w: World, account: string, i: nat, text: string, mode: string, tools: seq<string>):
      (r: (World, Result<Said, Refusal>))
  {
    var problem := MessageProblem(w, account, i, text, mode, tools);
    if problem.Some? then (w, Err(problem.value))
    else
      var pumped := Pump(AfterTell(w, i, Note(Strip(text), mode, tools)));
      (pumped, Ok(Reply(pumped, i)))
  }

  function Cancel(w: World, account: string, i: nat): (World, Result<nat, Refusal>) {
    if !Finds(w, account, i) then (w, Err(NoSuchTask))
    else if !Live(w.rows[i]) then (w, Ok(i))
    else (Pump(AfterStop(w, i)), Ok(i))
  }

  /** A turn ends: its row is settled and the slot it held is filled. */
  function Finish(w: World, k: nat, o: Outcome): World
    requires k < |w.flight|
  {
    Pump(AfterSettle(w, k, o))
  }
}
