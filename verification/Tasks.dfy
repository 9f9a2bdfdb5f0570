/** Task rows: what each delegation is, and what each event does to its row. */
module Tasks {
  import opened Text

  datatype State = Queued | Running | Idle | Failed | Cancelled

  /** A follow-up waiting for the session: a text, and optionally the mode and the tools for the turn it starts. */
  datatype Note = Note(text: string, mode: string, tools: seq<string>)

  datatype Task = Task(account: string, title: string, brief: string, directory: string, level: string,
                       model: string, created: int, state: State, detail: string, result: string, turns: nat,
                       cost: real, toolUses: nat, lastTool: string, lastText: string, notes: seq<Note>,
                       resumable: bool, denials: seq<string>)

  datatype Outcome = Outcome(ok: bool, detail: string, result: string, cost: real, turns: nat, denials: seq<string>)

  datatype Seen = Seen(toolUses: nat, lastTool: string, lastText: string)

  const RESULT_CHARS := 20000
  const SNIPPET_CHARS := 160
  const TITLE_CHARS := 60

  function Clip(t: string, n: nat): string { if |t| <= n then t else t[..n] }

  /** What a row keeps of itself when it is saved. */
  function Saved(t: Task): Task { t.(result := Clip(t.result, RESULT_CHARS)) }

  // ------------------------------------------------------------ what happens to a row

  function Created(account: string, title: string, brief: string, directory: string, level: string, model: string,
                   now: int): Task {
    Task(account, title, brief, directory, level, model, now, Queued, "", "", 0, 0.0, 0, "", "", [], false, [])
  }

  predicate Live(t: Task) { t.state.Queued? || t.state.Running? }

  predicate Over(t: Task) { t.state.Failed? || t.state.Cancelled? }

  /** A follow-up queued; a task that is not live comes back to life. */
  function Told(t: Task, note: Note): Task {
    Saved(t.(notes := t.notes + [note], state := if Live(t) then t.state else Queued))
  }

  const INTERRUPTED_BY_PERSON := "interrupted by the person; a message resumes the session"
  const CANCELLED_BEFORE := "cancelled by the person before it started"

  function Stopped(t: Task): Task
    requires Live(t)
  {
    if t.state.Running? then
      Saved(t.(resumable := true, detail := INTERRUPTED_BY_PERSON, state := Cancelled, notes := []))
    else Saved(t.(detail := CANCELLED_BEFORE, state := Cancelled, notes := []))
  }

  /** The follow-up the next turn takes: none on the first turn, which runs the brief. */
  function NextNote(t: Task): Option<Note>
    requires t.turns > 0 ==> t.notes != []
  {
    if t.turns > 0 then Some(t.notes[0]) else None
  }

  function Launched(t: Task): Task
    requires t.turns > 0 ==> t.notes != []
  {
    if t.turns > 0 then
      var note := t.notes[0];
      Saved(t.(notes := t.notes[1..], level := if note.mode != "" then note.mode else t.level,
               result := "", denials := [], state := Running))
    else Saved(t.(state := Running))
  }

  function Prompt(t: Task): string
    requires t.turns > 0 ==> t.notes != []
  {
    if t.turns > 0 && t.notes[0].text != "" then t.notes[0].text else t.brief
  }

  const QUEUED_NEXT := "a queued message starts its next turn"
  const TURN_OVER := "the turn is over; a message resumes the session"

  /** A turn's outcome on its row. A cancelled row already says what happened to it. */
  function Settled(t: Task, o: Outcome): Task {
    if t.state.Cancelled? then t
    else
      var s := t.(turns := t.turns + (if o.turns == 0 then 1 else o.turns), cost := t.cost + o.cost,
                  resumable := true, denials := o.denials);
      if !o.ok then Saved(s.(state := Failed, detail := o.detail))
      else if t.notes != [] then Saved(s.(state := Queued, detail := QUEUED_NEXT, result := o.result))
      else Saved(s.(state := Idle, detail := TURN_OVER, result := o.result))
  }

  function Progressed(t: Task, seen: Seen): Task {
    if t.state.Running? then
      Saved(t.(toolUses := seen.toolUses, lastTool := seen.lastTool, lastText := Clip(seen.lastText, SNIPPET_CHARS)))
    else t
  }

  const INTERRUPTED := "the bridge restarted while this ran; the session is resumable with a message"

  function Interrupted(t: Task): Task {
    if t.state.Running? then t.(state := Failed, detail := INTERRUPTED, resumable := true) else t
  }

  // ------------------------------------------------------------ the table

  function Count(rows: seq<Task>, s: State): (n: nat)
    ensures n <= |rows|
  {
    if rows == [] then 0 else Count(rows[..|rows| - 1], s) + (if rows[|rows| - 1].state == s then 1 else 0)
  }

  lemma CountSnoc(rows: seq<Task>, t: Task, s: State)
    ensures Count(rows + [t], s) == Count(rows, s) + (if t.state == s then 1 else 0)
  {
    assert (rows + [t])[..|rows|] == rows;
  }

  lemma {:induction false} CountUpdate(rows: seq<Task>, i: nat, t: Task, s: State)
    requires i < |rows|
    ensures Count(rows[i := t], s) + (if rows[i].state == s then 1 else 0)
            == Count(rows, s) + (if t.state == s then 1 else 0)
  {
    var n := |rows| - 1;
    if i < n {
      CountUpdate(rows[..n], i, t, s);
      assert rows[i := t][..n] == rows[..n][i := t];
    } else {
      assert rows[i := t][..n] == rows[..n];
    }
  }

  lemma {:induction false} CountNone(rows: seq<Task>, s: State)
    ensures Count(rows, s) == 0 <==> forall i | 0 <= i < |rows| :: rows[i].state != s
  {
    if rows != [] {
      var n := |rows| - 1;
      CountNone(rows[..n], s);
      forall i | 0 <= i < n ensures rows[i] == rows[..n][i] {}
    }
  }

  /** Row `i` comes before row `j` in the queue: created earlier, or as early and inserted earlier. */
  predicate Ahead(rows: seq<Task>, i: nat, j: nat)
    requires i < |rows| && j < |rows|
  {
    rows[i].created < rows[j].created || (rows[i].created == rows[j].created && i <= j)
  }

  /** The oldest row still waiting among the first `n`. */
  function OldestOf(rows: seq<Task>, n: nat): (best: Option<nat>)
    requires n <= |rows|
    ensures best.Some? ==> best.value < n && rows[best.value].state.Queued?
    ensures best.None? ==> forall k | 0 <= k < n :: !rows[k].state.Queued?
    ensures best.Some? ==> forall k | 0 <= k < n && rows[k].state.Queued? :: Ahead(rows, best.value, k)
  {
    if n == 0 then None
    else
      var best := OldestOf(rows, n - 1);
      if rows[n - 1].state.Queued? && (best.None? || rows[n - 1].created < rows[best.value].created) then Some(n - 1)
      else best
  }

  function Oldest(rows: seq<Task>): (best: Option<nat>)
    ensures best.Some? ==> best.value < |rows| && rows[best.value].state.Queued?
    ensures best.None? ==> forall k | 0 <= k < |rows| :: !rows[k].state.Queued?
    ensures best.Some? ==> forall k | 0 <= k < |rows| && rows[k].state.Queued? :: Ahead(rows, best.value, k)
  {
    OldestOf(rows, |rows|)
  }
}
