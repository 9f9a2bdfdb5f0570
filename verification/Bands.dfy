/** The band allocator as a specification: what is given up, in what order, and what is confessed. */
module Bands {
  import opened Sorting
  import opened Text

  datatype Band = System | Pinned | History | Tools | Reserve

  const WRITABLE_BANDS: seq<Band> := [System, Pinned, History, Tools]
  const HEAD_TAIL_MINIMUM_CHARS := 160
  const MINIMUM_CONTENT_TOKENS := 1

  function Value(band: Band): string {
    match band
    case System => "system"
    case Pinned => "pinned"
    case History => "history"
    case Tools => "tools"
    case Reserve => "reserve"
  }

  /** `Band(name)`, or None where Python raises. */
  function BandNamed(name: string): Option<Band> {
    if name == "system" then Some(System)
    else if name == "pinned" then Some(Pinned)
    else if name == "history" then Some(History)
    else if name == "tools" then Some(Tools)
    else if name == "reserve" then Some(Reserve)
    else None
  }

  /** A section, with its band still a word (`B` is string) or resolved (`B` is Band). */
  datatype Section<B> = Section(
    id: string, band: B, body: string, tokens: int, priority: int, floorTokens: int,
    title: string, truncated: bool, notice: string)

  type Placed = Section<Band>

  /** A token counter is any function at all of the text: neither additive nor monotone. */
  type Counter = string -> nat

  /** `Budget`, reduced to the two numbers the allocator asks of it, either of which may be absurd. */
  datatype Budget = Budget(allocation: Band -> int, usable: int)

  datatype Refusal = UnknownBand(id: string, word: string) | InReserve(id: string)

  datatype Assembled = Assembled(
    sections: seq<Placed>, byBand: map<Band, nat>, total: nat, notices: seq<string>)

  // ------------------------------------------------------------ excerpts

  datatype Excerpt = Excerpt(body: string, tokens: nat, shown: nat)

  function WorthSnappingTo(chars: nat): (n: nat)
    ensures n >= 1
  {
    Max(1, chars / 2)
  }

  function Head(text: string, chars: nat): (piece: string)
    requires chars <= |text|
  {
    var fragment := text[..chars];
    var boundary := LastIndex(fragment, '\n');
    if boundary >= WorthSnappingTo(chars) then fragment[..boundary] else fragment
  }

  function Tail(text: string, chars: nat): (piece: string)
    requires chars <= |text|
  {
    var fragment := text[|text| - chars..];
    var boundary := FirstIndex(fragment, '\n');
    if |fragment| - boundary - 1 >= WorthSnappingTo(chars) then fragment[boundary + 1..] else fragment
  }

  function Fragments(text: string, chars: nat): (pieces: (string, string))
    requires chars <= |text|
  {
    if chars == 0 then ("", "")
    else if chars < HEAD_TAIL_MINIMUM_CHARS then (Head(text, chars), "")
    else
      var headChars := Max(1, chars * 3 / 5);
      (Head(text, headChars), Tail(text, chars - headChars))
  }

  function Marker(shown: nat, original: nat): string {
    "[... showing " + Grouped(shown) + " of " + Grouped(original) + " tokens ...]"
  }

  /** The non-empty pieces, one to a line. */
  function Lines(pieces: seq<string>): string {
    Join(Filter(NonEmpty, pieces), "\n")
  }

  predicate NonEmpty(piece: string) { piece != "" }

  function Excerpted(head: string, tail: string, original: nat, count: Counter): Excerpt {
    var shown := count(Lines([head, tail]));
    var body := Lines([head, Marker(shown, original), tail]);
    Excerpt(body, count(body), shown)
  }

  /** Where the search starts: the share of the text the allowance would buy, and never all of it. */
  function FirstGuess(text: string, original: nat, allowance: int): (chars: nat)
    requires original >= 1
    ensures chars <= |text| && (text != "" ==> chars < |text|)
    ensures chars > 0 ==> allowance > 0
  {
    assert allowance <= 0 ==> allowance * |text| / original <= 0 by {
      if allowance <= 0 { NonPositive(allowance, |text|, original); }
    }
    Max(0, Min(allowance * |text| / original, |text| - 1))
  }

  lemma NonPositive(a: int, n: nat, d: nat)
    requires a <= 0 && d >= 1
    ensures a * n / d <= 0
  {
    assert a * n <= 0;
  }

  /** The shrinking loop. Every step loses a character, whatever the counter answers. */
  function Shrink(text: string, original: nat, allowance: int, count: Counter, chars: nat): Option<Excerpt>
    requires chars <= |text| && (chars > 0 ==> allowance > 0)
    decreases chars
  {
    var (head, tail) := Fragments(text, chars);
    var tried := Excerpted(head, tail, original, count);
    if tried.tokens <= allowance then Some(tried)
    else if chars == 0 then None
    else Shrink(text, original, allowance, count, NextGuess(chars, allowance, tried.tokens))
  }

  function NextGuess(chars: nat, allowance: int, tokens: nat): (fewer: nat)
    requires chars > 0 && 0 < allowance < tokens
    ensures fewer < chars
  {
    Max(0, Min(chars - 1, chars * allowance / tokens))
  }

  function ExcerptOf(text: string, original: nat, allowance: int, count: Counter): Option<Excerpt>
    requires original >= 1
  {
    Shrink(text, original, allowance, count, FirstGuess(text, original, allowance))
  }

  // ------------------------------------------------------------ one band

  /** A section being fitted: its place in the input, itself, and what it costs. */
  datatype Entry = Entry(order: nat, section: Placed, cost: nat)

  /** Descending priority, then id, then arrival. */
  predicate GivenUpBefore(a: Entry, b: Entry) {
    || a.section.priority > b.section.priority
    || (a.section.priority == b.section.priority
        && (Less(a.section.id, b.section.id) || (a.section.id == b.section.id && a.order < b.order)))
  }

  predicate ByOrder(a: Entry, b: Entry) { a.order < b.order }

  /** What becomes of one section when its turn comes. */
  datatype Outcome = Kept | Shortened(section: Placed, cost: nat) | Dropped(notice: string)

  function WithBody(s: Placed, body: string, tokens: nat, notice: string): Placed {
    s.(body := body, tokens := tokens, truncated := true,
       notice := if notice != "" then notice else s.notice)
  }

  function TrimNotice(s: Placed, shown: nat, original: nat): string {
    s.id + " was shortened to fit the " + Value(s.band) + " band: showing "
    + Grouped(shown) + " of " + Grouped(original) + " tokens."
  }

  function DropNotice(s: Placed, cost: nat, shown: nat, floor: nat): string {
    s.id + " was dropped whole from the " + Value(s.band) + " band: it needs " + Grouped(cost)
    + " tokens, only " + Grouped(shown) + " would fit, and that is below its floor of "
    + Grouped(floor) + " tokens."
  }

  function Floor(s: Placed): nat {
    Max(s.floorTokens, MINIMUM_CONTENT_TOKENS)
  }

  function Judge(e: Entry, total: int, allocation: int, count: Counter): Outcome {
    if total <= allocation || e.cost == 0 then Kept
    else
      var excerpt := ExcerptOf(e.section.body, e.cost, e.cost - (total - allocation), count);
      var shown := if excerpt.Some? then excerpt.value.shown else 0;
      if excerpt.None? || shown < Floor(e.section) then
        Dropped(DropNotice(e.section, e.cost, shown, Floor(e.section)))
      else
        Shortened(
          WithBody(e.section, excerpt.value.body, excerpt.value.tokens, TrimNotice(e.section, shown, e.cost)),
          excerpt.value.tokens)
  }

  /** What the section costs from then on. */
  function CostAfter(e: Entry, o: Outcome): nat {
    match o
    case Kept => e.cost
    case Shortened(_, cost) => cost
    case Dropped(_) => 0
  }

  function After(e: Entry, o: Outcome): Entry {
    match o
    case Shortened(section, cost) => e.(section := section, cost := cost)
    case _ => e
  }

  /** The loop over the give-up order, with its running total. */
  function GiveUp(ranked: seq<Entry>, total: int, allocation: int, count: Counter): (outcomes: seq<Outcome>)
    ensures |outcomes| == |ranked|
  {
    if ranked == [] then []
    else
      var o := Judge(ranked[0], total, allocation, count);
      [o] + GiveUp(ranked[1..], total - ranked[0].cost + CostAfter(ranked[0], o), allocation, count)
  }

  function Remaining(ranked: seq<Entry>, outcomes: seq<Outcome>): seq<Entry>
    requires |ranked| == |outcomes|
  {
    if ranked == [] then []
    else (if outcomes[0].Dropped? then [] else [After(ranked[0], outcomes[0])])
         + Remaining(ranked[1..], outcomes[1..])
  }

  function Confessed(outcomes: seq<Outcome>): seq<string> {
    if outcomes == [] then []
    else (if outcomes[0].Dropped? then [outcomes[0].notice] else []) + Confessed(outcomes[1..])
  }

  function Total(entries: seq<Entry>): nat {
    if entries == [] then 0 else entries[0].cost + Total(entries[1..])
  }

  datatype Fitted = Fitted(survivors: seq<Entry>, total: nat, notices: seq<string>)

  function Ranked(entries: seq<Entry>): (r: seq<Entry>)
    ensures multiset(r) == multiset(entries)
  {
    Sort(entries, GivenUpBefore)
  }

  function OutcomesOf(entries: seq<Entry>, allocation: int, count: Counter): (outcomes: seq<Outcome>)
    ensures |outcomes| == |Ranked(entries)|
  {
    GiveUp(Ranked(entries), Total(entries), allocation, count)
  }

  function FitOf(entries: seq<Entry>, allocation: int, count: Counter): Fitted {
    var outcomes := OutcomesOf(entries, allocation, count);
    var survivors := Sort(Remaining(Ranked(entries), outcomes), ByOrder);
    Fitted(survivors, Total(survivors), Confessed(outcomes))
  }

  // ------------------------------------------------------------ all the bands

  function Checked(s: Section<string>): Result<Placed, Refusal> {
    match BandNamed(s.band)
    case None => Err(UnknownBand(s.id, s.band))
    case Some(band) =>
      if band == Reserve then Err(InReserve(s.id))
      else Ok(Section(s.id, band, s.body, s.tokens, s.priority, s.floorTokens, s.title, s.truncated, s.notice))
  }

  function CheckAll(sections: seq<Section<string>>): (r: Result<seq<Placed>, Refusal>)
    ensures r.Ok? ==> |r.value| == |sections|
    ensures r.Ok? ==> forall i | 0 <= i < |sections| :: Checked(sections[i]) == Ok(r.value[i])
  {
    if sections == [] then Ok([])
    else match Checked(sections[0])
      case Err(why) => Err(why)
      case Ok(first) =>
        match CheckAll(sections[1..])
        case Err(why) => Err(why)
        case Ok(rest) => Ok([first] + rest)
  }

  function Promised(budget: Budget, bands: seq<Band>): nat {
    if bands == [] then 0 else Max(0, budget.allocation(bands[0])) + Promised(budget, bands[1..])
  }

  /** One band's ceiling, scaled with the rest when together they over-promise. */
  function Ceiling(budget: Budget, band: Band): (c: nat) {
    var promised := Promised(budget, WRITABLE_BANDS);
    var usable := Max(0, budget.usable);
    var own := Max(0, budget.allocation(band));
    if promised <= usable then own
    else
      assert own * usable >= 0;
      own * usable / promised
  }

  function NumberFrom(sections: seq<Placed>, k: nat, count: Counter): (entries: seq<Entry>)
    ensures |entries| == |sections|
    ensures forall i | 0 <= i < |sections| :: entries[i] == Entry(k + i, sections[i], count(sections[i].body))
  {
    if sections == [] then []
    else [Entry(k, sections[0], count(sections[0].body))] + NumberFrom(sections[1..], k + 1, count)
  }

  function IsIn(band: Band): Entry -> bool {
    (e: Entry) => e.section.band == band
  }

  function InBand(entries: seq<Entry>, band: Band): seq<Entry> {
    Filter(IsIn(band), entries)
  }

  function FitBand(entries: seq<Entry>, band: Band, budget: Budget, count: Counter): Fitted {
    FitOf(InBand(entries, band), Ceiling(budget, band), count)
  }

  function SurvivorsOf(entries: seq<Entry>, bands: seq<Band>, budget: Budget, count: Counter): seq<Entry> {
    if bands == [] then []
    else FitBand(entries, bands[0], budget, count).survivors + SurvivorsOf(entries, bands[1..], budget, count)
  }

  function NoticesOf(entries: seq<Entry>, bands: seq<Band>, budget: Budget, count: Counter): seq<string> {
    if bands == [] then []
    else FitBand(entries, bands[0], budget, count).notices + NoticesOf(entries, bands[1..], budget, count)
  }

  function SpentOn(entries: seq<Entry>, bands: seq<Band>, budget: Budget, count: Counter): nat {
    if bands == [] then 0
    else FitBand(entries, bands[0], budget, count).total + SpentOn(entries, bands[1..], budget, count)
  }

  function Recounted(e: Entry): Placed {
    e.section.(tokens := e.cost)
  }

  function AssembledOf(checked: seq<Placed>, budget: Budget, count: Counter): Assembled {
    var entries := NumberFrom(checked, 0, count);
    Assembled(
      Map(Recounted, Sort(SurvivorsOf(entries, WRITABLE_BANDS, budget, count), ByOrder)),
      map band | band in WRITABLE_BANDS :: FitBand(entries, band, budget, count).total,
      SpentOn(entries, WRITABLE_BANDS, budget, count),
      NoticesOf(entries, WRITABLE_BANDS, budget, count))
  }

  function AllocateOf(sections: seq<Section<string>>, budget: Budget, count: Counter): Result<Assembled, Refusal> {
    match CheckAll(sections)
    case Err(why) => Err(why)
    case Ok(checked) => Ok(AssembledOf(checked, budget, count))
  }
}
