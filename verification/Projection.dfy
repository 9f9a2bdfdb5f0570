/** The projection: an append-only transcript and its compactions, read as history sections. */
module Projection {
  import opened Sorting
  import opened Text
  import opened Bands

  const SUMMARY_PRIORITY := 10
  const OLDEST_PRIORITY := 90
  const NEWEST_PRIORITY := 20

  datatype Item = Item(
    id: string, seqNo: int, role: string, body: string, turn: Option<string>, kind: string, order: Option<int>)

  datatype Compaction = Compaction(seqNo: int, summary: string, coversFrom: int, coversTo: int, active: bool)

  datatype Projected = Projected(
    sections: seq<Placed>, replaced: nat, summaries: nat, notices: seq<string>,
    summarisedTurns: nat, covered: set<int>)

  function Numeral(n: int): string {
    if n < 0 then "-" + Decimal(-n) else Decimal(n)
  }

  function Position(item: Item): int {
    match item.order case None => item.seqNo case Some(order) => order
  }

  predicate PositionBefore(a: Item, b: Item) { Position(a) < Position(b) }

  predicate NewerFirst(a: Compaction, b: Compaction) { a.seqNo > b.seqNo }

  predicate Active(c: Compaction) { c.active }

  predicate Within(item: Item, range: (int, int)) { range.0 <= item.seqNo <= range.1 }

  // ------------------------------------------------------------ snapping

  function Touched(items: seq<Item>, range: (int, int)): set<string> {
    set item | item in items && item.turn.Some? && Within(item, range) :: item.turn.value
  }

  predicate OfTurns(item: Item, turns: set<string>) { item.turn.Some? && item.turn.value in turns }

  function LowOf(items: seq<Item>, turns: set<string>, low: int): int {
    if items == [] then low
    else
      var rest := LowOf(items[1..], turns, low);
      if OfTurns(items[0], turns) then Min(items[0].seqNo, rest) else rest
  }

  function HighOf(items: seq<Item>, turns: set<string>, high: int): int {
    if items == [] then high
    else
      var rest := HighOf(items[1..], turns, high);
      if OfTurns(items[0], turns) then Max(items[0].seqNo, rest) else rest
  }

  /** Widen a requested range to the turns it touches. */
  function Snap(items: seq<Item>, range: (int, int)): (int, int) {
    var touched := Touched(items, range);
    if touched == {} then range
    else (LowOf(items, touched, range.0), HighOf(items, touched, range.1))
  }

  function Snapped(c: Compaction, items: seq<Item>): (int, int) {
    Snap(items, (c.coversFrom, c.coversTo))
  }

  // ------------------------------------------------------------ one compaction

  function Inside(items: seq<Item>, range: (int, int)): seq<int> {
    if items == [] then []
    else (if Within(items[0], range) then [items[0].seqNo] else []) + Inside(items[1..], range)
  }

  /** The first of these sequence numbers some newer compaction already covers. */
  function FirstCovered(inside: seq<int>, covered: map<int, int>): Option<int> {
    if inside == [] then None
    else if inside[0] in covered then Some(covered[inside[0]])
    else FirstCovered(inside[1..], covered)
  }

  function CoverAll(covered: map<int, int>, inside: seq<int>, owner: int): map<int, int> {
    covered + map n | n in inside :: owner
  }

  function SummaryBody(c: Compaction, replaced: nat): string {
    "[harness: " + Decimal(replaced) + " earlier entries were replaced by this extract to save room. "
    + "Your replies and the tool results from that part are not shown.]\n" + c.summary
  }

  const SUMMARY_PREFIX := "history.summary."
  const ITEM_PREFIX := "history.item."

  function SummarySection(c: Compaction, replaced: nat, count: Counter): Placed {
    var body := SummaryBody(c, replaced);
    Section(SUMMARY_PREFIX + Numeral(c.seqNo), History, body, count(body), SUMMARY_PRIORITY, count(body),
            "Earlier in this conversation", false, "")
  }

  function LeastPosition(items: seq<Item>, range: (int, int), otherwise: int): int {
    if items == [] then otherwise
    else
      var rest := LeastPosition(items[1..], range, otherwise);
      if !Within(items[0], range) then rest
      else if Inside(items[1..], range) == [] then Position(items[0])
      else Min(Position(items[0]), rest)
  }

  function EmptyNotice(c: Compaction): string {
    "compaction " + Numeral(c.seqNo) + " covers nothing still in the transcript"
  }

  function SupersededNotice(c: Compaction, newer: int): string {
    "compaction " + Numeral(c.seqNo) + " is superseded by compaction " + Numeral(newer)
  }

  /** What the loop has built: who covers what, what has been placed where, what has been said. */
  datatype Shelf = Shelf(covered: map<int, int>, placed: seq<(int, Placed)>, notices: seq<string>)

  function PlaceOne(ordered: seq<Item>, c: Compaction, s: Shelf, count: Counter): Shelf {
    var range := Snapped(c, ordered);
    var inside := Inside(ordered, range);
    if inside == [] then s.(notices := s.notices + [EmptyNotice(c)])
    else
      match FirstCovered(inside, s.covered)
      case Some(newer) => s.(notices := s.notices + [SupersededNotice(c, newer)])
      case None =>
        Shelf(CoverAll(s.covered, inside, c.seqNo),
              s.placed + [(LeastPosition(ordered, range, range.0), SummarySection(c, |inside|, count))],
              s.notices)
  }

  function PlaceAll(ordered: seq<Item>, active: seq<Compaction>, s: Shelf, count: Counter): Shelf {
    if active == [] then s
    else PlaceAll(ordered, active[1..], PlaceOne(ordered, active[0], s, count), count)
  }

  // ------------------------------------------------------------ verbatim turns

  /** `round(num / den)`: halves go to the even neighbour. */
  function RoundHalfEven(num: nat, den: nat): (r: nat)
    requires den > 0
  {
    var q, twice := num / den, 2 * (num % den);
    if twice < den then q
    else if twice > den then q + 1
    else if q % 2 == 0 then q else q + 1
  }

  /** Age as a priority, for the entry at `row` of `rows`: the newest is given up last. */
  function AgePriority(row: nat, rows: nat): (p: nat)
    requires row < rows
  {
    var span := rows - 1;
    NEWEST_PRIORITY + if span == 0 then 0 else RoundHalfEven((span - row) * (OLDEST_PRIORITY - NEWEST_PRIORITY), span)
  }

  function ItemSection(item: Item, priority: int, count: Counter): Placed {
    var body := item.role + ": " + item.body;
    Section(ITEM_PREFIX + item.id, History, body, count(body), priority, 0, item.kind, false, "")
  }

  function TurnSections(rows: seq<Item>, count: Counter): (sections: seq<(int, Placed)>)
    ensures |sections| == |rows|
    ensures forall k | 0 <= k < |rows| ::
              sections[k] == (Position(rows[k]), ItemSection(rows[k], AgePriority(k, |rows|), count))
  {
    seq(|rows|, k requires 0 <= k < |rows| => (Position(rows[k]), ItemSection(rows[k], AgePriority(k, |rows|), count)))
  }

  // ------------------------------------------------------------ the projection

  function Ordered(items: seq<Item>): seq<Item> { Sort(items, PositionBefore) }

  function NewestFirst(compactions: seq<Compaction>): seq<Compaction> {
    Sort(Filter(Active, compactions), NewerFirst)
  }

  function ShelfOf(items: seq<Item>, compactions: seq<Compaction>, count: Counter): Shelf {
    PlaceAll(Ordered(items), NewestFirst(compactions), Shelf(map[], [], []), count)
  }

  function Uncovered(covered: map<int, int>): Item -> bool {
    (item: Item) => item.seqNo !in covered
  }

  function Verbatim(items: seq<Item>, compactions: seq<Compaction>, count: Counter): seq<Item> {
    Filter(Uncovered(ShelfOf(items, compactions, count).covered), Ordered(items))
  }

  predicate EarlierPlaced(a: (int, Placed), b: (int, Placed)) { a.0 < b.0 }

  /** Every section with the position it stands at, in prompt order. */
  function PlacedOf(items: seq<Item>, compactions: seq<Compaction>, count: Counter): seq<(int, Placed)> {
    var turns := TurnSections(Verbatim(items, compactions, count), count);
    Sort(ShelfOf(items, compactions, count).placed + turns, EarlierPlaced)
  }

  function SectionOf(entry: (int, Placed)): Placed { entry.1 }

  predicate IsSummary(s: Placed) { SUMMARY_PREFIX <= s.id }

  function SummarisedTurns(ordered: seq<Item>, covered: map<int, int>): set<string> {
    set item | item in ordered && item.seqNo in covered && item.turn.Some? && item.turn.value != "" :: item.turn.value
  }

  function ProjectOf(items: seq<Item>, compactions: seq<Compaction>, count: Counter): Projected {
    var shelf := ShelfOf(items, compactions, count);
    var sections := Map(SectionOf, PlacedOf(items, compactions, count));
    Projected(sections, |shelf.covered|, |Filter(IsSummary, sections)|, shelf.notices,
              |SummarisedTurns(Ordered(items), shelf.covered)|, shelf.covered.Keys)
  }
}
