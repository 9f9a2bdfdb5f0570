/** The projection as it runs: a covered dictionary and two growing lists, proved against `Projection`. */
module Projector {
  import opened Sorting
  import opened Bands
  import opened Projection

  /** The loop over the rows: the `k`-th section is the specified one for row `k`. */
  method PriceTurns(rows: seq<Item>, count: Counter) returns (sections: seq<(int, Placed)>)
    ensures sections == TurnSections(rows, count)
  {
    sections := [];
    for k := 0 to |rows|
      invariant |sections| == k
      invariant forall j | 0 <= j < k ::
                  sections[j] == (Position(rows[j]), ItemSection(rows[j], AgePriority(j, |rows|), count))
    {
      var item := rows[k];
      sections := sections + [(Position(item), ItemSection(item, AgePriority(k, |rows|), count))];
    }
  }

  /** The whole projection, its dictionary and lists filled compaction by compaction. */
  method Project(items: seq<Item>, compactions: seq<Compaction>, count: Counter) returns (p: Projected)
    ensures p == ProjectOf(items, compactions, count)
  {
    hide Sort, Filter, Map, Snapped, LeastPosition, SummarySection, EmptyNotice, SupersededNotice;
    var ordered, active := Ordered(items), NewestFirst(compactions);
    var covered: map<int, int> := map[];
    var placed: seq<(int, Placed)> := [];
    var notices: seq<string> := [];
    for k := 0 to |active|
      invariant PlaceAll(ordered, active[k..], Shelf(covered, placed, notices), count)
                == PlaceAll(ordered, active, Shelf(map[], [], []), count)
    {
      var c := active[k];
      assert active[k..][1..] == active[k + 1..];
      var range := Snapped(c, ordered);
      var inside := Inside(ordered, range);
      if inside == [] {
        notices := notices + [EmptyNotice(c)];
      } else {
        var newer := FirstCovered(inside, covered);
        if newer.Some? {
          notices := notices + [SupersededNotice(c, newer.value)];
        } else {
          covered := CoverAll(covered, inside, c.seqNo);
          placed := placed + [(LeastPosition(ordered, range, range.0), SummarySection(c, |inside|, count))];
        }
      }
    }
    assert active[|active|..] == [];
    var survivors := Filter(Uncovered(covered), ordered);
    var turns := PriceTurns(survivors, count);
    var sections := Map(SectionOf, Sort(placed + turns, EarlierPlaced));
    p := Projected(sections, |covered|, |Filter(IsSummary, sections)|, notices,
                   |SummarisedTurns(ordered, covered)|, covered.Keys);
  }
}
