/** Which compactions a projection shows, and which entries they cover, read off the projection itself. */
module Coverage {
  import opened Sorting
  import opened Text
  import opened Bands
  import opened Projection
  import opened ProjectionProofs

  // ------------------------------------------------------------ shown exactly when

  /** Each row stands once in the newest-first list. */
  lemma ListedOnce(compactions: seq<Compaction>, i: nat, j: nat)
    requires DistinctRows(compactions) && i < j < |NewestFirst(compactions)|
    ensures NewestFirst(compactions)[i] != NewestFirst(compactions)[j]
  {
    var active := NewestFirst(compactions);
    if active[i] == active[j] {
      var c := active[i];
      TwiceCounted(active, i, j);
      FilterCount(Active, compactions, c);
      SeparatePositions(compactions, c);
    }
  }

  /** Newer rows stand before older ones. */
  lemma ListedNewestFirst(compactions: seq<Compaction>, i: nat, j: nat)
    requires DistinctRows(compactions) && i < |NewestFirst(compactions)| && j < |NewestFirst(compactions)|
    ensures i < j <==> NewestFirst(compactions)[i].seqNo > NewestFirst(compactions)[j].seqNo
  {
    var active := NewestFirst(compactions);
    SortSorted(Filter(Active, compactions), NewerFirst);
    SameElements(Filter(Active, compactions), active);
    FilterMembers(Active, compactions);
    RowsUntied(compactions);
    hide NewestFirst, Sort, Filter;
    if i != j {
      ListedOnce(compactions, Min(i, j), Max(i, j));
      assert active[i] in active && active[j] in active;
    }
  }

  lemma ListedRow(compactions: seq<Compaction>, c: Compaction) returns (k: nat)
    requires c in compactions && c.active
    ensures k < |NewestFirst(compactions)| && NewestFirst(compactions)[k] == c
  {
    FilterMembers(Active, compactions);
    SameElements(Filter(Active, compactions), NewestFirst(compactions));
    assert c in NewestFirst(compactions);
    k :| 0 <= k < |NewestFirst(compactions)| && NewestFirst(compactions)[k] == c;
  }

  /** The flags of the loop and the list of what is shown say the same. */
  lemma ShownIsShows(items: seq<Item>, compactions: seq<Compaction>, k: nat)
    requires DistinctRows(compactions) && k < |NewestFirst(compactions)|
    ensures NewestFirst(compactions)[k] in Shown(items, compactions)
            <==> Shows(Ordered(items), NewestFirst(compactions), map[])[k]
  {
    hide NewestFirst, Ordered, ShownOf, Shows;
    var active := NewestFirst(compactions);
    if Shows(Ordered(items), active, map[])[k] { FlaggedIsShown(Ordered(items), active, map[], k); }
    if active[k] in Shown(items, compactions) {
      var j := ShownIsFlagged(Ordered(items), active, map[], active[k]);
      if j != k { ListedOnce(compactions, Min(j, k), Max(j, k)); }
    }
  }

  /** Some shown row newer than `c` covers one of the entries `c` asks for. */
  ghost predicate Superseded(items: seq<Item>, compactions: seq<Compaction>, c: Compaction) {
    exists d | d in Shown(items, compactions) && d.seqNo > c.seqNo ::
      !(InsideSet(Ordered(items), c) !! InsideSet(Ordered(items), d))
  }

  lemma ShownIsListed(items: seq<Item>, compactions: seq<Compaction>, d: Compaction) returns (j: nat)
    requires d in Shown(items, compactions)
    ensures j < |NewestFirst(compactions)| && NewestFirst(compactions)[j] == d
  {
    hide NewestFirst, Ordered, ShownOf, Shows;
    j := ShownIsFlagged(Ordered(items), NewestFirst(compactions), map[], d);
  }

  lemma ApartExactly(items: seq<Item>, compactions: seq<Compaction>, k: nat)
    requires DistinctRows(compactions) && k < |NewestFirst(compactions)|
    ensures var active := NewestFirst(compactions);
            ApartFromShown(Ordered(items), active, Shows(Ordered(items), active, map[]), active[k], k)
            <==> !Superseded(items, compactions, active[k])
  {
    hide NewestFirst, Ordered, Shown, Shows, InsideSet;
    var active := NewestFirst(compactions);
    var flags := Shows(Ordered(items), active, map[]);
    if Superseded(items, compactions, active[k]) {
      var d :| d in Shown(items, compactions) && d.seqNo > active[k].seqNo
               && !(InsideSet(Ordered(items), active[k]) !! InsideSet(Ordered(items), d));
      var j := ShownIsListed(items, compactions, d);
      ListedNewestFirst(compactions, j, k);
      ShownIsShows(items, compactions, j);
      assert j < k && flags[j];
    } else {
      forall j | 0 <= j < k && flags[j]
        ensures InsideSet(Ordered(items), active[k]) !! InsideSet(Ordered(items), active[j])
      {
        ListedNewestFirst(compactions, j, k);
        ShownIsShows(items, compactions, j);
      }
    }
  }

  /**
   * A compaction is shown exactly when it is active, its snapped range holds an entry, and none of those entries is in
   * the snapped range of a shown newer one.
   */
  lemma ShownByNewest(items: seq<Item>, compactions: seq<Compaction>, c: Compaction)
    requires DistinctRows(compactions) && c in compactions
    ensures c in Shown(items, compactions)
            <==> c.active && InsideSet(Ordered(items), c) != {} && !Superseded(items, compactions, c)
  {
    hide NewestFirst, Ordered, Shown, Shows, InsideSet, Superseded, ApartFromShown;
    if c.active {
      var k := ListedRow(compactions, c);
      ShownIsShows(items, compactions, k);
      ShownExactly(Ordered(items), NewestFirst(compactions), map[], k);
      ApartExactly(items, compactions, k);
    } else if c in Shown(items, compactions) {
      var j := ShownIsListed(items, compactions, c);
      ListedActive(compactions, j);
    }
  }

  lemma ListedActive(compactions: seq<Compaction>, j: nat)
    requires j < |NewestFirst(compactions)|
    ensures NewestFirst(compactions)[j].active
  {
    FilterMembers(Active, compactions);
    SameElements(Filter(Active, compactions), NewestFirst(compactions));
    assert NewestFirst(compactions)[j] in NewestFirst(compactions);
  }

  // ------------------------------------------------------------ entries with no turn

  ghost predicate InShownRange(items: seq<Item>, compactions: seq<Compaction>, x: Item) {
    exists c | c in Shown(items, compactions) :: InRange(items, c, x)
  }

  /** The entry's number is in the range the compaction asks for, widened. */
  predicate InRange(items: seq<Item>, c: Compaction, x: Item) {
    var range := Snap(Ordered(items), (c.coversFrom, c.coversTo));
    range.0 <= x.seqNo <= range.1
  }

  lemma InsideIsWithin(items: seq<Item>, c: Compaction, x: Item)
    requires x in items
    ensures x.seqNo in InsideSet(Ordered(items), c) <==> InRange(items, c, x)
  {
    hide Snap;
    var ordered := Ordered(items);
    SameElements(items, ordered);
    InsideMembers(ordered, Snapped(c, ordered), x.seqNo);
  }

  /**
   * Having no turn keeps no entry out: any entry is covered exactly when its sequence number falls in the snapped range
   * of a shown compaction.
   */
  lemma CoveredExactly(items: seq<Item>, compactions: seq<Compaction>, count: Counter)
    ensures forall x | x in items ::
              x.seqNo in ProjectOf(items, compactions, count).covered <==> InShownRange(items, compactions, x)
  {
    hide ProjectOf, Ordered, Shown, InsideSet, InRange, Verbatim;
    EveryEntryReadOnce(items, compactions, count);
    forall x | x in items
      ensures x.seqNo in ProjectOf(items, compactions, count).covered <==> InShownRange(items, compactions, x)
    {
      forall c ensures x.seqNo in InsideSet(Ordered(items), c) <==> InRange(items, c, x) {
        InsideIsWithin(items, c, x);
      }
    }
  }

  /** A request for one entry's own sequence number is shown, and covers it. */
  lemma AskedForIsCovered(items: seq<Item>, x: Item, count: Counter)
    requires x in items
    ensures x.seqNo in ProjectOf(items, [Compaction(0, "", x.seqNo, x.seqNo, true)], count).covered
  {
    var c := Compaction(0, "", x.seqNo, x.seqNo, true);
    SnapBounds(Ordered(items), (x.seqNo, x.seqNo));
    InsideIsWithin(items, c, x);
    hide ProjectOf, Ordered, Shown, InsideSet, Snap, InShownRange;
    assert x.seqNo in InsideSet(Ordered(items), c);
    NoneNewer(items, c);
    ShownByNewest(items, [c], c);
    CoveredExactly(items, [c], count);
    assert InShownRange(items, [c], x) by { ShownHolds(items, [c], c, x); }
  }

  lemma ShownHolds(items: seq<Item>, compactions: seq<Compaction>, c: Compaction, x: Item)
    requires c in Shown(items, compactions) && InRange(items, c, x)
    ensures InShownRange(items, compactions, x)
  {
    hide Shown, InRange;
  }

  /**
   * Entries with no turn are never inside a compacted range, whatever is compacted, exactly when the transcript has
   * none: each is covered by a request for itself.
   */
  lemma TurnlessKeptOutExactly(items: seq<Item>, count: Counter)
    ensures (forall compactions, x | x in items && x.turn.None? ::
               x.seqNo !in ProjectOf(items, compactions, count).covered)
            <==> forall x | x in items :: x.turn.Some?
  {
    hide ProjectOf;
    if x :| x in items && x.turn.None? {
      AskedForIsCovered(items, x, count);
    }
  }

  /**
   * A note with no turn between the two entries of a turn: a request for the first of them summarises the note away.
   */
  lemma TurnlessEntryIsCovered(count: Counter)
    ensures var one := Item("a", 1, "user", "?", Some("t"), "message", None);
            var two := Item("b", 2, "system", "!", None, "note", None);
            var three := Item("c", 3, "assistant", "1", Some("t"), "message", None);
            2 in ProjectOf([one, two, three], [Compaction(1, "s", 1, 1, true)], count).covered
  {
    var one := Item("a", 1, "user", "?", Some("t"), "message", None);
    var two := Item("b", 2, "system", "!", None, "note", None);
    var three := Item("c", 3, "assistant", "1", Some("t"), "message", None);
    var items, c := [one, two, three], Compaction(1, "s", 1, 1, true);
    SortOfSorted(items, PositionBefore);
    TurnlessSnap(one, two, three);
    assert Filter(Active, [c]) == [c];
    SortOfOne(c);
    OneCompactionCovers(items, c, two, count);
  }

  lemma OneCompactionCovers(items: seq<Item>, c: Compaction, two: Item, count: Counter)
    requires Ordered(items) == items && NewestFirst([c]) == [c] && Snapped(c, items) == (1, 3)
    requires two in items && two.seqNo == 2
    ensures 2 in ProjectOf(items, [c], count).covered
  {
    hide Snapped, ProjectOf, Ordered, NewestFirst, Shown, InShownRange, InRange;
    InsideMembers(items, (1, 3), 2);
    assert two.seqNo in Inside(items, (1, 3));
    assert 2 in InsideSet(items, c);
    InsideIsWithin(items, c, two);
    assert InsideSet(items, c) != {};
    assert !Superseded(items, [c], c) by { NoneNewer(items, c); }
    ListedActive([c], 0);
    ShownByNewest(items, [c], c);
    CoveredExactly(items, [c], count);
    assert InShownRange(items, [c], two) by { ShownHolds(items, [c], c, two); }
  }

  lemma NoneNewer(items: seq<Item>, c: Compaction)
    ensures !Superseded(items, [c], c)
  {
    hide NewestFirst, Ordered, Shown, InsideSet;
    forall d | d in Shown(items, [c]) ensures d == c {
      var j := ShownIsListed(items, [c], d);
      ListedIn([c], j);
    }
  }

  lemma ListedIn(compactions: seq<Compaction>, j: nat)
    requires j < |NewestFirst(compactions)|
    ensures NewestFirst(compactions)[j] in compactions
  {
    FilterMembers(Active, compactions);
    SameElements(Filter(Active, compactions), NewestFirst(compactions));
    assert NewestFirst(compactions)[j] in NewestFirst(compactions);
  }

  lemma TurnlessSnap(one: Item, two: Item, three: Item)
    requires one.seqNo == 1 && two.seqNo == 2 && three.seqNo == 3
    requires one.turn == three.turn == Some("t") && two.turn == None
    ensures Snap([one, two, three], (1, 1)) == (1, 3)
  {
    var items := [one, two, three];
    assert one in items && three in items;
    SnapOfOne(items, one);
    SnapBounds(items, (1, 1));
    assert Touched(items, (1, 1)) == {"t"};
    assert OfTurns(one, {"t"}) && OfTurns(three, {"t"}) && !OfTurns(two, {"t"});
    hide Snap;
    var r := Snap(items, (1, 1));
    assert Within(three, r);
  }
}
