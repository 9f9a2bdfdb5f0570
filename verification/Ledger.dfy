/** What an allocation reports of itself: the order things were given up in, what was refused, and what was spent. */
module Ledger {
  import opened Sorting
  import opened Text
  import opened Bands
  import opened BandsProofs
  import opened Accounting
  import opened Isolation

  // ------------------------------------------------------------ the order of giving up

  /** The first difference decides, and a text comes before every longer one it begins. */
  predicate ComesBefore(a: string, b: string, k: nat) {
    k <= |a| && k < |b| && a[..k] == b[..k] && (k == |a| || a[k] < b[k])
  }

  lemma {:induction false} LessExactly(a: string, b: string)
    ensures Less(a, b) <==> exists k: nat :: ComesBefore(a, b, k)
    decreases |a|
  {
    if Less(a, b) {
      var k := FirstDifference(a, b);
    }
    if k: nat :| ComesBefore(a, b, k) { DifferenceDecides(a, b, k); }
  }

  lemma {:induction false} FirstDifference(a: string, b: string) returns (k: nat)
    requires Less(a, b)
    ensures ComesBefore(a, b, k)
    decreases |a|
  {
    k := 0;
    if a != "" && a[0] == b[0] {
      k := FirstDifference(a[1..], b[1..]);
      assert a[..k + 1] == [a[0]] + a[1..][..k] && b[..k + 1] == [b[0]] + b[1..][..k];
      k := k + 1;
    }
  }

  lemma {:induction false} DifferenceDecides(a: string, b: string, k: nat)
    requires ComesBefore(a, b, k)
    ensures Less(a, b)
    decreases k
  {
    if k > 0 {
      assert a[0] == a[..k][0] && b[0] == b[..k][0];
      assert a[1..][..k - 1] == a[..k][1..] && b[1..][..k - 1] == b[..k][1..];
      DifferenceDecides(a[1..], b[1..], k - 1);
    }
  }

  /** Sections are given up by falling priority, then by id, then as they came. */
  lemma GivesUpInOrder(entries: seq<Entry>, i: nat, j: nat)
    requires i < j < |entries|
    ensures |Ranked(entries)| == |entries|
    ensures var a, b := Ranked(entries)[i], Ranked(entries)[j];
            || a.section.priority > b.section.priority
            || (a.section.priority == b.section.priority
                && ((exists k: nat :: ComesBefore(a.section.id, b.section.id, k))
                    || (a.section.id == b.section.id && a.order <= b.order)))
  {
    hide Less, ComesBefore;
    SameLength(entries, Ranked(entries));
    GivenUpBeforeStrict();
    SortSorted(entries, GivenUpBefore);
    var a, b := Ranked(entries)[i], Ranked(entries)[j];
    assert !GivenUpBefore(b, a);
    LessTotal(a.section.id, b.section.id);
    LessExactly(a.section.id, b.section.id);
  }

  // ------------------------------------------------------------ what is refused

  predicate Placeable(word: string) { word == "system" || word == "pinned" || word == "history" || word == "tools" }

  /** One section stands in the way: in the reserve, or in a band that does not exist. */
  predicate Blames(s: Section<string>, why: Refusal) {
    && !Placeable(s.band)
    && why == if s.band == "reserve" then InReserve(s.id) else UnknownBand(s.id, s.band)
  }

  lemma CheckedExactly(s: Section<string>)
    ensures if Placeable(s.band) then Checked(s).Ok? && BandWord(Checked(s).value.band) == s.band
            else Checked(s).Err? && Blames(s, Checked(s).error)
    ensures Checked(s).Ok? ==>
              Checked(s).value == Section(s.id, Checked(s).value.band, s.body, s.tokens, s.priority, s.floorTokens,
                                          s.title, s.truncated, s.notice)
  {
    assert "system" != "reserve" && "pinned" != "reserve" && "history" != "reserve" && "tools" != "reserve";
  }

  /** The first section in the way is the one named, and nothing is refused but for such a section. */
  lemma {:induction false} RefusedExactly(sections: seq<Section<string>>, budget: Budget, count: Counter)
    ensures var r := AllocateOf(sections, budget, count);
            && (r.Ok? <==> forall s | s in sections :: Placeable(s.band))
            && (r.Err? ==> exists k | 0 <= k < |sections| ::
                  Blames(sections[k], r.error) && forall i | 0 <= i < k :: Placeable(sections[i].band))
  {
    hide Checked, AssembledOf, Placeable, Blames;
    CheckedInTurn(sections);
  }

  lemma {:induction false} CheckedInTurn(sections: seq<Section<string>>)
    ensures var r := CheckAll(sections);
            && (r.Ok? <==> forall s | s in sections :: Placeable(s.band))
            && (r.Err? ==> exists k | 0 <= k < |sections| ::
                  Blames(sections[k], r.error) && forall i | 0 <= i < k :: Placeable(sections[i].band))
  {
    hide Checked, Placeable, Blames;
    if sections != [] {
      CheckedExactly(sections[0]);
      CheckedInTurn(sections[1..]);
      NotBoth(sections[0]);
      if Checked(sections[0]).Ok? && CheckAll(sections).Err? {
        var why := CheckAll(sections).error;
        var k :| 0 <= k < |sections[1..]| && Blames(sections[1..][k], why)
                 && forall i | 0 <= i < k :: Placeable(sections[1..][i].band);
        forall i | 0 <= i < k + 1 ensures Placeable(sections[i].band) {
          if i > 0 { assert sections[i] == sections[1..][i - 1]; }
        }
        assert Blames(sections[k + 1], why);
      }
      assert sections == [sections[0]] + sections[1..];
    }
  }

  lemma NotBoth(s: Section<string>)
    ensures forall why :: Blames(s, why) ==> !Placeable(s.band)
  {
  }

  // ------------------------------------------------------------ what is spent

  function TokensOf(sections: seq<Placed>): int {
    if sections == [] then 0 else sections[0].tokens + TokensOf(sections[1..])
  }

  lemma {:induction false} RecountedTokens(entries: seq<Entry>)
    ensures TokensOf(Map(Recounted, entries)) == Total(entries)
  {
    if entries != [] {
      RecountedTokens(entries[1..]);
      assert Map(Recounted, entries)[1..] == Map(Recounted, entries[1..]);
    }
  }

  /** A band's figure is what its sections in the prompt add up to, and the total is the four of them. */
  lemma TotalsExactly(checked: seq<Placed>, budget: Budget, count: Counter)
    requires Writable(checked)
    ensures var a := AssembledOf(checked, budget, count);
            && a.byBand.Keys == {System, Pinned, History, Tools}
            && (forall band | band in a.byBand :: a.byBand[band] == TokensOf(Only(a.sections, band)))
            && a.total == a.byBand[System] + a.byBand[Pinned] + a.byBand[History] + a.byBand[Tools]
  {
    hide FitBand, SurvivorsOf, NoticesOf, SpentOn, Sort, Map, NumberFrom, TokensOf, Only;
    var a, entries := AssembledOf(checked, budget, count), NumberFrom(checked, 0, count);
    BandsUnfolded(entries, budget, count);
    forall band | band in WRITABLE_BANDS ensures a.byBand[band] == TokensOf(Only(a.sections, band)) {
      BandSpent(checked, band, budget, count);
    }
  }

  lemma BandSpent(checked: seq<Placed>, band: Band, budget: Budget, count: Counter)
    requires Writable(checked) && band in WRITABLE_BANDS
    ensures FitBand(NumberFrom(checked, 0, count), band, budget, count).total
            == TokensOf(Only(AssembledOf(checked, budget, count).sections, band))
  {
    hide SurvivorsOf, NoticesOf, SpentOn, InBand, Ceiling, OutcomesOf;
    var entries := NumberFrom(checked, 0, count);
    var sorted := Sort(SurvivorsOf(entries, WRITABLE_BANDS, budget, count), ByOrder);
    BandSlice(checked, band, budget, count);
    FilterMap(SectionIn(band), IsIn(band), Recounted, sorted);
    RecountedTokens(FitBand(entries, band, budget, count).survivors);
  }
}
