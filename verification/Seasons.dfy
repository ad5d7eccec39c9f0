/** Fitting the seasons of an import between the seasons already there.

    A date is a day number. The schema's rules are part of the model: a season ends after
    it starts, labels are unique, and seasons do not overlap. */
module Seasons {
  import opened Common

  datatype Label = Spanning(start: nat) | Other(text: string)

  datatype Season = Season(name: Label, start: int, end: int)

  datatype Failure = DatesNotOrdered | Overlap

  // -------------------------------------------------------------- the calendar

  predicate IsLeap(year: nat) {
    year % 4 == 0 && (year % 100 != 0 || year % 400 == 0)
  }

  function DaysIn(year: nat): int {
    if IsLeap(year) then 366 else 365
  }

  /** Days before 1 January, counted from year 0. */
  function Jan1(year: nat): int {
    if year == 0 then 0 else Jan1(year - 1) + DaysIn(year - 1)
  }

  function Jul1(year: nat): int { Jan1(year + 1) - 184 }
  function Aug15(year: nat): int { Jan1(year + 1) - 139 }
  function Jun30(year: nat): int { Jan1(year + 1) - 185 }

  /** Every fourth year has a day more, except three in four centuries. */
  lemma {:induction false} DaysBefore(year: nat)
    ensures Jan1(year) == 365 * year + (year + 3) / 4 - (year + 99) / 100 + (year + 399) / 400
  {
    if year > 0 {
      DaysBefore(year - 1);
      CountsOneMore(year - 1);
      CenturiesAreFourths(year - 1);
      FourthCenturiesAreCenturies(year - 1);
    }
  }

  /** Counting the multiples below a year, one year on. */
  lemma CountsOneMore(p: nat)
    ensures (p + 4) / 4 == (p + 3) / 4 + if p % 4 == 0 then 1 else 0
    ensures (p + 100) / 100 == (p + 99) / 100 + if p % 100 == 0 then 1 else 0
    ensures (p + 400) / 400 == (p + 399) / 400 + if p % 400 == 0 then 1 else 0
  {
    OneMoreFourth(p);
    OneMoreCentury(p);
    OneMoreFourthCentury(p);
  }

  lemma OneMoreFourth(p: nat)
    ensures (p + 4) / 4 == (p + 3) / 4 + if p % 4 == 0 then 1 else 0
  {}

  lemma OneMoreCentury(p: nat)
    ensures (p + 100) / 100 == (p + 99) / 100 + if p % 100 == 0 then 1 else 0
  {}

  lemma OneMoreFourthCentury(p: nat)
    ensures (p + 400) / 400 == (p + 399) / 400 + if p % 400 == 0 then 1 else 0
  {}

  lemma CenturiesAreFourths(p: nat)
    ensures p % 100 == 0 ==> p % 4 == 0
  {
    if p % 100 == 0 { Multiples(p, p / 100, 4, 25); }
  }

  lemma FourthCenturiesAreCenturies(p: nat)
    ensures p % 400 == 0 ==> p % 100 == 0
  {
    if p % 400 == 0 { Multiples(p, p / 400, 100, 4); }
  }

  lemma Multiples(p: nat, k: nat, d: nat, more: nat)
    requires (d == 4 && more == 25 && p == 100 * k) || (d == 100 && more == 4 && p == 400 * k)
    ensures p % d == 0
  {
    assert if d == 4 then p == 4 * (25 * k) else p == 100 * (4 * k);
  }

  /** 1 July, 15 August and 30 June, counted by the months before them. */
  lemma {:induction false} DaysOfTheYear(year: nat)
    ensures var feb := if IsLeap(year) then 29 else 28;
      && Jun30(year) == Jan1(year) + (31 + feb + 31 + 30 + 31 + 30) - 1
      && Jul1(year) == Jan1(year) + (31 + feb + 31 + 30 + 31 + 30)
      && Aug15(year) == Jan1(year) + (31 + feb + 31 + 30 + 31 + 30 + 31) + 14
  {}

  // ------------------------------------------------------------------ the table

  predicate Contains(s: Season, day: int) {
    s.start <= day <= s.end
  }

  predicate Overlaps(a: Season, b: Season) {
    a.start <= b.end && b.start <= a.end
  }

  ghost predicate Valid(seasons: seq<Season>) {
    && (forall i :: 0 <= i < |seasons| ==> seasons[i].start < seasons[i].end)
    && (forall i, j ::
         0 <= i < j < |seasons| ==> !Overlaps(seasons[i], seasons[j]) && seasons[i].name != seasons[j].name)
  }

  function SeasonOn(seasons: seq<Season>, day: int): (found: Option<Season>)
    ensures found.Some? ==> found.value in seasons && Contains(found.value, day)
    ensures found.None? ==> forall s :: s in seasons ==> !Contains(s, day)
  {
    if seasons == [] then None
    else if Contains(seasons[0], day) then Some(seasons[0])
    else SeasonOn(seasons[1..], day)
  }

  /** One round of the shrink loop: a season that ends inside the draft before mid August
      pushes its start, one that starts inside it after mid August pulls its end. */
  function Shrink(draft: (int, int), mid: int, s: Season): (int, int) {
    var start := if s.end >= draft.0 && s.end < mid then s.end + 1 else draft.0;
    var end := if s.start <= draft.1 && s.start > mid then s.start - 1 else draft.1;
    (start, end)
  }

  function ShrinkAll(draft: (int, int), mid: int, seasons: seq<Season>): (int, int) {
    if seasons == [] then draft
      else Shrink(ShrinkAll(draft, mid, seasons[..|seasons| - 1]), mid, seasons[|seasons| - 1])
  }

  function Draft(year: nat, seasons: seq<Season>): (int, int) {
    ShrinkAll((Jul1(year), Jun30(year + 1)), Aug15(year), seasons)
  }

  /** The insertion, with the schema's constraints in the order they are met: a taken
      label is skipped, unordered dates and overlaps are errors. */
  function Insert(seasons: seq<Season>, s: Season): Result<seq<Season>, Failure> {
    if s.end <= s.start then Err(DatesNotOrdered)
    else if exists i :: 0 <= i < |seasons| && seasons[i].name == s.name then Ok(seasons)
    else if exists i :: 0 <= i < |seasons| && Overlaps(seasons[i], s) then Err(Overlap)
    else Ok(seasons + [s])
  }

  function ImportYear(seasons: seq<Season>, year: nat): Result<seq<Season>, Failure> {
    if SeasonOn(seasons, Aug15(year)).Some? then Ok(seasons)
    else Insert(seasons, Season(Spanning(year), Draft(year, seasons).0, Draft(year, seasons).1))
  }

  function ImportYears(seasons: seq<Season>, first: nat, latest: nat): Result<seq<Season>, Failure>
    decreases latest - first
  {
    if first > latest then Ok(seasons)
    else match ImportYear(seasons, first)
      case Err(f) => Err(f)
      case Ok(next) => ImportYears(next, first + 1, latest)
  }

  /** The step as it runs; a failure leaves the table alone, since the whole import is
      one transaction. */
  class SeasonTable {
    var seasons: seq<Season>

    constructor (seasons: seq<Season>)
      ensures this.seasons == seasons
    {
      this.seasons := seasons;
    }

    /** July to June, shrunk to fit. */
    method FitBetweenNeighbours(year: nat) returns (start: int, end: int)
      ensures (start, end) == Draft(year, seasons)
    {
      start, end := Jul1(year), Jun30(year + 1);
      var draft, mid := (start, end), Aug15(year);
      var i := 0;
      while i < |seasons|
        invariant i <= |seasons|
        invariant (start, end) == ShrinkAll(draft, mid, seasons[..i])
      {
        var s := seasons[i];
        assert seasons[..i + 1][..i] == seasons[..i];
        if s.end >= start && s.end < mid {
          start := s.end + 1;
        }
        if s.start <= end && s.start > mid {
          end := s.start - 1;
        }
        i := i + 1;
      }
      assert seasons[..i] == seasons;
    }

    method ImportSeasons(firstSeason: nat, latestSeason: nat) returns (failure: Option<Failure>)
      modifies this
      ensures match ImportYears(old(seasons), firstSeason, latestSeason)
        case Ok(r) => failure == None && seasons == r
        case Err(f) => failure == Some(f) && seasons == old(seasons)
    {
      var before := seasons;
      ghost var whole := ImportYears(seasons, firstSeason, latestSeason);
      var year := firstSeason;
      while year <= latestSeason
        invariant firstSeason <= year
        invariant ImportYears(seasons, year, latestSeason) == whole
        decreases latestSeason - year
      {
        if SeasonOn(seasons, Aug15(year)).None? {
          var start, end := FitBetweenNeighbours(year);
          var r := Insert(seasons, Season(Spanning(year), start, end));
          if r.Err? {
            seasons := before;
            return Some(r.error);
          }
          seasons := r.value;
        }
        year := year + 1;
      }
      return None;
    }
  }

  // ------------------------------------------------------------- main results

  /** The closed form of the shrink loop: the tightest bounds the neighbours leave. */
  ghost predicate Fitted(draft: (int, int), mid: int, seasons: seq<Season>, r: (int, int)) {
    && draft.0 <= r.0 && r.1 <= draft.1
    && (forall s :: s in seasons && s.end < mid ==> s.end < r.0)
    && (forall s :: s in seasons && s.start > mid ==> r.1 < s.start)
    && (r.0 == draft.0 || exists s :: s in seasons && s.end < mid && r.0 == s.end + 1)
    && (r.1 == draft.1 || exists s :: s in seasons && s.start > mid && r.1 == s.start - 1)
  }

  lemma {:induction false} ShrinkFits(draft: (int, int), mid: int, seasons: seq<Season>)
    requires draft.0 <= mid <= draft.1
    ensures Fitted(draft, mid, seasons, ShrinkAll(draft, mid, seasons))
  {
    if seasons != [] {
      var init, last := seasons[..|seasons| - 1], seasons[|seasons| - 1];
      assert seasons == init + [last];
      ShrinkFits(draft, mid, init);
    }
  }

  /** The fitted bounds are determined by which seasons there are, so the loop's result
      does not depend on their order. */
  lemma ShrinkIgnoresOrder(draft: (int, int), mid: int, seasons: seq<Season>, seasons': seq<Season>)
    requires draft.0 <= mid <= draft.1
    requires forall s :: s in seasons <==> s in seasons'
    ensures ShrinkAll(draft, mid, seasons) == ShrinkAll(draft, mid, seasons')
  {
    ShrinkFits(draft, mid, seasons);
    ShrinkFits(draft, mid, seasons');
  }

  lemma DraftFits(year: nat, seasons: seq<Season>)
    requires Valid(seasons) && SeasonOn(seasons, Aug15(year)).None?
    ensures Draft(year, seasons).0 <= Aug15(year) <= Draft(year, seasons).1
    ensures forall i :: 0 <= i < |seasons| ==>
      seasons[i].end < Draft(year, seasons).0 || Draft(year, seasons).1 < seasons[i].start
  {
    ShrinkFits((Jul1(year), Jun30(year + 1)), Aug15(year), seasons);
  }

  /** One season ends on 14 August of the year and another begins on 16 August. */
  ghost predicate Blocked(seasons: seq<Season>, year: nat) {
    (exists s :: s in seasons && s.end == Aug15(year) - 1) && (exists s :: s in seasons && s.start == Aug15(year) + 1)
  }

  /** The draft is one day long, and the import fails on it, exactly in a blocked year. */
  lemma ImportYearFailsIff(seasons: seq<Season>, year: nat)
    requires Valid(seasons)
    ensures ImportYear(seasons, year).Err? <==> Blocked(seasons, year)
    ensures ImportYear(seasons, year).Err? ==> ImportYear(seasons, year).error == DatesNotOrdered
  {
    if SeasonOn(seasons, Aug15(year)).None? {
      DraftFits(year, seasons);
      ShrinkFits((Jul1(year), Jun30(year + 1)), Aug15(year), seasons);
    } else {
      var found := SeasonOn(seasons, Aug15(year)).value;
      OneSeasonPerDay(seasons, found, Aug15(year));
    }
  }

  lemma OneSeasonPerDay(seasons: seq<Season>, found: Season, day: int)
    requires Valid(seasons) && found in seasons && Contains(found, day)
    ensures forall s :: s in seasons && Contains(s, day) ==> s == found
  {}

  /** A year either has a season at mid August already, or gets a valid one around mid
      August, or its label was taken; nothing else changes and the table stays valid. */
  lemma ImportYearKeeps(seasons: seq<Season>, year: nat)
    requires Valid(seasons) && ImportYear(seasons, year).Ok?
    ensures var r := ImportYear(seasons, year).value;
      && Valid(r)
      && seasons <= r
      && |r| <= |seasons| + 1
      && (|r| == |seasons| + 1
          ==> r[|seasons|].start <= Aug15(year) <= r[|seasons|].end && r[|seasons|].name == Spanning(year))
      && (SeasonOn(r, Aug15(year)).Some? || exists s :: s in seasons && s.name == Spanning(year))
  {
    if SeasonOn(seasons, Aug15(year)).None? {
      DraftFits(year, seasons);
      var r := ImportYear(seasons, year).value;
      assert |r| == |seasons| + 1 ==> r[|seasons|] in r && Contains(r[|seasons|], Aug15(year));
    }
  }

  /** With nothing in the way, the season of a year runs from 1 July to 30 June of the next;
      a season already there by mid August is kept instead. */
  lemma {:induction false} UnhinderedYear(seasons: seq<Season>, year: nat)
    requires Valid(seasons)
    ensures (exists s :: s in seasons && s.start <= Aug15(year) <= s.end) ==> ImportYear(seasons, year) == Ok(seasons)
    ensures (forall s :: s in seasons ==> (s.end < Jul1(year) || Jun30(year + 1) < s.start) && s.name != Spanning(year))
      ==> ImportYear(seasons, year) == Ok(seasons + [Season(Spanning(year), Jul1(year), Jun30(year + 1))])
  {
    if SeasonOn(seasons, Aug15(year)).None? {
      ShrinkFits((Jul1(year), Jun30(year + 1)), Aug15(year), seasons);
    }
  }

  predicate Served(seasons: seq<Season>, year: nat) {
    SeasonOn(seasons, Aug15(year)).Some? || exists i :: 0 <= i < |seasons| && seasons[i].name == Spanning(year)
  }

  lemma ServedStays(seasons: seq<Season>, more: seq<Season>, year: nat)
    requires seasons <= more && Served(seasons, year)
    ensures Served(more, year)
  {
    assert forall s :: s in seasons ==> s in more;
    if !SeasonOn(seasons, Aug15(year)).Some? {
      var i :| 0 <= i < |seasons| && seasons[i].name == Spanning(year);
      assert more[i].name == Spanning(year);
    }
  }

  lemma {:induction false} ServedByThen(seasons: seq<Season>, year: nat)
    requires Valid(seasons) && ImportYear(seasons, year).Ok?
    ensures Served(ImportYear(seasons, year).value, year)
  {
    ImportYearKeeps(seasons, year);
    var r := ImportYear(seasons, year).value;
    if !SeasonOn(r, Aug15(year)).Some? {
      var s :| s in seasons && s.name == Spanning(year);
      assert s in r;
    }
  }

  // ------------------------------------------------------- over a range of years

  lemma {:induction false} YearsPass(a: nat, b: nat)
    requires a < b
    ensures Jan1(a) + 365 <= Jan1(b)
    decreases b
  {
    if a < b - 1 { YearsPass(a, b - 1); }
  }

  /** What a year adds lies between 1 July and 30 June of the next, around 15 August. */
  ghost predicate Around(s: Season, year: nat) {
    s.name == Spanning(year) && Jul1(year) <= s.start <= Aug15(year) <= s.end <= Jun30(year + 1)
  }

  lemma {:induction false} DraftLiesAround(seasons: seq<Season>, year: nat)
    requires Valid(seasons) && SeasonOn(seasons, Aug15(year)).None?
    ensures Around(Season(Spanning(year), Draft(year, seasons).0, Draft(year, seasons).1), year)
  {
    DraftFits(year, seasons);
    ShrinkFits((Jul1(year), Jun30(year + 1)), Aug15(year), seasons);
  }

  lemma {:induction false} AddedLiesAround(seasons: seq<Season>, year: nat)
    requires Valid(seasons) && ImportYear(seasons, year).Ok?
    ensures var next := ImportYear(seasons, year).value;
      Valid(next) && (next == seasons || exists s :: Around(s, year) && next == seasons + [s])
  {
    ImportYearKeeps(seasons, year);
    if SeasonOn(seasons, Aug15(year)).None? { DraftLiesAround(seasons, year); }
  }

  /** No such season ends on a 14 August or begins on a 16 August of any year. */
  lemma {:induction false} AroundBlocksNothing(s: Season, year: nat, other: nat)
    requires Around(s, year)
    ensures s.end != Aug15(other) - 1 && s.start != Aug15(other) + 1
  {
    if year < other {
      if year + 1 < other { YearsPass(year + 2, other + 1); }
    } else if other < year {
      YearsPass(other + 1, year + 1);
    }
  }

  lemma {:induction false} BlockedStays(seasons: seq<Season>, year: nat, other: nat)
    requires Valid(seasons) && ImportYear(seasons, year).Ok?
    ensures Blocked(ImportYear(seasons, year).value, other) <==> Blocked(seasons, other)
  {
    AddedLiesAround(seasons, year);
    var next := ImportYear(seasons, year).value;
    if next != seasons {
      var s :| Around(s, year) && next == seasons + [s];
      AroundBlocksNothing(s, year, other);
      assert forall x :: x in next <==> x in seasons || x == s;
    }
  }

  /** The same years are blocked in both tables. */
  ghost predicate BlockedAlike(a: seq<Season>, b: seq<Season>) {
    forall year: nat :: Blocked(a, year) <==> Blocked(b, year)
  }

  ghost predicate SomeBlocked(seasons: seq<Season>, first: nat, latest: nat) {
    exists year: nat :: first <= year <= latest && Blocked(seasons, year)
  }

  lemma {:induction false} SomeBlockedSplits(seasons: seq<Season>, next: seq<Season>, first: nat, latest: nat)
    requires first <= latest && BlockedAlike(seasons, next)
    ensures SomeBlocked(seasons, first, latest) <==> Blocked(seasons, first) || SomeBlocked(next, first + 1, latest)
  {
    if year: nat :| first <= year <= latest && Blocked(seasons, year) { assert Blocked(next, year); }
    if year: nat :| first + 1 <= year <= latest && Blocked(next, year) { assert Blocked(seasons, year); }
  }

  lemma {:induction false} OneYearBlocksAlike(seasons: seq<Season>, year: nat)
    requires Valid(seasons) && ImportYear(seasons, year).Ok?
    ensures BlockedAlike(seasons, ImportYear(seasons, year).value)
  {
    forall other: nat ensures Blocked(ImportYear(seasons, year).value, other) <==> Blocked(seasons, other) {
      BlockedStays(seasons, year, other);
    }
  }

  /** The import of a range fails exactly when some year of the range is blocked by seasons
      that were there before it started. */
  lemma {:induction false} ImportFailsIff(seasons: seq<Season>, first: nat, latest: nat)
    requires Valid(seasons)
    ensures ImportYears(seasons, first, latest).Err? <==> SomeBlocked(seasons, first, latest)
    decreases latest - first
  {
    if first <= latest {
      ImportYearFailsIff(seasons, first);
      if ImportYear(seasons, first).Ok? {
        var next := ImportYear(seasons, first).value;
        AddedLiesAround(seasons, first);
        OneYearBlocksAlike(seasons, first);
        SomeBlockedSplits(seasons, next, first, latest);
        ImportFailsIff(next, first + 1, latest);
      }
    }
  }

  /** Otherwise the table stays valid, and no year becomes blocked. */
  lemma {:induction false} ImportBlocksAlike(seasons: seq<Season>, first: nat, latest: nat)
    requires Valid(seasons) && ImportYears(seasons, first, latest).Ok?
    ensures Valid(ImportYears(seasons, first, latest).value)
      && BlockedAlike(seasons, ImportYears(seasons, first, latest).value)
    decreases latest - first
  {
    if first <= latest {
      AddedLiesAround(seasons, first);
      OneYearBlocksAlike(seasons, first);
      ImportBlocksAlike(ImportYear(seasons, first).value, first + 1, latest);
    }
  }

  /** It does happen: two seasons that leave one day free, in any year. */
  lemma {:induction false} OneFreeDayFails(year: nat)
    ensures var seasons := [Season(Other("a"), Aug15(year) - 30, Aug15(year) - 1),
        Season(Other("b"), Aug15(year) + 1, Aug15(year) + 30)];
      Valid(seasons) && ImportYears(seasons, year, year) == Err(DatesNotOrdered)
  {
    var seasons := [Season(Other("a"), Aug15(year) - 30, Aug15(year) - 1),
        Season(Other("b"), Aug15(year) + 1, Aug15(year) + 30)];
    assert seasons[0] in seasons && seasons[1] in seasons;
    ImportYearFailsIff(seasons, year);
  }

  /** The seasons past the first n lie around the mid August they are named for. */
  ghost predicate Fresh(r: seq<Season>, n: nat, first: nat, latest: nat) {
    forall i :: n <= i < |r|
      ==> r[i].name.Spanning? && first <= r[i].name.start <= latest && Around(r[i], r[i].name.start)
  }

  lemma {:induction false} FreshAfterOne(seasons: seq<Season>, next: seq<Season>, r: seq<Season>, first: nat,
        latest: nat)
    requires first <= latest && next <= r && Fresh(r, |next|, first + 1, latest)
    requires next == seasons || exists s :: Around(s, first) && next == seasons + [s]
    ensures seasons <= r && Fresh(r, |seasons|, first, latest)
  {
    if next != seasons {
      var s :| Around(s, first) && next == seasons + [s];
      assert r[|seasons|] == next[|seasons|] == s;
    }
  }

  lemma {:induction false} ImportOnlyAdds(seasons: seq<Season>, first: nat, latest: nat)
    requires Valid(seasons) && ImportYears(seasons, first, latest).Ok?
    ensures var r := ImportYears(seasons, first, latest).value; seasons <= r && Fresh(r, |seasons|, first, latest)
    decreases latest - first
  {
    if first <= latest {
      var next := ImportYear(seasons, first).value;
      AddedLiesAround(seasons, first);
      ImportOnlyAdds(next, first + 1, latest);
      FreshAfterOne(seasons, next, ImportYears(next, first + 1, latest).value, first, latest);
    }
  }

  lemma {:induction false} ImportServes(seasons: seq<Season>, first: nat, latest: nat, year: nat)
    requires Valid(seasons) && ImportYears(seasons, first, latest).Ok? && first <= year <= latest
    ensures Served(ImportYears(seasons, first, latest).value, year)
    decreases latest - first
  {
    var next := ImportYear(seasons, first).value;
    AddedLiesAround(seasons, first);
    if year == first {
      ServedByThen(seasons, first);
      ImportOnlyAdds(next, first + 1, latest);
      ServedStays(next, ImportYears(next, first + 1, latest).value, first);
    } else {
      ImportServes(next, first + 1, latest, year);
    }
  }

  /** Unless a year of the range is blocked, an import succeeds, only adds seasons, keeps
      them disjoint, puts each new one around its own mid August, and leaves no year of the
      range without a season there whose label was not taken by another season. */
  lemma {:induction false} ImportServesEveryYear(seasons: seq<Season>, first: nat, latest: nat)
    requires Valid(seasons) && forall year: nat :: first <= year <= latest ==> !Blocked(seasons, year)
    ensures ImportYears(seasons, first, latest).Ok?
    ensures var r := ImportYears(seasons, first, latest).value;
      && Valid(r) && seasons <= r
      && (forall year: nat :: first <= year <= latest ==> Served(r, year))
      && Fresh(r, |seasons|, first, latest)
  {
    ImportFailsIff(seasons, first, latest);
    ImportBlocksAlike(seasons, first, latest);
    ImportOnlyAdds(seasons, first, latest);
    forall year: nat | first <= year <= latest ensures Served(ImportYears(seasons, first, latest).value, year) {
      ImportServes(seasons, first, latest, year);
    }
  }

  lemma {:induction false} ServedAddsNothing(seasons: seq<Season>, first: nat, latest: nat)
    requires Valid(seasons)
    requires forall year: nat :: first <= year <= latest ==> Served(seasons, year) && !Blocked(seasons, year)
    ensures ImportYears(seasons, first, latest) == Ok(seasons)
    decreases latest - first
  {
    if first <= latest {
      assert Served(seasons, first);
      ImportYearFailsIff(seasons, first);
      ServedAddsNothing(seasons, first + 1, latest);
    }
  }

  /** Running the step again on what it left adds nothing and does not fail. */
  lemma {:induction false} SecondImportAddsNothing(seasons: seq<Season>, first: nat, latest: nat)
    requires Valid(seasons) && ImportYears(seasons, first, latest).Ok?
    ensures var r := ImportYears(seasons, first, latest); ImportYears(r.value, first, latest) == r
  {
    ImportFailsIff(seasons, first, latest);
    ImportBlocksAlike(seasons, first, latest);
    ImportServesEveryYear(seasons, first, latest);
    ServedAddsNothing(ImportYears(seasons, first, latest).value, first, latest);
  }
}
