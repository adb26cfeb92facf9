/** Mettle/LiftTileView.swift: the tile for one lift type, its header text
    and the date range of its chart. */
module LiftTile {
  import opened Wrappers
  import opened LiftEntries
  import Utilities

  /** A `ClosedRange<Date>`. */
  datatype DateRange = DateRange(lower: Date, upper: Date)

  /** What the model needs of `Calendar.date(byAdding: .month, ...)`:
      shifting back six months never moves a date later, and shifting
      forward six months never moves it earlier. */
  ghost predicate SixMonthsAreOrdered(addMonths: (Date, int) -> Date)
  {
    forall d: Date :: addMonths(d, -6) <= d <= addMonths(d, 6)
  }

  /** `lifts.min(by: { $0.date < $1.date })?.date`. */
  function MinDate(lifts: seq<LiftEntry>): (m: Date)
    requires |lifts| > 0
    ensures forall i :: 0 <= i < |lifts| ==> m <= lifts[i].date
    ensures exists i :: 0 <= i < |lifts| && lifts[i].date == m
  {
    if |lifts| == 1 then lifts[0].date
    else
      var rest := MinDate(lifts[1..]);
      assert exists i :: 0 <= i < |lifts| && lifts[i].date == rest by {
        var i :| 0 <= i < |lifts[1..]| && lifts[1..][i].date == rest;
        assert lifts[i + 1].date == rest;
      }
      if lifts[0].date < rest then lifts[0].date else rest
  }

  /** `lifts.max(by: { $0.date < $1.date })?.date`. */
  function MaxDate(lifts: seq<LiftEntry>): (m: Date)
    requires |lifts| > 0
    ensures forall i :: 0 <= i < |lifts| ==> lifts[i].date <= m
    ensures exists i :: 0 <= i < |lifts| && lifts[i].date == m
  {
    if |lifts| == 1 then lifts[0].date
    else
      var rest := MaxDate(lifts[1..]);
      assert exists i :: 0 <= i < |lifts| && lifts[i].date == rest by {
        var i :| 0 <= i < |lifts[1..]| && lifts[1..][i].date == rest;
        assert lifts[i + 1].date == rest;
      }
      if rest < lifts[0].date then lifts[0].date else rest
  }

  /** `getChartDomain(for:)`. One lift: six months either side of its date.
      Several: from the earliest to the latest date, both of which are lift
      dates. None: six months either side of `now`. */
  function ChartDomain(lifts: seq<LiftEntry>, now: Date, addMonths: (Date, int) -> Date): (r: DateRange)
    ensures |lifts| == 1 ==> r == DateRange(addMonths(lifts[0].date, -6), addMonths(lifts[0].date, 6))
    ensures |lifts| >= 2 ==>
      && (forall i :: 0 <= i < |lifts| ==> r.lower <= lifts[i].date <= r.upper)
      && (exists i :: 0 <= i < |lifts| && lifts[i].date == r.lower)
      && (exists i :: 0 <= i < |lifts| && lifts[i].date == r.upper)
    ensures |lifts| == 0 ==> r == DateRange(addMonths(now, -6), addMonths(now, 6))
  {
    if |lifts| == 1 then
      DateRange(addMonths(lifts[0].date, -6), addMonths(lifts[0].date, 6))
    else if |lifts| > 0 then
      DateRange(MinDate(lifts), MaxDate(lifts))
    else
      DateRange(addMonths(now, -6), addMonths(now, 6))
  }

  /** The domain is a well-formed range holding every lift's date. */
  lemma ChartDomainCovers(lifts: seq<LiftEntry>, now: Date, addMonths: (Date, int) -> Date)
    requires SixMonthsAreOrdered(addMonths)
    ensures var r := ChartDomain(lifts, now, addMonths);
            r.lower <= r.upper && forall i :: 0 <= i < |lifts| ==> r.lower <= lifts[i].date <= r.upper
  {
    var r := ChartDomain(lifts, now, addMonths);
    if |lifts| == 1 {
      assert addMonths(lifts[0].date, -6) <= lifts[0].date <= addMonths(lifts[0].date, 6);
    } else if |lifts| == 0 {
      assert addMonths(now, -6) <= now <= addMonths(now, 6);
    } else {
      assert r.lower <= lifts[0].date <= r.upper;
    }
  }

  predicate EndsWith(s: string, suffix: string)
  {
    |suffix| <= |s| && s[|s| - |suffix|..] == suffix
  }

  /** The header: the best lift's weight, converted when kilograms are
      displayed, formatted by `formatted` and followed by the unit, or the
      fixed "0 lbs." when there is no best lift. */
  function HeaderText(maxWeightLift: Option<LiftEntry>, displayInKilograms: bool, formatted: Weight -> string): (s: string)
    ensures maxWeightLift.None? ==> s == "0 lbs."
    ensures maxWeightLift.Some? ==>
      var w := maxWeightLift.value.weight;
      var digits := formatted(if displayInKilograms then Utilities.PoundsToKilograms(w) else w);
      var unit := if displayInKilograms then " kg" else " lbs";
      |s| == |digits| + |unit| && s[..|digits|] == digits && EndsWith(s, unit)
  {
    match maxWeightLift
    case None => "0 lbs."
    case Some(lift) =>
      var weight := if displayInKilograms then Utilities.PoundsToKilograms(lift.weight) else lift.weight;
      formatted(weight) + (if displayInKilograms then " kg" else " lbs")
  }

  /** With a best lift, the header ends in " kg" exactly when kilograms
      are displayed, and in " lbs" exactly when they are not. */
  lemma HeaderUnit(maxWeightLift: Option<LiftEntry>, displayInKilograms: bool, formatted: Weight -> string)
    requires maxWeightLift.Some?
    ensures var s := HeaderText(maxWeightLift, displayInKilograms, formatted);
            (EndsWith(s, " kg") <==> displayInKilograms) && (EndsWith(s, " lbs") <==> !displayInKilograms)
  {
    var s := HeaderText(maxWeightLift, displayInKilograms, formatted);
    var w := maxWeightLift.value.weight;
    var digits := formatted(if displayInKilograms then Utilities.PoundsToKilograms(w) else w);
    if displayInKilograms {
      assert s[|s| - 3..] == " kg";
      assert s[|s| - 1] == 'g';
    } else {
      assert s[|s| - 4..] == " lbs";
      assert s[|s| - 1] == 's';
    }
    assert EndsWith(s, " kg") ==> s[|s| - 1] == 'g';
    assert EndsWith(s, " lbs") ==> s[|s| - 1] == 's';
  }

  /** Without a best lift the header names pounds even when kilograms are
      displayed. */
  lemma HeaderFallback(displayInKilograms: bool, formatted: Weight -> string)
    ensures !EndsWith(HeaderText(None, displayInKilograms, formatted), " kg")
  {
    var s := HeaderText(None, displayInKilograms, formatted);
    assert s[|s| - 1] == '.';
  }
}
