/** The benchmark workouts (Mettle/Models/WorkoutType.swift): a `String`
    raw-value enum whose `description` is written out as a second switch. */
module WorkoutTypes {
  import opened Wrappers

  datatype WorkoutType =
    | Bradley | Dt | Glen | Holbrook | Klepto | Loredo | Manion
    | Michael | Murph | Nate | Randy | Small | TheSeven | TommyV
    | Whitten | Annie | Cindy | Diane | Elizabeth | Eva | Fran
    | Grace | Helen | Isabel | Jackie | Karen | Kelly | Nancy

  /** `WorkoutType.allCases`: every case, in declaration order. */
  const AllCases: seq<WorkoutType> := [
    Bradley, Dt, Glen, Holbrook, Klepto, Loredo, Manion,
    Michael, Murph, Nate, Randy, Small, TheSeven, TommyV,
    Whitten, Annie, Cindy, Diane, Elizabeth, Eva, Fran,
    Grace, Helen, Isabel, Jackie, Karen, Kelly, Nancy
  ]

  /** Position of a case in the declaration. */
  function Ordinal(w: WorkoutType): (i: nat)
    ensures i < |AllCases| && AllCases[i] == w
  {
    match w
    case Bradley => 0
    case Dt => 1
    case Glen => 2
    case Holbrook => 3
    case Klepto => 4
    case Loredo => 5
    case Manion => 6
    case Michael => 7
    case Murph => 8
    case Nate => 9
    case Randy => 10
    case Small => 11
    case TheSeven => 12
    case TommyV => 13
    case Whitten => 14
    case Annie => 15
    case Cindy => 16
    case Diane => 17
    case Elizabeth => 18
    case Eva => 19
    case Fran => 20
    case Grace => 21
    case Helen => 22
    case Isabel => 23
    case Jackie => 24
    case Karen => 25
    case Kelly => 26
    case Nancy => 27
  }

  /** `allCases` has 28 entries and lists every case exactly once. */
  lemma AllCasesListsEachOnce()
    ensures |AllCases| == 28
    ensures forall w: WorkoutType :: w in AllCases
    ensures forall i, j :: 0 <= i < j < |AllCases| ==> AllCases[i] != AllCases[j]
  {
    forall w: WorkoutType ensures w in AllCases {
      assert AllCases[Ordinal(w)] == w;
    }
    assert forall i :: 0 <= i < |AllCases| ==> Ordinal(AllCases[i]) == i;
  }

  /** The declared raw value of each case. */
  function RawValue(w: WorkoutType): string
  {
    match w
    case Bradley => "Bradley"
    case Dt => "DT"
    case Glen => "Glen"
    case Holbrook => "Holbrook"
    case Klepto => "Klepto"
    case Loredo => "Loredo"
    case Manion => "Manion"
    case Michael => "Michael"
    case Murph => "Murph"
    case Nate => "Nate"
    case Randy => "Randy"
    case Small => "Small"
    case TheSeven => "The Seven"
    case TommyV => "Tommy V"
    case Whitten => "Whitten"
    case Annie => "Annie"
    case Cindy => "Cindy"
    case Diane => "Diane"
    case Elizabeth => "Elizabeth"
    case Eva => "Eva"
    case Fran => "Fran"
    case Grace => "Grace"
    case Helen => "Helen"
    case Isabel => "Isabel"
    case Jackie => "Jackie"
    case Karen => "Karen"
    case Kelly => "Kelly"
    case Nancy => "Nancy"
  }

  /** The display name; the source spells every one out again, and each equals the raw value. */
  function Description(w: WorkoutType): (s: string)
    ensures s == RawValue(w)
  {
    match w
    case Bradley => "Bradley"
    case Dt => "DT"
    case Glen => "Glen"
    case Holbrook => "Holbrook"
    case Klepto => "Klepto"
    case Loredo => "Loredo"
    case Manion => "Manion"
    case Michael => "Michael"
    case Murph => "Murph"
    case Nate => "Nate"
    case Randy => "Randy"
    case Small => "Small"
    case TheSeven => "The Seven"
    case TommyV => "Tommy V"
    case Whitten => "Whitten"
    case Annie => "Annie"
    case Cindy => "Cindy"
    case Diane => "Diane"
    case Elizabeth => "Elizabeth"
    case Eva => "Eva"
    case Fran => "Fran"
    case Grace => "Grace"
    case Helen => "Helen"
    case Isabel => "Isabel"
    case Jackie => "Jackie"
    case Karen => "Karen"
    case Kelly => "Kelly"
    case Nancy => "Nancy"
  }

  /** The first of `cases` whose raw value is `s`, if any. */
  function Lookup(s: string, cases: seq<WorkoutType>): (r: Option<WorkoutType>)
    ensures r.Some? ==> r.value in cases && RawValue(r.value) == s
  {
    if cases == [] then None
    else if RawValue(cases[0]) == s then Some(cases[0])
    else Lookup(s, cases[1..])
  }

  /** `WorkoutType(rawValue:)`: the case with that raw value, nil for any other
      string. The comparison is dispatched on the first character and then
      made against the few cases starting with it; that is only a cheaper way
      of writing the same string switch. */
  function FromRawValue(s: string): (r: Option<WorkoutType>)
    ensures r.Some? ==> RawValue(r.value) == s
  {
    if s == [] then None
    else match s[0]
    case 'A' => Lookup(s, [Annie])
    case 'B' => Lookup(s, [Bradley])
    case 'C' => Lookup(s, [Cindy])
    case 'D' => Lookup(s, [Dt, Diane])
    case 'E' => Lookup(s, [Elizabeth, Eva])
    case 'F' => Lookup(s, [Fran])
    case 'G' => Lookup(s, [Glen, Grace])
    case 'H' => Lookup(s, [Holbrook, Helen])
    case 'I' => Lookup(s, [Isabel])
    case 'J' => Lookup(s, [Jackie])
    case 'K' => Lookup(s, [Klepto, Karen, Kelly])
    case 'L' => Lookup(s, [Loredo])
    case 'M' => Lookup(s, [Manion, Michael, Murph])
    case 'N' => Lookup(s, [Nate, Nancy])
    case 'R' => Lookup(s, [Randy])
    case 'S' => Lookup(s, [Small])
    case 'T' => Lookup(s, [TheSeven, TommyV])
    case 'W' => Lookup(s, [Whitten])
    case _ => None
  }

  /** Decoding a raw value gives back the case it came from. */
  lemma RawValueRoundTrip(w: WorkoutType)
    ensures FromRawValue(RawValue(w)) == Some(w)
  {
    if w in {Diane, Eva, Grace, Helen} {
      SecondOfTwoRoundTrip(w);
    } else if w in {Karen, Kelly, Nancy} {
      BehindKOrNRoundTrip(w);
    } else if w in {Michael, Murph, TommyV} {
      BehindMOrTRoundTrip(w);
    } else {
      FirstWithInitialRoundTrip(w);
    }
  }

  /* The round trip is proved in groups, so that each proof unfolds the
     decoder for a few cases only. The cases below are found behind an
     earlier case with the same initial. */
  lemma SecondOfTwoRoundTrip(w: WorkoutType)
    requires w in {Diane, Eva, Grace, Helen}
    ensures FromRawValue(RawValue(w)) == Some(w)
  {
    match w
    case Diane =>
      assert RawValue(Dt) != "Diane";
      assert Lookup("Diane", [Diane]) == Some(Diane);
    case Eva =>
      assert RawValue(Elizabeth) != "Eva";
      assert Lookup("Eva", [Eva]) == Some(Eva);
    case Grace =>
      assert RawValue(Glen) != "Grace";
      assert Lookup("Grace", [Grace]) == Some(Grace);
    case Helen =>
      assert RawValue(Holbrook) != "Helen";
      assert Lookup("Helen", [Helen]) == Some(Helen);
  }

  lemma BehindKOrNRoundTrip(w: WorkoutType)
    requires w in {Karen, Kelly, Nancy}
    ensures FromRawValue(RawValue(w)) == Some(w)
  {
    match w
    case Karen =>
      assert RawValue(Klepto) != "Karen";
      assert Lookup("Karen", [Karen, Kelly]) == Some(Karen);
    case Kelly =>
      assert RawValue(Klepto) != "Kelly" && RawValue(Karen) != "Kelly";
      assert Lookup("Kelly", [Kelly]) == Some(Kelly);
    case Nancy =>
      assert RawValue(Nate) != "Nancy";
      assert Lookup("Nancy", [Nancy]) == Some(Nancy);
  }

  lemma BehindMOrTRoundTrip(w: WorkoutType)
    requires w in {Michael, Murph, TommyV}
    ensures FromRawValue(RawValue(w)) == Some(w)
  {
    match w
    case Michael =>
      assert RawValue(Manion) != "Michael";
      assert Lookup("Michael", [Michael, Murph]) == Some(Michael);
    case Murph =>
      assert RawValue(Manion) != "Murph" && RawValue(Michael) != "Murph";
      assert Lookup("Murph", [Murph]) == Some(Murph);
    case TommyV =>
      assert RawValue(TheSeven) != "Tommy V";
      assert Lookup("Tommy V", [TommyV]) == Some(TommyV);
  }

  /** The cases that come first among those with their initial. */
  lemma FirstWithInitialRoundTrip(w: WorkoutType)
    requires w !in {Diane, Eva, Grace, Helen, Karen, Kelly, Nancy, Michael, Murph, TommyV}
    ensures FromRawValue(RawValue(w)) == Some(w)
  {
  }

  /** A string that is not a raw value decodes to nil, and only such a string does. */
  lemma FromRawValueNil(s: string)
    ensures FromRawValue(s).None? <==> forall w: WorkoutType :: RawValue(w) != s
  {
    forall w: WorkoutType | RawValue(w) == s ensures FromRawValue(s) == Some(w) {
      RawValueRoundTrip(w);
    }
  }

  /** Raw values are pairwise distinct. */
  lemma RawValueInjective(a: WorkoutType, b: WorkoutType)
    requires RawValue(a) == RawValue(b)
    ensures a == b
  {
    RawValueRoundTrip(a);
    RawValueRoundTrip(b);
  }
}
