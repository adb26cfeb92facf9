/** The closed enumeration of lifts (Mettle/Models/LiftType.swift).

    The Swift enum declares no raw type, yet the record store and the home
    screen use `rawValue` and `LiftType(rawValue:)`. This model repairs that
    with the raw values Swift synthesises for `enum LiftType: String` when no
    explicit values are given: each case's own name. */
module LiftTypes {
  import opened Wrappers

  datatype LiftType =
    | BackSquat | FrontSquat | OverHeadSquat
    | SquatSnatch | PowerSnatch | HangPowerSnatch
    | SquatClean | PowerClean | HangPowerClean
    | StrictPress | PushPress | PushJerk | SplitJerk
    | Thruster | Deadlift | Bench

  /** `LiftType.allCases`: every case, in declaration order. */
  const AllCases: seq<LiftType> := [
    BackSquat, FrontSquat, OverHeadSquat,
    SquatSnatch, PowerSnatch, HangPowerSnatch,
    SquatClean, PowerClean, HangPowerClean,
    StrictPress, PushPress, PushJerk, SplitJerk,
    Thruster, Deadlift, Bench
  ]

  /** Position of a case in the declaration. */
  function Ordinal(t: LiftType): (i: nat)
    ensures i < |AllCases| && AllCases[i] == t
  {
    match t
    case BackSquat => 0
    case FrontSquat => 1
    case OverHeadSquat => 2
    case SquatSnatch => 3
    case PowerSnatch => 4
    case HangPowerSnatch => 5
    case SquatClean => 6
    case PowerClean => 7
    case HangPowerClean => 8
    case StrictPress => 9
    case PushPress => 10
    case PushJerk => 11
    case SplitJerk => 12
    case Thruster => 13
    case Deadlift => 14
    case Bench => 15
  }

  /** `allCases` has 16 entries and lists every case exactly once. */
  lemma AllCasesListsEachOnce()
    ensures |AllCases| == 16
    ensures forall t: LiftType :: t in AllCases
    ensures forall i, j :: 0 <= i < j < |AllCases| ==> AllCases[i] != AllCases[j]
  {
    forall t: LiftType ensures t in AllCases {
      assert AllCases[Ordinal(t)] == t;
    }
    forall i, j | 0 <= i < j < |AllCases| ensures AllCases[i] != AllCases[j] {
      assert Ordinal(AllCases[i]) == i && Ordinal(AllCases[j]) == j;
    }
  }

  /** The display name of a lift. */
  function Description(t: LiftType): (s: string)
    ensures |s| > 0
  {
    match t
    case BackSquat => "Back Squat"
    case FrontSquat => "Front Squat"
    case OverHeadSquat => "Overhead Squat"
    case SquatSnatch => "Squat Snatch"
    case PowerSnatch => "Power Snatch"
    case HangPowerSnatch => "Hang Power Snatch"
    case SquatClean => "Squat Clean"
    case PowerClean => "Power Clean"
    case HangPowerClean => "Hang Power Clean"
    case StrictPress => "Strict Press"
    case PushPress => "Push Press"
    case PushJerk => "Push Jerk"
    case SplitJerk => "Split Jerk"
    case Thruster => "Thruster"
    case Deadlift => "Deadlift"
    case Bench => "Bench"
  }

  /** No two lifts share a display name. */
  lemma DescriptionInjective(a: LiftType, b: LiftType)
    requires Description(a) == Description(b)
    ensures a == b
  {
  }

  /** The storage identifier of a lift (assumed: the case name). */
  function RawValue(t: LiftType): string
  {
    match t
    case BackSquat => "backSquat"
    case FrontSquat => "frontSquat"
    case OverHeadSquat => "overHeadSquat"
    case SquatSnatch => "squatSnatch"
    case PowerSnatch => "powerSnatch"
    case HangPowerSnatch => "hangPowerSnatch"
    case SquatClean => "squatClean"
    case PowerClean => "powerClean"
    case HangPowerClean => "hangPowerClean"
    case StrictPress => "strictPress"
    case PushPress => "pushPress"
    case PushJerk => "pushJerk"
    case SplitJerk => "splitJerk"
    case Thruster => "thruster"
    case Deadlift => "deadlift"
    case Bench => "bench"
  }

  /** `LiftType(rawValue:)`: the case with that raw value, nil for any other string. */
  function FromRawValue(s: string): (r: Option<LiftType>)
    ensures r.Some? ==> RawValue(r.value) == s
  {
    if s == "backSquat" then Some(BackSquat)
    else if s == "frontSquat" then Some(FrontSquat)
    else if s == "overHeadSquat" then Some(OverHeadSquat)
    else if s == "squatSnatch" then Some(SquatSnatch)
    else if s == "powerSnatch" then Some(PowerSnatch)
    else if s == "hangPowerSnatch" then Some(HangPowerSnatch)
    else if s == "squatClean" then Some(SquatClean)
    else if s == "powerClean" then Some(PowerClean)
    else if s == "hangPowerClean" then Some(HangPowerClean)
    else if s == "strictPress" then Some(StrictPress)
    else if s == "pushPress" then Some(PushPress)
    else if s == "pushJerk" then Some(PushJerk)
    else if s == "splitJerk" then Some(SplitJerk)
    else if s == "thruster" then Some(Thruster)
    else if s == "deadlift" then Some(Deadlift)
    else if s == "bench" then Some(Bench)
    else None
  }

  /** Decoding a raw value gives back the lift it came from. */
  lemma RawValueRoundTrip(t: LiftType)
    ensures FromRawValue(RawValue(t)) == Some(t)
  {
  }

  /** A string that is not a raw value decodes to nil, and only such a string does. */
  lemma FromRawValueNil(s: string)
    ensures FromRawValue(s).None? <==> forall t: LiftType :: RawValue(t) != s
  {
    forall t: LiftType | RawValue(t) == s ensures FromRawValue(s) == Some(t) {
      RawValueRoundTrip(t);
    }
  }

  /** Raw values are pairwise distinct. */
  lemma RawValueInjective(a: LiftType, b: LiftType)
    requires RawValue(a) == RawValue(b)
    ensures a == b
  {
    RawValueRoundTrip(a);
    RawValueRoundTrip(b);
  }
}
