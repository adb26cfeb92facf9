/** PercentageCalculatorView.swift: the percentage selector. Twelve preset
    buttons and a 0...100 slider drive `selectedPercentage`; the slider
    fires a haptic each time its integer value changes. */
module PercentageCalculator {

  /** `percentages`: the preset buttons. */
  const Percentages: seq<int> := [100, 95, 90, 85, 80, 75, 70, 65, 60, 55, 50, 45]

  /** The presets run from 100 down to 45 in steps of 5, so they are twelve
      distinct values, all within the slider's range. */
  lemma PresetsShape()
    ensures |Percentages| == 12
    ensures forall i :: 0 <= i < |Percentages| ==> Percentages[i] == 100 - 5 * i
    ensures forall i, j :: 0 <= i < j < |Percentages| ==> Percentages[i] > Percentages[j]
    ensures forall p :: p in Percentages ==> 0 <= p <= 100
  {
    assert forall i :: 0 <= i < |Percentages| ==> Percentages[i] == 100 - 5 * i;
  }

  /** `Int(newValue)`: the conversion truncates toward zero. */
  function Truncate(x: real): (n: int)
    ensures 0.0 <= x ==> 0 <= n && n as real <= x < n as real + 1.0
    ensures x < 0.0 ==> n <= 0 && n as real - 1.0 < x <= n as real
  {
    if x >= 0.0 then x.Floor else -((-x).Floor)
  }

  /** Converting the slider's own value back gives the same integer, so the
      getter and setter of the slider binding agree. */
  lemma TruncateInteger(n: int)
    ensures Truncate(n as real) == n
  {
  }

  /** The presets drawn highlighted when `selected` is the selection. */
  function Highlighted(selected: int): (r: seq<int>)
    ensures forall p :: p in r <==> p in Percentages && p == selected
  {
    Matching(Percentages, selected)
  }

  /** The elements of `s` equal to `selected`; one at most when `s` is
      strictly descending. */
  function Matching(s: seq<int>, selected: int): (r: seq<int>)
    ensures forall p :: p in r <==> p in s && p == selected
    ensures |r| <= |s|
    ensures (forall i, j :: 0 <= i < j < |s| ==> s[i] > s[j]) ==> |r| <= 1
  {
    if s == [] then []
    else
      var rest := Matching(s[1..], selected);
      assert (forall i, j :: 0 <= i < j < |s| ==> s[i] > s[j]) ==> (forall i, j :: 0 <= i < j < |s[1..]| ==> s[1..][i] > s[1..][j]);
      if s[0] == selected then
        assert (forall i, j :: 0 <= i < j < |s| ==> s[i] > s[j]) ==> rest == [] by {
          if (forall i, j :: 0 <= i < j < |s| ==> s[i] > s[j]) && rest != [] {
            assert rest[0] in s[1..];
          }
        }
        [s[0]] + rest
      else rest
  }

  /** At most one preset is highlighted, and one is exactly when the
      selection is a preset. */
  lemma AtMostOneHighlighted(selected: int)
    ensures |Highlighted(selected)| <= 1
    ensures |Highlighted(selected)| == 1 <==> selected in Percentages
  {
    PresetsShape();
    var r := Highlighted(selected);
    if selected in Percentages {
      assert selected in r;
    }
    if |r| == 1 {
      assert r[0] in r;
    }
  }

  /** The `@State` fields `selectedPercentage` and `lastHapticValue`. */
  class PercentageCalculatorState {
    var selectedPercentage: int
    var lastHapticValue: int

    /** Both values stay within the slider's range. */
    ghost predicate Valid()
      reads this
    {
      0 <= selectedPercentage <= 100 && 0 <= lastHapticValue <= 100
    }

    constructor ()
      ensures Valid() && selectedPercentage == 100 && lastHapticValue == 100
    {
      selectedPercentage, lastHapticValue := 100, 100;
    }

    /** The slider binding's getter. */
    function SliderValue(): (v: real)
      reads this
      ensures Truncate(v) == selectedPercentage
    {
      TruncateInteger(selectedPercentage);
      selectedPercentage as real
    }

    /** A preset button's action: select the preset and always fire a
        haptic; the slider's last haptic value is not touched. */
    method TapPreset(percentage: int) returns (haptic: bool)
      requires Valid() && percentage in Percentages
      modifies this
      ensures Valid()
      ensures selectedPercentage == percentage && lastHapticValue == old(lastHapticValue)
      ensures haptic
    {
      PresetsShape();
      selectedPercentage := percentage;
      haptic := true;
    }

    /** `updateSelectedPercentage`. */
    method UpdateSelectedPercentage(percentage: int)
      modifies this`selectedPercentage
      ensures selectedPercentage == percentage
    {
      selectedPercentage := percentage;
    }

    /** The slider binding's setter: a haptic fires exactly when the new
        integer differs from the last one that fired, which is then
        remembered; the selection becomes the new integer either way. */
    method SetSliderValue(newValue: real) returns (haptic: bool)
      requires Valid() && 0.0 <= newValue <= 100.0
      modifies this
      ensures Valid()
      ensures selectedPercentage == Truncate(newValue)
      ensures haptic <==> Truncate(newValue) != old(lastHapticValue)
      ensures lastHapticValue == Truncate(newValue)
    {
      var newIntValue := Truncate(newValue);
      haptic := false;
      if newIntValue != lastHapticValue {
        haptic := true;
        lastHapticValue := newIntValue;
      }
      UpdateSelectedPercentage(newIntValue);
    }
  }
}
