/** Mettle/Utilities.swift: the integer part of `Color.init(hex:)`,
    `poundsToKilograms` and the global newest-first `sortLiftEntriesByDate`. */
module Utilities {
  import opened LiftEntries
  import DateSort

  // ---------------------------------------------------------------------
  // Trimming: `trimmingCharacters(in: CharacterSet.alphanumerics.inverted)`
  // ---------------------------------------------------------------------

  /** Membership in `CharacterSet.alphanumerics`, restricted to ASCII. */
  predicate IsAlphanumeric(c: char)
  {
    ('a' <= c <= 'z') || ('A' <= c <= 'Z') || ('0' <= c <= '9')
  }

  /** The number of non-alphanumeric characters at the front of `s`. */
  function LeadingJunk(s: string): (n: nat)
    ensures n <= |s|
    ensures forall k :: 0 <= k < n ==> !IsAlphanumeric(s[k])
    ensures n < |s| ==> IsAlphanumeric(s[n])
  {
    if s != [] && !IsAlphanumeric(s[0]) then 1 + LeadingJunk(s[1..]) else 0
  }

  /** The number of non-alphanumeric characters at the back of `s`. */
  function TrailingJunk(s: string): (n: nat)
    ensures n <= |s|
    ensures forall k :: |s| - n <= k < |s| ==> !IsAlphanumeric(s[k])
    ensures n < |s| ==> IsAlphanumeric(s[|s| - 1 - n])
  {
    if s != [] && !IsAlphanumeric(s[|s| - 1]) then 1 + TrailingJunk(s[..|s| - 1]) else 0
  }

  /** Strips the leading and trailing non-alphanumerics: what is left is one
      contiguous, unchanged piece of `s` starting after the leading junk,
      everything cut off behind it is non-alphanumeric too, and the piece
      starts and ends alphanumeric. */
  function Trim(s: string): (t: string)
    ensures |t| <= |s|
    ensures var i := LeadingJunk(s);
            && i + |t| <= |s| && t == s[i..i + |t|]
            && (forall k :: i + |t| <= k < |s| ==> !IsAlphanumeric(s[k]))
    ensures t != [] ==> IsAlphanumeric(t[0]) && IsAlphanumeric(t[|t| - 1])
  {
    var i := LeadingJunk(s);
    var rest := s[i..];
    var t := rest[..|rest| - TrailingJunk(rest)];
    assert t == s[i..i + |t|];
    t
  }

  /** A string that already starts and ends alphanumeric is left as it is;
      in particular trimming twice is trimming once. */
  lemma {:induction false} TrimKeepsTrimmed(s: string)
    requires s != [] ==> IsAlphanumeric(s[0]) && IsAlphanumeric(s[|s| - 1])
    ensures Trim(s) == s
  {
    assert LeadingJunk(s) == 0;
    assert TrailingJunk(s) == 0;
  }

  lemma {:induction false} TrimIdempotent(s: string)
    ensures Trim(Trim(s)) == Trim(s)
  {
    TrimKeepsTrimmed(Trim(s));
  }

  // ---------------------------------------------------------------------
  // Scanning: `Scanner.scanHexInt64`
  // ---------------------------------------------------------------------

  predicate IsHexDigit(c: char)
  {
    ('0' <= c <= '9') || ('a' <= c <= 'f') || ('A' <= c <= 'F')
  }

  function HexDigitValue(c: char): (v: nat)
    requires IsHexDigit(c)
    ensures v < 16
  {
    if '0' <= c <= '9' then c as int - '0' as int
    else if 'a' <= c <= 'f' then c as int - 'a' as int + 10
    else c as int - 'A' as int + 10
  }

  function Pow16(n: nat): (p: nat)
    ensures p >= 1
  {
    if n == 0 then 1 else 16 * Pow16(n - 1)
  }

  predicate AllHexDigits(s: string)
  {
    forall k :: 0 <= k < |s| ==> IsHexDigit(s[k])
  }

  /** The value of a string of hex digits, most significant first. */
  function HexValue(digits: string): (v: nat)
    requires AllHexDigits(digits)
    ensures v < Pow16(|digits|)
  {
    if digits == [] then 0
    else 16 * HexValue(digits[..|digits| - 1]) + HexDigitValue(digits[|digits| - 1])
  }

  /** The length of the longest leading run of hex digits. */
  function HexRun(s: string): (n: nat)
    ensures n <= |s|
    ensures AllHexDigits(s[..n])
    ensures n < |s| ==> !IsHexDigit(s[n])
  {
    if s != [] && IsHexDigit(s[0]) then
      var n := 1 + HexRun(s[1..]);
      assert s[..n] == [s[0]] + s[1..][..n - 1];
      n
    else 0
  }

  /** `scanHexInt64`, taken as the value of the longest leading run of hex
      digits, 0 when there is none. */
  function ScanHexInt64(s: string): (v: nat)
    ensures v < Pow16(HexRun(s))
  {
    HexValue(s[..HexRun(s)])
  }

  lemma {:induction false} Pow16Monotone(m: nat, n: nat)
    requires m <= n
    ensures Pow16(m) <= Pow16(n)
  {
    if m < n {
      Pow16Monotone(m, n - 1);
    }
  }

  /** Scanning never reads beyond the string, so its value is below 16^|s|. */
  lemma {:induction false} ScanBound(s: string)
    ensures ScanHexInt64(s) < Pow16(|s|)
  {
    Pow16Monotone(HexRun(s), |s|);
  }

  /** On a string made only of hex digits, the scan reads all of it. */
  lemma {:induction false} ScanAllHex(s: string)
    requires AllHexDigits(s)
    ensures ScanHexInt64(s) == HexValue(s)
  {
    assert HexRun(s) == |s|;
    assert s[..|s|] == s;
  }

  // ---------------------------------------------------------------------
  // `Color.init(hex:)`, integer components
  // ---------------------------------------------------------------------

  /** Alpha, red, green and blue as the integers 0..255 that the source
      divides by 255 to get opacities. */
  datatype Argb = Argb(a: nat, r: nat, g: nat, b: nat)

  predicate InByteRange(c: Argb)
  {
    c.a <= 255 && c.r <= 255 && c.g <= 255 && c.b <= 255
  }

  /** `String.count`: the number of Characters (extended grapheme clusters).
      Among the characters this model knows, only the pair CR LF joins into
      one Character; every other character stands alone. */
  function CharacterCount(s: string): (n: nat)
    ensures n <= |s|
    ensures (forall k :: 0 <= k < |s| ==> s[k] != '\r') ==> n == |s|
  {
    if s == [] then 0
    else if |s| >= 2 && s[0] == '\r' && s[1] == '\n' then 1 + CharacterCount(s[2..])
    else 1 + CharacterCount(s[1..])
  }

  /** The number of positions where a CR is directly followed by an LF. */
  function CrLfPairs(s: string): (n: nat)
    ensures n <= |s|
  {
    if |s| < 2 then 0
    else (if s[0] == '\r' && s[1] == '\n' then 1 else 0) + CrLfPairs(s[1..])
  }

  /** Every CR LF pair in the string, wherever it sits, merges two chars
      into one Character, and nothing else does. */
  lemma {:induction false} CharacterCountMergesCrLf(s: string)
    ensures CharacterCount(s) + CrLfPairs(s) == |s|
  {
    if s != [] {
      if |s| >= 2 && s[0] == '\r' && s[1] == '\n' {
        assert s[1..][1..] == s[2..];
        CharacterCountMergesCrLf(s[2..]);
      } else {
        CharacterCountMergesCrLf(s[1..]);
      }
    }
  }

  /** The leading hex run is made of single-character Characters, so it is
      never longer than the Character count. */
  lemma {:induction false} HexRunWithinCount(s: string)
    ensures HexRun(s) <= CharacterCount(s)
  {
    if s != [] && IsHexDigit(s[0]) {
      HexRunWithinCount(s[1..]);
    }
  }

  /* On non-negative values `x >> k` is `x / 2^k` and `x & (2^k - 1)` is
     `x % 2^k`; the source's UInt64 never exceeds 2^32 on the used paths, so
     no wrap-around occurs. */

  /** The switch on the trimmed Character count `count`, applied to the scanned
      `value`: 3 digits are RGB nibbles, 6 digits RGB bytes, 8 digits ARGB
      bytes, anything else opaque black. */
  function Components(count: nat, value: nat): Argb
  {
    if count == 3 then
      Argb(255, (value / 256) * 17, (value / 16 % 16) * 17, (value % 16) * 17)
    else if count == 6 then
      Argb(255, value / 65536, value / 256 % 256, value % 256)
    else if count == 8 then
      Argb(value / 16777216, value / 65536 % 256, value / 256 % 256, value % 256)
    else
      Argb(255, 0, 0, 0)
  }

  /** A value with no more hex digits than the count gives bytes. */
  lemma ComponentsInRange(count: nat, value: nat)
    requires value < Pow16(count)
    ensures InByteRange(Components(count, value))
  {
    if count == 3 {
      assert Pow16(3) == 4096;
    } else if count == 6 {
      assert Pow16(6) == 16777216;
    } else if count == 8 {
      assert Pow16(8) == 4294967296;
    }
  }

  /** `Color.init(hex:)` up to the division by 255. Every component is a
      byte, whatever the input. */
  function ColorComponents(hex: string): (c: Argb)
    ensures InByteRange(c)
  {
    var t := Trim(hex);
    HexRunWithinCount(t);
    Pow16Monotone(HexRun(t), CharacterCount(t));
    ComponentsInRange(CharacterCount(t), ScanHexInt64(t));
    Components(CharacterCount(t), ScanHexInt64(t))
  }

  /** Division and remainder by the constant radices used above. */
  lemma {:induction false} Split(q: nat, r: nat, m: nat)
    requires m in {16, 256, 65536, 16777216} && r < m
    ensures (m * q + r) / m == q && (m * q + r) % m == r
  {
    if m == 16 { } else if m == 256 { } else if m == 65536 { } else { }
  }

  /** Reading one more digit shifts the value by one hex place. */
  lemma {:induction false} HexValueStep(t: string, n: nat)
    requires n < |t| && AllHexDigits(t)
    ensures AllHexDigits(t[..n]) && AllHexDigits(t[..n + 1])
    ensures HexValue(t[..n + 1]) == 16 * HexValue(t[..n]) + HexDigitValue(t[n])
  {
    assert t[..n + 1][..n] == t[..n];
  }

  /** The value of the first `n` digits, one digit at a time. */
  lemma {:induction false} HexValueDigits(t: string)
    requires AllHexDigits(t) && 1 <= |t| <= 8
    ensures |t| == 3 ==> HexValue(t) == 256 * HexDigitValue(t[0]) + 16 * HexDigitValue(t[1]) + HexDigitValue(t[2])
    ensures |t| >= 6 ==> HexValue(t[..6]) == 65536 * DigitPair(t, 0) + 256 * DigitPair(t, 1) + DigitPair(t, 2)
    ensures |t| == 8 ==> HexValue(t) == 16777216 * DigitPair(t, 0) + 65536 * DigitPair(t, 1)
                                       + 256 * DigitPair(t, 2) + DigitPair(t, 3)
  {
    assert t[..0] == [];
    HexValueStep(t, 0);
    if |t| >= 2 { HexValueStep(t, 1); }
    if |t| >= 3 { HexValueStep(t, 2); }
    if |t| >= 4 { HexValueStep(t, 3); }
    if |t| >= 5 { HexValueStep(t, 4); }
    if |t| >= 6 { HexValueStep(t, 5); }
    if |t| >= 7 { HexValueStep(t, 6); }
    if |t| >= 8 { HexValueStep(t, 7); }
    assert t[..|t|] == t;
  }

  /** When the trimmed string is all hex digits, the switch sees its whole value. */
  lemma {:induction false} ColorOfAllHex(hex: string)
    requires AllHexDigits(Trim(hex))
    ensures CharacterCount(Trim(hex)) == |Trim(hex)|
    ensures ColorComponents(hex) == Components(|Trim(hex)|, HexValue(Trim(hex)))
  {
    ScanAllHex(Trim(hex));
  }

  /** Three hex digits: each nibble is scaled by 17 (so F gives 255 and 0
      gives 0), and alpha is opaque. */
  lemma {:induction false} ThreeDigitNibbles(hex: string)
    requires |Trim(hex)| == 3 && AllHexDigits(Trim(hex))
    ensures var t := Trim(hex);
            ColorComponents(hex) == Argb(255, 17 * HexDigitValue(t[0]),
                                         17 * HexDigitValue(t[1]), 17 * HexDigitValue(t[2]))
  {
    var t := Trim(hex);
    ColorOfAllHex(hex);
    HexValueDigits(t);
    NibbleComponents(HexDigitValue(t[0]), HexDigitValue(t[1]), HexDigitValue(t[2]));
  }

  /** The 3-digit case of the switch on the value of three nibbles. */
  lemma NibbleComponents(d0: nat, d1: nat, d2: nat)
    requires d0 < 16 && d1 < 16 && d2 < 16
    ensures Components(3, 256 * d0 + 16 * d1 + d2) == Argb(255, 17 * d0, 17 * d1, 17 * d2)
  {
    Split(d0, 16 * d1 + d2, 256);
    Split(16 * d0 + d1, d2, 16);
    Split(d0, d1, 16);
  }

  /** The byte at digits `2k, 2k+1` of an all-hex string. */
  function DigitPair(t: string, k: nat): (v: nat)
    requires 2 * k + 1 < |t| && AllHexDigits(t)
    ensures v < 256
  {
    16 * HexDigitValue(t[2 * k]) + HexDigitValue(t[2 * k + 1])
  }

  /** Six hex digits: red, green and blue are the three bytes of the scanned
      value, in that order, `(r << 16) | (g << 8) | b` gives the value back,
      and alpha is opaque. */
  lemma {:induction false} SixDigitBytes(hex: string)
    requires |Trim(hex)| == 6 && AllHexDigits(Trim(hex))
    ensures var t := Trim(hex); var c := ColorComponents(hex);
            && c == Argb(255, DigitPair(t, 0), DigitPair(t, 1), DigitPair(t, 2))
            && c.r * 65536 + c.g * 256 + c.b == ScanHexInt64(t)
  {
    var t := Trim(hex);
    ColorOfAllHex(hex);
    HexValueDigits(t);
    assert t[..6] == t;
    RgbComponents(DigitPair(t, 0), DigitPair(t, 1), DigitPair(t, 2));
  }

  /** The 6-digit case of the switch on the value of three bytes. */
  lemma RgbComponents(r: nat, g: nat, b: nat)
    requires r < 256 && g < 256 && b < 256
    ensures Components(6, 65536 * r + 256 * g + b) == Argb(255, r, g, b)
  {
    Split(r, 256 * g + b, 65536);
    Split(256 * r + g, b, 256);
    Split(r, g, 256);
  }

  /** Eight hex digits are ARGB: alpha is the first byte, then red, green
      and blue. */
  lemma {:induction false} EightDigitArgb(hex: string)
    requires |Trim(hex)| == 8 && AllHexDigits(Trim(hex))
    ensures var t := Trim(hex);
            ColorComponents(hex) == Argb(DigitPair(t, 0), DigitPair(t, 1), DigitPair(t, 2), DigitPair(t, 3))
  {
    var t := Trim(hex);
    ColorOfAllHex(hex);
    HexValueDigits(t);
    ArgbComponents(DigitPair(t, 0), DigitPair(t, 1), DigitPair(t, 2), DigitPair(t, 3));
  }

  /** The 8-digit case of the switch on the value of four bytes. */
  lemma ArgbComponents(a: nat, r: nat, g: nat, b: nat)
    requires a < 256 && r < 256 && g < 256 && b < 256
    ensures Components(8, 16777216 * a + 65536 * r + 256 * g + b) == Argb(a, r, g, b)
  {
    Split(a, 65536 * r + 256 * g + b, 16777216);
    Split(256 * a + r, 256 * g + b, 65536);
    Split(a, r, 256);
    Split(65536 * a + 256 * r + g, b, 256);
    Split(256 * a + r, g, 256);
  }

  /** Any other trimmed Character count gives opaque black. */
  lemma {:induction false} OtherLengthIsOpaqueBlack(hex: string)
    requires CharacterCount(Trim(hex)) !in {3, 6, 8}
    ensures ColorComponents(hex) == Argb(255, 0, 0, 0)
  {
  }

  /** The chart colour the tiles use, `#F90C6A`: opaque, red F9, green 0C, blue 6A. */
  lemma ChartColour()
    ensures ColorComponents("#F90C6A") == Argb(255, 0xF9, 0x0C, 0x6A)
  {
    var s := "#F90C6A";
    assert LeadingJunk(s[1..]) == 0;
    assert LeadingJunk(s) == 1;
    assert TrailingJunk(s[1..]) == 0;
    assert Trim(s) == "F90C6A";
    SixDigitBytes(s);
  }

  /** A CR LF inside the trimmed string is one Character: "a\r\nbcdefg"
      counts 8, so it is read as ARGB from the scanned run "a". */
  lemma CrLfInEightCharacters()
    ensures ColorComponents("a\r\nbcdefg") == Argb(0, 0, 0, 10)
  {
    var s := "a\r\nbcdefg";
    TrimKeepsTrimmed(s);
    assert s[1..][0] == '\r' && s[1..][1] == '\n';
    assert CharacterCount(s[3..]) == 6;
    assert s[1..][2..] == s[3..];
    assert CharacterCount(s[1..]) == 7;
    assert CharacterCount(s) == 8;
    assert HexRun(s[1..]) == 0;
    assert HexRun(s) == 1;
    assert s[..1] == "a" && "a"[..0] == [];
    assert ScanHexInt64(s) == 10;
    ArgbComponents(0, 0, 0, 10);
  }

  /** "ab\r\ncd" has six chars but five Characters, so it is opaque black
      rather than a 6-digit colour. */
  lemma CrLfInFiveCharacters()
    ensures ColorComponents("ab\r\ncd") == Argb(255, 0, 0, 0)
  {
    var u := "ab\r\ncd";
    TrimKeepsTrimmed(u);
    assert u[2..][0] == '\r' && u[2..][1] == '\n';
    assert CharacterCount(u[4..]) == 2;
    assert u[2..][2..] == u[4..];
    assert CharacterCount(u[2..]) == 3;
    assert CharacterCount(u) == 5;
    OtherLengthIsOpaqueBlack(u);
  }

  // ---------------------------------------------------------------------
  // `poundsToKilograms`
  // ---------------------------------------------------------------------

  /** `poundsToKilograms`, in exact arithmetic. */
  function PoundsToKilograms(pounds: Weight): (kg: Weight)
    ensures pounds >= 0.0 ==> 0.0 <= kg <= pounds
  {
    pounds * 0.453592
  }

  // ---------------------------------------------------------------------
  // `sortLiftEntriesByDate`
  // ---------------------------------------------------------------------

  /** The global sort: the same entries, newest first. */
  function SortLiftEntriesByDate(lifts: seq<LiftEntry>): (r: seq<LiftEntry>)
    ensures multiset(r) == multiset(lifts)
    ensures forall i, j :: 0 <= i < j < |r| ==> r[i].date >= r[j].date
  {
    var r := DateSort.SortByDate(lifts, true);
    assert forall i, j :: 0 <= i < j < |r| ==> !DateSort.InIncreasingOrder(r[j], r[i], true);
    r
  }
}
