/** Mettle/SplashPageView.swift: the Sign in with Apple nonce. A random
    string is drawn by rejection sampling, kept as `currentNonce`, and only
    its SHA-256 digest, as lowercase hex, is put on the request. */
module SplashPage {
  import opened Wrappers

  newtype Byte = x: int | 0 <= x < 256

  /** The nonce alphabet: 64 characters ('W' is missing from the literal).
      The literal is written in four pieces of sixteen. */
  const Charset: string := CharsetQuarter0 + CharsetQuarter1 + CharsetQuarter2 + CharsetQuarter3

  const CharsetQuarter0: string := "0123456789ABCDEF"
  const CharsetQuarter1: string := "GHIJKLMNOPQRSTUV"
  const CharsetQuarter2: string := "XYZabcdefghijklm"
  const CharsetQuarter3: string := "nopqrstuvwxyz-._"

  /** `charset.count`. */
  const CharsetCount: nat := 64

  /** Random bytes are requested sixteen at a time. */
  const BatchSize: nat := 16

  /** The default argument of `randomNonceString(length:)`. */
  const DefaultNonceLength: nat := 32

  /** The ranges the literal spells out. */
  predicate InNonceAlphabet(c: char)
  {
    ('0' <= c <= '9') || ('A' <= c <= 'V') || ('X' <= c <= 'Z') || ('a' <= c <= 'z')
    || c == '-' || c == '.' || c == '_'
  }

  /** `charset[i]`, computed from the ranges the literal spells out:
      digits, 'A'..'V', 'X'..'Z', 'a'..'z', then '-', '.' and '_'. */
  function Symbol(i: nat): (c: char)
    requires i < CharsetCount
    ensures InNonceAlphabet(c) && c != 'W' && c as int < 128
  {
    if i < 10 then ('0' as int + i) as char
    else if i < 32 then ('A' as int + (i - 10)) as char
    else if i < 35 then ('X' as int + (i - 32)) as char
    else if i < 61 then ('a' as int + (i - 35)) as char
    else if i == 61 then '-'
    else if i == 62 then '.'
    else '_'
  }

  /* The literal is compared with `Symbol` a quarter at a time: the solver
     does not unfold all 64 positions of one literal at once. */
  lemma Quarter0Symbols()
    ensures forall k :: 0 <= k < 16 ==> CharsetQuarter0[k] == Symbol(k)
  {
  }

  lemma Quarter1Symbols()
    ensures forall k :: 0 <= k < 16 ==> CharsetQuarter1[k] == Symbol(16 + k)
  {
  }

  lemma Quarter2Symbols()
    ensures forall k :: 0 <= k < 16 ==> CharsetQuarter2[k] == Symbol(32 + k)
  {
  }

  lemma Quarter3Symbols()
    ensures forall k :: 0 <= k < 16 ==> CharsetQuarter3[k] == Symbol(48 + k)
  {
  }

  /** The alphabet has 64 characters, all ASCII, with `Symbol(i)` at
      position `i`; 'W' is not one of them, so bytes 64..255 are never used. */
  lemma CharsetShape()
    ensures |Charset| == CharsetCount
    ensures forall i :: 0 <= i < CharsetCount ==> Charset[i] == Symbol(i)
    ensures forall c :: c in Charset ==> InNonceAlphabet(c) && c as int < 128
    ensures 'W' !in Charset
  {
    Quarter0Symbols();
    Quarter1Symbols();
    Quarter2Symbols();
    Quarter3Symbols();
    forall i | 0 <= i < CharsetCount ensures Charset[i] == Symbol(i) {
      if i < 16 {
        assert Charset[i] == CharsetQuarter0[i];
      } else if i < 32 {
        assert Charset[i] == CharsetQuarter1[i - 16];
      } else if i < 48 {
        assert Charset[i] == CharsetQuarter2[i - 32];
      } else {
        assert Charset[i] == CharsetQuarter3[i - 48];
      }
    }
  }

  // ---------------------------------------------------------------------
  // The rejection filter
  // ---------------------------------------------------------------------

  /** What the first `n` of `bytes` contribute to the nonce: each byte below
      `charset.count` becomes `charset[byte]`, every other byte is dropped,
      order is kept. */
  function Accepted(bytes: seq<Byte>, n: nat): (r: string)
    requires n <= |bytes|
    ensures |r| <= n
  {
    if n == 0 then []
    else
      var b := bytes[n - 1];
      Accepted(bytes, n - 1) + (if (b as int) < CharsetCount then [Symbol(b as int)] else [])
  }

  /** Every accepted character comes from the charset. */
  lemma {:induction false} AcceptedFromCharset(bytes: seq<Byte>, n: nat)
    requires n <= |bytes|
    ensures forall k :: 0 <= k < |Accepted(bytes, n)| ==> Accepted(bytes, n)[k] in Charset
  {
    CharsetShape();
    if n > 0 {
      AcceptedFromCharset(bytes, n - 1);
    }
  }

  /** A single byte is used exactly when it is below 64, and then as `charset[byte]`. */
  lemma AcceptedByte(b: Byte)
    ensures (b as int) < |Charset| ==> Accepted([b], 1) == [Charset[b]]
    ensures (b as int) >= |Charset| ==> Accepted([b], 1) == []
  {
    CharsetShape();
    assert Accepted([b], 0) == [];
  }

  /** The filter only looks at the bytes it has read. */
  lemma {:induction false} AcceptedReadsPrefix(x: seq<Byte>, y: seq<Byte>, n: nat)
    requires n <= |x|
    ensures Accepted(x + y, n) == Accepted(x, n)
  {
    if n > 0 {
      AcceptedReadsPrefix(x, y, n - 1);
      assert (x + y)[n - 1] == x[n - 1];
    }
  }

  /** The filter works byte by byte: filtering two pieces one after the
      other gives what filtering them joined gives. */
  lemma {:induction false} AcceptedAppend(x: seq<Byte>, y: seq<Byte>)
    ensures Accepted(x + y, |x + y|) == Accepted(x, |x|) + Accepted(y, |y|)
  {
    AcceptedAppendUpTo(x, y, |y|);
  }

  lemma {:induction false} AcceptedAppendUpTo(x: seq<Byte>, y: seq<Byte>, k: nat)
    requires k <= |y|
    ensures Accepted(x + y, |x| + k) == Accepted(x, |x|) + Accepted(y, k)
  {
    if k == 0 {
      AcceptedReadsPrefix(x, y, |x|);
    } else {
      AcceptedAppendUpTo(x, y, k - 1);
      assert (x + y)[|x| + k - 1] == y[k - 1];
    }
  }

  /** Filtering more bytes extends the output. */
  lemma {:induction false} AcceptedMonotone(bytes: seq<Byte>, m: nat, n: nat)
    requires m <= n <= |bytes|
    ensures Accepted(bytes, m) <= Accepted(bytes, n)
  {
    if m < n {
      AcceptedMonotone(bytes, m, n - 1);
    }
  }

  /** The bytes that make up whole batches: the most the loop can draw. */
  function FullBatches(n: nat): (m: nat)
    ensures m <= n && m % BatchSize == 0 && n - m < BatchSize
  {
    n / BatchSize * BatchSize
  }

  lemma FullBatchesBound(n: nat, m: nat)
    requires m <= n && m % BatchSize == 0
    ensures m <= FullBatches(n)
  {
  }

  lemma FullBatchesIsLast(n: nat, m: nat)
    requires m <= FullBatches(n) && m % BatchSize == 0 && n - m < BatchSize
    ensures m == FullBatches(n)
  {
  }

  /** At most `n` characters of `s`. */
  function Take(s: string, n: nat): (r: string)
    ensures |r| == if |s| <= n then |s| else n
  {
    if |s| <= n then s else s[..n]
  }

  /** One more byte through the loop body: while characters are still
      wanted an accepted byte is appended; once `length` are there, nothing
      changes. */
  lemma TakeStep(random: seq<Byte>, i: nat, length: nat)
    requires i < |random|
    ensures var before := Take(Accepted(random, i), length);
            Take(Accepted(random, i + 1), length) ==
              if |before| < length && (random[i] as int) < CharsetCount
              then before + [Symbol(random[i] as int)] else before
  {
  }

  /** The body of the `forEach` for the byte at `i`: it is appended, as
      `charset[byte]`, while characters are still wanted and it is below
      `charset.count`; otherwise it is passed over. */
  method ConsumeByte(random: seq<Byte>, i: nat, length: nat, result: string, remainingLength: nat)
    returns (result': string, remainingLength': nat)
    requires i < |random|
    requires |result| + remainingLength == length
    requires result == Take(Accepted(random, i), length)
    ensures |result'| + remainingLength' == length
    ensures result' == Take(Accepted(random, i + 1), length)
  {
    var b := random[i];
    TakeStep(random, i, length);
    result', remainingLength' := result, remainingLength;
    if remainingLength == 0 {
      // nothing more is wanted: the byte is passed over
    } else if (b as int) < CharsetCount {
      result' := result + [Symbol(b as int)];
      remainingLength' := remainingLength - 1;
    }
  }

  /** The `forEach` over one batch of sixteen bytes starting at `drawn`. */
  method ConsumeBatch(random: seq<Byte>, drawn: nat, length: nat, result: string, remainingLength: nat)
    returns (result': string, remainingLength': nat)
    requires drawn + BatchSize <= |random|
    requires |result| + remainingLength == length
    requires result == Take(Accepted(random, drawn), length)
    ensures |result'| + remainingLength' == length
    ensures result' == Take(Accepted(random, drawn + BatchSize), length)
  {
    result', remainingLength' := result, remainingLength;
    for j := 0 to BatchSize
      invariant |result'| + remainingLength' == length
      invariant result' == Take(Accepted(random, drawn + j), length)
    {
      result', remainingLength' := ConsumeByte(random, drawn + j, length, result', remainingLength');
    }
  }

  /** The loop ended with `length` characters after `drawn` bytes: they are
      the first `length` accepted bytes, and the whole batches of the input
      would have given at least as many. */
  lemma NonceComplete(random: seq<Byte>, drawn: nat, length: nat, result: string)
    requires drawn <= FullBatches(|random|)
    requires |result| == length && result == Take(Accepted(random, drawn), length)
    ensures |Accepted(random, drawn)| >= length
    ensures |Accepted(random, FullBatches(|random|))| >= length
    ensures result <= Accepted(random, |random|)
  {
    AcceptedMonotone(random, drawn, |random|);
    AcceptedMonotone(random, drawn, FullBatches(|random|));
  }

  /** The input ran out of whole batches before `length` characters were
      accepted. */
  lemma NonceExhausted(random: seq<Byte>, drawn: nat, length: nat, result: string)
    requires drawn == FullBatches(|random|)
    requires |result| < length && result == Take(Accepted(random, drawn), length)
    ensures |Accepted(random, FullBatches(|random|))| < length
  {
  }

  /** The bytes before the last batch drawn had not yet given `length`
      characters: no batch was drawn without need. */
  ghost predicate LastBatchNeeded(random: seq<Byte>, drawn: nat, length: nat)
    requires drawn <= |random|
  {
    drawn >= BatchSize && |Accepted(random, drawn - BatchSize)| < length
  }

  /** `randomNonceString(length:)` with the random source given as `random`,
      the bytes the system generator would produce, in order. The loop draws
      them sixteen at a time; a result is returned once `length` characters
      are accepted, and `None` stands for the model's input running out
      before that. `drawn` counts the bytes taken: whole batches, just as
      many as were needed, so the rest of the last batch is ignored. */
  method RandomNonceString(length: nat, random: seq<Byte>) returns (nonce: Option<string>, drawn: nat)
    requires length > 0
    ensures drawn % BatchSize == 0 && drawn <= |random|
    ensures nonce.Some? <==> |Accepted(random, FullBatches(|random|))| >= length
    ensures nonce.Some? ==> |nonce.value| == length && nonce.value <= Accepted(random, |random|)
    ensures nonce.Some? ==> forall k :: 0 <= k < |nonce.value| ==> nonce.value[k] in Charset
    ensures nonce.Some? ==> |Accepted(random, drawn)| >= length && LastBatchNeeded(random, drawn, length)
  {
    var result := "";
    var remainingLength := length;
    drawn := 0;
    ghost var full := FullBatches(|random|);
    while remainingLength > 0
      invariant drawn % BatchSize == 0 && drawn <= full
      invariant |result| + remainingLength == length
      invariant result == Take(Accepted(random, drawn), length)
      invariant remainingLength == 0 ==> LastBatchNeeded(random, drawn, length)
      decreases |random| - drawn
    {
      if |random| - drawn < BatchSize {
        FullBatchesIsLast(|random|, drawn);
        NonceExhausted(random, drawn, length, result);
        return None, drawn;
      }
      FullBatchesBound(|random|, drawn + BatchSize);
      result, remainingLength := ConsumeBatch(random, drawn, length, result, remainingLength);
      drawn := drawn + BatchSize;
    }
    NonceComplete(random, drawn, length, result);
    AcceptedFromCharset(random, |random|);
    nonce := Some(result);
  }

  // ---------------------------------------------------------------------
  // `sha256(_:)`: lowercase hex of the digest
  // ---------------------------------------------------------------------

  const LowerHexDigits: string := "0123456789abcdef"

  /** `String(format: "%02x", byte)`: two lowercase hex digits, the high
      nibble first. */
  function HexByte(b: Byte): (s: string)
    ensures |s| == 2 && IsLowerHexDigit(s[0]) && IsLowerHexDigit(s[1])
    ensures LowerHexValue(s[0]) == b as int / 16 && LowerHexValue(s[1]) == b as int % 16
  {
    LowerHexValueOfDigit(b as int / 16);
    LowerHexValueOfDigit(b as int % 16);
    [LowerHexDigits[b / 16], LowerHexDigits[b % 16]]
  }

  /** The digest bytes rendered and joined. */
  function HexString(digest: seq<Byte>): (s: string)
    ensures |s| == 2 * |digest|
    ensures forall k :: 0 <= k < |s| ==> IsLowerHexDigit(s[k])
  {
    if digest == [] then "" else HexByte(digest[0]) + HexString(digest[1..])
  }

  predicate IsLowerHexDigit(c: char)
  {
    ('0' <= c <= '9') || ('a' <= c <= 'f')
  }

  function LowerHexValue(c: char): (v: nat)
    requires IsLowerHexDigit(c)
    ensures v < 16 && LowerHexDigits[v] == c
  {
    if '0' <= c <= '9' then c as int - '0' as int else c as int - 'a' as int + 10
  }

  /** The inverse reading: two hex digits per byte. */
  function HexDecode(s: string): seq<Byte>
    requires |s| % 2 == 0
    requires forall k :: 0 <= k < |s| ==> IsLowerHexDigit(s[k])
  {
    if s == [] then []
    else [(16 * LowerHexValue(s[0]) + LowerHexValue(s[1])) as Byte] + HexDecode(s[2..])
  }

  /** Each entry of the digit table reads back as its own position. */
  lemma LowerHexValueOfDigit(v: nat)
    requires v < 16
    ensures IsLowerHexDigit(LowerHexDigits[v]) && LowerHexValue(LowerHexDigits[v]) == v
  {
  }

  /** Decoding the hex rendering gives back the digest. */
  lemma {:induction false} HexRoundTrip(digest: seq<Byte>)
    ensures HexDecode(HexString(digest)) == digest
  {
    if digest != [] {
      var b := digest[0];
      HexRoundTrip(digest[1..]);
      var s := HexString(digest);
      var h := HexByte(b);
      assert s == h + HexString(digest[1..]);
      assert s[0] == h[0] && s[1] == h[1] && s[2..] == HexString(digest[1..]);
      assert 16 * (b as int / 16) + b as int % 16 == b as int;
    }
  }

  /** The UTF-8 encoding of an ASCII string: one byte per character. */
  function Utf8(s: string): (bytes: seq<Byte>)
    requires forall k :: 0 <= k < |s| ==> s[k] as int < 128
    ensures |bytes| == |s|
  {
    if s == [] then [] else [s[0] as int as Byte] + Utf8(s[1..])
  }

  // ---------------------------------------------------------------------
  // `configureRequest`
  // ---------------------------------------------------------------------

  datatype Scope = FullName | Email

  /** The parts of `ASAuthorizationAppleIDRequest` the screen sets. */
  class AppleIdRequest {
    var requestedScopes: seq<Scope>
    var nonce: Option<string>

    constructor ()
      ensures requestedScopes == [] && nonce == None
    {
      requestedScopes := [];
      nonce := None;
    }
  }

  class SplashPageView {
    /** The raw nonce of the request in flight, kept to validate the reply. */
    var currentNonce: Option<string>

    constructor ()
      ensures currentNonce == None
    {
      currentNonce := None;
    }

    /** Draws a fresh nonce, keeps it raw in `currentNonce`, and puts only
        the hex of its SHA-256 digest on the request. `sha256` stands for
        CryptoKit's hash. When the model's random input runs out nothing
        changes and `configured` is false. */
    method ConfigureRequest(request: AppleIdRequest, random: seq<Byte>, sha256: seq<Byte> -> seq<Byte>)
      returns (configured: bool)
      modifies this, request
      ensures configured <==>
        |Accepted(random, FullBatches(|random|))| >= DefaultNonceLength
      ensures configured ==>
        && currentNonce.Some?
        && var raw := currentNonce.value;
        && |raw| == DefaultNonceLength && raw <= Accepted(random, |random|)
        && (forall k :: 0 <= k < |raw| ==> raw[k] as int < 128)
        && request.nonce == Some(HexString(sha256(Utf8(raw))))
        && request.requestedScopes == [FullName, Email]
      ensures !configured ==> unchanged(this, request)
    {
      var nonce, _ := RandomNonceString(DefaultNonceLength, random);
      if nonce.None? {
        return false;
      }
      CharsetShape();
      var raw := nonce.value;
      currentNonce := Some(raw);
      request.requestedScopes := [FullName, Email];
      request.nonce := Some(HexString(sha256(Utf8(raw))));
      configured := true;
    }
  }
}
