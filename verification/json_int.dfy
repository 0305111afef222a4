/** `encoding/json` for Go's `int` (taken as 64 bits wide), the instance of the abstract codec
    that `Null[int]` uses: `json.Marshal` writes the decimal digits, `json.Unmarshal`
    accepts exactly a JSON integer literal in range.

    Whether a payload starting with a quote, brace or bracket is well-formed JSON is
    decided by `encoding/json`'s scanner, which this model takes as the parameter
    `wellFormed`; every other payload is classified here. */
module JsonInt {

  import opened Wrappers
  import opened Primitives
  import opened Errors
  import opened Nulls

  const Zero: byte := 48
  const Minus: byte := 45
  const Dot: byte := 46
  const Quote: byte := 34
  const OpenBrace: byte := 123
  const OpenBracket: byte := 91

  predicate IsDigit(b: byte) {
    Zero <= b <= Zero + 9
  }

  predicate AllDigits(s: seq<byte>) {
    forall i :: 0 <= i < |s| ==> IsDigit(s[i])
  }

  /** JSON insignificant white space: space, tab, line feed, carriage return. */
  predicate IsSpace(b: byte) {
    b == 32 || b == 9 || b == 10 || b == 13
  }

  // ---------------------------------------------------------------------------
  // Decimal digits

  /** `strconv.FormatUint(n, 10)`: the shortest decimal digits of `n`. */
  function Digits(n: nat): (s: seq<byte>)
    ensures |s| > 0 && AllDigits(s)
    ensures s[0] == Zero <==> n == 0
    ensures n == 0 ==> |s| == 1
  {
    if n < 10 then [Zero + n as byte]
    else Digits(n / 10) + [Zero + (n % 10) as byte]
  }

  /** The number a sequence of decimal digits denotes. */
  function DigitsValue(s: seq<byte>): nat
    requires AllDigits(s)
  {
    if |s| == 0 then 0
    else DigitsValue(s[..|s| - 1]) * 10 + (s[|s| - 1] - Zero) as nat
  }

  lemma {:induction false} DigitsRoundTrip(n: nat)
    ensures DigitsValue(Digits(n)) == n
  {
    if n >= 10 {
      var s := Digits(n);
      assert s[..|s| - 1] == Digits(n / 10);
      DigitsRoundTrip(n / 10);
    }
  }

  /** `strconv.FormatInt(x, 10)`, which `json.Marshal` writes for an `int`. */
  function FormatInt(x: int): (s: seq<byte>)
    ensures |s| > 0
    ensures s[0] == Minus || IsDigit(s[0])
  {
    if x < 0 then [Minus] + Digits(-x) else Digits(x)
  }

  // ---------------------------------------------------------------------------
  // JSON number literals

  /** The end of the run of digits starting at `i`. */
  function SkipDigits(t: seq<byte>, i: nat): (j: nat)
    requires i <= |t|
    ensures i <= j <= |t|
    ensures AllDigits(t[i..j])
    ensures j < |t| ==> !IsDigit(t[j])
    decreases |t| - i
  {
    if i < |t| && IsDigit(t[i]) then SkipDigits(t, i + 1) else i
  }

  /** Where the optional minus sign of a number ends. */
  function SignEnd(t: seq<byte>): nat {
    if 0 < |t| && t[0] == Minus then 1 else 0
  }

  /** The end of the integer part `0 | [1-9][0-9]*` starting at `i`, if there is one. */
  function IntegerPart(t: seq<byte>, i: nat): (r: Option<nat>)
    requires i <= |t|
    ensures r.Some? ==> i < r.value <= |t|
  {
    var j := SkipDigits(t, i);
    if j == i || (t[i] == Zero && j > i + 1) then None else Some(j)
  }

  /** The end of the optional fraction `.[0-9]+` starting at `i`. */
  function FractionPart(t: seq<byte>, i: nat): (r: Option<nat>)
    requires i <= |t|
    ensures r.Some? ==> i <= r.value <= |t|
  {
    if i < |t| && t[i] == Dot then
      var j := SkipDigits(t, i + 1);
      if j == i + 1 then None else Some(j)
    else Some(i)
  }

  /** The end of the optional exponent `[eE][+-]?[0-9]+` starting at `i`. */
  function ExponentPart(t: seq<byte>, i: nat): (r: Option<nat>)
    requires i <= |t|
    ensures r.Some? ==> i <= r.value <= |t|
  {
    if i < |t| && (t[i] == 101 || t[i] == 69) then
      var k := if i + 1 < |t| && (t[i + 1] == 43 || t[i + 1] == 45) then i + 2 else i + 1;
      var j := SkipDigits(t, k);
      if j == k then None else Some(j)
    else Some(i)
  }

  /** The JSON number grammar: `-? (0 | [1-9][0-9]*) (.[0-9]+)? ([eE][+-]?[0-9]+)?`. */
  predicate IsNumberLiteral(t: seq<byte>) {
    match IntegerPart(t, SignEnd(t))
    case None => false
    case Some(a) =>
      match FractionPart(t, a)
      case None => false
      case Some(b) => ExponentPart(t, b) == Some(|t|)
  }

  /** A number literal with neither fraction nor exponent: what `strconv.ParseInt` accepts. */
  predicate IsIntegerLiteral(t: seq<byte>) {
    IntegerPart(t, SignEnd(t)) == Some(|t|)
  }

  /** The value of an integer literal. */
  function IntegerValue(t: seq<byte>): int
    requires IsIntegerLiteral(t)
  {
    assert t[SignEnd(t)..] == t[SignEnd(t)..|t|];
    var magnitude: int := DigitsValue(t[SignEnd(t)..]);
    if SignEnd(t) == 1 then -magnitude else magnitude
  }

  /** An integer literal whose value `strconv.ParseInt(t, 10, 64)` can hold. */
  predicate IsInt64Literal(t: seq<byte>) {
    IsIntegerLiteral(t) && MinInt64 <= IntegerValue(t) <= MaxInt64
  }

  // ---------------------------------------------------------------------------
  // Trimming

  function TrimLeft(t: seq<byte>): seq<byte> {
    if 0 < |t| && IsSpace(t[0]) then TrimLeft(t[1..]) else t
  }

  function TrimRight(t: seq<byte>): seq<byte> {
    if 0 < |t| && IsSpace(t[|t| - 1]) then TrimRight(t[..|t| - 1]) else t
  }

  /** The payload without the white space JSON allows around a value. */
  function Trim(t: seq<byte>): seq<byte> {
    TrimRight(TrimLeft(t))
  }

  lemma TrimNoSpace(t: seq<byte>)
    requires 0 < |t| && !IsSpace(t[0]) && !IsSpace(t[|t| - 1])
    ensures Trim(t) == t
  {
  }

  // ---------------------------------------------------------------------------
  // The codec

  /** `json.Marshal` of an `int`: its decimal digits; it never fails. */
  function Encode(x: Int64): Result<seq<byte>, JsonError> {
    Success(FormatInt(x))
  }

  /** `json.Unmarshal(data, &target)` for an `int` target holding `prior`: white space
      around the value is allowed, and the value itself is read by `DecodeValue`. */
  function Decode(wellFormed: seq<byte> -> bool, data: seq<byte>, prior: Int64): DecodeOutcome<Int64> {
    DecodeValue(wellFormed, Trim(data), prior)
  }

  /** What a JSON value `t`, with no white space around it, does to an `int` target:
      - `null` leaves the target alone;
      - an integer literal in the range of `int64` is stored;
      - any other well-formed value (a boolean, string, object, array, a number with a
        fraction or exponent, or one out of range) is an `UnmarshalTypeError`;
      - anything else is a `SyntaxError`. */
  function DecodeValue(wellFormed: seq<byte> -> bool, t: seq<byte>, prior: Int64): DecodeOutcome<Int64> {
    if |t| == 0 then DecodeFailed(SyntaxError)
    else if t[0] == Minus || IsDigit(t[0]) then
      if IsInt64Literal(t) then Decoded(IntegerValue(t))
      else if IsNumberLiteral(t) then DecodeFailed(UnmarshalTypeError(JsonNumber))
      else DecodeFailed(SyntaxError)
    else if t == NullLiteral then Decoded(prior)
    else if t == TrueLiteral || t == FalseLiteral then DecodeFailed(UnmarshalTypeError(JsonBool))
    else if t[0] == Quote || t[0] == OpenBrace || t[0] == OpenBracket then
      if !wellFormed(t) then DecodeFailed(SyntaxError)
      else if t[0] == Quote then DecodeFailed(UnmarshalTypeError(JsonString))
      else if t[0] == OpenBrace then DecodeFailed(UnmarshalTypeError(JsonObject))
      else DecodeFailed(UnmarshalTypeError(JsonArray))
    else DecodeFailed(SyntaxError)
  }

  /** The codec `Null[int]` uses. */
  function IntCodec(wellFormed: seq<byte> -> bool): Codec<Int64> {
    Codec(Encode, (data, prior) => Decode(wellFormed, data, prior))
  }

  // ---------------------------------------------------------------------------
  // Properties

  /** The digits of any `int` are an integer literal denoting it. */
  lemma {:induction false} FormatIntIsLiteral(x: int)
    ensures IsIntegerLiteral(FormatInt(x))
    ensures IntegerValue(FormatInt(x)) == x
    ensures Trim(FormatInt(x)) == FormatInt(x)
    ensures MinInt64 <= x <= MaxInt64 ==> IsInt64Literal(FormatInt(x))
  {
    var s := FormatInt(x);
    var d := Digits(if x < 0 then -x else x);
    assert s[SignEnd(s)..] == d;
    assert SkipDigits(s, SignEnd(s)) == |s| by {
      assert AllDigits(s[SignEnd(s)..]);
      SkipDigitsRun(s, SignEnd(s));
    }
    DigitsRoundTrip(if x < 0 then -x else x);
    TrimNoSpace(s);
  }

  /** A run of digits up to the end is skipped entirely. */
  lemma SkipDigitsRun(t: seq<byte>, i: nat)
    requires i <= |t| && AllDigits(t[i..])
    ensures SkipDigits(t, i) == |t|
  {
  }

  /** The digits of any `int` decode back to it, whatever the target held. */
  lemma {:induction false} DecodeFormatInt(wellFormed: seq<byte> -> bool, x: Int64, prior: Int64)
    ensures Decode(wellFormed, FormatInt(x), prior) == Decoded(x)
  {
    FormatIntIsLiteral(x);
    DecodeInt64Literal(wellFormed, FormatInt(x), prior);
  }

  /** A bare integer literal in range is stored. */
  lemma DecodeInt64Literal(wellFormed: seq<byte> -> bool, t: seq<byte>, prior: Int64)
    requires Trim(t) == t && IsInt64Literal(t)
    ensures Decode(wellFormed, t, prior) == Decoded(IntegerValue(t))
  {
  }

  /** An integer literal out of the range of `int64` is a type error, not a syntax error. */
  lemma DecodeOutOfRange(wellFormed: seq<byte> -> bool, t: seq<byte>, prior: Int64)
    requires Trim(t) == t && IsIntegerLiteral(t) && !IsInt64Literal(t)
    ensures Decode(wellFormed, t, prior) == DecodeFailed(UnmarshalTypeError(JsonNumber))
  {
  }

  /** A payload whose first significant byte cannot begin any JSON value is a syntax error. */
  lemma DecodeBadStart(wellFormed: seq<byte> -> bool, t: seq<byte>, prior: Int64)
    requires Trim(t) == t && 0 < |t|
    requires t[0] != Minus && !IsDigit(t[0]) && t[0] != Quote && t[0] != OpenBrace && t[0] != OpenBracket
    requires t[0] != NullLiteral[0] && t[0] != TrueLiteral[0] && t[0] != FalseLiteral[0]
    ensures Decode(wellFormed, t, prior) == DecodeFailed(SyntaxError)
  {
  }

  /** The codec laws of `int`: every value encodes to something other than `null` that
      decodes back to it, whatever the target held. */
  lemma {:induction false} IntCodecRoundTrips(wellFormed: seq<byte> -> bool, x: Int64)
    ensures CodecRoundTrips(IntCodec(wellFormed), x)
  {
    var s := FormatInt(x);
    assert s[0] == Minus || IsDigit(s[0]);
    assert s != NullLiteral by { assert NullLiteral[0] == 110; }
    forall prior: Int64
      ensures IntCodec(wellFormed).decode(s, prior) == Decoded(x)
    {
      DecodeFormatInt(wellFormed, x, prior);
    }
  }

  /** The JSON round trip of `Null[int]`: any value, present or null, comes back `Equal`. */
  lemma NullIntJsonRoundTrip(wellFormed: seq<byte> -> bool, n: Null<Int64>, m: Null<Int64>)
    ensures MarshalJSON(n, IntCodec(wellFormed)).Success?
    ensures UnmarshalJSON(m, MarshalJSON(n, IntCodec(wellFormed)).value, IntCodec(wellFormed)).err == None
    ensures Equal(UnmarshalJSON(m, MarshalJSON(n, IntCodec(wellFormed)).value, IntCodec(wellFormed)).n, n)
  {
    if n.valid {
      IntCodecRoundTrips(wellFormed, n.val);
    }
    JsonRoundTrip(n, m, IntCodec(wellFormed));
  }
}
