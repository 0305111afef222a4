/** The behaviour of `Null[int]` on the payloads the package's own tests exercise
    (null_test.go), derived from the model rather than assumed. */
module NullIntExamples {

  import opened Wrappers
  import opened Primitives
  import opened Errors
  import opened Nulls
  import opened JsonInt

  /** A null `Null[int]`, as `var i Null[int]` declares it. */
  const Unset: Null<Int64> := Null(0, false)

  /** `MarshalJSON` of a present 12345 is `12345`; of a null it is `null`. */
  lemma MarshalExamples(wellFormed: seq<byte> -> bool)
    ensures MarshalJSON(FromValue(12345), IntCodec(wellFormed)) == Success(Ascii("12345"))
    ensures MarshalJSON(NewNull(12345, false), IntCodec(wellFormed)) == Success(NullLiteral)
  {
    assert FormatInt(12345) == Ascii("12345");
  }

  /** `12345` decodes to a present 12345; `null` leaves the value null. */
  lemma UnmarshalAccepted(wellFormed: seq<byte> -> bool)
    ensures UnmarshalJSON(Unset, Ascii("12345"), IntCodec(wellFormed)) == UnmarshalResult(Null(12345, true), None)
    ensures UnmarshalJSON(Unset, Ascii("null"), IntCodec(wellFormed)) == UnmarshalResult(Unset, None)
  {
    assert Ascii("12345") == FormatInt(12345);
    assert Ascii("12345") != NullLiteral;
    DecodeFormatInt(wellFormed, 12345, 0);
    assert Ascii("null") == NullLiteral;
  }

  /** A fractional number and a boolean are rejected and the value stays null. */
  lemma UnmarshalRejected(wellFormed: seq<byte> -> bool)
    ensures UnmarshalJSON(Unset, Ascii("1.2345"), IntCodec(wellFormed)).err.Some?
    ensures UnmarshalJSON(Unset, Ascii("1.2345"), IntCodec(wellFormed)).n == Unset
    ensures UnmarshalJSON(Unset, Ascii("true"), IntCodec(wellFormed)).err.Some?
    ensures UnmarshalJSON(Unset, Ascii("true"), IntCodec(wellFormed)).n == Unset
  {
    assert Ascii("1.2345") != NullLiteral;
    assert Ascii("true") == TrueLiteral;
  }

  /** A quoted number, an empty string and an object are type errors, given that
      `encoding/json`'s scanner accepts them as JSON. */
  lemma UnmarshalWrongKind(wellFormed: seq<byte> -> bool)
    requires wellFormed(Ascii("\"12345\"")) && wellFormed(Ascii("\"\""))
    requires wellFormed(Ascii("{\"Int64\":12345,\"Valid\":true}"))
    ensures UnmarshalJSON(Unset, Ascii("\"12345\""), IntCodec(wellFormed)).err
              == Some(Wrapped(UnmarshalContext, JsonFailure(UnmarshalTypeError(JsonString))))
    ensures UnmarshalJSON(Unset, Ascii("\"\""), IntCodec(wellFormed)).err
              == Some(Wrapped(UnmarshalContext, JsonFailure(UnmarshalTypeError(JsonString))))
    ensures UnmarshalJSON(Unset, Ascii("{\"Int64\":12345,\"Valid\":true}"), IntCodec(wellFormed)).err
              == Some(Wrapped(UnmarshalContext, JsonFailure(UnmarshalTypeError(JsonObject))))
  {
  }

  /** `:)` is not JSON: the error wraps a `json.SyntaxError` and the value stays null. */
  lemma UnmarshalSyntaxError(wellFormed: seq<byte> -> bool)
    ensures UnmarshalJSON(Unset, Ascii(":)"), IntCodec(wellFormed)).err.Some?
    ensures IsSyntaxError(UnmarshalJSON(Unset, Ascii(":)"), IntCodec(wellFormed)).err.value)
    ensures UnmarshalJSON(Unset, Ascii(":)"), IntCodec(wellFormed)).n == Unset
  {
  }

  /** The largest `int64` decodes; one more, written as `strconv.FormatUint` writes it, does not. */
  lemma UnmarshalInt64Boundary(wellFormed: seq<byte> -> bool)
    ensures UnmarshalJSON(Unset, Digits(MaxInt64), IntCodec(wellFormed)) == UnmarshalResult(Null(MaxInt64, true), None)
    ensures UnmarshalJSON(Unset, Digits(MaxInt64 + 1), IntCodec(wellFormed)).err
              == Some(Wrapped(UnmarshalContext, JsonFailure(UnmarshalTypeError(JsonNumber))))
  {
    assert FormatInt(MaxInt64) == Digits(MaxInt64);
    DecodeFormatInt(wellFormed, MaxInt64, 0);
    assert Digits(MaxInt64) != NullLiteral;
    var over := Digits(MaxInt64 + 1);
    assert FormatInt(MaxInt64 + 1) == over;
    FormatIntIsLiteral(MaxInt64 + 1);
    assert over != NullLiteral;
    DecodeOutOfRange(wellFormed, over, 0);
  }
}
