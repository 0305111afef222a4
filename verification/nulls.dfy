/** `Null[T]` (null.go): a value of a scalar type paired with a validity flag, with a
    driver path (`Scan`/`Value`) and a JSON path (`UnmarshalJSON`/`MarshalJSON`).

    Go's `var zero T` is passed explicitly as `zero`; the foreign conversions the
    type relies on (`convertAssign`, `encoding/json`) are passed as functions. */
module Nulls {

  import opened Wrappers
  import opened Primitives
  import opened Errors

  /** `Null[T]`: `val` is meaningful only when `valid` holds. */
  datatype Null<T> = Null(val: T, valid: bool)

  /** A Go pointer `*T`: nil, or the address of a `T`. */
  datatype Pointer<T> = Nil | Addr(target: T)

  /** `NewNull`: both fields stored verbatim. */
  function NewNull<T>(val: T, valid: bool): (r: Null<T>)
    ensures r.val == val && r.valid == valid
  {
    Null(val, valid)
  }

  /** `FromValue`: always valid, whatever the value (a zero included). */
  function FromValue<T>(val: T): (r: Null<T>)
    ensures r.valid && r.val == val
    ensures !IsZero(r)
  {
    NewNull(val, true)
  }

  /** `FromPtr`: null for a nil pointer, otherwise a valid copy of the target. */
  function FromPtr<T>(zero: T, p: Pointer<T>): (r: Null<T>)
    ensures r.valid <==> p.Addr?
    ensures p.Addr? ==> r.val == p.target
    ensures p.Nil? ==> r.val == zero
  {
    if p.Nil? then NewNull(zero, false) else NewNull(p.target, true)
  }

  /** `ValueOrZero`: the value when valid, the zero of `T` otherwise, whatever stale value is held. */
  function ValueOrZero<T>(zero: T, n: Null<T>): (r: T)
    ensures n.valid ==> r == n.val
    ensures !n.valid ==> r == zero
  {
    if !n.valid then zero else n.val
  }

  /** `SetValid`: the value replaced and marked valid, whatever the previous state. */
  function SetValid<T>(n: Null<T>, v: T): (r: Null<T>)
    ensures r.valid && r.val == v
    ensures r == FromValue(v)
  {
    Null(v, true)
  }

  /** `Ptr`: nil exactly when invalid, otherwise the address of a copy of the value. */
  function Ptr<T>(n: Null<T>): (r: Pointer<T>)
    ensures r.Nil? <==> !n.valid
    ensures r.Addr? ==> r.target == n.val
  {
    if !n.valid then Nil else Addr(n.val)
  }

  /** `IsZero`: absence, not a zero value; a valid zero is not `IsZero`. */
  predicate IsZero<T>(n: Null<T>): (r: bool)
    ensures r <==> Ptr(n).Nil?
    ensures !r <==> n == NewNull(n.val, true)
  {
    !n.valid
  }

  /** `Equal`: both null, or both present with equal values; a stale value of a null is ignored. */
  predicate Equal<T(==)>(n: Null<T>, other: Null<T>): (r: bool)
    ensures r <==> Ptr(n) == Ptr(other)
    ensures r ==> IsZero(n) == IsZero(other)
    ensures r && n.valid ==> other == n
  {
    n.valid == other.valid && (!n.valid || n.val == other.val)
  }

  // ---------------------------------------------------------------------------
  // Driver path

  /** A `driver.Value` handed to `Scan`, seen from `T`: the nil sentinel, a value whose
      dynamic type is exactly `T`, or a value of some other type `F`. */
  datatype DriverValue<T, F> = NilValue | OfType(v: T) | OtherType(f: F)

  /** The state of the receiver after `Scan`, and the error it returns. */
  datatype ScanResult<T> = ScanResult(n: Null<T>, err: Option<Error>)

  /** `Scan` (null.go:43-62). `convert` is `convertAssign` into a `T`. The failed type
      assertion at null.go:53 already zeroes `Val`; a failed conversion stores nothing. */
  function Scan<T, F>(n: Null<T>, value: DriverValue<T, F>, zero: T, convert: F -> Result<T, Error>)
    : (r: ScanResult<T>)
    ensures value.NilValue? ==> r.n == Null(zero, false) && r.err == None
    ensures value.OfType? ==> r.n == Null(value.v, true) && r.err == None
    ensures value.OtherType? ==> (r.n.valid <==> r.err.None?)
    ensures value.OtherType? && r.n.valid ==> convert(value.f) == Success(r.n.val)
    ensures value.OtherType? && !r.n.valid ==>
              r.n.val == zero && convert(value.f) == Failure(r.err.value)
  {
    match value
    case NilValue => ScanResult(Null(zero, false), None)
    case OfType(v) => ScanResult(Null(v, true), None)
    case OtherType(f) =>
      match convert(f)
      case Success(v) => ScanResult(Null(v, true), None)
      case Failure(e) => ScanResult(Null(zero, false), Some(e))
  }

  /** `Value`: the nil sentinel when invalid, otherwise the value itself. */
  function Value<T, F>(n: Null<T>): (r: DriverValue<T, F>)
    ensures r.NilValue? <==> !n.valid
    ensures n.valid ==> r == OfType(n.val)
  {
    if !n.valid then NilValue else OfType(n.val)
  }

  // ---------------------------------------------------------------------------
  // JSON path

  /** What `json.Unmarshal(data, &target)` leaves in a scalar target: its new value
      (possibly the old one, which a JSON `null` leaves alone), or an error, in which
      case the target is left as it was. */
  datatype DecodeOutcome<T> = Decoded(v: T) | DecodeFailed(err: JsonError)

  /** `encoding/json` for one type `T`: `json.Marshal` and `json.Unmarshal`, the
      latter given the target's current value. */
  datatype Codec<!T> = Codec(
    encode: T -> Result<seq<byte>, JsonError>,
    decode: (seq<byte>, T) -> DecodeOutcome<T>)

  /** The state of the receiver after `UnmarshalJSON`, and the error it returns. */
  datatype UnmarshalResult<T> = UnmarshalResult(n: Null<T>, err: Option<Error>)

  /** `UnmarshalJSON` (null.go:96-108). Exactly `null` clears `valid` and keeps the stale
      value; a decode error is wrapped and leaves the receiver, its flag included, untouched. */
  function UnmarshalJSON<T>(n: Null<T>, data: seq<byte>, codec: Codec<T>): (r: UnmarshalResult<T>)
    ensures data == NullLiteral ==> r == UnmarshalResult(Null(n.val, false), None)
    ensures data != NullLiteral ==>
              match codec.decode(data, n.val)
              case Decoded(v) => r == UnmarshalResult(Null(v, true), None)
              case DecodeFailed(e) => r == UnmarshalResult(n, Some(Wrapped(UnmarshalContext, JsonFailure(e))))
    ensures r.err.Some? ==> r.n == n && Unwrap(r.err.value).Some?
  {
    if data == NullLiteral then
      UnmarshalResult(n.(valid := false), None)
    else
      match codec.decode(data, n.val)
      case DecodeFailed(e) => UnmarshalResult(n, Some(Wrapped(UnmarshalContext, JsonFailure(e))))
      case Decoded(v) => UnmarshalResult(Null(v, true), None)
  }

  /** `MarshalJSON` (null.go:111-116): `null` when invalid whatever the stale value,
      otherwise the encoding of the value. */
  function MarshalJSON<T>(n: Null<T>, codec: Codec<T>): (r: Result<seq<byte>, Error>)
    ensures !n.valid ==> r == Success(NullLiteral)
    ensures n.valid && codec.encode(n.val).Success? ==> r == Success(codec.encode(n.val).value)
    ensures n.valid && codec.encode(n.val).Failure? ==> r == Failure(JsonFailure(codec.encode(n.val).error))
  {
    if !n.valid then Success(NullLiteral)
    else
      match codec.encode(n.val)
      case Success(b) => Success(b)
      case Failure(e) => Failure(JsonFailure(e))
  }

  /** The codec laws a JSON round trip of a present value relies on: the encoding of `v`
      succeeds, is not the `null` literal, and decodes to `v` whatever the target held. */
  ghost predicate CodecRoundTrips<T(!new)>(codec: Codec<T>, v: T)
  {
    && codec.encode(v).Success?
    && codec.encode(v).value != NullLiteral
    && forall prior: T :: codec.decode(codec.encode(v).value, prior) == Decoded(v)
  }

  // ---------------------------------------------------------------------------
  // Properties

  /** `Equal` is an equivalence relation. */
  lemma EqualIsEquivalence<T>(a: Null<T>, b: Null<T>, c: Null<T>)
    ensures Equal(a, a)
    ensures Equal(a, b) ==> Equal(b, a)
    ensures Equal(a, b) && Equal(b, c) ==> Equal(a, c)
  {
  }

  /** Two nulls are `Equal` however their stale values differ; a null never equals a present value. */
  lemma EqualIgnoresStaleValue<T>(x: T, y: T, z: T)
    ensures Equal(NewNull(x, false), NewNull(y, false))
    ensures !Equal(NewNull(x, false), NewNull(z, true))
    ensures Equal(NewNull(x, true), NewNull(y, true)) <==> x == y
  {
  }

  /** `Equal` is exactly sameness of what every accessor shows: `Ptr` tells `Equal`
      values apart from no others, and `IsZero`, `ValueOrZero`, `Value` and `MarshalJSON`
      cannot tell `Equal` values apart. */
  lemma EqualIsObservational<T, F>(zero: T, codec: Codec<T>, a: Null<T>, b: Null<T>)
    ensures Equal(a, b) <==> Ptr(a) == Ptr(b)
    ensures Equal(a, b) <==> Value<T, F>(a) == Value<T, F>(b)
    ensures Equal(a, b) ==> IsZero(a) == IsZero(b)
    ensures Equal(a, b) ==> ValueOrZero(zero, a) == ValueOrZero(zero, b)
    ensures Equal(a, b) ==> MarshalJSON(a, codec) == MarshalJSON(b, codec)
  {
  }

  /** `FromPtr` undoes `Ptr`, and `Ptr` undoes `FromPtr`. */
  lemma PtrRoundTrip<T>(zero: T, n: Null<T>, p: Pointer<T>)
    ensures Equal(FromPtr(zero, Ptr(n)), n)
    ensures Ptr(FromPtr(zero, p)).Nil? <==> p.Nil?
    ensures p.Addr? ==> Ptr(FromPtr(zero, p)).target == p.target
  {
  }

  /** `IsZero` is absence: a value is `IsZero` exactly when it is `Equal` to a null. */
  lemma IsZeroIsAbsence<T>(zero: T, n: Null<T>)
    ensures IsZero(n) <==> Equal(n, FromPtr(zero, Nil))
    ensures !IsZero(FromValue(zero))
    ensures IsZero(n) ==> ValueOrZero(zero, n) == zero
  {
  }

  /** `SetValid` forgets the previous state entirely. */
  lemma SetValidForgetsPrevious<T>(a: Null<T>, b: Null<T>, v: T)
    ensures SetValid(a, v) == SetValid(b, v)
    ensures ValueOrZero(v, SetValid(a, v)) == v
  {
  }

  /** The driver round trip: scanning what `Value` produced gives back an `Equal` value,
      with no error, whatever the receiver held before. */
  lemma ScanValueRoundTrip<T, F>(n: Null<T>, m: Null<T>, zero: T, convert: F -> Result<T, Error>)
    ensures Scan(m, Value<T, F>(n), zero, convert).err == None
    ensures Equal(Scan(m, Value<T, F>(n), zero, convert).n, n)
    ensures n.valid ==> Scan(m, Value<T, F>(n), zero, convert).n == n
  {
  }

  /** For every non-nil driver value, the receiver ends valid exactly when `Scan` reports
      no error; the previous state of the receiver never matters. */
  lemma ScanValidIffNoError<T, F>(n: Null<T>, m: Null<T>, value: DriverValue<T, F>, zero: T, convert: F -> Result<T, Error>)
    ensures !value.NilValue? ==> (Scan(n, value, zero, convert).n.valid <==> Scan(n, value, zero, convert).err == None)
    ensures Scan(n, value, zero, convert) == Scan(m, value, zero, convert)
  {
  }

  /** The JSON round trip: decoding the encoding of any value gives back an `Equal` value
      with no error, given codec laws for the present value. */
  lemma JsonRoundTrip<T(!new)>(n: Null<T>, m: Null<T>, codec: Codec<T>)
    requires n.valid ==> CodecRoundTrips(codec, n.val)
    ensures MarshalJSON(n, codec).Success?
    ensures UnmarshalJSON(m, MarshalJSON(n, codec).value, codec).err == None
    ensures Equal(UnmarshalJSON(m, MarshalJSON(n, codec).value, codec).n, n)
  {
  }

  /** What `errors.As` sees through the wrapped decode error: a syntax error exactly when the
      inner decoder reported one, and `errors.Unwrap` yields the decoder's own error. */
  lemma UnmarshalErrorKeepsKind<T>(n: Null<T>, data: seq<byte>, codec: Codec<T>)
    requires data != NullLiteral && codec.decode(data, n.val).DecodeFailed?
    ensures UnmarshalJSON(n, data, codec).err.Some?
    ensures IsSyntaxError(UnmarshalJSON(n, data, codec).err.value) <==>
              codec.decode(data, n.val) == DecodeFailed(SyntaxError)
    ensures Unwrap(UnmarshalJSON(n, data, codec).err.value) == Some(JsonFailure(codec.decode(data, n.val).err))
  {
  }

  /** A decode error keeps the receiver's flag: a present value stays present and a null stays null. */
  lemma UnmarshalErrorKeepsValid<T>(n: Null<T>, data: seq<byte>, codec: Codec<T>)
    requires data != NullLiteral && codec.decode(data, n.val).DecodeFailed?
    ensures UnmarshalJSON(n, data, codec).n.valid == n.valid
    ensures UnmarshalJSON(n, data, codec).err.Some?
  {
  }
}
