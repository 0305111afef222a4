/** Go's fixed-width scalar types the package relies on, and ASCII byte strings. */
module Primitives {

  /** Go's `byte`. */
  newtype byte = b: int | 0 <= b < 256

  const MinInt64: int := -0x8000_0000_0000_0000
  const MaxInt64: int := 0x7FFF_FFFF_FFFF_FFFF

  /** Go's `int64` (and `int`, taken as 64 bits wide). */
  type Int64 = x: int | MinInt64 <= x <= MaxInt64

  /** The bytes of a string literal written in ASCII, as Go's `[]byte("...")` yields them. */
  function Ascii(s: string): (r: seq<byte>)
    requires forall i :: 0 <= i < |s| ==> s[i] as int < 128
    ensures |r| == |s|
    ensures forall i :: 0 <= i < |s| ==> r[i] as int == s[i] as int
  {
    seq(|s|, i requires 0 <= i < |s| => s[i] as int as byte)
  }

  /** The JSON literals: `null` (null.go:16), `true` and `false`, as bytes. */
  const NullLiteral: seq<byte> := [0x6E, 0x75, 0x6C, 0x6C]
  const TrueLiteral: seq<byte> := [0x74, 0x72, 0x75, 0x65]
  const FalseLiteral: seq<byte> := [0x66, 0x61, 0x6C, 0x73, 0x65]
}
