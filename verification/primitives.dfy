/** Java value types the binding passes around: fixed-width integers, bytes,
    nullable references, and `int` arithmetic with its 32-bit wrap-around. */
module Primitives {

  const INT32_MIN: int := -0x8000_0000
  const INT32_MAX: int := 0x7fff_ffff
  const INT64_MIN: int := -0x8000_0000_0000_0000
  const INT64_MAX: int := 0x7fff_ffff_ffff_ffff

  /** Java `int`. */
  type Int32 = x: int | INT32_MIN <= x <= INT32_MAX

  /** Java `long`; native handles are `long` values, 0 meaning "no handle". */
  type Int64 = x: int | INT64_MIN <= x <= INT64_MAX

  /** One byte of a Java `byte[]` or a C `char` buffer, as its unsigned value. */
  type Byte = b: int | 0 <= b < 256

  type Bytes = seq<Byte>

  /** A Java reference that may be `null`. */
  datatype Option<+T> = None | Some(value: T)

  /** Reduces a mathematical integer to the Java `int` with the same low 32 bits. */
  function WrapInt32(x: int): (r: Int32)
    ensures (r - x) % 0x1_0000_0000 == 0
    ensures INT32_MIN <= x <= INT32_MAX ==> r == x
  {
    var m := x % 0x1_0000_0000;
    if m <= INT32_MAX then m else m - 0x1_0000_0000
  }

  /** Java `int * int`: the product wraps around on overflow. */
  function IntMul(a: Int32, b: Int32): (r: Int32)
    ensures INT32_MIN <= a * b <= INT32_MAX ==> r == a * b
    ensures (r - a * b) % 0x1_0000_0000 == 0
  {
    WrapInt32(a * b)
  }

  /** A mebibyte count written `k * 1024 * 1024` in Java source, evaluated left to right in `int`. */
  function Mebibytes(k: Int32): Int32
  {
    IntMul(IntMul(k, 1024), 1024)
  }

  /** The default byte sizes used by the configuration builders do not overflow `int`. */
  lemma DefaultSizesFit()
    ensures Mebibytes(128) == 134217728
    ensures Mebibytes(100) == 104857600
    ensures Mebibytes(64) == 67108864
  {
  }

  /** A Java `String` argument counts as present only when it is non-null and non-empty. */
  predicate NonEmpty(s: Option<string>)
  {
    s.Some? && |s.value| > 0
  }

  /** A Java `byte[]` argument counts as present only when it is non-null and non-empty. */
  predicate NonEmptyBytes(b: Option<Bytes>)
  {
    b.Some? && |b.value| > 0
  }
}
