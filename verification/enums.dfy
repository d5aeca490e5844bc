/** The `fromValue` scan shared by the binding's enums: `values()` in declaration
    order, first constant whose wire value matches. */
module EnumLookup {
  import opened Primitives

  function FirstWithValue<E>(values: seq<E>, wire: E -> int, v: int): (r: Option<E>)
    ensures r.None? <==> forall i :: 0 <= i < |values| ==> wire(values[i]) != v
    ensures r.Some? ==> r.value in values && wire(r.value) == v
    ensures r.Some? ==> exists i :: 0 <= i < |values| && values[i] == r.value && wire(values[i]) == v
                                   && forall j :: 0 <= j < i ==> wire(values[j]) != v
  {
    if |values| == 0 then None
    else if wire(values[0]) == v then Some(values[0])
    else
      FirstWithValue(values[1..], wire, v)
  }
}

/** `CompressionAlgorithm.java`: the column-family compression enum and its wire codec. */
module Compression {
  import opened Primitives
  import opened Outcomes
  import Decimal
  import EnumLookup

  datatype CompressionAlgorithm = NoCompression | Lz4Compression | ZstdCompression | Lz4FastCompression

  /** `values()`, in declaration order. */
  const Values: seq<CompressionAlgorithm> := [NoCompression, Lz4Compression, ZstdCompression, Lz4FastCompression]

  /** `getValue()`: the wire value is the constant's position in `values()`. */
  function GetValue(a: CompressionAlgorithm): (v: Int32)
    ensures 0 <= v < |Values| && Values[v] == a
  {
    match a
    case NoCompression => 0
    case Lz4Compression => 1
    case ZstdCompression => 2
    case Lz4FastCompression => 3
  }

  /** Wire values are 0..3, pairwise distinct, and every constant appears in `values()`. */
  lemma WireValuesDistinct()
    ensures forall a :: 0 <= GetValue(a) <= 3
    ensures forall a, b :: GetValue(a) == GetValue(b) ==> a == b
    ensures forall a :: a in Values
  {
    forall a ensures a in Values {
      assert Values[GetValue(a)] == a;
    }
  }

  /** Decodes a wire value; any value outside 0..3 is an illegal argument. */
  function FromValue(v: Int32): (r: Outcome<CompressionAlgorithm>)
    ensures r.Returned? <==> 0 <= v <= 3
    ensures r.Returned? ==> GetValue(r.value) == v
    ensures r.Threw? ==> r.failure == IllegalArgument("Unknown compression algorithm value: " + Decimal.Render(v))
  {
    match EnumLookup.FirstWithValue(Values, x => GetValue(x), v)
    case Some(a) =>
      assert GetValue(a) == v;
      Returned(a)
    case None =>
      assert GetValue(Values[0]) == 0 && GetValue(Values[1]) == 1 && GetValue(Values[2]) == 2 && GetValue(Values[3]) == 3;
      Threw(IllegalArgument("Unknown compression algorithm value: " + Decimal.Render(v)))
  }

  lemma DecodeEncode(a: CompressionAlgorithm)
    ensures FromValue(GetValue(a)) == Returned(a)
  {
    WireValuesDistinct();
  }

  lemma EncodeDecode(v: Int32)
    requires 0 <= v <= 3
    ensures FromValue(v).Returned? && GetValue(FromValue(v).value) == v
  {
  }
}

/** `LogLevel.java`: the database log level enum and its wire codec. */
module LogLevels {
  import opened Primitives
  import opened Outcomes
  import Decimal
  import EnumLookup

  datatype LogLevel = Debug | Info | Warn | Error | Fatal | NoLogging

  /** `values()`, in declaration order DEBUG, INFO, WARN, ERROR, FATAL, NONE. */
  const Values: seq<LogLevel> := [Debug, Info, Warn, Error, Fatal, NoLogging]

  /** `getValue()`: the wire value is the level's position in `values()`. */
  function GetValue(l: LogLevel): (v: Int32)
    ensures 0 <= v < |Values| && Values[v] == l
  {
    match l
    case Debug => 0
    case Info => 1
    case Warn => 2
    case Error => 3
    case Fatal => 4
    case NoLogging => 5
  }

  /** Wire values are 0..5 and strictly increase in declaration order, so they are distinct. */
  lemma WireValuesOrdered()
    ensures forall i, j :: 0 <= i < j < |Values| ==> GetValue(Values[i]) < GetValue(Values[j])
    ensures forall i :: 0 <= i < |Values| ==> GetValue(Values[i]) == i
    ensures forall l :: l in Values
    ensures forall a, b :: GetValue(a) == GetValue(b) ==> a == b
  {
    forall l ensures l in Values {
      assert Values[GetValue(l)] == l;
    }
  }

  /** Decodes a wire value; any value outside 0..5 is an illegal argument. */
  function FromValue(v: Int32): (r: Outcome<LogLevel>)
    ensures r.Returned? <==> 0 <= v <= 5
    ensures r.Returned? ==> GetValue(r.value) == v
    ensures r.Threw? ==> r.failure == IllegalArgument("Unknown log level value: " + Decimal.Render(v))
  {
    match EnumLookup.FirstWithValue(Values, x => GetValue(x), v)
    case Some(l) =>
      assert GetValue(l) == v;
      Returned(l)
    case None =>
      assert GetValue(Values[0]) == 0 && GetValue(Values[1]) == 1 && GetValue(Values[2]) == 2;
      assert GetValue(Values[3]) == 3 && GetValue(Values[4]) == 4 && GetValue(Values[5]) == 5;
      Threw(IllegalArgument("Unknown log level value: " + Decimal.Render(v)))
  }

  lemma DecodeEncode(l: LogLevel)
    ensures FromValue(GetValue(l)) == Returned(l)
  {
    WireValuesOrdered();
  }

  lemma EncodeDecode(v: Int32)
    requires 0 <= v <= 5
    ensures FromValue(v).Returned? && GetValue(FromValue(v).value) == v
  {
  }
}
