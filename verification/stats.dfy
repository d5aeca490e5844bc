/** `Stats.java`: column-family statistics as handed back by the native layer, and
    their `toString` rendering. */
module StatsModel {
  import opened Primitives
  import opened Decimal
  import CfConfig

  /** The native layer may hand back null arrays; the configuration is opaque here. */
  datatype Stats = Stats(
    numLevels: Int32,
    memtableSize: Int64,
    levelSizes: Option<seq<Int64>>,
    levelNumSSTables: Option<seq<Int32>>,
    config: Option<CfConfig.ColumnFamilyConfig>)

  /** `new Stats(...)` followed by the five getters returns the arguments unchanged. */
  function NewStats(numLevels: Int32, memtableSize: Int64, levelSizes: Option<seq<Int64>>,
                    levelNumSSTables: Option<seq<Int32>>, config: Option<CfConfig.ColumnFamilyConfig>): (s: Stats)
    ensures s.numLevels == numLevels && s.memtableSize == memtableSize
    ensures s.levelSizes == levelSizes && s.levelNumSSTables == levelNumSSTables && s.config == config
  {
    Stats(numLevels, memtableSize, levelSizes, levelNumSSTables, config)
  }

  /** The elements of an array in order, separated by ", ". */
  function Join(xs: seq<int>): string
  {
    if |xs| == 0 then ""
    else if |xs| == 1 then Render(xs[0])
    else Render(xs[0]) + ", " + Join(xs[1..])
  }

  /** The optional `, tag=[...]` part, absent for a null array. */
  function Segment(tag: string, xs: Option<seq<int>>): string
  {
    if xs.None? then "" else ", " + tag + "=[" + Join(xs.value) + "]"
  }

  function Widen64(xs: Option<seq<Int64>>): Option<seq<int>>
  {
    if xs.None? then None else Some(xs.value)
  }

  function Widen32(xs: Option<seq<Int32>>): Option<seq<int>>
  {
    if xs.None? then None else Some(xs.value)
  }

  const HEAD: string := "Stats{numLevels="
  const MEMTABLE: string := ", memtableSize="
  const LEVEL_SIZES: string := "levelSizes"
  const LEVEL_SSTABLES: string := "levelNumSSTables"

  /** The text `toString` produces. */
  function Format(s: Stats): string
  {
    HEAD + Render(s.numLevels) + MEMTABLE + Render(s.memtableSize)
    + Segment(LEVEL_SIZES, Widen64(s.levelSizes))
    + Segment(LEVEL_SSTABLES, Widen32(s.levelNumSSTables))
    + "}"
  }

  lemma {:induction false} JoinSnoc(xs: seq<int>, x: int)
    ensures Join(xs + [x]) == Join(xs) + (if |xs| > 0 then ", " else "") + Render(x)
    decreases |xs|
  {
    if |xs| == 1 {
      assert (xs + [x])[1..] == [x];
    } else if |xs| > 1 {
      assert (xs + [x])[1..] == xs[1..] + [x];
      JoinSnoc(xs[1..], x);
    }
  }

  /** Appends the elements of `xs` with ", " between neighbours, as the `for` loops
      of `toString` do with the string builder `sb`. */
  method AppendElements(sb: string, xs: seq<int>) returns (r: string)
    ensures r == sb + Join(xs)
  {
    r := sb;
    var i := 0;
    while i < |xs|
      invariant 0 <= i <= |xs|
      invariant r == sb + Join(xs[..i])
    {
      if i > 0 {
        r := r + ", ";
      }
      r := r + Render(xs[i]);
      JoinSnoc(xs[..i], xs[i]);
      assert xs[..i + 1] == xs[..i] + [xs[i]];
      i := i + 1;
    }
    assert xs[..i] == xs;
  }

  /** One `if (array != null) { ... }` block of `toString`: appends the array's part
      to the builder, or nothing for a null array. */
  method AppendSegment(sb: string, tag: string, xs: Option<seq<int>>) returns (r: string)
    ensures r == sb + Segment(tag, xs)
  {
    r := sb;
    if xs.Some? {
      r := r + ", " + tag + "=[";
      r := AppendElements(r, xs.value);
      r := r + "]";
    }
  }

  /** `toString()`, written as the source builds it: head, memtable size, then each
      array only when it is non-null, then the closing brace. */
  method ToString(s: Stats) returns (r: string)
    ensures r == Format(s)
  {
    r := HEAD + Render(s.numLevels);
    r := r + MEMTABLE + Render(s.memtableSize);
    r := AppendSegment(r, LEVEL_SIZES, Widen64(s.levelSizes));
    r := AppendSegment(r, LEVEL_SSTABLES, Widen32(s.levelNumSSTables));
    r := r + "}";
  }

  // Reading the rendering back.

  predicate StartsWith(s: string, p: string)
  {
    |p| <= |s| && s[..|p|] == p
  }

  /** Reads `n1, n2, ..., nk]` with k >= 1, returning the numbers and the text after `]`. */
  function ReadElements(s: string): (r: Option<(seq<int>, string)>)
    ensures r.Some? ==> |r.value.1| < |s|
    decreases |s|
  {
    match ReadInt(s)
    case None => None
    case Some((n, rest)) =>
      if StartsWith(rest, "]") then Some(([n], rest[1..]))
      else if StartsWith(rest, ", ") then
        match ReadElements(rest[2..])
        case None => None
        case Some((ns, after)) => Some(([n] + ns, after))
      else None
  }

  /** Reads a list body up to and including its closing `]`. */
  function ReadList(s: string): (r: Option<(seq<int>, string)>)
  {
    if StartsWith(s, "]") then Some(([], s[1..])) else ReadElements(s)
  }

  /** Reads an optional `, tag=[...]` part. */
  function ReadSegment(tag: string, s: string): Option<(Option<seq<int>>, string)>
  {
    var p := ", " + tag + "=[";
    if StartsWith(s, p) then
      match ReadList(s[|p|..])
      case None => None
      case Some((xs, rest)) => Some((Some(xs), rest))
    else Some((None, s))
  }

  /** What `toString` shows of a `Stats`. */
  datatype Shown = Shown(numLevels: int, memtableSize: int, levelSizes: Option<seq<int>>, levelNumSSTables: Option<seq<int>>)

  /** Parses the optional list parts and the closing brace. */
  function ParseLists(s: string): Option<(Option<seq<int>>, Option<seq<int>>)>
  {
    match ReadSegment(LEVEL_SIZES, s)
    case None => None
    case Some((ls, r1)) =>
      match ReadSegment(LEVEL_SSTABLES, r1)
      case None => None
      case Some((ln, r2)) => if r2 == "}" then Some((ls, ln)) else None
  }

  /** Parses text of the shape `toString` produces. */
  function Parse(s: string): Option<Shown>
  {
    if !StartsWith(s, HEAD) then None
    else match ReadInt(s[|HEAD|..])
    case None => None
    case Some((n, r1)) =>
      if !StartsWith(r1, MEMTABLE) then None
      else match ReadInt(r1[|MEMTABLE|..])
      case None => None
      case Some((m, r2)) =>
        match ParseLists(r2)
        case None => None
        case Some((ls, ln)) => Some(Shown(n, m, ls, ln))
  }

  lemma PrefixOfConcat(p: string, r: string)
    ensures StartsWith(p + r, p)
    ensures (p + r)[|p|..] == r
  {
    assert (p + r)[..|p|] == p;
  }

  lemma ReadLastElement(n: int, rest: string)
    ensures ReadElements(Render(n) + "]" + rest) == Some(([n], rest))
  {
    assert Render(n) + "]" + rest == Render(n) + ("]" + rest);
    ReadRendered(n, "]" + rest);
    PrefixOfConcat("]", rest);
  }

  lemma ReadNextElement(n: int, t: string)
    ensures ReadElements(Render(n) + ", " + t) ==
      match ReadElements(t)
      case None => None
      case Some((ns, after)) => Some(([n] + ns, after))
  {
    assert Render(n) + ", " + t == Render(n) + (", " + t);
    ReadRendered(n, ", " + t);
    PrefixOfConcat(", ", t);
    assert !StartsWith(", " + t, "]");
  }

  lemma {:induction false} ReadJoined(xs: seq<int>, rest: string)
    requires |xs| > 0
    ensures ReadElements(Join(xs) + "]" + rest) == Some((xs, rest))
    decreases |xs|
  {
    if |xs| == 1 {
      assert Join(xs) == Render(xs[0]);
      ReadLastElement(xs[0], rest);
      assert [xs[0]] == xs;
    } else {
      var t := Join(xs[1..]) + "]" + rest;
      assert Join(xs) + "]" + rest == Render(xs[0]) + ", " + t;
      ReadNextElement(xs[0], t);
      ReadJoined(xs[1..], rest);
      assert [xs[0]] + xs[1..] == xs;
    }
  }

  lemma ReadListJoined(xs: seq<int>, rest: string)
    ensures ReadList(Join(xs) + "]" + rest) == Some((xs, rest))
  {
    if |xs| == 0 {
      assert Join(xs) + "]" + rest == "]" + rest;
      assert ("]" + rest)[1..] == rest;
    } else {
      var j := Join(xs);
      assert |j| > 0 && (IsDigit(j[0]) || j[0] == '-');
      assert (j + "]" + rest)[0] == j[0];
      ReadJoined(xs, rest);
    }
  }

  lemma ReadSegmentBack(tag: string, xs: Option<seq<int>>, rest: string)
    requires !StartsWith(rest, ", " + tag + "=[")
    ensures ReadSegment(tag, Segment(tag, xs) + rest) == Some((xs, rest))
  {
    if xs.Some? {
      var p := ", " + tag + "=[";
      var s := Segment(tag, xs) + rest;
      assert s == p + (Join(xs.value) + "]" + rest);
      assert s[..|p|] == p;
      assert s[|p|..] == Join(xs.value) + "]" + rest;
      ReadListJoined(xs.value, rest);
    } else {
      assert Segment(tag, xs) + rest == rest;
    }
  }

  /** The second tag's part, or the closing brace, never looks like the first tag's part. */
  lemma SegmentsDistinguishable(ln: Option<seq<int>>)
    ensures !StartsWith(Segment(LEVEL_SSTABLES, ln) + "}", ", " + LEVEL_SIZES + "=[")
    ensures !StartsWith("}", ", " + LEVEL_SSTABLES + "=[")
  {
    var p := ", " + LEVEL_SIZES + "=[";
    var t := Segment(LEVEL_SSTABLES, ln) + "}";
    if ln.Some? {
      assert t == (", " + LEVEL_SSTABLES + "=[") + (Join(ln.value) + "]}");
      assert t[7] == 'N' && p[7] == 'S';
      assert |p| <= |t| ==> t[..|p|][7] != p[7];
    } else {
      assert t == "}";
    }
  }

  /** The two list parts and the closing brace read back as the two arrays. */
  lemma ListsParse(ls: Option<seq<int>>, ln: Option<seq<int>>)
    ensures ParseLists(Segment(LEVEL_SIZES, ls) + Segment(LEVEL_SSTABLES, ln) + "}") == Some((ls, ln))
  {
    var seg2 := Segment(LEVEL_SSTABLES, ln) + "}";
    assert Segment(LEVEL_SIZES, ls) + Segment(LEVEL_SSTABLES, ln) + "}" == Segment(LEVEL_SIZES, ls) + seg2;
    SegmentsDistinguishable(ln);
    ReadSegmentBack(LEVEL_SIZES, ls, seg2);
    ReadSegmentBack(LEVEL_SSTABLES, ln, "}");
  }

  /** Parsing reads the two numbers and hands what follows them to `ParseLists`. */
  lemma ParseNumbers(n: int, m: int, lists: string)
    requires |lists| > 0 && !IsDigit(lists[0])
    ensures Parse(HEAD + Render(n) + MEMTABLE + Render(m) + lists) ==
      match ParseLists(lists)
      case None => None
      case Some((ls, ln)) => Some(Shown(n, m, ls, ln))
  {
    var afterLevels := MEMTABLE + (Render(m) + lists);
    assert HEAD + Render(n) + MEMTABLE + Render(m) + lists == HEAD + (Render(n) + afterLevels);
    PrefixOfConcat(HEAD, Render(n) + afterLevels);
    ReadRendered(n, afterLevels);
    PrefixOfConcat(MEMTABLE, Render(m) + lists);
    ReadRendered(m, lists);
  }

  /** The list parts begin with ", " or, when both arrays are null, with the brace. */
  lemma ListsStart(ls: Option<seq<int>>, ln: Option<seq<int>>)
    ensures var t := Segment(LEVEL_SIZES, ls) + Segment(LEVEL_SSTABLES, ln) + "}";
            |t| > 0 && (t[0] == ',' || t[0] == '}')
  {
  }

  /** The rendering is faithful: parsing it recovers both numbers, whether each array
      was null, and each array's elements in order. Hence each list part appears iff
      its array is non-null, levelSizes comes first, and an empty array shows "[]". */
  lemma FormatParses(s: Stats)
    ensures Parse(Format(s)) == Some(Shown(s.numLevels, s.memtableSize, Widen64(s.levelSizes), Widen32(s.levelNumSSTables)))
  {
    var ls, ln := Widen64(s.levelSizes), Widen32(s.levelNumSSTables);
    var lists := Segment(LEVEL_SIZES, ls) + Segment(LEVEL_SSTABLES, ln) + "}";
    assert Format(s) == HEAD + Render(s.numLevels) + MEMTABLE + Render(s.memtableSize) + lists;
    ListsStart(ls, ln);
    ParseNumbers(s.numLevels, s.memtableSize, lists);
    ListsParse(ls, ln);
  }

  /** The fixed opening and closing of the rendering. */
  lemma FormatFrame(s: Stats)
    ensures StartsWith(Format(s), HEAD + Render(s.numLevels) + MEMTABLE + Render(s.memtableSize))
    ensures Format(s)[|Format(s)| - 1] == '}'
  {
  }

  /** A list shows exactly |xs| - 1 separators: the number of commas in its rendering. */
  function CountCommas(t: string): nat
  {
    if |t| == 0 then 0 else (if t[0] == ',' then 1 else 0) + CountCommas(t[1..])
  }

  lemma {:induction false} CountCommasAppend(a: string, b: string)
    ensures CountCommas(a + b) == CountCommas(a) + CountCommas(b)
    decreases |a|
  {
    if |a| > 0 {
      assert (a + b)[1..] == a[1..] + b;
      CountCommasAppend(a[1..], b);
    } else {
      assert a + b == b;
    }
  }

  lemma {:induction false} NoCommaInNumber(t: string)
    requires forall i :: 0 < i < |t| ==> IsDigit(t[i])
    requires |t| > 0 ==> (IsDigit(t[0]) || t[0] == '-')
    ensures CountCommas(t) == 0
    decreases |t|
  {
    if |t| > 0 {
      NoCommaInNumber(t[1..]);
    }
  }

  lemma {:induction false} JoinSeparators(xs: seq<int>)
    ensures CountCommas(Join(xs)) == if |xs| == 0 then 0 else |xs| - 1
    decreases |xs|
  {
    if |xs| == 1 {
      NoCommaInNumber(Render(xs[0]));
    } else if |xs| > 1 {
      NoCommaInNumber(Render(xs[0]));
      CountCommasAppend(Render(xs[0]), ", ");
      CountCommasAppend(Render(xs[0]) + ", ", Join(xs[1..]));
      JoinSeparators(xs[1..]);
    }
  }
}
