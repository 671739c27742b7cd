/**
 * The NBT type enumeration: codes, names, the name lookup used by commands, the
 * base/array kind pairing, default values and the parsing of command text into a
 * value of a given kind.
 */
module NbtType {
  import opened Tags
  import opened Numbers

  /** The kinds in declaration order; a kind's position is its code. */
  const AllKinds: seq<Kind> :=
    [END, BYTE, SHORT, INT, LONG, FLOAT, DOUBLE, BYTEARRAY, STRING, LIST, COMPOUND, INTARRAY, LONGARRAY]

  function Code(k: Kind): (c: nat)
    ensures c < |AllKinds| && AllKinds[c] == k
  {
    match k
    case END => 0
    case BYTE => 1
    case SHORT => 2
    case INT => 3
    case LONG => 4
    case FLOAT => 5
    case DOUBLE => 6
    case BYTEARRAY => 7
    case STRING => 8
    case LIST => 9
    case COMPOUND => 10
    case INTARRAY => 11
    case LONGARRAY => 12
  }

  /** The name a kind is shown and looked up by. */
  function Name(k: Kind): string
  {
    match k
    case END => "end"
    case BYTE => "byte"
    case SHORT => "short"
    case INT => "int"
    case LONG => "long"
    case FLOAT => "float"
    case DOUBLE => "double"
    case BYTEARRAY => "byte[]"
    case STRING => "string"
    case LIST => "list"
    case COMPOUND => "compound"
    case INTARRAY => "int[]"
    case LONGARRAY => "long[]"
  }

  /** Codes are positions in `AllKinds`, so two kinds with one code are the same kind. */
  lemma {:induction false} CodeInjective(j: Kind, k: Kind)
    ensures Code(j) == Code(k) ==> j == k
  {
  }

  lemma {:induction false} CodeOfPosition(j: nat)
    requires j < |AllKinds|
    ensures Code(AllKinds[j]) == j
  {
  }

  /** The kind with a given code, found by scanning the kinds in order. */
  method FromByte(b: i8) returns (r: Option<Kind>)
    ensures r.Some? <==> 0 <= b < |AllKinds|
    ensures r.Some? ==> Code(r.value) == b
  {
    var i := 0;
    while i < |AllKinds|
      invariant 0 <= i <= |AllKinds|
      invariant !(0 <= b < i)
    {
      CodeOfPosition(i);
      if Code(AllKinds[i]) == b {
        return Some(AllKinds[i]);
      }
      i := i + 1;
    }
    return None;
  }

  predicate IsPrefix(p: string, s: string)
  {
    |p| <= |s| && s[..|p|] == p
  }

  /** The first kind, from position `i` on, whose name is exactly `s`. */
  function ExactFrom(s: string, i: nat): (r: Option<Kind>)
    requires i <= |AllKinds|
    ensures r.Some? ==> Name(r.value) == s && Code(r.value) >= i
    ensures r.None? ==> forall j :: i <= j < |AllKinds| ==> Name(AllKinds[j]) != s
    decreases |AllKinds| - i
  {
    if i == |AllKinds| then None
    else if Name(AllKinds[i]) == s then Some(AllKinds[i])
    else ExactFrom(s, i + 1)
  }

  /** The first kind, from position `i` on, whose name starts with `s`. */
  function PrefixFrom(s: string, i: nat): (r: Option<Kind>)
    requires i <= |AllKinds|
    ensures r.Some? ==> IsPrefix(s, Name(r.value)) && Code(r.value) >= i
    ensures r.Some? ==> forall j :: i <= j < Code(r.value) ==> !IsPrefix(s, Name(AllKinds[j]))
    ensures r.None? ==> forall j :: i <= j < |AllKinds| ==> !IsPrefix(s, Name(AllKinds[j]))
    decreases |AllKinds| - i
  {
    if i == |AllKinds| then None
    else if IsPrefix(s, Name(AllKinds[i])) then Some(AllKinds[i])
    else PrefixFrom(s, i + 1)
  }

  /**
   * The kind a command names: END for a missing or empty name; otherwise, after
   * lower-casing, the kind named exactly so, else the first kind whose name starts
   * with it, else END.
   */
  function KindFromName(name: Option<string>): Kind
  {
    if name.None? || name.value == [] then END
    else
      var s := Lower(name.value);
      match ExactFrom(s, 0)
      case Some(k) => k
      case None =>
        match PrefixFrom(s, 0)
        case Some(k) => k
        case None => END
  }

  /** The same lookup as `KindFromName`, with the two scans written as loops. */
  method FromString(name: Option<string>) returns (r: Kind)
    ensures r == KindFromName(name)
  {
    if name.None? || name.value == [] {
      return END;
    }
    var s := Lower(name.value);
    var exact := FindExact(s);
    if exact.Some? {
      return exact.value;
    }
    var prefix := FindPrefix(s);
    if prefix.Some? {
      return prefix.value;
    }
    return END;
  }

  /** The first loop of `FromString`: the kind named exactly `s`. */
  method FindExact(s: string) returns (r: Option<Kind>)
    ensures r == ExactFrom(s, 0)
  {
    var i := 0;
    while i < |AllKinds|
      invariant 0 <= i <= |AllKinds|
      invariant ExactFrom(s, 0) == ExactFrom(s, i)
    {
      var k := AllKinds[i];
      if s == Name(k) {
        return Some(k);
      }
      assert ExactFrom(s, i) == ExactFrom(s, i + 1);
      i := i + 1;
    }
    return None;
  }

  /** The second loop of `FromString`: the first kind whose name starts with `s`. */
  method FindPrefix(s: string) returns (r: Option<Kind>)
    ensures r == PrefixFrom(s, 0)
  {
    var i := 0;
    while i < |AllKinds|
      invariant 0 <= i <= |AllKinds|
      invariant PrefixFrom(s, 0) == PrefixFrom(s, i)
    {
      var k := AllKinds[i];
      if IsPrefix(s, Name(k)) {
        return Some(k);
      }
      assert PrefixFrom(s, i) == PrefixFrom(s, i + 1);
      i := i + 1;
    }
    return None;
  }

  /** Names are lower-case already. */
  lemma {:induction false} NameIsLower(k: Kind)
    ensures Lower(Name(k)) == Name(k)
  {
    LowerOfLowerCase(Name(k));
  }

  /** Every kind is found by its own name, whatever the case of its ASCII letters. */
  lemma {:induction false} KindFromOwnName(k: Kind, s: string)
    requires Lower(s) == Name(k)
    ensures KindFromName(Some(s)) == k
  {
    assert |s| == |Name(k)| > 0;
    var r := ExactFrom(Name(k), 0);
    assert Name(AllKinds[Code(k)]) == Name(k);
    NamesDistinct(r.value, k);
  }

  lemma {:induction false} NamesDistinct(j: Kind, k: Kind)
    ensures Name(j) == Name(k) ==> j == k
  {
  }

  /**
   * The exact-name pass never changes the answer: a kind's full name is not the
   * beginning of any kind declared before it.
   */
  lemma {:induction false} ExactNameIsFirstPrefix(k: Kind)
    ensures PrefixFrom(Name(k), 0) == Some(k)
  {
    var r := PrefixFrom(Name(k), 0);
    assert IsPrefix(Name(k), Name(AllKinds[Code(k)]));
    assert r.Some?;
    assert Code(r.value) <= Code(k);
    assert IsPrefix(Name(k), Name(r.value));
    PrefixOrder(r.value, k);
  }

  /** The only name extending another is the array kind after its base kind. */
  lemma {:induction false} PrefixOrder(j: Kind, k: Kind)
    requires IsPrefix(Name(k), Name(j)) && Code(j) <= Code(k)
    ensures j == k
  {
    assert Name(j)[0] == Name(k)[0] && Name(j)[1] == Name(k)[1];
  }

  /**
   * A non-empty name selects the first kind, in code order, whose name starts with
   * it (lower-cased), and END when there is none.
   */
  lemma {:induction false} KindFromNameIsFirstPrefix(name: string)
    requires name != []
    ensures var s := Lower(name);
      (exists j :: 0 <= j < |AllKinds| && IsPrefix(s, Name(AllKinds[j]))) ==>
        IsPrefix(s, Name(KindFromName(Some(name)))) &&
        forall j :: 0 <= j < Code(KindFromName(Some(name))) ==> !IsPrefix(s, Name(AllKinds[j]))
    ensures var s := Lower(name);
      (forall j :: 0 <= j < |AllKinds| ==> !IsPrefix(s, Name(AllKinds[j]))) ==>
        KindFromName(Some(name)) == END
  {
    var s := Lower(name);
    match ExactFrom(s, 0)
    case Some(k) =>
      ExactNameIsFirstPrefix(k);
    case None =>
  }

  /** The element kind of an array kind; other kinds have none. */
  function BaseType(k: Kind): Option<Kind>
  {
    match k
    case BYTEARRAY => Some(BYTE)
    case INTARRAY => Some(INT)
    case LONGARRAY => Some(LONG)
    case _ => None
  }

  /** The array kind holding a kind; only byte, int and long have one. */
  function ArrayType(k: Kind): Option<Kind>
  {
    match k
    case BYTE => Some(BYTEARRAY)
    case INT => Some(INTARRAY)
    case LONG => Some(LONGARRAY)
    case _ => None
  }

  /** `BaseType` and `ArrayType` are inverse partial maps. */
  lemma {:induction false} BaseArrayInverse(a: Kind, b: Kind)
    ensures ArrayType(b) == Some(a) <==> BaseType(a) == Some(b)
    ensures BaseType(a).Some? <==> a in {BYTEARRAY, INTARRAY, LONGARRAY}
  {
  }

  /** The value a fresh tag of each kind holds; END holds no tag at all. */
  function DefaultValue(k: Kind): (r: Option<Tag>)
    ensures KindOf(r) == k
    ensures r.Some? && r.value.Byte? ==> r.value.b == 0
    ensures r.Some? && r.value.Short? ==> r.value.s == 0
    ensures r.Some? && r.value.Int? ==> r.value.i == 0
    ensures r.Some? && r.value.Long? ==> r.value.l == 0
    ensures r.Some? && r.value.String? ==> r.value.str == ""
    ensures r.Some? && r.value.ByteArray? ==> r.value.bytes == []
    ensures r.Some? && r.value.IntArray? ==> r.value.ints == []
    ensures r.Some? && r.value.LongArray? ==> r.value.longs == []
    ensures r.Some? && r.value.List? ==> r.value.items == []
    ensures r.Some? && r.value.Compound? ==> r.value.entries == map[]
  {
    match k
    case END => None
    case BYTE => Some(Byte(0))
    case SHORT => Some(Short(0))
    case INT => Some(Int(0))
    case LONG => Some(Long(0))
    case FLOAT => Some(Float("0.0"))
    case DOUBLE => Some(Double("0.0"))
    case BYTEARRAY => Some(ByteArray([]))
    case STRING => Some(String(""))
    case LIST => Some(List([]))
    case COMPOUND => Some(Compound(map[]))
    case INTARRAY => Some(IntArray([]))
    case LONGARRAY => Some(LongArray([]))
  }

  /**
   * The outcome of parsing text as a kind: a value, the "error_parse" failure with
   * the text and type name it reports, or a result that rests on Java's
   * floating-point parser (`Double.parseDouble`/`Float.parseFloat` applied to the
   * text, narrowed to the kind), which this model does not evaluate.
   */
  datatype Parsed =
    | Value(tag: Tag)
    | ParseError(text: string, typeName: string)
    | ViaFloatingPoint(text: string, kind: Kind)

  /** The width in bits of the integers a kind holds (arrays: their elements). */
  function Width(k: Kind): (w: nat)
    ensures w >= 8
  {
    match k
    case BYTE => 8
    case BYTEARRAY => 8
    case SHORT => 16
    case INT => 32
    case INTARRAY => 32
    case _ => 64
  }

  /** The signed ranges of Java's four integer widths. */
  lemma {:induction false} WidthRanges(n: int)
    ensures InRange(n, 8) <==> -0x80 <= n < 0x80
    ensures InRange(n, 16) <==> -0x8000 <= n < 0x8000
    ensures InRange(n, 32) <==> -0x8000_0000 <= n < 0x8000_0000
    ensures InRange(n, 64) <==> -0x8000_0000_0000_0000 <= n < 0x8000_0000_0000_0000
  {
    Pow2Values();
  }

  /** The integer tag of a kind holding `n`. */
  function IntegerTag(k: Kind, n: int): (t: Tag)
    requires k in {BYTE, SHORT, INT, LONG} && InRange(n, Width(k))
    ensures KindOf(Some(t)) == k
  {
    WidthRanges(n);
    match k
    case BYTE => Byte(n)
    case SHORT => Short(n)
    case INT => Int(n)
    case LONG => Long(n)
  }

  predicate DecimalToken(x: string)
  {
    var d := if |x| >= 1 && x[0] == '-' then x[1..] else x;
    |d| >= 1 && forall i :: 0 <= i < |d| ==> '0' <= d[i] <= '9'
  }

  predicate HexToken(x: string)
  {
    |x| >= 1 && x[0] == '#' &&
    var d := if |x| >= 2 && x[1] == '-' then x[2..] else x[1..];
    |d| >= 1 && forall i :: 0 <= i < |d| ==> DigitValue(d[i], 16).Some?
  }

  /** The pieces of `s` between commas (`String.split(",")` where no piece is empty at the end). */
  function SplitComma(s: string): (r: seq<string>)
    ensures |r| >= 1
  {
    if s == [] then [""]
    else if s[0] == ',' then [""] + SplitComma(s[1..])
    else
      var rest := SplitComma(s[1..]);
      [[s[0]] + rest[0]] + rest[1..]
  }

  /**
   * The array literal syntax: `[`, then decimal or `#`-prefixed hexadecimal
   * integers separated by single commas, then `]`.
   */
  predicate ArrayLiteral(s: string)
  {
    |s| >= 2 && s[0] == '[' && s[|s| - 1] == ']' &&
    var inner := s[1..|s| - 1];
    inner == [] ||
    var ts := SplitComma(inner);
    forall i :: 0 <= i < |ts| ==> DecimalToken(ts[i]) || HexToken(ts[i])
  }

  /**
   * One array element: a `#` token is read as a signed hexadecimal long, any other
   * as a decimal long; the long is then narrowed to the element width.
   */
  function ElementValue(x: string, bits: nat): (r: Option<int>)
    requires 1 <= bits <= 64
    ensures r.Some? ==> InRange(r.value, bits)
  {
    var n := if |x| >= 1 && x[0] == '#' then ParseSigned(x[1..], 16, 64) else ParseLong(x);
    match n
    case None => None
    case Some(v) => Some(Wrap(v, bits))
  }

  /** The elements' values, or the first token that is not a long. */
  datatype Elements = Elems(vals: seq<int>) | BadElement(token: string)

  function ElementValues(ts: seq<string>, bits: nat): (r: Elements)
    requires 1 <= bits <= 64
    ensures r.Elems? ==> |r.vals| == |ts| && forall i :: 0 <= i < |ts| ==> ElementValue(ts[i], bits) == Some(r.vals[i])
    ensures r.BadElement? <==> exists i :: 0 <= i < |ts| && ElementValue(ts[i], bits).None?
  {
    if ts == [] then Elems([])
    else
      match ElementValues(ts[..|ts| - 1], bits)
      case BadElement(x) =>
        assert forall i :: 0 <= i < |ts| - 1 ==> ts[..|ts| - 1][i] == ts[i];
        BadElement(x)
      case Elems(vs) =>
        assert forall i :: 0 <= i < |ts| - 1 ==> ts[..|ts| - 1][i] == ts[i];
        match ElementValue(ts[|ts| - 1], bits)
        case None => BadElement(ts[|ts| - 1])
        case Some(v) => Elems(vs + [v])
  }

  /** The array tag of an array kind holding `vals`. */
  function ArrayTag(k: Kind, vals: seq<int>): (t: Tag)
    requires k in {BYTEARRAY, INTARRAY, LONGARRAY}
    requires forall i :: 0 <= i < |vals| ==> InRange(vals[i], Width(k))
    ensures KindOf(Some(t)) == k
  {
    match k
    case BYTEARRAY =>
      forall i | 0 <= i < |vals|
        ensures -0x80 <= vals[i] < 0x80
      {
        assert InRange(vals[i], Width(k));
        WidthRanges(vals[i]);
      }
      ByteArray(vals)
    case INTARRAY =>
      forall i | 0 <= i < |vals|
        ensures -0x8000_0000 <= vals[i] < 0x8000_0000
      {
        assert InRange(vals[i], Width(k));
        WidthRanges(vals[i]);
      }
      IntArray(vals)
    case LONGARRAY =>
      forall i | 0 <= i < |vals|
        ensures -0x8000_0000_0000_0000 <= vals[i] < 0x8000_0000_0000_0000
      {
        assert InRange(vals[i], Width(k));
        WidthRanges(vals[i]);
      }
      LongArray(vals)
  }

  /**
   * Parsing an array literal. A malformed literal reports the int[] type name for
   * byte[] and int[] alike; a bad element reports the element kind's name.
   */
  function ParseArrayText(k: Kind, s: string): (r: Parsed)
    requires k in {BYTEARRAY, INTARRAY, LONGARRAY}
    ensures r.Value? ==> KindOf(Some(r.tag)) == k
  {
    if !ArrayLiteral(s) then ParseError(s, if k == LONGARRAY then Name(LONGARRAY) else Name(INTARRAY))
    else
      var inner := s[1..|s| - 1];
      if inner == [] then Value(ArrayTag(k, []))
      else
        match ElementValues(SplitComma(inner), Width(k))
        case BadElement(x) => ParseError(x, Name(BaseType(k).value))
        case Elems(vs) => Value(ArrayTag(k, vs))
  }

  /**
   * Parsing command text as a value of kind `k`. Integer kinds read the text as a
   * long and narrow it, falling back to the floating-point parser; strings are taken
   * as they are; list, compound and END cannot be parsed from text.
   */
  function ParseText(k: Kind, s: string): (r: Parsed)
    ensures r.Value? ==> KindOf(Some(r.tag)) == k
    ensures r.ViaFloatingPoint? ==> r.text == s && r.kind == k
  {
    match k
    case STRING => Value(String(s))
    case BYTE | SHORT | INT | LONG =>
      (match ParseLong(s)
       case Some(n) => Value(IntegerTag(k, Wrap(n, Width(k))))
       case None => ViaFloatingPoint(s, k))
    case DOUBLE =>
      if Lower(s) == "nan" then Value(Double("NaN")) else ViaFloatingPoint(s, k)
    case FLOAT =>
      if Lower(s) == "nan" then Value(Float("NaN")) else ViaFloatingPoint(s, k)
    case BYTEARRAY | INTARRAY | LONGARRAY => ParseArrayText(k, s)
    case _ => ParseError(s, Name(k))
  }

  /** The same parse; array literals are read by `ParseArray`. */
  method Parse(k: Kind, s: string) returns (r: Parsed)
    ensures r == ParseText(k, s)
  {
    if k in {BYTEARRAY, INTARRAY, LONGARRAY} {
      r := ParseArray(k, s);
    } else {
      r := ParseText(k, s);
    }
  }

  /** Array literals, as `ParseArrayText`. */
  method ParseArray(k: Kind, s: string) returns (r: Parsed)
    requires k in {BYTEARRAY, INTARRAY, LONGARRAY}
    ensures r == ParseArrayText(k, s)
  {
    if !ArrayLiteral(s) {
      return ParseError(s, if k == LONGARRAY then Name(LONGARRAY) else Name(INTARRAY));
    }
    var inner := s[1..|s| - 1];
    if inner == [] {
      return Value(ArrayTag(k, []));
    }
    var e := ReadElements(SplitComma(inner), Width(k));
    match e
    case BadElement(x) =>
      r := ParseError(x, Name(BaseType(k).value));
    case Elems(vs) =>
      r := Value(ArrayTag(k, vs));
  }

  /** The element values, filled into a fresh array one token at a time. */
  method ReadElements(ts: seq<string>, bits: nat) returns (e: Elements)
    requires 1 <= bits <= 64
    ensures e == ElementValues(ts, bits)
  {
    var v := new int[|ts|];
    var i := 0;
    while i < |ts|
      invariant 0 <= i <= |ts|
      invariant ElementValues(ts[..i], bits) == Elems(v[..i])
    {
      var t := ElementValue(ts[i], bits);
      assert ts[..i + 1][..i] == ts[..i];
      if t.None? {
        PrefixBad(ts, bits, i + 1);
        return BadElement(ts[i]);
      }
      v[i] := t.value;
      i := i + 1;
      assert v[..i] == v[..i - 1] + [t.value];
    }
    assert ts[..i] == ts;
    assert v[..] == v[..i];
    return Elems(v[..]);
  }

  /** A bad token at the end of a prefix is also the first bad token of the whole list. */
  lemma {:induction false} PrefixBad(ts: seq<string>, bits: nat, n: nat)
    requires 1 <= bits <= 64 && 1 <= n <= |ts|
    requires ElementValues(ts[..n - 1], bits).Elems? && ElementValue(ts[n - 1], bits).None?
    ensures ElementValues(ts, bits) == BadElement(ts[n - 1])
    decreases |ts| - n
  {
    assert ts[..n][..n - 1] == ts[..n - 1];
    if n < |ts| {
      assert ts[..n + 1][..n] == ts[..n];
      PrefixBadStep(ts, bits, n);
      PrefixBad2(ts, bits, n + 1, ts[n - 1]);
    } else {
      assert ts[..n] == ts;
    }
  }

  lemma {:induction false} PrefixBadStep(ts: seq<string>, bits: nat, n: nat)
    requires 1 <= bits <= 64 && 1 <= n < |ts|
    requires ElementValues(ts[..n - 1], bits).Elems? && ElementValue(ts[n - 1], bits).None?
    ensures ElementValues(ts[..n], bits) == BadElement(ts[n - 1])
  {
    assert ts[..n][..n - 1] == ts[..n - 1];
  }

  /** Once a prefix has a first bad token, every longer prefix reports the same one. */
  lemma {:induction false} PrefixBad2(ts: seq<string>, bits: nat, n: nat, x: string)
    requires 1 <= bits <= 64 && 1 <= n <= |ts|
    requires ElementValues(ts[..n - 1], bits) == BadElement(x)
    ensures ElementValues(ts, bits) == BadElement(x)
    decreases |ts| - n
  {
    assert ts[..n][..n - 1] == ts[..n - 1];
    if n < |ts| {
      PrefixBad2(ts, bits, n + 1, x);
    } else {
      assert ts[..n] == ts;
    }
  }
}

module NbtTypeFacts {
  import opened Tags
  import opened Numbers
  import opened NbtType

  /** Decimal text of a long, read as an integer kind, is that long narrowed to the kind's width. */
  lemma {:induction false} IntegerNarrowing(k: Kind, n: int)
    requires k in {BYTE, SHORT, INT, LONG} && InRange(n, 64)
    ensures ParseText(k, ToDecimal(n)) == Value(IntegerTag(k, Wrap(n, Width(k))))
  {
    ParseToDecimal(n, 64);
  }

  /** A value inside the kind's range survives printing and parsing unchanged. */
  lemma {:induction false} IntegerRoundTrip(k: Kind, n: int)
    requires k in {BYTE, SHORT, INT, LONG} && InRange(n, Width(k))
    ensures ParseText(k, ToDecimal(n)) == Value(IntegerTag(k, n))
  {
    WidthRanges(n);
    IntegerNarrowing(k, n);
  }

  /** Out of range, a byte is the low eight bits: "200" reads as -56. */
  lemma {:induction false} ByteOverflowWraps()
    ensures ParseText(BYTE, "200") == Value(Byte(-56))
  {
    Decimal200();
    Wrap200();
    IntegerNarrowing(BYTE, 200);
    assert IntegerTag(BYTE, -56) == Byte(-56);
  }

  lemma {:induction false} Decimal200()
    ensures ToDecimal(200) == "200"
  {
    assert NatDigits(2) == "2";
    assert NatDigits(20) == NatDigits(2) + "0";
    assert NatDigits(200) == NatDigits(20) + "0";
  }

  lemma {:induction false} Wrap200()
    ensures Wrap(200, Width(BYTE)) == -56 && InRange(200, 64)
  {
    Pow2Values();
  }

  /** Only text whose integer kind accepts it as a long is a value; the rest goes to the floating-point parser. */
  lemma {:induction false} IntegerFallback(k: Kind, s: string)
    requires k in {BYTE, SHORT, INT, LONG}
    ensures ParseText(k, s).Value? <==> ParseLong(s).Some?
    ensures ParseLong(s).None? ==> ParseText(k, s) == ViaFloatingPoint(s, k)
  {
  }

  /** Lists, compounds and END are never parsed from text. */
  lemma {:induction false} StructuredKindsRejected(k: Kind, s: string)
    requires k in {END, LIST, COMPOUND}
    ensures ParseText(k, s) == ParseError(s, Name(k))
  {
  }

  /** The pieces joined back with commas. */
  function JoinComma(ts: seq<string>): string
    requires |ts| >= 1
  {
    if |ts| == 1 then ts[0] else JoinComma(ts[..|ts| - 1]) + "," + ts[|ts| - 1]
  }

  /** The text the array literal of `xs` is written as. */
  function RenderArray(xs: seq<int>): string
  {
    if xs == [] then "[]"
    else "[" + JoinComma(DecimalTexts(xs)) + "]"
  }

  lemma {:induction false} SplitNoComma(t: string)
    requires ',' !in t
    ensures SplitComma(t) == [t]
  {
    if t != [] {
      assert t[0] in t;
      assert forall c :: c in t[1..] ==> c in t;
      SplitNoComma(t[1..]);
      assert [t[0]] + t[1..] == t;
    }
  }

  /** Splitting at a comma splits each side separately. */
  lemma {:induction false} SplitAppend(a: string, b: string)
    ensures SplitComma(a + "," + b) == SplitComma(a) + SplitComma(b)
  {
    if a == [] {
      assert a + "," + b == [','] + b;
    } else {
      assert (a + "," + b)[1..] == a[1..] + "," + b;
      SplitAppend(a[1..], b);
    }
  }

  /** Joining comma-free pieces and splitting again gives the pieces back. */
  lemma {:induction false} SplitJoin(ts: seq<string>)
    requires |ts| >= 1 && forall i :: 0 <= i < |ts| ==> ',' !in ts[i]
    ensures SplitComma(JoinComma(ts)) == ts
  {
    var last := ts[|ts| - 1];
    SplitNoComma(last);
    if |ts| > 1 {
      SplitJoin(ts[..|ts| - 1]);
      SplitAppend(JoinComma(ts[..|ts| - 1]), last);
    }
  }

  lemma {:induction false} DecimalTextIsToken(n: int)
    ensures DecimalToken(ToDecimal(n)) && ',' !in ToDecimal(n) && ToDecimal(n)[0] != '#'
  {
    var s := ToDecimal(n);
    var d := if n < 0 then NatDigits(-n) else NatDigits(n);
    assert n < 0 ==> s[1..] == d;
    assert forall i :: 0 <= i < |d| ==> '0' <= d[i] <= '9' by {
      forall i | 0 <= i < |d| ensures '0' <= d[i] <= '9' {
        assert DigitValue(d[i], 10).Some?;
      }
    }
    assert forall i :: 0 <= i < |s| ==> s[i] == '-' || '0' <= s[i] <= '9' by {
      forall i | 0 <= i < |s| ensures s[i] == '-' || '0' <= s[i] <= '9' {
        if n < 0 && i > 0 {
          assert s[i] == d[i - 1];
        }
      }
    }
  }

  /** The decimal texts of the elements of `xs`. */
  function DecimalTexts(xs: seq<int>): (ts: seq<string>)
    ensures |ts| == |xs| && forall i :: 0 <= i < |xs| ==> ts[i] == ToDecimal(xs[i])
  {
    seq(|xs|, i requires 0 <= i < |xs| => ToDecimal(xs[i]))
  }

  lemma {:induction false} RenderedTokens(xs: seq<int>, bits: nat)
    requires 1 <= bits <= 64 && forall i :: 0 <= i < |xs| ==> InRange(xs[i], bits)
    ensures forall i :: 0 <= i < |xs| ==> DecimalToken(DecimalTexts(xs)[i]) && ',' !in DecimalTexts(xs)[i]
    ensures ElementValues(DecimalTexts(xs), bits) == Elems(xs)
  {
    var ts := DecimalTexts(xs);
    forall i | 0 <= i < |ts|
      ensures DecimalToken(ts[i]) && ',' !in ts[i]
      ensures ElementValue(ts[i], bits) == Some(xs[i])
    {
      DecimalElement(xs[i], bits);
    }
    var r := ElementValues(ts, bits);
    assert r.Elems?;
    assert r.vals == xs;
  }

  lemma {:induction false} DecimalElement(x: int, bits: nat)
    requires 1 <= bits <= 64 && InRange(x, bits)
    ensures DecimalToken(ToDecimal(x)) && ',' !in ToDecimal(x)
    ensures ElementValue(ToDecimal(x), bits) == Some(x)
  {
    DecimalTextIsToken(x);
    InRangeWiden(x, bits, 64);
    LongElement(x, ToDecimal(x), bits);
  }

  lemma {:induction false} LongElement(x: int, t: string, bits: nat)
    requires 1 <= bits <= 64 && InRange(x, bits) && InRange(x, 64) && t == ToDecimal(x) && t[0] != '#'
    ensures ElementValue(t, bits) == Some(x)
  {
    ParseToDecimal(x, 64);
  }

  /** Printing the elements of an array and parsing the literal back gives the same array. */
  lemma {:induction false} ArrayRoundTrip(k: Kind, xs: seq<int>)
    requires k in {BYTEARRAY, INTARRAY, LONGARRAY}
    requires forall i :: 0 <= i < |xs| ==> InRange(xs[i], Width(k))
    ensures ParseText(k, RenderArray(xs)) == Value(ArrayTag(k, xs))
  {
    var s := RenderArray(xs);
    assert ParseText(k, s) == ParseArrayText(k, s);
    if xs == [] {
      assert s[1..|s| - 1] == [];
    } else {
      var ts := DecimalTexts(xs);
      assert s[1..|s| - 1] == JoinComma(ts);
      RenderedTokens(xs, Width(k));
      SplitJoin(ts);
      RenderedLiteral(s, ts);
    }
  }

  /** Bracketed text whose comma pieces are decimal tokens is an array literal. */
  lemma {:induction false} RenderedLiteral(s: string, ts: seq<string>)
    requires |s| >= 2 && s[0] == '[' && s[|s| - 1] == ']' && SplitComma(s[1..|s| - 1]) == ts
    requires forall i :: 0 <= i < |ts| ==> DecimalToken(ts[i])
    ensures ArrayLiteral(s)
  {
  }

  /** Hexadecimal elements are read as longs and narrowed: `#ff` is the byte -1. */
  lemma {:induction false} HexByteElement()
    ensures ElementValue("#ff", 8) == Some(-1)
  {
    HexFF();
    assert "#ff"[1..] == "ff";
    Wrap255();
  }

  lemma {:induction false} HexFF()
    ensures ParseSigned("ff", 16, 64) == Some(255)
  {
    DigitsFF();
    Pow2Values();
  }

  lemma {:induction false} DigitsFF()
    ensures DigitsOf("ff", 16) == Some(255)
  {
    var d := "ff";
    assert DigitValue('f', 16) == Some(15);
    assert d[..1] == "f";
    assert DigitsOf(d[..1], 16) == Some(15);
  }

  lemma {:induction false} Wrap255()
    ensures Wrap(255, 8) == -1
  {
    Pow2Values();
  }

  /** A malformed byte array literal is reported with the int[] type name. */
  lemma {:induction false} MalformedByteArrayNamesIntArray(s: string)
    requires !ArrayLiteral(s)
    ensures ParseText(BYTEARRAY, s) == ParseError(s, "int[]")
  {
  }
}
