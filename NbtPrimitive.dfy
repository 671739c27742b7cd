/**
 * The primitive-literal classifier of the literal-text parser (`PrimitiveParser.parse`):
 * an ordered list of patterns, the first that matches decides the value.
 *
 * The patterns' character classes are written `[d|D]`, `[b|B]` and so on, so each
 * class also admits `|`. The double pattern is tried first, so a number ending in
 * `|` always reads as a double; the model keeps that order.
 */
module NbtPrimitive {
  import opened Tags
  import opened Numbers
  import opened NbtScan
  import NbtType

  // ---------------------------------------------------------------- patterns

  predicate IsDigit(c: char)
  {
    '0' <= c <= '9'
  }

  /** Every character is an ASCII digit (`[0-9]*`). */
  predicate Digits(s: string)
  {
    forall i :: 0 <= i < |s| ==> IsDigit(s[i])
  }

  /** The text after an optional leading sign (`[-+]?`). */
  function Unsigned(s: string): (t: string)
    ensures t == s || (|s| >= 1 && (s[0] == '-' || s[0] == '+') && t == s[1..])
  {
    if |s| >= 1 && (s[0] == '-' || s[0] == '+') then s[1..] else s
  }

  /** `[-+]?[0-9]+` */
  predicate IntegerText(s: string)
  {
    var t := Unsigned(s);
    |t| >= 1 && Digits(t)
  }

  /** The index of the first `c` in `s`, or `|s|` when there is none. */
  function IndexOf(s: string, c: char): (k: nat)
    ensures k <= |s| && (k < |s| ==> s[k] == c)
    ensures forall j :: 0 <= j < k ==> s[j] != c
  {
    if s == [] then 0
    else if s[0] == c then 0
    else 1 + IndexOf(s[1..], c)
  }

  /** `[-+]?[0-9]*\.?[0-9]+`: digits, or digits, a point and at least one digit. */
  predicate DecimalText(s: string)
  {
    var t := Unsigned(s);
    var k := IndexOf(t, '.');
    if k == |t| then |t| >= 1 && Digits(t)
    else Digits(t[..k]) && k + 1 < |t| && Digits(t[k + 1..])
  }

  /** The last character is one of the class `[x|X]`: the letter in either case, or `|`. */
  predicate HasSuffix(s: string, lower: char, upper: char)
  {
    |s| >= 1 && (s[|s| - 1] == lower || s[|s| - 1] == upper || s[|s| - 1] == '|')
  }

  function DropLast(s: string): (r: string)
    requires |s| >= 1
    ensures |r| == |s| - 1
  {
    s[..|s| - 1]
  }

  /** A decimal literal followed by one of the class `[x|X]` (the `d` and `f` patterns). */
  predicate SuffixedDecimal(s: string, lower: char, upper: char)
  {
    HasSuffix(s, lower, upper) && DecimalText(DropLast(s))
  }

  /** An integer literal followed by one of the class `[x|X]` (the `b`, `l`, `s` and `i` patterns). */
  predicate SuffixedInteger(s: string, lower: char, upper: char)
  {
    HasSuffix(s, lower, upper) && IntegerText(DropLast(s))
  }

  /** `equalsIgnoreCase` against a lower-case ASCII word. */
  predicate EqualsIgnoreCase(s: string, word: string)
  {
    Lower(s) == word
  }

  predicate EndsWithPair(s: string, a: char, b: char)
  {
    |s| >= 2 && s[|s| - 2] == a && s[|s| - 1] == b
  }

  /** `[...]` followed by the array letter in either case. */
  predicate TypedArrayText(s: string, lower: char, upper: char)
  {
    StartsWith(s, '[') && (EndsWithPair(s, ']', lower) || EndsWithPair(s, ']', upper))
  }

  // ---------------------------------------------------------------- array tokens

  /** The non-empty pieces between commas (a comma splitter that omits empty strings). */
  function Tokens(s: string): (ts: seq<string>)
    ensures forall i :: 0 <= i < |ts| ==> ts[i] != []
  {
    OmitEmpty(NbtType.SplitComma(s))
  }

  function OmitEmpty(ts: seq<string>): (r: seq<string>)
    ensures forall i :: 0 <= i < |r| ==> r[i] != []
    ensures |r| <= |ts|
  {
    if ts == [] then []
    else if ts[0] == [] then OmitEmpty(ts[1..])
    else [ts[0]] + OmitEmpty(ts[1..])
  }

  /** One token of an array literal, trimmed and read as a `bits`-wide decimal integer. */
  function ReadToken(t: string, bits: nat): (r: Option<int>)
    requires bits >= 1
    ensures r.Some? ==> InRange(r.value, bits)
  {
    ParseSigned(Trim(t), 10, bits)
  }

  /** The values of the tokens of an array literal, or the failure of the first token that is not a number. */
  function TokenValues(ts: seq<string>, bits: nat): (r: Outcome<seq<int>>)
    requires bits >= 1
    ensures r.Done? ==> |r.value| == |ts|
  {
    if ts == [] then Done([])
    else
      match ReadToken(ts[0], bits)
      case None => Failed(NumberFormat(Trim(ts[0])))
      case Some(v) => Prepend([v], TokenValues(ts[1..], bits))
  }

  /** Each value is its token's value, and so inside the element range. */
  lemma {:induction false} TokenValuesRead(ts: seq<string>, bits: nat)
    requires bits >= 1 && TokenValues(ts, bits).Done?
    ensures forall i :: 0 <= i < |ts| ==> ReadToken(ts[i], bits) == Some(TokenValues(ts, bits).value[i])
    ensures forall i :: 0 <= i < |ts| ==> InRange(TokenValues(ts, bits).value[i], bits)
  {
    if ts != [] {
      var head := ReadToken(ts[0], bits);
      assert head.Some?;
      var rest := TokenValues(ts[1..], bits);
      assert rest.Done?;
      TokenValuesRead(ts[1..], bits);
      var vs := TokenValues(ts, bits).value;
      assert vs == [head.value] + rest.value;
      forall i | 0 <= i < |ts|
        ensures ReadToken(ts[i], bits) == Some(vs[i])
      {
        if i > 0 {
          assert ts[i] == ts[1..][i - 1] && vs[i] == rest.value[i - 1];
        }
      }
    }
  }

  /** The read fails exactly when some token is not a number. */
  lemma {:induction false} TokenValuesFail(ts: seq<string>, bits: nat)
    requires bits >= 1
    ensures TokenValues(ts, bits).Failed? <==> exists i :: 0 <= i < |ts| && ReadToken(ts[i], bits).None?
  {
    if ts != [] {
      TokenValuesFail(ts[1..], bits);
      if ReadToken(ts[0], bits).Some? && TokenValues(ts[1..], bits).Failed? {
        var j :| 0 <= j < |ts[1..]| && ReadToken(ts[1..][j], bits).None?;
        assert ReadToken(ts[j + 1], bits).None?;
      }
      if ReadToken(ts[0], bits).Some? && TokenValues(ts[1..], bits).Done? {
        forall i | 0 <= i < |ts|
          ensures ReadToken(ts[i], bits).Some?
        {
          if i > 0 {
            assert ts[i] == ts[1..][i - 1];
          }
        }
      }
    }
  }

  lemma {:induction false} TokenValuesStep(ts: seq<string>, i: nat, bits: nat)
    requires bits >= 1 && i < |ts|
    ensures TokenValues(ts[i..], bits) ==
      match ReadToken(ts[i], bits)
      case None => Failed(NumberFormat(Trim(ts[i])))
      case Some(v) => Prepend([v], TokenValues(ts[i + 1..], bits))
  {
    assert ts[i..][1..] == ts[i + 1..];
  }

  /** The token loop: append each trimmed token's value to a list, as `TokenValues` states. */
  method ParseTokens(ts: seq<string>, bits: nat) returns (r: Outcome<seq<int>>)
    requires bits >= 1
    ensures r == TokenValues(ts, bits)
  {
    var values: seq<int> := [];
    var i := 0;
    assert ts[i..] == ts;
    PrependEmpty(TokenValues(ts, bits));
    while i < |ts|
      invariant 0 <= i <= |ts|
      invariant TokenValues(ts, bits) == Prepend(values, TokenValues(ts[i..], bits))
    {
      var v := ReadToken(ts[i], bits);
      TokenValuesStep(ts, i, bits);
      if v.None? {
        return Failed(NumberFormat(Trim(ts[i])));
      }
      PrependTwice(values, v.value, TokenValues(ts[i + 1..], bits));
      values := values + [v.value];
      i := i + 1;
    }
    assert ts[i..] == [] && values + [] == values;
    return Done(values);
  }

  lemma {:induction false} PrependEmpty(r: Outcome<seq<int>>)
    ensures Prepend([], r) == r
  {
    if r.Done? {
      assert [] + r.value == r.value;
    }
  }

  lemma {:induction false} PrependTwice(xs: seq<int>, v: int, r: Outcome<seq<int>>)
    ensures Prepend(xs, Prepend([v], r)) == Prepend(xs + [v], r)
  {
    if r.Done? {
      assert xs + ([v] + r.value) == (xs + [v]) + r.value;
    }
  }

  /** A successful tail behind values already read. */
  function Prepend(xs: seq<int>, r: Outcome<seq<int>>): Outcome<seq<int>>
  {
    match r
    case Failed(f) => Failed(f)
    case Done(ys) => Done(xs + ys)
  }

  // ---------------------------------------------------------------- unescaping

  /**
   * Each backslash followed by `c`, left to right, becomes `c`: `replaceAll("\\\\\"", "\"")`
   * is the case `c == '"'`, the `StringBuilder` loop the case `c == '\\'`.
   */
  function Unpair(s: string, c: char): (r: string)
    ensures |r| <= |s|
  {
    if |s| >= 2 && s[0] == '\\' && s[1] == c then [c] + Unpair(s[2..], c)
    else if s == [] then []
    else [s[0]] + Unpair(s[1..], c)
  }

  /** The builder loop of the last branch, proved to compute `Unpair(s, '\\')`. */
  method Collapse(s: string) returns (r: string)
    ensures r == Unpair(s, '\\')
  {
    var builder: string := [];
    var i := 0;
    while i < |s|
      invariant 0 <= i <= |s|
      invariant builder + Unpair(s[i..], '\\') == Unpair(s, '\\')
    {
      CollapseAdvance(s, i, builder);
      if i < |s| - 1 && s[i] == '\\' && s[i + 1] == '\\' {
        builder := builder + ['\\'];
        i := i + 2;
      } else {
        builder := builder + [s[i]];
        i := i + 1;
      }
    }
    assert s[i..] == [];
    return builder;
  }

  /** One step of the collapse: a doubled backslash becomes one, any other character stays. */
  lemma {:induction false} CollapseStep(s: string, i: nat)
    requires i < |s|
    ensures i < |s| - 1 && s[i] == '\\' && s[i + 1] == '\\' ==>
      Unpair(s[i..], '\\') == ['\\'] + Unpair(s[i + 2..], '\\')
    ensures !(i < |s| - 1 && s[i] == '\\' && s[i + 1] == '\\') ==>
      Unpair(s[i..], '\\') == [s[i]] + Unpair(s[i + 1..], '\\')
  {
    assert s[i..][1..] == s[i + 1..];
    if i < |s| - 1 {
      assert s[i..][2..] == s[i + 2..];
    }
  }

  /** The loop invariant of `Collapse` survives one step. */
  lemma {:induction false} CollapseAdvance(s: string, i: nat, b: string)
    requires i < |s| && b + Unpair(s[i..], '\\') == Unpair(s, '\\')
    ensures i < |s| - 1 && s[i] == '\\' && s[i + 1] == '\\' ==>
      (b + ['\\']) + Unpair(s[i + 2..], '\\') == Unpair(s, '\\')
    ensures !(i < |s| - 1 && s[i] == '\\' && s[i + 1] == '\\') ==>
      (b + [s[i]]) + Unpair(s[i + 1..], '\\') == Unpair(s, '\\')
  {
    CollapseStep(s, i);
  }

  /** The text the last branch returns. */
  function Unescape(s: string): string
  {
    Unpair(Unpair(s, '"'), '\\')
  }

  /** Writing a backslash as two and a quote as backslash-quote. */
  function Escape(s: string): (r: string)
  {
    if s == [] then []
    else (if s[0] == '\\' then "\\\\" else if s[0] == '"' then "\\\"" else [s[0]]) + Escape(s[1..])
  }

  /** Unescaping undoes escaping. */
  lemma {:induction false} UnescapeEscape(s: string)
    ensures Unescape(Escape(s)) == s
  {
    EscapeQuotesFirst(s);
    DoubledCollapse(s);
  }

  /** Escaped text with its quotes unescaped: only the doubled backslashes remain. */
  function DoubleBackslashes(s: string): (r: string)
  {
    if s == [] then [] else (if s[0] == '\\' then "\\\\" else [s[0]]) + DoubleBackslashes(s[1..])
  }

  lemma {:induction false} EscapeQuotesFirst(s: string)
    ensures Unpair(Escape(s), '"') == DoubleBackslashes(s)
  {
    if s != [] {
      EscapeQuotesFirst(s[1..]);
      var e := Escape(s[1..]);
      if s[0] == '\\' {
        // the second backslash of the pair is followed by the next token, never by a bare quote
        assert Escape(s) == "\\\\" + e;
        EscapeNoLeadingQuote(s[1..]);
        assert ("\\\\" + e)[1..] == "\\" + e;
        assert Unpair("\\\\" + e, '"') == "\\" + Unpair("\\" + e, '"');
        assert ("\\" + e)[1..] == e;
        assert Unpair("\\" + e, '"') == "\\" + Unpair(e, '"');
        assert DoubleBackslashes(s) == "\\\\" + DoubleBackslashes(s[1..]);
      } else if s[0] == '"' {
        assert Escape(s) == "\\\"" + e;
        assert ("\\\"" + e)[2..] == e;
        assert DoubleBackslashes(s) == "\"" + DoubleBackslashes(s[1..]);
      } else {
        assert Escape(s) == [s[0]] + e;
        assert ([s[0]] + e)[1..] == e;
        assert DoubleBackslashes(s) == [s[0]] + DoubleBackslashes(s[1..]);
      }
    }
  }

  lemma {:induction false} EscapeNoLeadingQuote(s: string)
    ensures Escape(s) == [] || Escape(s)[0] != '"'
  {
  }

  lemma {:induction false} DoubledCollapse(s: string)
    ensures Unpair(DoubleBackslashes(s), '\\') == s
  {
    if s != [] {
      DoubledCollapse(s[1..]);
      var d := DoubleBackslashes(s[1..]);
      if s[0] == '\\' {
        assert DoubleBackslashes(s) == "\\\\" + d;
        assert ("\\\\" + d)[2..] == d;
      } else {
        assert DoubleBackslashes(s) == [s[0]] + d;
        assert ([s[0]] + d)[1..] == d;
      }
    }
  }

  // ---------------------------------------------------------------- the classifier

  /** An integer literal read at a width: its value, or the number-format failure. */
  function IntegerValue(s: string, bits: nat): (r: Outcome<int>)
    requires bits >= 1
    ensures r.Done? ==> InRange(r.value, bits) && ParseSigned(s, 10, bits) == Some(r.value)
    ensures r.Failed? <==> ParseSigned(s, 10, bits).None?
  {
    match ParseSigned(s, 10, bits)
    case Some(v) => Done(v)
    case None => Failed(NumberFormat(s))
  }

  function AsTag(k: Kind, r: Outcome<int>): (t: Outcome<Tag>)
    requires k in {BYTE, SHORT, INT, LONG}
    requires r.Done? ==> InRange(r.value, NbtType.Width(k))
  {
    match r
    case Failed(f) => Failed(f)
    case Done(v) => Done(NbtType.IntegerTag(k, v))
  }

  /** An array literal's tokens read at the element width of array kind `k`. */
  function ArrayValue(k: Kind, ts: seq<string>): (r: Outcome<Tag>)
    requires k in {BYTEARRAY, INTARRAY, LONGARRAY}
    ensures r.Done? ==> KindOf(Some(r.value)) == k
  {
    var bits := NbtType.Width(k);
    match TokenValues(ts, bits)
    case Failed(f) => Failed(f)
    case Done(vs) =>
      TokenValuesRead(ts, bits);
      Done(NbtType.ArrayTag(k, vs))
  }

  /**
   * The scalar branches of `PrimitiveParser.parse`, in order: the suffixed numbers,
   * the bare integer and decimal, and the two booleans; None when none matches.
   */
  function ScalarValue(s: string): (r: Option<Outcome<Tag>>)
  {
    if SuffixedDecimal(s, 'd', 'D') then Some(Done(Double(DropLast(s))))
    else if SuffixedDecimal(s, 'f', 'F') then Some(Done(Float(DropLast(s))))
    else if SuffixedInteger(s, 'b', 'B') then Some(AsTag(BYTE, IntegerValue(DropLast(s), 8)))
    else if SuffixedInteger(s, 'l', 'L') then Some(AsTag(LONG, IntegerValue(DropLast(s), 64)))
    else if SuffixedInteger(s, 's', 'S') then Some(AsTag(SHORT, IntegerValue(DropLast(s), 16)))
    else if SuffixedInteger(s, 'i', 'I') then Some(AsTag(INT, IntegerValue(DropLast(s), 32)))
    else if IntegerText(s) then Some(AsTag(INT, IntegerValue(s, 32)))
    else if DecimalText(s) then Some(Done(Double(s)))
    else if EqualsIgnoreCase(s, "true") then Some(Done(Byte(1)))
    else if EqualsIgnoreCase(s, "false") then Some(Done(Byte(0)))
    else None
  }

  /** The array branches: the array kind and the text between the brackets, when one matches. */
  function ArrayShape(s: string): (r: Option<(Kind, string)>)
    ensures r.Some? ==> r.value.0 in {BYTEARRAY, INTARRAY, LONGARRAY}
  {
    if TypedArrayText(s, 'i', 'I') then Some((INTARRAY, s[1..|s| - 2]))
    else if TypedArrayText(s, 'b', 'B') then Some((BYTEARRAY, s[1..|s| - 2]))
    else if TypedArrayText(s, 'l', 'L') then Some((LONGARRAY, s[1..|s| - 2]))
    else if StartsWith(s, '[') && EndsWith(s, ']') && |s| >= 2 then Some((INTARRAY, s[1..|s| - 1]))
    else None
  }

  /**
   * What `PrimitiveParser.parse` gives for the (trimmed) literal `s`: the first
   * pattern in this order that matches decides. Float and double values keep their
   * decimal text.
   */
  function Classify(s: string): (r: Outcome<Tag>)
  {
    match ScalarValue(s)
    case Some(v) => v
    case None => TextValue(s)
  }

  /** The branches after the scalar ones: the array literals, the quoted text and the plain text. */
  function TextValue(s: string): (r: Outcome<Tag>)
  {
    match ArrayShape(s)
    case Some((k, inner)) => ArrayValue(k, Tokens(inner))
    case None =>
      if StartsWith(s, '"') && EndsWith(s, '"') then
        if |s| < 2 then Failed(IndexOutOfRange(s)) else Done(String(s[1..|s| - 1]))
      else Done(String(Unescape(s)))
  }

  /** `PrimitiveParser.parse`, with the array and builder loops, proved to compute `Classify`. */
  method ParsePrimitive(s: string) returns (r: Outcome<Tag>)
    ensures r == Classify(s)
  {
    var scalar := ScalarValue(s);
    if scalar.Some? {
      return scalar.value;
    }
    r := ParseText(s);
  }

  method ParseText(s: string) returns (r: Outcome<Tag>)
    ensures r == TextValue(s)
  {
    var shape := ArrayShape(s);
    if shape.Some? {
      r := ParseArray(shape.value.0, shape.value.1);
      return;
    }
    if StartsWith(s, '"') && EndsWith(s, '"') {
      if |s| < 2 {
        return Failed(IndexOutOfRange(s));
      }
      return Done(String(s[1..|s| - 1]));
    }
    var text := Collapse(Unpair(s, '"'));
    return Done(String(text));
  }

  /** An array literal's branch: split, read each token, build the array of kind `k`. */
  method ParseArray(k: Kind, inner: string) returns (r: Outcome<Tag>)
    requires k in {BYTEARRAY, INTARRAY, LONGARRAY}
    ensures r == ArrayValue(k, Tokens(inner))
  {
    var ts := Tokens(inner);
    var vs := ParseTokens(ts, NbtType.Width(k));
    match vs
    case Failed(f) => return Failed(f);
    case Done(xs) =>
      TokenValuesRead(ts, NbtType.Width(k));
      return Done(NbtType.ArrayTag(k, xs));
  }
}

/** What the primitive classifier promises: round trips, the order of its patterns, and its text branches. */
module NbtPrimitiveFacts {
  import opened Tags
  import opened Numbers
  import opened NbtScan
  import opened NbtPrimitive
  import NbtType
  import NbtTypeFacts

  /** The letter that marks an integer literal of kind `k`. */
  function SuffixOf(k: Kind): (c: char)
    ensures c != 'd' && c != 'D' && c != 'f' && c != 'F' && c != '|'
  {
    match k
    case BYTE => 'b'
    case SHORT => 's'
    case INT => 'i'
    case _ => 'l'
  }

  /** Text that starts with neither a sign, a digit nor a point matches no number pattern. */
  lemma {:induction false} NotNumber(t: string)
    requires |t| >= 1 && !IsDigit(t[0]) && t[0] != '-' && t[0] != '+' && t[0] != '.'
    ensures !IntegerText(t) && !DecimalText(t)
  {
    assert Unsigned(t) == t;
    var k := IndexOf(t, '.');
    assert k > 0;
    if k < |t| {
      assert t[..k][0] == t[0];
    }
  }

  /**
   * Text whose first character starts no number, and that is no boolean word,
   * reaches the array and string branches.
   */
  lemma {:induction false} NoScalar(s: string)
    requires |s| >= 2 && !IsDigit(s[0]) && s[0] != '-' && s[0] != '+' && s[0] != '.'
    requires !EqualsIgnoreCase(s, "true") && !EqualsIgnoreCase(s, "false")
    ensures Classify(s) == TextValue(s)
  {
    NotNumber(s);
    assert DropLast(s)[0] == s[0];
    NotNumber(DropLast(s));
  }

  /** The decimal text of any value is a bare integer literal that starts and ends as numbers do. */
  lemma {:induction false} DecimalIsIntegerText(n: int)
    ensures IntegerText(ToDecimal(n)) && IsDigit(ToDecimal(n)[|ToDecimal(n)| - 1])
  {
    var s := ToDecimal(n);
    NbtTypeFacts.DecimalTextIsToken(n);
    var t := Unsigned(s);
    assert t == (if s[0] == '-' then s[1..] else s);
    assert s[|s| - 1] == t[|t| - 1];
  }

  /** Text ending in the letter of an integer kind, after an integer literal, goes to that kind's branch. */
  lemma {:induction false} SuffixDispatch(s: string, k: Kind)
    requires k in {BYTE, SHORT, INT, LONG}
    requires |s| >= 2 && s[|s| - 1] == SuffixOf(k) && IntegerText(DropLast(s))
    ensures ScalarValue(s) == Some(AsTag(k, IntegerValue(DropLast(s), NbtType.Width(k))))
  {
    assert !HasSuffix(s, 'd', 'D') && !HasSuffix(s, 'f', 'F');
  }

  /**
   * A decimal value with a `b`, `s`, `i` or `l` suffix reads as that kind when it is
   * in the kind's range, and is a number-format failure otherwise: `200b` fails.
   */
  lemma {:induction false} SuffixedRoundTrip(k: Kind, n: int)
    requires k in {BYTE, SHORT, INT, LONG}
    ensures Classify(ToDecimal(n) + [SuffixOf(k)]) ==
      if InRange(n, NbtType.Width(k)) then Done(NbtType.IntegerTag(k, n)) else Failed(NumberFormat(ToDecimal(n)))
  {
    var s := ToDecimal(n) + [SuffixOf(k)];
    assert DropLast(s) == ToDecimal(n);
    DecimalIsIntegerText(n);
    SuffixDispatch(s, k);
    ParseToDecimal(n, NbtType.Width(k));
  }

  /** A bare decimal value is an int when it fits 32 bits and a number-format failure otherwise. */
  lemma {:induction false} BareIntegerRoundTrip(n: int)
    ensures Classify(ToDecimal(n)) ==
      if InRange(n, 32) then Done(NbtType.IntegerTag(INT, n)) else Failed(NumberFormat(ToDecimal(n)))
  {
    var s := ToDecimal(n);
    DecimalIsIntegerText(n);
    assert !HasSuffix(s, 'd', 'D') && !HasSuffix(s, 'f', 'F') && !HasSuffix(s, 'b', 'B');
    assert !HasSuffix(s, 'l', 'L') && !HasSuffix(s, 's', 'S') && !HasSuffix(s, 'i', 'I');
    assert ScalarValue(s) == Some(AsTag(INT, IntegerValue(s, 32)));
    ParseToDecimal(n, 32);
  }

  /** `true` and `false`, in any case, are the bytes 1 and 0. */
  lemma {:induction false} BooleanLiterals(s: string)
    ensures Lower(s) == "true" ==> Classify(s) == Done(Byte(1))
    ensures Lower(s) == "false" ==> Classify(s) == Done(Byte(0))
  {
    if Lower(s) == "true" || Lower(s) == "false" {
      assert LowerChar(s[0]) == Lower(s)[0];
      assert LowerChar(s[|s| - 1]) == Lower(s)[|s| - 1];
      NotNumber(s);
      assert !HasSuffix(s, 'd', 'D') && !HasSuffix(s, 'f', 'F') && !HasSuffix(s, 'b', 'B');
      assert !HasSuffix(s, 'l', 'L') && !HasSuffix(s, 's', 'S') && !HasSuffix(s, 'i', 'I');
    }
  }

  /** A quoted literal gives the text between the quotes, as it stands. */
  lemma {:induction false} QuotedLiteral(t: string)
    ensures Classify("\"" + t + "\"") == Done(String(t))
  {
    var s := "\"" + t + "\"";
    assert Lower(s)[0] == '"';
    NoScalar(s);
    assert s[1..|s| - 1] == t;
  }

  /** A lone quote both starts and ends a quoted literal, and taking its inside fails. */
  lemma {:induction false} LoneQuoteFails()
    ensures Classify("\"") == Failed(IndexOutOfRange("\""))
  {
    var s := "\"";
    NotNumber(s);
    assert Lower(s)[0] == '"';
  }

  /** Text without backslashes is its own unescaping. */
  lemma {:induction false} UnescapePlain(s: string)
    requires forall i :: 0 <= i < |s| ==> s[i] != '\\'
    ensures Unescape(s) == s
  {
    UnpairPlain(s, '"');
    UnpairPlain(s, '\\');
  }

  /** Text without backslashes has no pair to undo. */
  lemma {:induction false} UnpairPlain(s: string, c: char)
    requires forall i :: 0 <= i < |s| ==> s[i] != '\\'
    ensures Unpair(s, c) == s
  {
    if s != [] {
      UnpairPlain(s[1..], c);
      assert [s[0]] + s[1..] == s;
    }
  }

  /** Decimal text has nothing to trim. */
  lemma {:induction false} DecimalTrimmed(n: int)
    ensures Trim(ToDecimal(n)) == ToDecimal(n)
  {
    var s := ToDecimal(n);
    NbtTypeFacts.DecimalTextIsToken(n);
    assert !IsTrimmed(s[0]) && !IsTrimmed(s[|s| - 1]);
  }

  /** The decimal text of an in-range value is an array token that reads back as the value. */
  lemma {:induction false} DecimalTokenRead(n: int, bits: nat)
    requires bits >= 1 && InRange(n, bits)
    ensures ReadToken(ToDecimal(n), bits) == Some(n)
  {
    DecimalTrimmed(n);
    ParseToDecimal(n, bits);
  }

  /** Tokens that each read back as a value read back, together, as those values. */
  lemma {:induction false} TokensReadBack(ts: seq<string>, xs: seq<int>, bits: nat)
    requires bits >= 1 && |ts| == |xs|
    requires forall i :: 0 <= i < |ts| ==> ReadToken(ts[i], bits) == Some(xs[i])
    ensures TokenValues(ts, bits) == Done(xs)
  {
    TokenValuesFail(ts, bits);
    assert TokenValues(ts, bits).Done?;
    TokenValuesRead(ts, bits);
    var vs := TokenValues(ts, bits).value;
    assert |vs| == |xs|;
    forall i | 0 <= i < |ts|
      ensures vs[i] == xs[i]
    {
      assert Some(vs[i]) == ReadToken(ts[i], bits);
    }
    assert vs == xs;
  }

  /** The decimal texts of in-range values read back, token by token, as the values. */
  lemma {:induction false} DecimalTokensRead(xs: seq<int>, bits: nat)
    requires bits >= 1 && forall i :: 0 <= i < |xs| ==> InRange(xs[i], bits)
    ensures TokenValues(NbtTypeFacts.DecimalTexts(xs), bits) == Done(xs)
  {
    var ts := NbtTypeFacts.DecimalTexts(xs);
    forall i | 0 <= i < |ts|
      ensures ReadToken(ts[i], bits) == Some(xs[i])
    {
      DecimalTokenRead(xs[i], bits);
    }
    TokensReadBack(ts, xs, bits);
  }

  /** Non-empty pieces survive the omission of empty ones unchanged. */
  lemma {:induction false} OmitNothing(ts: seq<string>)
    requires forall i :: 0 <= i < |ts| ==> ts[i] != []
    ensures OmitEmpty(ts) == ts
  {
    if ts != [] {
      OmitNothing(ts[1..]);
      assert [ts[0]] + ts[1..] == ts;
    }
  }

  /** The tokens of a joined list of decimal texts are those texts. */
  lemma {:induction false} RenderedTokensBack(xs: seq<int>)
    ensures Tokens(if xs == [] then "" else NbtTypeFacts.JoinComma(NbtTypeFacts.DecimalTexts(xs))) ==
      NbtTypeFacts.DecimalTexts(xs)
  {
    var ts := NbtTypeFacts.DecimalTexts(xs);
    if xs != [] {
      forall i | 0 <= i < |ts|
        ensures ',' !in ts[i] && ts[i] != []
      {
        NbtTypeFacts.DecimalTextIsToken(xs[i]);
      }
      NbtTypeFacts.SplitJoin(ts);
      OmitNothing(ts);
    }
  }

  /** Bracketed text that ends in `]` is an int array literal of the text between the brackets. */
  lemma {:induction false} BracketedIsIntArray(inner: string)
    ensures Classify("[" + inner + "]") == ArrayValue(INTARRAY, Tokens(inner))
  {
    var s := "[" + inner + "]";
    assert s[1..|s| - 1] == inner;
    assert Lower(s)[0] == '[';
    NoScalar(s);
    assert !EndsWithPair(s, ']', 'i') && !EndsWithPair(s, ']', 'I');
    assert !EndsWithPair(s, ']', 'b') && !EndsWithPair(s, ']', 'B');
    assert !EndsWithPair(s, ']', 'l') && !EndsWithPair(s, ']', 'L');
  }

  /** The bracketed decimal texts of int values read back as the int array of those values. */
  lemma {:induction false} IntArrayLiteral(xs: seq<int>)
    requires forall i :: 0 <= i < |xs| ==> InRange(xs[i], NbtType.Width(INTARRAY))
    ensures Classify(NbtTypeFacts.RenderArray(xs)) == Done(NbtType.ArrayTag(INTARRAY, xs))
  {
    var inner := if xs == [] then "" else NbtTypeFacts.JoinComma(NbtTypeFacts.DecimalTexts(xs));
    assert NbtTypeFacts.RenderArray(xs) == "[" + inner + "]";
    BracketedIsIntArray(inner);
    RenderedTokensBack(xs);
    DecimalTokensRead(xs, NbtType.Width(INTARRAY));
  }
}
