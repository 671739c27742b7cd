/**
 * The recursive literal-text parser (`NBTParser.parser`): the trimmed text is a
 * compound body `{...}`, a list body `[...]` or a primitive literal; bodies are cut
 * into elements at top-level commas, each element split into a name and a value
 * at its first top-level colon, and parsed again. The result is a tree of parsers
 * that `Eval` turns into tags.
 */
module NbtParser {
  import opened Tags
  import opened NbtScan
  import opened NbtPrimitive

  /** `PrimitiveParser`, `ListParser` and `CompoundParser`: each keeps the element name it was given. */
  datatype TypeParser =
    | PrimitiveP(name: string, text: string)
    | ListP(name: string, items: seq<TypeParser>)
    | CompoundP(name: string, items: seq<TypeParser>)

  // ---------------------------------------------------------------- patterns

  /** The regular-expression class `\s`: space, tab, newline, vertical tab, form feed, carriage return. */
  predicate IsPatternSpace(c: char)
  {
    c == ' ' || c == '\t' || c == '\n' || c == '\U{0B}' || c == '\U{0C}' || c == '\r'
  }

  predicate IsNumericListChar(c: char)
  {
    c == '-' || c == '+' || IsDigit(c) || c == '|' || c == ',' || IsPatternSpace(c)
  }

  /** The pattern `\[[-+\d|,\s]+\]`: a bracketed, non-empty run of signs, digits, bars, commas and spaces. */
  predicate NumericList(s: string)
  {
    |s| >= 3 && s[0] == '[' && s[|s| - 1] == ']' && forall i :: 1 <= i < |s| - 1 ==> IsNumericListChar(s[i])
  }

  /** The characters allowed right after an element of a body. */
  predicate IsSeparator(c: char)
  {
    c == ',' || c == '{' || c == '}' || c == '[' || c == ']'
  }

  // ---------------------------------------------------------------- splitting

  /**
   * `b(String,boolean)`: the first element of a body. In a compound the element must
   * have a top-level colon with no top-level comma before it, and its end is searched
   * from that colon; in a list a colon counts only before the first top-level comma.
   */
  function SplitElement(value: string, compound: bool): (r: Outcome<string>)
    ensures r.Done? ==> |r.value| <= |value| && r.value == value[..|r.value|]
  {
    var colon := SeparatorFrom(value, ':', 0);
    var comma := SeparatorFrom(value, ',', 0);
    if compound && colon == -1 then Failed(MissingSeparator(value))
    else if compound && comma != -1 && comma < colon then Failed(NameError(value))
    else
      var pos := if compound || (colon != -1 && colon <= comma) then colon else -1;
      match ElementEnd(value, pos)
      case Failed(f) => Failed(f)
      case Done(e) => Done(value[..e])
  }

  /**
   * `parseString`: an element's name. A list element (`inList`) is trimmed first, has no
   * name when it opens a bracket or has no top-level colon; a compound element must have a colon.
   */
  function ElementName(e: string, inList: bool): (r: Outcome<string>)
    ensures r.Failed? <==> !inList && SeparatorFrom(e, ':', 0) == -1
  {
    var t := if inList then Trim(e) else e;
    if inList && (StartsWith(t, '{') || StartsWith(t, '[')) then Done("")
    else
      var colon := SeparatorFrom(t, ':', 0);
      if colon == -1 then (if inList then Done("") else Failed(MissingSeparator(t)))
      else Done(Trim(t[..colon]))
  }

  /** The trimmed text after position `i`. */
  function TrimmedAfter(t: string, i: nat): (r: string)
    requires i < |t|
    ensures |r| < |t|
  {
    Trim(t[i + 1..])
  }

  /** `d`: an element's value text, the trimmed text after the name's colon (the whole element when it has no name). */
  function ElementText(e: string, inList: bool): (r: Outcome<string>)
    ensures r.Done? ==> |r.value| <= |e|
    ensures r.Failed? <==> !inList && SeparatorFrom(e, ':', 0) == -1
  {
    var t := if inList then Trim(e) else e;
    if inList && (StartsWith(t, '{') || StartsWith(t, '[')) then Done(t)
    else
      var colon := SeparatorFrom(t, ':', 0);
      if colon == -1 then (if inList then Done(t) else Failed(MissingSeparator(t)))
      else Done(TrimmedAfter(t, colon))
  }

  // ---------------------------------------------------------------- the parser

  /** `parser(name, value)`: dispatch on the first character of the trimmed text. */
  function Parser(name: string, value: string): (r: Outcome<TypeParser>)
    ensures r.Done? ==> r.value.name == name
    decreases |value|, 0
  {
    var v := Trim(value);
    if StartsWith(v, '{') then
      if |v| < 2 then Failed(IndexOutOfRange(v))
      else
        (match Items(v[1..|v| - 1], true)
         case Failed(f) => Failed(f)
         case Done(ps) => Done(CompoundP(name, ps)))
    else if StartsWith(v, '[') && !NumericList(v) then
      if |v| < 2 then Failed(IndexOutOfRange(v))
      else
        (match Items(v[1..|v| - 1], false)
         case Failed(f) => Failed(f)
         case Done(ps) => Done(ListP(name, ps)))
    else Done(PrimitiveP(name, v))
  }

  /**
   * The body loop: cut off the first element, parse it when it is not empty, stop when
   * it was the whole body, and otherwise demand a separator after it and go on after that.
   */
  function Items(body: string, compound: bool): (r: Outcome<seq<TypeParser>>)
    ensures r.Done? ==> |r.value| <= |body|
    decreases |body|, 2
  {
    if body == [] then Done([])
    else
      match SplitElement(body, compound)
      case Failed(f) => Failed(f)
      case Done(e) =>
        if e != [] && Element(e, !compound).Failed? then Failed(Element(e, !compound).failure)
        else
          var first := if e != [] then [Element(e, !compound).value] else [];
          if |body| < |e| + 1 then Done(first)
          else if !IsSeparator(body[|e|]) then Failed(UnexpectedToken(body[|e|], body[|e|..]))
          else
            match Items(body[|e| + 1..], compound)
            case Failed(f) => Failed(f)
            case Done(rest) => Done(first + rest)
  }

  /** `a(String,boolean)`: an element split into its name and value, and the value parsed. */
  function Element(e: string, inList: bool): (r: Outcome<TypeParser>)
    decreases |e|, 1
  {
    match ElementName(e, inList)
    case Failed(f) => Failed(f)
    case Done(n) =>
      match ElementText(e, inList)
      case Failed(f) => Failed(f)
      case Done(v) => Parser(n, v)
  }

  // ---------------------------------------------------------------- evaluation

  /** A compound entry's key: a quoted name is unquoted by the string-literal parser `unquote`. */
  function KeyOf(name: string, unquote: string -> string): (r: Outcome<string>)
    ensures r.Failed? <==> name == "\""
  {
    if StartsWith(name, '"') && EndsWith(name, '"') then
      if |name| < 2 then Failed(IndexOutOfRange(name)) else Done(unquote(name[1..|name| - 1]))
    else Done(name)
  }

  /**
   * `TypeParser.parse`: the tag a parser tree denotes, or the first failure in element
   * order. `classify` reads a primitive literal (`PrimitiveParser.parse`, which is
   * `Classify`) and `unquote` a quoted key.
   */
  function Eval(p: TypeParser, classify: string -> Outcome<Tag>, unquote: string -> string): (r: Outcome<Tag>)
    decreases p, 1
  {
    match p
    case PrimitiveP(_, text) => classify(text)
    case ListP(_, items) =>
      (match EvalItems(p, |items|, classify, unquote)
       case Failed(f) => Failed(f)
       case Done(ts) => Done(List(ts)))
    case CompoundP(_, items) =>
      match EvalEntries(p, |items|, classify, unquote)
      case Failed(f) => Failed(f)
      case Done(m) => Done(Compound(m))
  }

  /** The tags of the first `n` elements of a list parser, in order. */
  function EvalItems(p: TypeParser, n: nat, classify: string -> Outcome<Tag>, unquote: string -> string): (r: Outcome<seq<Tag>>)
    requires !p.PrimitiveP? && n <= |p.items|
    ensures r.Done? ==> |r.value| == n
    decreases p, 0, n
  {
    if n == 0 then Done([])
    else
      match EvalItems(p, n - 1, classify, unquote)
      case Failed(f) => Failed(f)
      case Done(ts) =>
        match Eval(p.items[n - 1], classify, unquote)
        case Failed(f) => Failed(f)
        case Done(t) => Done(ts + [t])
  }

  /** The map built by putting the first `n` elements of a compound parser, in order, under their keys. */
  function EvalEntries(p: TypeParser, n: nat, classify: string -> Outcome<Tag>, unquote: string -> string): (r: Outcome<map<string, Tag>>)
    requires !p.PrimitiveP? && n <= |p.items|
    decreases p, 0, n
  {
    if n == 0 then Done(map[])
    else
      match EvalEntries(p, n - 1, classify, unquote)
      case Failed(f) => Failed(f)
      case Done(m) =>
        match KeyOf(p.items[n - 1].name, unquote)
        case Failed(f) => Failed(f)
        case Done(k) =>
          match Eval(p.items[n - 1], classify, unquote)
          case Failed(f) => Failed(f)
          case Done(t) => Done(m[k := t])
  }

  /** `NBTParser.parser("", s).parse()`: the tag a literal text denotes. */
  function ParseLiteral(s: string, unquote: string -> string): (r: Outcome<Tag>)
  {
    match Parser("", s)
    case Failed(f) => Failed(f)
    case Done(p) => Eval(p, Classify, unquote)
  }

  // ---------------------------------------------------------------- the parser as written

  /** The parsers gathered so far in front of what the rest of the body gives. */
  function PrependParsers(ps: seq<TypeParser>, r: Outcome<seq<TypeParser>>): Outcome<seq<TypeParser>>
  {
    match r
    case Failed(f) => Failed(f)
    case Done(rest) => Done(ps + rest)
  }

  lemma {:induction false} PrependNone(r: Outcome<seq<TypeParser>>)
    ensures PrependParsers([], r) == r
  {
    if r.Done? {
      assert [] + r.value == r.value;
    }
  }

  lemma {:induction false} PrependMore(ps: seq<TypeParser>, first: seq<TypeParser>, r: Outcome<seq<TypeParser>>)
    ensures PrependParsers(ps, PrependParsers(first, r)) == PrependParsers(ps + first, r)
  {
    if r.Done? {
      assert ps + (first + r.value) == (ps + first) + r.value;
    }
  }

  /** `b(String,boolean)` with its two separator searches and the element-end scan. */
  method SplitFirst(value: string, compound: bool) returns (r: Outcome<string>)
    ensures r == SplitElement(value, compound)
  {
    var colon := FindSeparator(value, ':');
    var comma := FindSeparator(value, ',');
    if compound {
      if colon == -1 {
        return Failed(MissingSeparator(value));
      }
      if comma != -1 && comma < colon {
        return Failed(NameError(value));
      }
    } else if colon == -1 || colon > comma {
      colon := -1;
    }
    var end := FindElementEnd(value, colon);
    match end
    case Failed(f) => return Failed(f);
    case Done(e) => return Done(value[..e]);
  }

  /** `parseString`. */
  method NameOf(e: string, inList: bool) returns (r: Outcome<string>)
    ensures r == ElementName(e, inList)
  {
    var t := if inList then Trim(e) else e;
    if inList && (StartsWith(t, '{') || StartsWith(t, '[')) {
      return Done("");
    }
    var colon := FindSeparator(t, ':');
    if colon == -1 {
      if inList {
        return Done("");
      }
      return Failed(MissingSeparator(t));
    }
    return Done(Trim(t[..colon]));
  }

  /** `d`. */
  method ValueOf(e: string, inList: bool) returns (r: Outcome<string>)
    ensures r == ElementText(e, inList)
  {
    var t := if inList then Trim(e) else e;
    if inList && (StartsWith(t, '{') || StartsWith(t, '[')) {
      return Done(t);
    }
    var colon := FindSeparator(t, ':');
    if colon == -1 {
      return if inList then Done(t) else Failed(MissingSeparator(t));
    }
    return Done(TrimmedAfter(t, colon));
  }

  /** `parser(name, value)`, consuming a body by reassigning the remaining text. */
  method ParseTree(name: string, value: string) returns (r: Outcome<TypeParser>)
    ensures r == Parser(name, value)
    decreases |value|, 0
  {
    var v := Trim(value);
    var compound := StartsWith(v, '{');
    if compound || (StartsWith(v, '[') && !NumericList(v)) {
      if |v| < 2 {
        return Failed(IndexOutOfRange(v));
      }
      var body := v[1..|v| - 1];
      assert |body| < |value|;
      var ps := ParseBody(body, compound);
      match ps
      case Failed(f) => return Failed(f);
      case Done(items) => return Done(if compound then CompoundP(name, items) else ListP(name, items));
    }
    return Done(PrimitiveP(name, v));
  }

  /** One turn of the body loop: the parse is over, or the parsers of one element and the rest of the body. */
  datatype BodyStep = Finished(result: Outcome<seq<TypeParser>>) | Continue(first: seq<TypeParser>, rest: string)

  /** The body loop of `parser`. */
  method ParseBody(body: string, compound: bool) returns (r: Outcome<seq<TypeParser>>)
    ensures r == Items(body, compound)
    decreases |body|, 3
  {
    var parsers: seq<TypeParser> := [];
    var value := body;
    PrependNone(Items(body, compound));
    while |value| > 0
      invariant |value| <= |body|
      invariant Items(body, compound) == PrependParsers(parsers, Items(value, compound))
      decreases |value|
    {
      var step := TakeElement(value, compound);
      match step
      case Finished(result) =>
        return PrependParsers(parsers, result);
      case Continue(first, rest) =>
        PrependMore(parsers, first, Items(rest, compound));
        parsers := parsers + first;
        value := rest;
    }
    assert parsers + [] == parsers;
    return Done(parsers);
  }

  /**
   * The loop body: cut off the first element and parse it when it is not empty;
   * finish when it was the whole body or is followed by a non-separator.
   */
  method TakeElement(value: string, compound: bool) returns (step: BodyStep)
    requires value != []
    ensures step.Finished? ==> Items(value, compound) == step.result
    ensures step.Continue? ==> |step.rest| < |value|
    ensures step.Continue? ==> Items(value, compound) == PrependParsers(step.first, Items(step.rest, compound))
    decreases |value|, 2
  {
    var split := SplitFirst(value, compound);
    if split.Failed? {
      return Finished(Failed(split.failure));
    }
    var e := split.value;
    var first: seq<TypeParser> := [];
    if |e| > 0 {
      var p := ParseElement(e, !compound);
      if p.Failed? {
        return Finished(Failed(p.failure));
      }
      first := [p.value];
    }
    if |value| < |e| + 1 {
      return Finished(Done(first));
    }
    var c := value[|e|];
    if !IsSeparator(c) {
      return Finished(Failed(UnexpectedToken(c, value[|e|..])));
    }
    ItemsContinue(value, compound, e);
    return Continue(first, value[|e| + 1..]);
  }

  /** A body whose first element is followed by a separator goes on after that separator. */
  lemma {:induction false} ItemsContinue(value: string, compound: bool, e: string)
    requires value != [] && SplitElement(value, compound) == Done(e)
    requires e != [] ==> Element(e, !compound).Done?
    requires |e| < |value| && IsSeparator(value[|e|])
    ensures Items(value, compound) ==
      PrependParsers(if e != [] then [Element(e, !compound).value] else [], Items(value[|e| + 1..], compound))
  {
  }

  /** A body that is a single element holds that element's parser, if it is not empty. */
  lemma {:induction false} ItemsLast(value: string, compound: bool, e: string)
    requires value != [] && SplitElement(value, compound) == Done(e)
    requires e != [] ==> Element(e, !compound).Done?
    requires |value| < |e| + 1
    ensures Items(value, compound) == Done(if e != [] then [Element(e, !compound).value] else [])
  {
  }

  /** `a(String,boolean)`. */
  method ParseElement(e: string, inList: bool) returns (r: Outcome<TypeParser>)
    ensures r == Element(e, inList)
    decreases |e|, 1
  {
    var n := NameOf(e, inList);
    if n.Failed? {
      return Failed(n.failure);
    }
    var v := ValueOf(e, inList);
    if v.Failed? {
      // `d` fails exactly where `parseString` already did
      assert false;
    }
    r := ParseTree(n.value, v.value);
  }
}

/** What the literal-text parser promises: its dispatch, its element rules, its failures and its evaluation. */
module NbtParserFacts {
  import opened Tags
  import opened NbtScan
  import opened NbtPrimitive
  import opened NbtParser
  import NbtPrimitiveFacts

  /**
   * The trimmed text decides the parser: `{` a compound, `[` outside the numeric-list
   * pattern a list, anything else a primitive holding the trimmed text, which never fails.
   */
  lemma {:induction false} ParserDispatch(name: string, value: string)
    ensures StartsWith(Trim(value), '{') ==>
      Parser(name, value).Failed? || Parser(name, value).value.CompoundP?
    ensures StartsWith(Trim(value), '[') && !NumericList(Trim(value)) ==>
      Parser(name, value).Failed? || Parser(name, value).value.ListP?
    ensures !StartsWith(Trim(value), '{') && !(StartsWith(Trim(value), '[') && !NumericList(Trim(value))) ==>
      Parser(name, value) == Done(PrimitiveP(name, Trim(value)))
  {
  }

  /**
   * A primitive the parser produces that starts with `[` matched the numeric-list pattern,
   * so `NumericListIsIntArray` reads it as an int array: the typed `[..]b`, `[..]i` and `[..]l`
   * branches are never reached from the parser.
   */
  lemma {:induction false} BracketPrimitiveIsIntArray(name: string, value: string)
    requires Parser(name, value).Done? && Parser(name, value).value.PrimitiveP?
    requires StartsWith(Parser(name, value).value.text, '[')
    ensures NumericList(Parser(name, value).value.text)
  {
    ParserDispatch(name, value);
  }

  /** Text matching the numeric-list pattern reads as an int array of its comma-separated tokens. */
  lemma {:induction false} NumericListIsIntArray(s: string)
    requires NumericList(s)
    ensures Classify(s) == ArrayValue(INTARRAY, Tokens(s[1..|s| - 1]))
  {
    assert s == "[" + s[1..|s| - 1] + "]";
    NbtPrimitiveFacts.BracketedIsIntArray(s[1..|s| - 1]);
  }

  /** A compound element needs a top-level colon, and no top-level comma before it. */
  lemma {:induction false} CompoundElementRules(body: string)
    requires body != []
    ensures SeparatorFrom(body, ':', 0) == -1 ==> Items(body, true) == Failed(MissingSeparator(body))
    ensures var colon, comma := SeparatorFrom(body, ':', 0), SeparatorFrom(body, ',', 0);
      colon != -1 && comma != -1 && comma < colon ==> Items(body, true) == Failed(NameError(body))
  {
  }

  /** A list element has no such rule: splitting a list body fails only in the element scan. */
  lemma {:induction false} ListSplitFailures(body: string)
    ensures SplitElement(body, false).Failed? ==>
      SplitElement(body, false).failure in {IllegalEscape(body), UnbalancedCurly(body), UnbalancedSquare(body)}
  {
  }

  /** An element followed by anything but `,`, `{`, `}`, `[` or `]` is an unexpected token. */
  lemma {:induction false} UnexpectedTokenRule(body: string, compound: bool)
    requires body != [] && SplitElement(body, compound).Done?
    requires var e := SplitElement(body, compound).value;
      (e != [] ==> Element(e, !compound).Done?) && |e| < |body| && !IsSeparator(body[|e|])
    ensures var e := SplitElement(body, compound).value;
      Items(body, compound) == Failed(UnexpectedToken(body[|e|], body[|e|..]))
  {
  }

  /**
   * The failures building the parser tree can end in: scan and split errors, a
   * missing substring, and an unexpected token that is not a separator and starts
   * the text it reports. Number formats are checked only when the tree is evaluated.
   */
  predicate ParseFailure(f: Failure)
  {
    match f
    case UnexpectedToken(c, rest) => !IsSeparator(c) && rest != [] && rest[0] == c
    case NumberFormat(_) => false
    case UnbalancedQuotation(_) => false
    case UnbalancedBrackets(_) => false
    case _ => true
  }

  lemma {:induction false} ParserFailure(name: string, value: string)
    ensures Parser(name, value).Failed? ==> ParseFailure(Parser(name, value).failure)
    decreases |value|, 0
  {
    var v := Trim(value);
    if |v| >= 2 && (StartsWith(v, '{') || StartsWith(v, '[')) {
      ItemsFailure(v[1..|v| - 1], StartsWith(v, '{'));
    }
  }

  lemma {:induction false} ItemsFailure(body: string, compound: bool)
    ensures Items(body, compound).Failed? ==> ParseFailure(Items(body, compound).failure)
    decreases |body|, 2
  {
    if body != [] && SplitElement(body, compound).Done? {
      var e := SplitElement(body, compound).value;
      if e != [] && Element(e, !compound).Failed? {
        ElementFailure(e, !compound);
      } else if |body| < |e| + 1 {
        ItemsLast(body, compound, e);
      } else if !IsSeparator(body[|e|]) {
        UnexpectedTokenRule(body, compound);
      } else {
        ItemsContinue(body, compound, e);
        ItemsFailure(body[|e| + 1..], compound);
      }
    }
  }

  lemma {:induction false} ElementFailure(e: string, inList: bool)
    ensures Element(e, inList).Failed? ==> ParseFailure(Element(e, inList).failure)
    decreases |e|, 1
  {
    if ElementName(e, inList).Done? && ElementText(e, inList).Done? {
      ParserFailure(ElementName(e, inList).value, ElementText(e, inList).value);
    }
  }

  // ---------------------------------------------------------------- plain list bodies

  /** Text with no quote, colon or bracket. */
  predicate PlainText(s: string)
  {
    forall i :: 0 <= i < |s| ==> s[i] != '"' && s[i] != ':' && !IsOpener(s[i]) && !IsCloser(s[i])
  }

  /** The primitive parsers, without names, of trimmed pieces of text. */
  function PlainParsers(ts: seq<string>): (r: seq<TypeParser>)
    ensures |r| == |ts|
  {
    if ts == [] then [] else [PrimitiveP("", Trim(ts[0]))] + PlainParsers(ts[1..])
  }

  lemma {:induction false} PlainParsersAppend(a: seq<string>, b: seq<string>)
    ensures PlainParsers(a + b) == PlainParsers(a) + PlainParsers(b)
  {
    if a != [] {
      assert (a + b)[0] == a[0] && (a + b)[1..] == a[1..] + b;
      PlainParsersAppend(a[1..], b);
    } else {
      assert a + b == b;
    }
  }

  /** A search for a character the text does not hold, outside brackets, finds nothing. */
  lemma {:induction false} AbsentSeparator(s: string, ch: char)
    requires forall i :: 0 <= i < |s| ==> s[i] != ch
    ensures SeparatorFrom(s, ch, 0) == -1
  {
  }

  /** Trimming plain text leaves plain text. */
  lemma {:induction false} TrimPlain(s: string)
    requires PlainText(s)
    ensures PlainText(Trim(s))
  {
    var a := TrimStart(s);
    PlainSlice(s, |s| - |a|, |s|);
    var b := TrimEnd(a);
    PlainSlice(a, 0, |b|);
  }

  /** Any slice of plain text is plain. */
  lemma {:induction false} PlainSlice(s: string, a: nat, b: nat)
    requires PlainText(s) && a <= b <= |s|
    ensures PlainText(s[a..b])
  {
    forall i | 0 <= i < b - a
      ensures s[a..b][i] == s[a + i]
    {
    }
  }

  /** A plain list element is a nameless primitive of its trimmed text. */
  lemma {:induction false} PlainElement(e: string)
    requires PlainText(e)
    ensures Element(e, true) == Done(PrimitiveP("", Trim(e)))
  {
    PlainNameText(e);
    TrimPlain(e);
    PlainParser(Trim(e));
    TrimIdempotent(e);
  }

  /** A plain list element has no name, and its value text is the element trimmed. */
  lemma {:induction false} PlainNameText(e: string)
    requires PlainText(e)
    ensures ElementName(e, true) == Done("") && ElementText(e, true) == Done(Trim(e))
  {
    var t := Trim(e);
    TrimPlain(e);
    AbsentSeparator(t, ':');
  }

  /** Plain text parses as a primitive of its trimmed text. */
  lemma {:induction false} PlainParser(t: string)
    requires PlainText(t)
    ensures Parser("", t) == Done(PrimitiveP("", Trim(t)))
  {
    TrimPlain(t);
    var v := Trim(t);
    assert !StartsWith(v, '{') && !StartsWith(v, '[');
  }

  lemma {:induction false} CommaShift(s: string, i: nat)
    requires 1 <= i <= |s|
    ensures CommaFrom(s, i) == 1 + CommaFrom(s[1..], i - 1)
    decreases |s| - i
  {
    if i < |s| && s[i] != ',' {
      CommaShift(s, i + 1);
    }
  }

  /** The comma split of a text is its piece before the first comma, then the split of the rest. */
  lemma {:induction false} SplitAtComma(s: string)
    ensures var k := CommaFrom(s, 0);
      NbtType.SplitComma(s) == if k == |s| then [s] else [s[..k]] + NbtType.SplitComma(s[k + 1..])
  {
    var k := CommaFrom(s, 0);
    if s != [] && s[0] != ',' {
      var t := s[1..];
      SplitAtComma(t);
      CommaShift(s, 1);
      var j := CommaFrom(t, 0);
      assert k == 1 + j;
      var rest := NbtType.SplitComma(t);
      assert NbtType.SplitComma(s) == [[s[0]] + rest[0]] + rest[1..];
      if j == |t| {
        assert [s[0]] + t == s;
      } else {
        assert [s[0]] + t[..j] == s[..k];
        assert t[j + 1..] == s[k + 1..];
      }
    }
  }

  /** The first element of a plain list body is its text up to the first comma. */
  lemma {:induction false} PlainHead(body: string)
    requires PlainText(body) && body != []
    ensures var k := CommaFrom(body, 0);
      SplitElement(body, false) == Done(body[..k]) &&
      (k > 0 ==> Element(body[..k], true) == Done(PrimitiveP("", Trim(body[..k])))) &&
      (k < |body| ==> IsSeparator(body[k]) && PlainText(body[k + 1..]))
  {
    var k := CommaFrom(body, 0);
    PlainSplit(body);
    if k > 0 {
      PlainPrefix(body, k);
      PlainElement(body[..k]);
    }
    if k < |body| {
      PlainSuffix(body, k + 1);
    }
  }

  lemma {:induction false} PlainPrefix(s: string, b: nat)
    requires PlainText(s) && b <= |s|
    ensures PlainText(s[..b])
  {
    forall i | 0 <= i < b
      ensures s[..b][i] == s[i]
    {
    }
  }

  lemma {:induction false} PlainSuffix(s: string, a: nat)
    requires PlainText(s) && a <= |s|
    ensures PlainText(s[a..])
  {
    forall i | 0 <= i < |s| - a
      ensures s[a..][i] == s[a + i]
    {
    }
  }

  /** A plain list body splits at its first comma. */
  lemma {:induction false} PlainSplit(body: string)
    requires PlainText(body) && body != []
    ensures SplitElement(body, false) == Done(body[..CommaFrom(body, 0)])
  {
    AbsentSeparator(body, ':');
    PlainElementEndsAtComma(body, 0, StartState);
  }

  /** A text with no comma has itself as its only token, when it is not empty. */
  lemma {:induction false} TokensWhole(body: string)
    requires CommaFrom(body, 0) == |body|
    ensures Tokens(body) == if body != [] then [body] else []
  {
    SplitAtComma(body);
    OmitCons(body, []);
    assert [body] + [] == [body];
  }

  /** The tokens of a text are its piece before the first comma, when not empty, then the tokens after it. */
  lemma {:induction false} TokensSplit(body: string, k: nat)
    requires k == CommaFrom(body, 0) && k < |body|
    ensures Tokens(body) == (if k > 0 then [body[..k]] else []) + Tokens(body[k + 1..])
  {
    SplitAtComma(body);
    OmitCons(body[..k], NbtType.SplitComma(body[k + 1..]));
    assert |body[..k]| == k;
  }

  lemma {:induction false} OmitCons(x: string, ys: seq<string>)
    ensures OmitEmpty([x] + ys) == (if x != [] then [x] else []) + OmitEmpty(ys)
  {
    assert ([x] + ys)[0] == x && ([x] + ys)[1..] == ys;
  }

  /**
   * A list body with no quotes, colons or brackets holds one nameless primitive per
   * non-empty comma piece, trimmed, in order: the same pieces an array literal is read from.
   */
  lemma {:induction false} PlainList(body: string)
    requires PlainText(body)
    ensures Items(body, false) == Done(PlainParsers(Tokens(body)))
    decreases |body|
  {
    if body != [] {
      var k := CommaFrom(body, 0);
      PlainHead(body);
      if k == |body| {
        PlainLast(body);
      } else {
        var rest := body[k + 1..];
        PlainList(rest);
        PlainStep(body, k);
      }
    }
  }

  /** The last comma piece of a plain list body: its element, if any, ends the list. */
  lemma {:induction false} PlainLast(body: string)
    requires PlainText(body) && body != [] && CommaFrom(body, 0) == |body|
    ensures Items(body, false) == Done(PlainParsers(Tokens(body)))
  {
    PlainHead(body);
    assert body[..|body|] == body;
    var v := Element(body, true).value;
    assert v == PrimitiveP("", Trim(body));
    ItemsLast(body, false, body);
    assert Items(body, false) == Done([v]);
    TokensWhole(body);
    assert PlainParsers([body]) == [v];
  }

  /** A comma piece of a plain list body followed by the rest of the body. */
  lemma {:induction false} PlainStep(body: string, k: nat)
    requires PlainText(body) && body != [] && k == CommaFrom(body, 0) && k < |body|
    requires Items(body[k + 1..], false) == Done(PlainParsers(Tokens(body[k + 1..])))
    ensures Items(body, false) == Done(PlainParsers(Tokens(body)))
  {
    var e := body[..k];
    var rest := body[k + 1..];
    PlainHead(body);
    assert |e| == k && body[|e| + 1..] == rest;
    var piece := if k > 0 then [e] else [];
    var first := if e != [] then [Element(e, true).value] else [];
    assert PlainParsers(piece) == first;
    ItemsContinue(body, false, e);
    assert Items(body, false) == PrependParsers(first, Items(rest, false));
    TokensSplit(body, k);
    PlainParsersAppend(piece, Tokens(rest));
  }

  // ---------------------------------------------------------------- evaluation

  /** The tags of a list's elements, in order; the list fails exactly when an element does. */
  lemma {:induction false} EvalItemsMeaning(p: TypeParser, n: nat, classify: string -> Outcome<Tag>, unquote: string -> string)
    requires !p.PrimitiveP? && n <= |p.items|
    ensures EvalItems(p, n, classify, unquote).Done? <==> forall i :: 0 <= i < n ==> Eval(p.items[i], classify, unquote).Done?
    ensures EvalItems(p, n, classify, unquote).Done? ==>
      forall i :: 0 <= i < n ==> Eval(p.items[i], classify, unquote) == Done(EvalItems(p, n, classify, unquote).value[i])
  {
    if n > 0 {
      EvalItemsMeaning(p, n - 1, classify, unquote);
      var r, r' := EvalItems(p, n, classify, unquote), EvalItems(p, n - 1, classify, unquote);
      var last := Eval(p.items[n - 1], classify, unquote);
      if r'.Done? && last.Done? {
        assert r == Done(r'.value + [last.value]);
        assert forall i :: 0 <= i < n - 1 ==> r.value[i] == r'.value[i];
      } else {
        assert r.Failed?;
      }
    }
  }

  /** `ListParser.parse`: the list holds each element's tag, in the elements' order. */
  lemma {:induction false} ListKeepsOrder(name: string, items: seq<TypeParser>, classify: string -> Outcome<Tag>, unquote: string -> string)
    ensures Eval(ListP(name, items), classify, unquote).Done? <==> forall i :: 0 <= i < |items| ==> Eval(items[i], classify, unquote).Done?
    ensures Eval(ListP(name, items), classify, unquote).Done? ==>
      var ts := Eval(ListP(name, items), classify, unquote).value;
      ts.List? && |ts.items| == |items| && forall i :: 0 <= i < |items| ==> Eval(items[i], classify, unquote) == Done(ts.items[i])
  {
    EvalItemsMeaning(ListP(name, items), |items|, classify, unquote);
  }

  /** No element after `i`, among the first `n`, has the key element `i` has. */
  predicate LastOfKey(p: TypeParser, i: nat, n: nat, unquote: string -> string)
    requires !p.PrimitiveP? && i < n <= |p.items|
  {
    forall j :: i < j < n ==> KeyOf(p.items[j].name, unquote) != KeyOf(p.items[i].name, unquote)
  }

  /** Every element among the first `n` has a key and a tag. */
  predicate AllEntriesRead(p: TypeParser, n: nat, classify: string -> Outcome<Tag>, unquote: string -> string)
    requires !p.PrimitiveP? && n <= |p.items|
  {
    forall i :: 0 <= i < n ==> KeyOf(p.items[i].name, unquote).Done? && Eval(p.items[i], classify, unquote).Done?
  }

  lemma {:induction false} EvalEntriesDone(p: TypeParser, n: nat, classify: string -> Outcome<Tag>, unquote: string -> string)
    requires !p.PrimitiveP? && n <= |p.items|
    ensures EvalEntries(p, n, classify, unquote).Done? <==> AllEntriesRead(p, n, classify, unquote)
  {
    if n > 0 {
      EvalEntriesDone(p, n - 1, classify, unquote);
    }
  }

  lemma {:induction false} EvalEntriesKeys(p: TypeParser, n: nat, classify: string -> Outcome<Tag>, unquote: string -> string)
    requires !p.PrimitiveP? && n <= |p.items| && EvalEntries(p, n, classify, unquote).Done?
    ensures forall k :: k in EvalEntries(p, n, classify, unquote).value <==>
      exists i :: 0 <= i < n && KeyOf(p.items[i].name, unquote) == Done(k)
  {
    if n > 0 {
      EvalEntriesKeyStep(p, n, classify, unquote);
      EvalEntriesKeys(p, n - 1, classify, unquote);
      KeysExtend(p, n, unquote, EvalEntries(p, n - 1, classify, unquote).value.Keys, KeyOf(p.items[n - 1].name, unquote).value);
    }
  }

  /** The keys of the first `n` elements are those of the first `n - 1` and the key of the last. */
  lemma {:induction false} KeysExtend(p: TypeParser, n: nat, unquote: string -> string, before: set<string>, key: string)
    requires !p.PrimitiveP? && 0 < n <= |p.items| && KeyOf(p.items[n - 1].name, unquote) == Done(key)
    requires forall k :: k in before <==> exists i :: 0 <= i < n - 1 && KeyOf(p.items[i].name, unquote) == Done(k)
    ensures forall k :: k in before + {key} <==> exists i :: 0 <= i < n && KeyOf(p.items[i].name, unquote) == Done(k)
  {
    forall k
      ensures k in before + {key} <==> exists i :: 0 <= i < n && KeyOf(p.items[i].name, unquote) == Done(k)
    {
      if k != key && exists i :: 0 <= i < n && KeyOf(p.items[i].name, unquote) == Done(k) {
        var i :| 0 <= i < n && KeyOf(p.items[i].name, unquote) == Done(k);
        assert i < n - 1;
      }
    }
  }

  /** One more element adds its key to the keys already read. */
  lemma {:induction false} EvalEntriesKeyStep(p: TypeParser, n: nat, classify: string -> Outcome<Tag>, unquote: string -> string)
    requires !p.PrimitiveP? && 0 < n <= |p.items| && EvalEntries(p, n, classify, unquote).Done?
    ensures EvalEntries(p, n - 1, classify, unquote).Done? && KeyOf(p.items[n - 1].name, unquote).Done?
    ensures EvalEntries(p, n, classify, unquote).value.Keys ==
      EvalEntries(p, n - 1, classify, unquote).value.Keys + {KeyOf(p.items[n - 1].name, unquote).value}
  {
  }

  lemma {:induction false} EvalEntriesLast(p: TypeParser, n: nat, classify: string -> Outcome<Tag>, unquote: string -> string, i: nat)
    requires !p.PrimitiveP? && i < n <= |p.items| && EvalEntries(p, n, classify, unquote).Done?
    requires LastOfKey(p, i, n, unquote)
    ensures KeyOf(p.items[i].name, unquote).Done? && Eval(p.items[i], classify, unquote).Done?
    ensures KeyOf(p.items[i].name, unquote).value in EvalEntries(p, n, classify, unquote).value
    ensures EvalEntries(p, n, classify, unquote).value[KeyOf(p.items[i].name, unquote).value] ==
      Eval(p.items[i], classify, unquote).value
  {
    var m' := EvalEntries(p, n - 1, classify, unquote);
    var key := KeyOf(p.items[n - 1].name, unquote);
    assert m'.Done? && key.Done?;
    if i < n - 1 {
      assert LastOfKey(p, i, n - 1, unquote);
      EvalEntriesLast(p, n - 1, classify, unquote, i);
      assert KeyOf(p.items[i].name, unquote) != key;
    }
  }

  /**
   * `CompoundParser.parse`: the compound succeeds exactly when every element has a key
   * and a tag; it holds exactly the keys of its elements, and each key the tag of its
   * last element with that key: a later duplicate overwrites an earlier one.
   */
  lemma {:induction false} CompoundLastWins(name: string, items: seq<TypeParser>, classify: string -> Outcome<Tag>, unquote: string -> string)
    ensures Eval(CompoundP(name, items), classify, unquote).Done? <==>
      forall i :: 0 <= i < |items| ==> KeyOf(items[i].name, unquote).Done? && Eval(items[i], classify, unquote).Done?
    ensures Eval(CompoundP(name, items), classify, unquote).Done? ==>
      var t := Eval(CompoundP(name, items), classify, unquote).value;
      t.Compound? &&
      (forall k :: k in t.entries <==> exists i :: 0 <= i < |items| && KeyOf(items[i].name, unquote) == Done(k)) &&
      forall i :: 0 <= i < |items| && LastOfKey(CompoundP(name, items), i, |items|, unquote) ==>
        t.entries[KeyOf(items[i].name, unquote).value] == Eval(items[i], classify, unquote).value
  {
    var p := CompoundP(name, items);
    EvalEntriesDone(p, |items|, classify, unquote);
    if Eval(p, classify, unquote).Done? {
      EvalEntriesKeys(p, |items|, classify, unquote);
      forall i | 0 <= i < |items| && LastOfKey(p, i, |items|, unquote)
        ensures Eval(p, classify, unquote).value.entries[KeyOf(items[i].name, unquote).value] == Eval(items[i], classify, unquote).value
      {
        EvalEntriesLast(p, |items|, classify, unquote, i);
      }
    }
  }

  /** A quoted key is passed, without its quotes, to the string-literal parser; other keys stand as they are. */
  lemma {:induction false} QuotedKey(name: string, unquote: string -> string)
    ensures |name| >= 2 && name[0] == '"' && name[|name| - 1] == '"' ==> KeyOf(name, unquote) == Done(unquote(name[1..|name| - 1]))
    ensures !StartsWith(name, '"') || !EndsWith(name, '"') ==> KeyOf(name, unquote) == Done(name)
  {
  }
}
