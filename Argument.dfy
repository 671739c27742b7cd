/**
 * Command arguments: how an object word and an optional parameter become a
 * container and a query, or stay deferred until an action supplies a context.
 *
 * `Resolve` classifies an object word exactly as `getContainer` tests it, in the
 * same order. Sources that live in the game world, in files or in JSON (players,
 * entities, blocks, chunks, variables, files, schematics, held items) are
 * `Outside`: the environment supplies their container. Literal words become value
 * containers; some numeric words and `*`, `self`, `this` are deferred.
 */
module Arguments {
  import opened Tags
  import opened Numbers
  import opened NbtType
  import opened NbtScan
  import NbtPrimitive
  import NbtParser
  import opened NbtQuery
  import opened Containers

  // ---------------------------------------------------------------- messages

  const UndefinedObject := "error_undefinedobject"
  const NoPlayer := "error_noplayer"
  const UndefinedSelf := "error_undefinedself"
  const UndefinedType := "error_undefinedtype"
  const ErrorParse := "error_parse"
  const NumberFormatError := "NumberFormatException"
  const MalformedLiteral := "malformed NBT literal"
  const TagMissing := "tag not found"
  const Ignored := "future object type ignored"
  const RequestSelect := "request_select"

  // ---------------------------------------------------------------- the environment

  /**
   * What the argument code consults but this model does not define: the containers
   * of game-world, file and JSON sources (from the object word and parameter),
   * `StringParser.parse`, Java's floating-point parsing narrowed to a kind,
   * `NBTQuery.fromString`, and the type completer.
   */
  datatype Env = Env(
    supply: (string, Option<string>) -> Result<Container>,
    unescape: string -> string,
    floating: (string, Kind) -> Result<Tag>,
    fromString: Option<string> -> Query,
    complete: (string, Query) -> Option<Kind>)

  /** The container and query an action offers as context to `prepare`. */
  datatype Context = Context(container: Container, query: Query)

  // ---------------------------------------------------------------- patterns

  /** A Java regular-expression `.`: any character but a line terminator. */
  predicate LineChar(c: char)
  {
    c != '\n' && c != '\r' && c != '\U{0085}' && c != '\U{2028}' && c != '\U{2029}'
  }

  /** The text after one optional leading minus sign. */
  function AfterMinus(s: string): (t: string)
    ensures |s| >= 1 && s[0] == '-' ==> t == s[1..]
    ensures !(|s| >= 1 && s[0] == '-') ==> t == s
  {
    if |s| >= 1 && s[0] == '-' then s[1..] else s
  }

  /** `-?[0-9]*` (the empty text included). */
  predicate WholeNumber(s: string)
  {
    NbtPrimitive.Digits(AfterMinus(s))
  }

  /** `-?[0-9]+\.[0-9]*` */
  predicate PointNumber(s: string)
  {
    var t := AfterMinus(s);
    var k := NbtPrimitive.IndexOf(t, '.');
    1 <= k < |t| && NbtPrimitive.Digits(t[..k]) && NbtPrimitive.Digits(t[k + 1..])
  }

  /** `NaN|-?Infinity` */
  predicate NonFinite(s: string)
  {
    s == "NaN" || s == "Infinity" || s == "-Infinity"
  }

  /** The three number shapes `getContainer` defers without a parameter. */
  predicate NumberWord(o: string)
  {
    WholeNumber(o) || NonFinite(o) || PointNumber(o)
  }

  /** `b[0-1]+`, the binary literal `getContainer` recognises. */
  predicate BinaryLiteral(s: string)
  {
    |s| >= 2 && s[0] == 'b' && AllDigits(s[1..], 2)
  }

  /** `b[0-1]*`, the binary literal `prepare` recognises. */
  predicate BinaryPattern(s: string)
  {
    |s| >= 1 && s[0] == 'b' && AllDigits(s[1..], 2)
  }

  /** The length of the longest run of digits `s` starts with. */
  function LeadingDigits(s: string): (k: nat)
    ensures k <= |s| && NbtPrimitive.Digits(s[..k])
    ensures k < |s| ==> !NbtPrimitive.IsDigit(s[k])
  {
    if s == [] || !NbtPrimitive.IsDigit(s[0]) then 0
    else
      var k := 1 + LeadingDigits(s[1..]);
      assert s[..k] == [s[0]] + s[1..][..k - 1];
      k
  }

  /** `-?[0-9]*(.[0-9]*)?`, the number pattern of `prepare`, whose `.` is any character. */
  predicate LooseNumber(s: string)
  {
    var t := AfterMinus(s);
    var k := LeadingDigits(t);
    k == |t| || (LineChar(t[k]) && NbtPrimitive.Digits(t[k + 1..]))
  }

  /** `-?[0-9]*(\.[0-9])?`, the body of a float or double literal in the parser branch. */
  predicate ShortDecimal(s: string)
  {
    var t := AfterMinus(s);
    NbtPrimitive.Digits(t) ||
    (|t| >= 2 && t[|t| - 2] == '.' && NbtPrimitive.Digits(t[..|t| - 2]) && NbtPrimitive.IsDigit(t[|t| - 1]))
  }

  /** Text in double quotes (at least the two quotes). */
  predicate Quoted(s: string)
  {
    |s| > 1 && s[0] == '"' && s[|s| - 1] == '"'
  }

  /** The text before the first colon, and the text after it when there is one. */
  function CutAtColon(s: string): (r: (string, Option<string>))
    ensures r.1.None? ==> r.0 == s
    ensures r.1.Some? ==> s == r.0 + [':'] + r.1.value
    ensures ':' !in r.0
  {
    var k := NbtPrimitive.IndexOf(s, ':');
    if k == |s| then (s, None)
    else
      assert s == s[..k] + [':'] + s[k + 1..];
      (s[..k], Some(s[k + 1..]))
  }

  /** `(:.*)?` after the numbers of a coordinate. */
  predicate CoordinateTail(r: Option<string>)
  {
    r.None? || forall i :: 0 <= i < |r.value| ==> LineChar(r.value[i])
  }

  /** `(-?[0-9]+):(-?[0-9]+):(-?[0-9]+)(:.*)?`, a block position. */
  predicate Coordinates(s: string)
  {
    var (x, r1) := CutAtColon(s);
    DecimalToken(x) && r1.Some? &&
    var (y, r2) := CutAtColon(r1.value);
    DecimalToken(y) && r2.Some? &&
    var (z, r3) := CutAtColon(r2.value);
    DecimalToken(z) && CoordinateTail(r3)
  }

  /** `chunk:(-?[0-9]+):(-?[0-9]+)(:.*)?`, a chunk position. */
  predicate ChunkCoordinates(s: string)
  {
    "chunk:" <= s &&
    var (x, r1) := CutAtColon(s[6..]);
    DecimalToken(x) && r1.Some? &&
    var (z, r2) := CutAtColon(r1.value);
    DecimalToken(z) && CoordinateTail(r2)
  }

  /** Objects the game world supplies by name: the sender, its item, inventory, an entity id, the block looked at, its chunk. */
  predicate NamedSource(o: string)
  {
    o in {"me", "item", "i", "inventory", "inv", "block", "b", "chunk"} || "id" <= o
  }

  /** Objects with a prefix and a name: a player, a variable, a custom file. */
  predicate PrefixedSource(o: string)
  {
    ("*" <= o && |o| > 1) || ("player:" <= o && |o| > 7) || ("%" <= o && |o| > 1) ||
    ("$$" <= o && |o| > 2) || ("$" <= o && |o| > 1)
  }

  /** Files: plain, gzip-compressed, or a schematic. */
  predicate FileSource(o: string)
  {
    ("file:" <= o && |o| > 5) || ("gzip:" <= o && |o| > 5) || ("gz:" <= o && |o| > 3) ||
    ("schematic:" <= o && |o| > 10) || ("sch:" <= o && |o| > 3)
  }

  /** The seventeen colour names and the RGB value each stands for. */
  const Colors: map<string, i32> := map[
    "black" := 0x1E1B1B, "red" := 0xB3312C, "green" := 0x3B511A, "brown" := 0x51310A,
    "blue" := 0x253192, "purple" := 0x7B2FBE, "cyan" := 0x287697, "lightgray" := 0xABABAB,
    "gray" := 0x434343, "pink" := 0xD88198, "lime" := 0x41CC34, "lightgreen" := 0x41CC34,
    "yellow" := 0xDECF2A, "lightblue" := 0x6689D3, "magenta" := 0xC354CD, "orange" := 0xEB8844,
    "white" := 0xF0F0F0]

  /** The value a keyword stands for: an empty compound, list or array, a boolean, or null. */
  function KeywordValue(o: string): Option<Option<Tag>>
  {
    if o == "compound" || o == "com" then Some(Some(Compound(map[])))
    else if o == "list" then Some(Some(List([])))
    else if o == "on" || o == "true" then Some(Some(Byte(1)))
    else if o == "off" || o == "false" then Some(Some(Byte(0)))
    else if o == "null" then Some(None)
    else if o == "int[]" then Some(Some(IntArray([])))
    else if o == "long[]" then Some(Some(LongArray([])))
    else if o == "byte[]" then Some(Some(ByteArray([])))
    else None
  }

  /** The name after `@`, unquoted and trimmed when it is quoted. */
  function AtToken(o: string, unescape: string -> string): string
    requires |o| >= 1
  {
    var t := o[1..];
    if Quoted(t) then Trim(unescape(t[1..|t| - 1])) else t
  }

  /** The player files named by `@name`; a name holding the path separator `/` is not one. */
  predicate PlayerFile(o: string, unescape: string -> string)
  {
    "@" <= o && '/' !in AtToken(o, unescape)
  }

  /** The array kind a trailing `b`, `i` or `l` names. */
  function ArrayKindOf(c: char): (k: Kind)
    requires c in "bil"
    ensures k in {BYTEARRAY, INTARRAY, LONGARRAY}
  {
    if c == 'b' then BYTEARRAY else if c == 'i' then INTARRAY else LONGARRAY
  }

  /** `[..]b`, `[..]i` or `[..]l`: an array literal followed by its kind letter. */
  predicate TypedArray(o: string)
  {
    |o| >= 1 && o[|o| - 1] in "bil" && ArrayLiteral(o[..|o| - 1])
  }

  /** The held-item sources: the sender's, or a named player's. */
  predicate HandSource(o: string)
  {
    o == "hand" || o == "h" || ("hand:" <= o && |o| > 5) || ("h:" <= o && |o| > 2)
  }

  /** The shapes handed to the NBT literal parser: braces, brackets, and suffixed numbers. */
  predicate ParserShaped(o: string)
  {
    |o| >= 1 &&
    ((o[0] == '{' && o[|o| - 1] == '}') || (o[0] == '[' && o[|o| - 1] == ']') ||
     (o[|o| - 1] in "fd" && ShortDecimal(o[..|o| - 1])) ||
     (o[|o| - 1] in "bsilfd" && WholeNumber(o[..|o| - 1])))
  }

  // ---------------------------------------------------------------- resolution

  /** What `getContainer` makes of an object word. */
  datatype Source =
    | Outside                      // a game-world, file or JSON source
    | Buffer                       // the caller's own clipboard
    | Literal(value: Option<Tag>)  // a value container holding this value
    | Deferred                     // no container until `prepare` or `select`
    | Thrown(msg: string)          // the exception `getContainer` throws

  /** `NBTType.parse`'s outcome: a value, the parse error, or what the floating-point parser gives. */
  function Evaluate(p: Parsed, floating: (string, Kind) -> Result<Tag>): Result<Tag>
  {
    match p
    case Value(t) => Ok(t)
    case ParseError(_, _) => Err(ErrorParse)
    case ViaFloatingPoint(text, k) => floating(text, k)
  }

  /** A value container holding `type.parse(s)`. */
  function Typed(k: Kind, s: string, env: Env): Source
  {
    match Evaluate(ParseText(k, s), env.floating)
    case Ok(t) => Literal(Some(t))
    case Err(m) => Thrown(m)
  }

  /** An array kind's element kind; any other kind itself. The result is never an array kind. */
  function Scalar(k: Kind): (r: Kind)
    ensures BaseType(r).None?
    ensures BaseType(k).Some? ==> ArrayType(r) == Some(k)
    ensures BaseType(k).None? ==> r == k
    ensures r == END <==> k == END
  {
    if BaseType(k).Some? then BaseType(k).value else k
  }

  /** The kind a parameter names; no parameter means `default`. */
  function KindOr(param: Option<string>, default: Kind): Kind
  {
    if param.Some? then KindFromName(param) else default
  }

  /** The sources `getContainer` tests for before quoted text, in its order; None when the word is none of them. */
  function Early(o: string, unescape: string -> string): (r: Option<Source>)
    ensures r.Some? ==> r.value.Outside? || r.value.Buffer? || r.value.Literal?
  {
    if NamedSource(o) then Some(Outside)
    else if o == "buffer" || o == "clipboard" || o == "c" then Some(Buffer)
    else if PrefixedSource(o) then Some(Outside)
    else if o in Colors then Some(Literal(Some(Int(Colors[o]))))
    else if FileSource(o) then Some(Outside)
    else if KeywordValue(o).Some? then Some(Literal(KeywordValue(o).value))
    else if Coordinates(o) || ChunkCoordinates(o) then Some(Outside)
    else if PlayerFile(o, unescape) then Some(Outside)
    else None
  }

  /** What the textual branches of `getContainer` do with a word: give a source outright, or parse some text. */
  datatype Request =
    | Take(source: Source)
    | ParseAs(kind: Kind, text: string)         // `type.parse(text)`
    | ParseNbt(text: string, failure: string)   // the NBT literal parser; `failure` is thrown when it fails

  /** The textual branches of `getContainer`, from quoted text on. */
  function TextRequest(o: string, param: Option<string>, unescape: string -> string): (r: Request)
    ensures r == Take(Deferred) ==>
      o == "*" || o == "self" || o == "this" || (param.None? && (BinaryLiteral(o) || NumberWord(o)))
  {
    if Quoted(o) then
      var s := unescape(o[1..|o| - 1]);
      if param.Some? && NbtPrimitive.EqualsIgnoreCase(param.value, "json") then Take(Outside)
      else if param.Some? && (NbtPrimitive.EqualsIgnoreCase(param.value, "mojangson") || NbtPrimitive.EqualsIgnoreCase(param.value, "mj")) then
        ParseNbt(s, MalformedLiteral)
      else ParseAs(KindOr(param, STRING), s)
    else if HexToken(o) then
      match ParseSigned(o[1..], 16, 64)
      case None => Take(Thrown(NumberFormatError))
      case Some(n) => ParseAs(KindOr(param, INT), ToDecimal(n))
    else if BinaryLiteral(o) then
      if param.None? then Take(Deferred)
      else
        match ParseSigned(o[1..], 2, 64)
        case None => Take(Thrown(NumberFormatError))
        case Some(n) => ParseAs(KindFromName(param), ToDecimal(n))
    else if WholeNumber(o) || NonFinite(o) || PointNumber(o) then
      if param.None? then Take(Deferred) else ParseAs(Scalar(KindFromName(param)), o)
    else if o == "*" || o == "self" || o == "this" then Take(Deferred)
    else if TypedArray(o) then ParseAs(ArrayKindOf(o[|o| - 1]), o[..|o| - 1])
    else if HandSource(o) then Take(Outside)
    else if ParserShaped(o) then
      if param == Some("json") then Take(Outside) else ParseNbt(o, UndefinedObject)
    else Take(Thrown(UndefinedObject))
  }

  /** The source a request ends in once its text is parsed. */
  function Fulfil(req: Request, env: Env): (r: Source)
    ensures req.Take? ==> r == req.source
    ensures !req.Take? ==> r.Literal? || r.Thrown?
  {
    match req
    case Take(src) => src
    case ParseAs(k, text) => Typed(k, text, env)
    case ParseNbt(text, failure) =>
      (match NbtParser.ParseLiteral(text, env.unescape)
       case Done(t) => Literal(Some(t))
       case Failed(_) => Thrown(failure))
  }

  /** `getContainer(caller, word, param)`. */
  function Resolve(word: Option<string>, param: Option<string>, env: Env): (r: Source)
    ensures r.Outside? ==> word.Some?
  {
    if word.None? then Thrown(UndefinedObject)
    else
      match Early(word.value, env.unescape)
      case Some(src) => src
      case None => Fulfil(TextRequest(word.value, param, env.unescape), env)
  }

  /** A container of its own over a literal value. */
  method NewValue(v: Option<Tag>) returns (c: Container)
    ensures c.Root? && fresh(c.store) && c.store.root == v && c.store.isValue
  {
    var s := new Store(v, false, None, None, [], true);
    c := Root(s);
  }

  // ---------------------------------------------------------------- preparation

  /** The first kind the completer offers for the container's type names; END when none does. */
  function FirstCompleted(names: seq<string>, q: Query, complete: (string, Query) -> Option<Kind>): Kind
    decreases |names|
  {
    if names == [] then END
    else
      match complete(names[0], q)
      case Some(k) => k
      case None => FirstCompleted(names[1..], q, complete)
  }

  /** The completer loop of `prepare`: the names are tried in order and the first answer wins. */
  method CompleteType(names: seq<string>, q: Query, complete: (string, Query) -> Option<Kind>) returns (k: Kind)
    ensures k == FirstCompleted(names, q, complete)
  {
    var i := 0;
    while i < |names|
      invariant 0 <= i <= |names|
      invariant FirstCompleted(names[i..], q, complete) == FirstCompleted(names, q, complete)
    {
      var t := complete(names[i], q);
      if t.Some? {
        return t.value;
      }
      assert names[i..][1..] == names[i + 1..];
      i := i + 1;
    }
    k := END;
  }

  /**
   * The kind a deferred number is read as: the kind of the value at the context
   * query, else what the completer offers; an array kind then becomes its element
   * kind; failing all that, the element kind of a list one step up.
   */
  function NumberKind(x: Option<Tag>, tree: Option<Tag>, q: Query, types: seq<string>, complete: (string, Query) -> Option<Kind>): (r: Kind)
    ensures KindOf(x) != END ==> r == Scalar(KindOf(x)) && BaseType(r).None?
    ensures KindOf(x) == END && FirstCompleted(types, q, complete) != END ==> r == Scalar(FirstCompleted(types, q, complete))
    ensures KindOf(x) == END && FirstCompleted(types, q, complete) == END ==> r == ParentListKind(tree, q)
  {
    var found := KindOf(x);
    var completed := if found == END then FirstCompleted(types, q, complete) else found;
    var k := Scalar(completed);
    if k != END then k else ParentListKind(tree, q)
  }

  /** The element kind of the list one step above `q`; END when there is none. */
  function ParentListKind(tree: Option<Tag>, q: Query): (r: Kind)
    ensures Parent(q).None? ==> r == END
    ensures r != END ==>
      Parent(q).Some? && Get(tree, Parent(q).value).Found? &&
      Get(tree, Parent(q).value).value.Some? && Get(tree, Parent(q).value).value.value.List?
  {
    match Parent(q)
    case None => END
    case Some(p) =>
      match Get(tree, p)
      case Found(Some(List(items))) => ElementKind(items)
      case _ => END
  }

  /**
   * The kind a deferred array literal is read as: the array kind of a byte, int or
   * long at the context query; what the completer offers when nothing is there;
   * otherwise the kind found.
   */
  function BracketKind(x: Option<Tag>, q: Query, types: seq<string>, complete: (string, Query) -> Option<Kind>): (r: Kind)
    ensures ArrayType(KindOf(x)).Some? ==> BaseType(r) == Some(KindOf(x))
    ensures KindOf(x) == END ==> r == FirstCompleted(types, q, complete)
    ensures KindOf(x) != END && ArrayType(KindOf(x)).None? ==> r == KindOf(x)
  {
    var found := KindOf(x);
    if ArrayType(found).Some? then ArrayType(found).value
    else if found == END then FirstCompleted(types, q, complete)
    else found
  }

  /** `Long.parseLong(objectFuture, 2)` as the binary branch of `prepare` is written: the `b` is kept. */
  function BinaryValueAsWritten(o: string): Option<int>
  {
    ParseSigned(o, 2, 64)
  }

  /** The binary digits after the `b`, read as a long. */
  function BinaryValue(o: string): Option<int>
    requires |o| >= 1
  {
    ParseSigned(o[1..], 2, 64)
  }

  /** Which branch of `prepare` a deferred object word takes, tested in the order written. */
  datatype Shape = Star | SelfRef | Hand | Binary | Number | Bracket | Unhandled

  function ShapeOf(o: string): (r: Shape)
    ensures r == Binary ==> |o| >= 1
  {
    if o == "*" then Star
    else if o == "self" || o == "this" then SelfRef
    else if o == "hand" || o == "h" then Hand
    else if BinaryPattern(o) then Binary
    else if LooseNumber(o) || NonFinite(o) then Number
    else if ArrayLiteral(o) then Bracket
    else Unhandled
  }

  /** What `prepare` does next. */
  datatype Step =
    | Await                              // ask the sender to select a container
    | Adopt(container: Container, query: Query)
    | Build(value: Tag)                  // a value container holding this value, with the empty query
    | Refuse(msg: string)

  function Made(p: Parsed, env: Env): Step
  {
    match Evaluate(p, env.floating)
    case Ok(t) => Build(t)
    case Err(m) => Refuse(m)
  }

  /**
   * `prepare(action, paramContainer, paramQuery)` for the deferred object word `o`;
   * `tree` is what the context container holds. The binary branch reads the digits
   * after the `b` (see `BinaryValueAsWritten` for the code as written).
   */
  function Plan(o: string, queryFuture: Option<string>, context: Option<Context>, tree: Result<Option<Tag>>, isPlayer: bool, env: Env): (r: Step)
    ensures r.Await? <==> o == "*" && isPlayer
    ensures r.Adopt? ==> o in {"self", "this", "hand", "h"}
    ensures r.Build? ==> context.Some? && ShapeOf(o) in {Binary, Number, Bracket}
    ensures context.None? && ShapeOf(o) in {SelfRef, Binary, Number, Bracket} ==> r.Refuse?
  {
    match ShapeOf(o)
    case Star => if isPlayer then Await else Refuse(NoPlayer)
    case SelfRef => PlanSelf(queryFuture, context, env)
    case Hand => PlanHand(o, queryFuture, isPlayer, env)
    case Binary => PlanBinary(o, context, tree, env)
    case Number => PlanNumber(o, context, tree, env)
    case Bracket => PlanBracket(o, context, tree, env)
    case Unhandled => Refuse(Ignored)
  }

  /** The `self`/`this` branch of `prepare`: the context container, with the deferred query. */
  function PlanSelf(queryFuture: Option<string>, context: Option<Context>, env: Env): (r: Step)
    ensures r.Adopt? || r == Refuse(UndefinedSelf)
    ensures r.Adopt? <==> context.Some?
    ensures r.Adopt? ==> r.container == context.value.container && r.query == env.fromString(queryFuture)
  {
    if context.None? then Refuse(UndefinedSelf)
    else Adopt(context.value.container, env.fromString(queryFuture))
  }

  /** The held-item branch of `prepare`: the sender's held item, supplied from outside, with the deferred query. */
  function PlanHand(o: string, queryFuture: Option<string>, isPlayer: bool, env: Env): (r: Step)
    ensures r.Adopt? || r.Refuse?
    ensures !isPlayer ==> r == Refuse(NoPlayer)
    ensures r.Adopt? <==> isPlayer && env.supply(o, None).Ok?
    ensures r.Adopt? ==> r.container == env.supply(o, None).value && r.query == env.fromString(queryFuture)
  {
    if !isPlayer then Refuse(NoPlayer)
    else
      match env.supply(o, None)
      case Ok(c) => Adopt(c, env.fromString(queryFuture))
      case Err(m) => Refuse(m)
  }

  /** The binary branch of `prepare`: the value converted to the kind found at the context query. */
  function PlanBinary(o: string, context: Option<Context>, tree: Result<Option<Tag>>, env: Env): (r: Step)
    requires |o| >= 1
    ensures r.Build? || r.Refuse?
    ensures context.None? ==> r == Refuse(UndefinedType)
    ensures context.Some? && BinaryValue(o).None? ==> r == Refuse(NumberFormatError)
    ensures context.Some? && BinaryValue(o).Some? && ReadAt(tree, context.value.query).Err? ==>
      r == Refuse(ReadAt(tree, context.value.query).msg)
    ensures r.Build? ==> BinaryValue(o).Some? && ReadAt(tree, context.value.query).Ok?
  {
    if context.None? then Refuse(UndefinedType)
    else
      match BinaryValue(o)
      case None => Refuse(NumberFormatError)
      case Some(n) =>
        match ReadAt(tree, context.value.query)
        case Ok(x) => Made(ParseText(KindOf(x), ToDecimal(n)), env)
        case Err(m) => Refuse(m)
  }

  /** The number branch of `prepare`: the text parsed as `NumberKind` says. */
  function PlanNumber(o: string, context: Option<Context>, tree: Result<Option<Tag>>, env: Env): (r: Step)
    ensures r.Build? || r.Refuse?
    ensures context.None? ==> r == Refuse(UndefinedType)
    ensures context.Some? && ReadAt(tree, context.value.query).Err? ==> r == Refuse(ReadAt(tree, context.value.query).msg)
  {
    if context.None? then Refuse(UndefinedType)
    else
      var q := context.value.query;
      match ReadAt(tree, q)
      case Ok(x) => Made(ParseText(NumberKind(x, tree.value, q, Types(context.value.container), env.complete), o), env)
      case Err(m) => Refuse(m)
  }

  /** The array branch of `prepare`: the text parsed as `BracketKind` says. */
  function PlanBracket(o: string, context: Option<Context>, tree: Result<Option<Tag>>, env: Env): (r: Step)
    ensures r.Build? || r.Refuse?
    ensures context.None? ==> r == Refuse(UndefinedType)
    ensures context.Some? && ReadAt(tree, context.value.query).Err? ==> r == Refuse(ReadAt(tree, context.value.query).msg)
  {
    if context.None? then Refuse(UndefinedType)
    else
      var q := context.value.query;
      match ReadAt(tree, q)
      case Ok(x) => Made(ParseText(BracketKind(x, q, Types(context.value.container), env.complete), o), env)
      case Err(m) => Refuse(m)
  }

  /** `paramContainer.getCustomTag()`: the context container read strictly, so a path that does not resolve fails. */
  function Tree(context: Option<Context>): (r: Result<Option<Tag>>)
    reads if context.Some? then {StoreOf(context.value.container)} else {}
    ensures context.None? ==> r == Ok(None)
    ensures context.Some? ==> var c := context.value.container;
      (r.Ok? <==> Get(StoreOf(c).root, Path(c)).Found?) &&
      (r.Ok? ==> r.value == Get(StoreOf(c).root, Path(c)).value)
  {
    if context.Some? then CustomTagIn(context.value.container, StoreOf(context.value.container).root) else Ok(None)
  }

  /** `paramQuery.get(paramContainer.getCustomTag())`: fails when the strict read fails or the query does not resolve. */
  function ReadAt(tree: Result<Option<Tag>>, q: Query): (r: Result<Option<Tag>>)
    ensures r.Ok? <==> tree.Ok? && Get(tree.value, q).Found?
    ensures r.Ok? ==> r.value == Get(tree.value, q).value
    ensures tree.Err? ==> r == tree
    ensures tree.Ok? && !Get(tree.value, q).Found? ==> r == Err(TagMissing)
  {
    match tree
    case Err(m) => Err(m)
    case Ok(t) =>
      match Get(t, q)
      case Found(x) => Ok(x)
      case _ => Err(TagMissing)
  }

  /** The outcome of `prepare`. */
  datatype Prepared =
    | Held              // waiting for the sender's selection
    | Resumed           // a container is installed: the action runs again
    | Refused(msg: string)

  // ---------------------------------------------------------------- caller and argument

  /** The command sender's side: its clipboard, whether it is a player, what it was sent, what waits for its selection. */
  class Caller {
    const buffer: Store
    const isPlayer: bool
    var sent: seq<string>
    var shown: seq<Option<Tag>>
    var held: seq<Argument>

    constructor (isPlayer: bool)
      ensures fresh(buffer) && buffer.root == None && !buffer.isValue
      ensures this.isPlayer == isPlayer && sent == [] && shown == [] && held == []
    {
      buffer := new Store(None, false, None, None, [], false);
      this.isPlayer := isPlayer;
      sent := [];
      shown := [];
      held := [];
    }

    /** `send(message)`: messages are kept in the order sent. */
    method Send(msg: string)
      modifies this
      ensures sent == old(sent) + [msg] && shown == old(shown) && held == old(held)
    {
      sent := sent + [msg];
    }

    /** `sendValue(message, value, ...)`: the message, and the value shown beside it. */
    method SendValue(msg: string, v: Option<Tag>)
      modifies this
      ensures sent == old(sent) + [msg] && shown == old(shown) + [v] && held == old(held)
    {
      sent := sent + [msg];
      shown := shown + [v];
    }

    /** `setCustomTag(value)` on the sender: the clipboard now holds the value. */
    method Keep(v: Option<Tag>)
      modifies buffer
      ensures buffer.root == v
    {
      buffer.root := v;
    }

    /** `hold(argument, action)`: the argument waits for a selection. */
    method Hold(a: Argument)
      modifies this
      ensures held == old(held) + [a] && sent == old(sent) && shown == old(shown)
    {
      held := held + [a];
    }
  }

  /** A value container made for a literal. */
  function IsValue(c: Container): bool
  {
    c.Root? && c.store.isValue
  }

  class Argument {
    const caller: Caller
    var container: Option<Container>
    var query: Option<Query>
    var objectFuture: Option<string>
    var queryFuture: Option<string>

    /** A container always comes with its query, and a deferred argument keeps its object word. */
    predicate Valid()
      reads this
    {
      (container.Some? <==> query.Some?) && (container.None? ==> objectFuture.Some?)
    }

    /** `needPrepare()`. */
    function NeedPrepare(): (r: bool)
      reads this
      ensures r <==> container.None?
    {
      container.None?
    }

    /**
     * `new Argument(caller, word, param)` once `getContainer` returned `found`:
     * nothing found keeps the words for later; a value container takes the empty
     * query; any other container takes the query the parameter spells.
     */
    constructor (caller: Caller, word: Option<string>, param: Option<string>, found: Option<Container>, fromString: Option<string> -> Query)
      ensures this.caller == caller && container == found
      ensures found.None? ==> objectFuture == word && queryFuture == param && query.None?
      ensures found.Some? ==> objectFuture.None? && queryFuture.None?
      ensures found.Some? ==> query == Some(if IsValue(found.value) then [] else fromString(param))
    {
      this.caller := caller;
      container := found;
      if found.None? {
        objectFuture := word;
        queryFuture := param;
        query := None;
      } else {
        objectFuture := None;
        queryFuture := None;
        query := Some(if IsValue(found.value) then [] else fromString(param));
      }
    }

    /** `select(container)`: the chosen container with the query the deferred parameter spells. */
    method Select(c: Container, fromString: Option<string> -> Query)
      modifies this
      ensures container == Some(c) && query == Some(fromString(queryFuture))
      ensures objectFuture == old(objectFuture) && queryFuture == old(queryFuture)
      ensures Valid()
    {
      container := Some(c);
      query := Some(fromString(queryFuture));
    }

    /**
     * The argument's state after `prepare` took `step` and answered `r`: an adopted
     * container with its query, a new value container with the empty query, or no
     * change with the failure.
     */
    twostate predicate Reached(new step: Step, r: Prepared)
      reads this, if container.Some? && container.value.Root? then {container.value.store} else {}
    {
      (step.Await? ==> r == Held && container == old(container) && query == old(query)) &&
      (step.Adopt? ==> r == Resumed && container == Some(step.container) && query == Some(step.query)) &&
      (step.Build? ==>
         r == Resumed && container.Some? && container.value.Root? && fresh(container.value.store) &&
         container.value.store.root == Some(step.value) && container.value.store.isValue && query == Some([])) &&
      (step.Refuse? ==> r == Refused(step.msg) && container == old(container) && query == old(query))
    }

    /** Installs a value container over what `type.parse` gave, or reports its failure. */
    method Install(p: Parsed, env: Env) returns (r: Prepared)
      modifies this
      ensures Reached(Made(p, env), r)
      ensures objectFuture == old(objectFuture) && queryFuture == old(queryFuture)
    {
      var v := Evaluate(p, env.floating);
      if v.Err? {
        return Refused(v.msg);
      }
      var c := NewValue(Some(v.value));
      container := Some(c);
      query := Some([]);
      r := Resumed;
    }

    /** The `*` branch: a player is asked to select a container, and the argument waits. */
    method PrepareStar() returns (r: Prepared)
      modifies caller
      ensures Reached(if caller.isPlayer then Await else Refuse(NoPlayer), r)
      ensures r == Held ==> caller.sent == old(caller.sent) + [RequestSelect] && caller.shown == old(caller.shown)
      ensures r == Held ==> caller.held == old(caller.held) + [this]
      ensures r != Held ==> unchanged(caller)
    {
      if !caller.isPlayer {
        return Refused(NoPlayer);
      }
      caller.Send(RequestSelect);
      caller.Hold(this);
      r := Held;
    }

    /** The `self`/`this` branch: adopt the context container. */
    method PrepareSelf(context: Option<Context>, env: Env) returns (r: Prepared)
      modifies this
      ensures Reached(PlanSelf(queryFuture, context, env), r)
      ensures objectFuture == old(objectFuture) && queryFuture == old(queryFuture)
    {
      if context.None? {
        return Refused(UndefinedSelf);
      }
      container := Some(context.value.container);
      query := Some(env.fromString(queryFuture));
      r := Resumed;
    }

    /** The held-item branch: adopt the container supplied for the sender's held item. */
    method PrepareHand(o: string, env: Env) returns (r: Prepared)
      modifies this
      ensures Reached(PlanHand(o, queryFuture, caller.isPlayer, env), r)
      ensures objectFuture == old(objectFuture) && queryFuture == old(queryFuture)
    {
      if !caller.isPlayer {
        return Refused(NoPlayer);
      }
      var supplied := env.supply(o, None);
      if supplied.Err? {
        return Refused(supplied.msg);
      }
      container := Some(supplied.value);
      query := Some(env.fromString(queryFuture));
      r := Resumed;
    }

    /** The binary branch: digits after the `b`, converted to the kind at the context query. */
    method PrepareBinary(o: string, context: Option<Context>, tree: Result<Option<Tag>>, env: Env) returns (r: Prepared)
      requires |o| >= 1
      modifies this
      ensures Reached(PlanBinary(o, context, tree, env), r)
      ensures objectFuture == old(objectFuture) && queryFuture == old(queryFuture)
    {
      if context.None? {
        return Refused(UndefinedType);
      }
      var n := BinaryValue(o);
      if n.None? {
        return Refused(NumberFormatError);
      }
      var x := ReadAt(tree, context.value.query);
      if x.Err? {
        return Refused(x.msg);
      }
      r := Install(ParseText(KindOf(x.value), ToDecimal(n.value)), env);
    }

    /** The number branch: the kind found, completed, narrowed, or taken from a list one step up. */
    method PrepareNumber(o: string, context: Option<Context>, tree: Result<Option<Tag>>, env: Env) returns (r: Prepared)
      modifies this
      ensures Reached(PlanNumber(o, context, tree, env), r)
      ensures objectFuture == old(objectFuture) && queryFuture == old(queryFuture)
    {
      if context.None? {
        return Refused(UndefinedType);
      }
      var q := context.value.query;
      var x := ReadAt(tree, q);
      if x.Err? {
        return Refused(x.msg);
      }
      var k := KindOf(x.value);
      if k == END {
        k := CompleteType(Types(context.value.container), q, env.complete);
      }
      if BaseType(k).Some? {
        k := BaseType(k).value;
      }
      if k == END {
        k := ParentListKind(tree.value, q);
      }
      r := Install(ParseText(k, o), env);
    }

    /** The array branch: a byte, int or long found becomes its array kind; nothing found asks the completer. */
    method PrepareBracket(o: string, context: Option<Context>, tree: Result<Option<Tag>>, env: Env) returns (r: Prepared)
      modifies this
      ensures Reached(PlanBracket(o, context, tree, env), r)
      ensures objectFuture == old(objectFuture) && queryFuture == old(queryFuture)
    {
      if context.None? {
        return Refused(UndefinedType);
      }
      var q := context.value.query;
      var x := ReadAt(tree, q);
      if x.Err? {
        return Refused(x.msg);
      }
      var k := KindOf(x.value);
      if ArrayType(k).Some? {
        k := ArrayType(k).value;
      } else if k == END {
        k := CompleteType(Types(context.value.container), q, env.complete);
      }
      r := Install(ParseText(k, o), env);
    }

    /**
     * `prepare(action, paramContainer, paramQuery)`: does what `Plan` says, and a
     * request to select is sent and the argument held when it waits. A resumed
     * argument holds a container; the action is then run again by its caller.
     */
    method Prepare(context: Option<Context>, env: Env) returns (r: Prepared)
      requires Valid() && objectFuture.Some?
      modifies this, caller
      ensures Valid()
      ensures objectFuture == old(objectFuture) && queryFuture == old(queryFuture)
      ensures Reached(Plan(old(objectFuture.value), old(queryFuture), context, old(Tree(context)), caller.isPlayer, env), r)
      ensures r == Held ==> caller.sent == old(caller.sent) + [RequestSelect] && caller.shown == old(caller.shown)
      ensures r == Held ==> caller.held == old(caller.held) + [this]
      ensures r != Held ==> unchanged(caller)
    {
      var o := objectFuture.value;
      var tree := Tree(context);
      ghost var step := Plan(o, queryFuture, context, tree, caller.isPlayer, env);
      match ShapeOf(o)
      case Star =>
        assert step == if caller.isPlayer then Await else Refuse(NoPlayer);
        r := PrepareStar();
      case SelfRef =>
        assert step == PlanSelf(queryFuture, context, env);
        r := PrepareSelf(context, env);
      case Hand =>
        assert step == PlanHand(o, queryFuture, caller.isPlayer, env);
        r := PrepareHand(o, env);
      case Binary =>
        assert step == PlanBinary(o, context, tree, env);
        r := PrepareBinary(o, context, tree, env);
      case Number =>
        assert step == PlanNumber(o, context, tree, env);
        r := PrepareNumber(o, context, tree, env);
      case Bracket =>
        assert step == PlanBracket(o, context, tree, env);
        r := PrepareBracket(o, context, tree, env);
      case Unhandled => r := Refused(Ignored);
    }
  }

  /** `getContainer` building its container: a value container is new; the buffer is the caller's own. */
  method GetContainer(caller: Caller, word: Option<string>, param: Option<string>, env: Env) returns (r: Result<Option<Container>>)
    ensures match Resolve(word, param, env)
      case Thrown(m) => r == Err(m)
      case Deferred => r == Ok(None)
      case Buffer => r == Ok(Some(Root(caller.buffer)))
      case Outside =>
        (env.supply(word.value, param).Ok? ==> r == Ok(Some(env.supply(word.value, param).value))) &&
        (env.supply(word.value, param).Err? ==> r == Err(env.supply(word.value, param).msg))
      case Literal(v) =>
        (r.Ok? && r.value.Some? && r.value.value.Root? && fresh(r.value.value.store) &&
         r.value.value.store.root == v && r.value.value.store.isValue)
  {
    var src := Resolve(word, param, env);
    match src
    case Thrown(m) => r := Err(m);
    case Deferred => r := Ok(None);
    case Buffer => r := Ok(Some(Root(caller.buffer)));
    case Outside =>
      var s := env.supply(word.value, param);
      r := if s.Ok? then Ok(Some(s.value)) else Err(s.msg);
    case Literal(v) =>
      var c := NewValue(v);
      r := Ok(Some(c));
  }

  /** The words on which `new Argument` throws: `getContainer` refuses them, or the outside supplier fails. */
  predicate Fails(word: Option<string>, param: Option<string>, env: Env)
  {
    var src := Resolve(word, param, env);
    src.Thrown? || (src.Outside? && env.supply(word.value, param).Err?)
  }

  /** `new Argument(caller, word, param)`, with the exception `getContainer` may throw as an error. */
  method Make(caller: Caller, word: Option<string>, param: Option<string>, env: Env) returns (r: Result<Argument>)
    ensures r.Err? <==> Fails(word, param, env)
    ensures r.Ok? ==> fresh(r.value) && r.value.caller == caller && r.value.Valid()
    ensures r.Ok? ==> (r.value.NeedPrepare() <==> Resolve(word, param, env) == Deferred)
    ensures r.Ok? && Resolve(word, param, env) == Deferred ==>
      r.value.objectFuture == word && r.value.queryFuture == param
  {
    var found := GetContainer(caller, word, param, env);
    if found.Err? {
      return Err(found.msg);
    }
    var a := new Argument(caller, word, param, found.value, env.fromString);
    r := Ok(a);
  }
}

module ArgumentFacts {
  import opened Tags
  import opened Numbers
  import opened NbtType
  import NbtPrimitive
  import opened NbtQuery
  import opened Containers
  import ContainerFacts
  import NbtQueryFacts
  import opened Arguments

  // ---------------------------------------------------------------- reaching the textual branches

  /**
   * A word that starts with something other than a lower-case letter, or whose
   * second character is not one: no named, colour, keyword, file or chunk source
   * is such a word.
   */
  predicate NoWord(o: string)
  {
    o == [] || !('a' <= o[0] <= 'z') || (|o| >= 2 && !('a' <= o[1] <= 'z'))
  }

  // Kept apart so that the textual-branch lemmas below stay within the solver budget: no named source is such a word.
  lemma {:induction false} NotNamed(o: string)
    requires NoWord(o)
    ensures !NamedSource(o)
  {}

  // Kept apart so that the textual-branch lemmas below stay within the solver budget: no colour name is such a word.
  lemma {:induction false} NotColor(o: string)
    requires NoWord(o)
    ensures o !in Colors
  {}

  // Kept apart so that the textual-branch lemmas below stay within the solver budget: no keyword is such a word.
  lemma {:induction false} NotKeyword(o: string)
    requires NoWord(o)
    ensures KeywordValue(o).None?
  {}

  // Kept apart so that the textual-branch lemmas below stay within the solver budget: no file source is such a word.
  lemma {:induction false} NotFile(o: string)
    requires NoWord(o)
    ensures !FileSource(o)
  {}

  // Kept apart so that the textual-branch lemmas below stay within the solver budget: no chunk source is such a word.
  lemma {:induction false} NotChunk(o: string)
    requires NoWord(o)
    ensures !ChunkCoordinates(o)
  {}

  // Kept apart so that the textual-branch lemmas below stay within the solver budget: coordinates need a colon.
  lemma {:induction false} ColonFree(o: string)
    requires ':' !in o
    ensures !Coordinates(o)
  {}

  // Kept apart so that the textual-branch lemmas below stay within the solver budget: a decimal token starts with a minus or a digit.
  lemma {:induction false} DecimalStart(x: string)
    requires DecimalToken(x)
    ensures x[0] == '-' || NbtPrimitive.IsDigit(x[0])
  {
    if x[0] != '-' {
      assert '0' <= x[0] <= '9';
    }
  }

  /** A block position starts with a minus sign or a digit. */
  lemma {:induction false} CoordinatesStart(o: string)
    requires Coordinates(o)
    ensures o[0] == '-' || NbtPrimitive.IsDigit(o[0])
  {
    var x := CutAtColon(o).0;
    assert DecimalToken(x);
    DecimalStart(x);
    assert x[0] == o[0] by {
      if CutAtColon(o).1.Some? { assert o == x + [':'] + CutAtColon(o).1.value; }
    }
  }

  /** A word none of the early tests of `getContainer` claims goes on to the textual branches. */
  lemma {:induction false} EarlyMissed(o: string, unescape: string -> string)
    requires NoWord(o) && !PrefixedSource(o) && !PlayerFile(o, unescape) && !Coordinates(o)
    ensures Early(o, unescape).None?
  {
    NotNamed(o); NotColor(o); NotKeyword(o); NotFile(o); NotChunk(o);
  }

  /** A word that starts with neither a minus sign, a digit, a lower-case letter nor a source prefix reaches the textual branches. */
  lemma {:induction false} SymbolMissed(o: string, unescape: string -> string)
    requires |o| >= 1 && o[0] !in "*%$@-" && !NbtPrimitive.IsDigit(o[0]) && !('a' <= o[0] <= 'z')
    ensures Early(o, unescape).None?
  {
    if Coordinates(o) { CoordinatesStart(o); }
    EarlyMissed(o, unescape);
  }

  /** `-?[0-9]*` has no colon and no letter in its first two characters. */
  lemma {:induction false} WholePlain(o: string)
    requires WholeNumber(o)
    ensures o == [] || o[0] == '-' || NbtPrimitive.IsDigit(o[0])
    ensures |o| >= 2 ==> NbtPrimitive.IsDigit(o[1])
    ensures ':' !in o
  {
    var t := AfterMinus(o);
  }

  /** `-?[0-9]+\.[0-9]*` has no colon and no letter in its first two characters. */
  lemma {:induction false} PointPlain(o: string)
    requires PointNumber(o)
    ensures o[0] == '-' || NbtPrimitive.IsDigit(o[0])
    ensures NbtPrimitive.IsDigit(o[1]) || o[1] == '.'
    ensures ':' !in o
  {
    var t := AfterMinus(o);
    var k := NbtPrimitive.IndexOf(t, '.');
    forall i | 0 <= i < |t| ensures t[i] != ':' {
      if i < k { assert t[..k][i] == t[i]; }
      else if i > k { assert t[k + 1..][i - k - 1] == t[i]; }
    }
  }

  /** `b[0-1]+` has no colon, and a binary digit second. */
  lemma {:induction false} BinaryPlain(o: string)
    requires BinaryLiteral(o)
    ensures o[1] == '0' || o[1] == '1'
    ensures ':' !in o
  {
    assert DigitValue(o[1..][0], 2).Some?;
    forall i | 1 <= i < |o| ensures o[i] != ':' {
      assert DigitValue(o[1..][i - 1], 2).Some?;
    }
  }

  lemma {:induction false} WholeEarly(o: string, unescape: string -> string)
    requires WholeNumber(o)
    ensures Early(o, unescape).None?
  {
    WholePlain(o);
    ColonFree(o);
    EarlyMissed(o, unescape);
  }

  lemma {:induction false} PointEarly(o: string, unescape: string -> string)
    requires PointNumber(o)
    ensures Early(o, unescape).None?
  {
    PointPlain(o);
    ColonFree(o);
    EarlyMissed(o, unescape);
  }

  lemma {:induction false} NonFiniteEarly(o: string, unescape: string -> string)
    requires NonFinite(o)
    ensures Early(o, unescape).None?
  {
    ColonFree(o);
    EarlyMissed(o, unescape);
  }

  lemma {:induction false} BinaryEarly(o: string, unescape: string -> string)
    requires BinaryLiteral(o)
    ensures Early(o, unescape).None?
  {
    BinaryPlain(o);
    ColonFree(o);
    EarlyMissed(o, unescape);
  }

  // ---------------------------------------------------------------- what getContainer makes of a word

  /** Once no early test claims a word, `getContainer` does what its textual branches ask. */
  lemma {:induction false} ViaText(o: string, param: Option<string>, env: Env)
    requires Early(o, env.unescape).None?
    ensures Resolve(Some(o), param, env) == Fulfil(TextRequest(o, param, env.unescape), env)
  {}

  lemma {:induction false} NumberRequest(o: string, param: Option<string>, unescape: string -> string)
    requires NumberWord(o)
    ensures TextRequest(o, param, unescape) == if param.None? then Take(Deferred) else ParseAs(Scalar(KindFromName(param)), o)
  {
    NumberNotEarlier(o);
  }

  /** A number word is neither quoted, nor hex, nor binary. */
  lemma {:induction false} NumberNotEarlier(o: string)
    requires NumberWord(o)
    ensures !Quoted(o) && !HexToken(o) && !BinaryLiteral(o)
  {
    if WholeNumber(o) {
      WholePlain(o);
    } else if PointNumber(o) {
      PointPlain(o);
    }
  }

  lemma {:induction false} NumberEarly(o: string, unescape: string -> string)
    requires NumberWord(o)
    ensures Early(o, unescape).None?
  {
    if WholeNumber(o) {
      WholeEarly(o, unescape);
    } else if PointNumber(o) {
      PointEarly(o, unescape);
    } else {
      NonFiniteEarly(o, unescape);
    }
  }

  lemma {:induction false} NumberWordDeferred(o: string, env: Env)
    requires NumberWord(o)
    ensures Resolve(Some(o), None, env) == Deferred
  {
    NumberEarly(o, env.unescape);
    ViaText(o, None, env);
    NumberRequest(o, None, env.unescape);
  }

  lemma {:induction false} NumberWordTyped(o: string, s: string, k: Kind, env: Env)
    requires NumberWord(o) && Lower(s) == Name(k)
    ensures Resolve(Some(o), Some(s), env) == Typed(Scalar(k), o, env)
  {
    NumberEarly(o, env.unescape);
    ViaText(o, Some(s), env);
    NumberRequest(o, Some(s), env.unescape);
    KindFromOwnName(k, s);
  }

  /** A decimal word with an int or int-array parameter becomes an int, wrapped to 32 bits. */
  lemma {:induction false} DecimalAsInt(o: string, s: string, k: Kind, n: int, env: Env)
    requires WholeNumber(o) && ParseLong(o) == Some(n)
    requires Lower(s) == Name(k) && k in {INT, INTARRAY}
    ensures Resolve(Some(o), Some(s), env) == Literal(Some(Int(WrapInt(n))))
  {
    NumberWordTyped(o, s, k, env);
  }

  lemma {:induction false} BinaryRequest(o: string, param: Option<string>, unescape: string -> string)
    requires BinaryLiteral(o)
    ensures param.None? ==> TextRequest(o, param, unescape) == Take(Deferred)
    ensures param.Some? && BinaryValue(o).None? ==> TextRequest(o, param, unescape) == Take(Thrown(NumberFormatError))
    ensures param.Some? && BinaryValue(o).Some? ==>
      TextRequest(o, param, unescape) == ParseAs(KindFromName(param), ToDecimal(BinaryValue(o).value))
  {
  }

  /**
   * `b` and binary digits: deferred without a parameter; with a parameter naming
   * `k`, the digits read as a long and then parsed as `k`, or the number-format
   * failure when they do not fit.
   */
  lemma {:induction false} BinaryWordResolves(o: string, s: string, k: Kind, env: Env)
    requires BinaryLiteral(o) && Lower(s) == Name(k)
    ensures Resolve(Some(o), None, env) == Deferred
    ensures BinaryValue(o).None? ==> Resolve(Some(o), Some(s), env) == Thrown(NumberFormatError)
    ensures BinaryValue(o).Some? ==> Resolve(Some(o), Some(s), env) == Typed(k, ToDecimal(BinaryValue(o).value), env)
  {
    BinaryEarly(o, env.unescape);
    ViaText(o, None, env);
    ViaText(o, Some(s), env);
    BinaryRequest(o, None, env.unescape);
    BinaryRequest(o, Some(s), env.unescape);
    KindFromOwnName(k, s);
  }

  /** With an integer kind named, a binary word holds its value, wrapped to the kind's width. */
  lemma {:induction false} BinaryAsInteger(o: string, s: string, k: Kind, n: int, env: Env)
    requires BinaryLiteral(o) && Lower(s) == Name(k) && k in {BYTE, SHORT, INT, LONG}
    requires BinaryValue(o) == Some(n)
    ensures Resolve(Some(o), Some(s), env) == Literal(Some(IntegerTag(k, Wrap(n, Width(k)))))
  {
    BinaryWordResolves(o, s, k, env);
    ParseToDecimal(n, 64);
  }

  /** A hexadecimal word without a parameter is an int: the long it spells, wrapped to 32 bits. */
  lemma {:induction false} HexResolves(o: string, env: Env)
    requires HexToken(o)
    ensures ParseSigned(o[1..], 16, 64).None? ==> Resolve(Some(o), None, env) == Thrown(NumberFormatError)
    ensures ParseSigned(o[1..], 16, 64).Some? ==>
      Resolve(Some(o), None, env) == Literal(Some(Int(WrapInt(ParseSigned(o[1..], 16, 64).value))))
  {
    SymbolMissed(o, env.unescape);
    ViaText(o, None, env);
    HexFulfil(o, env);
  }

  lemma {:induction false} HexFulfil(o: string, env: Env)
    requires HexToken(o)
    ensures ParseSigned(o[1..], 16, 64).None? ==> Fulfil(TextRequest(o, None, env.unescape), env) == Thrown(NumberFormatError)
    ensures ParseSigned(o[1..], 16, 64).Some? ==>
      Fulfil(TextRequest(o, None, env.unescape), env) == Literal(Some(Int(WrapInt(ParseSigned(o[1..], 16, 64).value))))
  {
    HexRequest(o, env.unescape);
    var req := TextRequest(o, None, env.unescape);
    match ParseSigned(o[1..], 16, 64)
    case None =>
      assert req == Take(Thrown(NumberFormatError));
    case Some(n) =>
      assert req == ParseAs(INT, ToDecimal(n));
      IntTyped(n, env);
  }

  lemma {:induction false} HexRequest(o: string, unescape: string -> string)
    requires HexToken(o)
    ensures TextRequest(o, None, unescape) ==
      match ParseSigned(o[1..], 16, 64)
      case None => Take(Thrown(NumberFormatError))
      case Some(n) => ParseAs(INT, ToDecimal(n))
  {
    assert !Quoted(o);
  }

  lemma {:induction false} IntTyped(n: int, env: Env)
    requires InRange(n, 64)
    ensures Typed(INT, ToDecimal(n), env) == Literal(Some(Int(WrapInt(n))))
  {
    ParseToDecimal(n, 64);
  }

  /** Quoted text without a parameter is a string holding the unescaped text between the quotes; with `json` it is read from outside. */
  lemma {:induction false} QuotedResolves(o: string, json: string, env: Env)
    requires Quoted(o) && Lower(json) == "json"
    ensures Resolve(Some(o), None, env) == Literal(Some(String(env.unescape(o[1..|o| - 1]))))
    ensures Resolve(Some(o), Some(json), env) == Outside
  {
    SymbolMissed(o, env.unescape);
    ViaText(o, None, env);
    ViaText(o, Some(json), env);
    QuotedRequest(o, json, env.unescape);
    StringTyped(env.unescape(o[1..|o| - 1]), env);
  }

  lemma {:induction false} QuotedRequest(o: string, json: string, unescape: string -> string)
    requires Quoted(o) && Lower(json) == "json"
    ensures TextRequest(o, None, unescape) == ParseAs(STRING, unescape(o[1..|o| - 1]))
    ensures TextRequest(o, Some(json), unescape) == Take(Outside)
  {
  }

  lemma {:induction false} StringTyped(s: string, env: Env)
    ensures Typed(STRING, s, env) == Literal(Some(String(s)))
  {
  }

  lemma {:induction false} StarEarly(unescape: string -> string)
    ensures Early("*", unescape).None?
  {
    if Coordinates("*") { CoordinatesStart("*"); }
    EarlyMissed("*", unescape);
  }

  lemma {:induction false} SelfEarly(o: string, unescape: string -> string)
    requires o == "self" || o == "this"
    ensures Early(o, unescape).None?
  {
    if Coordinates(o) { CoordinatesStart(o); }
    SelfFacts(o);
    SelfMoreFacts(o, unescape);
  }

  lemma {:induction false} SelfMoreFacts(o: string, unescape: string -> string)
    requires o == "self" || o == "this"
    ensures o !in Colors && KeywordValue(o).None? && !ChunkCoordinates(o) && !PlayerFile(o, unescape)
  {
    if o in Colors { ColorShape(o); }
    assert o[0] != '@';
  }

  lemma {:induction false} SelfFacts(o: string)
    requires o == "self" || o == "this"
    ensures !NamedSource(o) && !PrefixedSource(o) && !FileSource(o)
  {
    assert o[0] !in "fg" && o[1] != 'c';
  }

  lemma {:induction false} MarkersRequest(o: string, param: Option<string>, unescape: string -> string)
    requires o == "*" || o == "self" || o == "this"
    ensures TextRequest(o, param, unescape) == Take(Deferred)
  {
    assert !WholeNumber(o) && !PointNumber(o);
  }

  /** `*`, `self` and `this` are deferred, whatever the parameter. */
  lemma {:induction false} MarkersDeferred(o: string, param: Option<string>, env: Env)
    requires o == "*" || o == "self" || o == "this"
    ensures Resolve(Some(o), param, env) == Deferred
  {
    if o == "*" { StarEarly(env.unescape); } else { SelfEarly(o, env.unescape); }
    ViaText(o, param, env);
    MarkersRequest(o, param, env.unescape);
  }

  /** A word that starts with `[` is no number. */
  lemma {:induction false} BracketNoNumber(o: string)
    requires |o| >= 1 && o[0] == '['
    ensures !WholeNumber(o) && !PointNumber(o) && !NonFinite(o) && !BinaryLiteral(o)
  {
    assert AfterMinus(o) == o;
  }

  lemma {:induction false} ArrayRequest(b: string, c: char, param: Option<string>, unescape: string -> string)
    requires ArrayLiteral(b) && c in "bil"
    ensures TextRequest(b + [c], param, unescape) == ParseAs(ArrayKindOf(c), b)
  {
    var o := b + [c];
    assert o[0] == '[' && o[..|o| - 1] == b;
    BracketNoNumber(o);
  }

  /** An array literal followed by `b`, `i` or `l` is parsed as that array kind, whatever the parameter. */
  lemma {:induction false} TypedArrayResolves(b: string, c: char, param: Option<string>, env: Env)
    requires ArrayLiteral(b) && c in "bil"
    ensures Resolve(Some(b + [c]), param, env) == Typed(ArrayKindOf(c), b, env)
  {
    var o := b + [c];
    assert o[0] == '[';
    SymbolMissed(o, env.unescape);
    ViaText(o, param, env);
    ArrayRequest(b, c, param, env.unescape);
  }

  /** A colour name is an int holding its RGB value. */
  lemma {:induction false} ColorResolves(o: string, param: Option<string>, env: Env)
    requires o in Colors
    ensures Resolve(Some(o), param, env) == Literal(Some(Int(Colors[o])))
  {
    ColorEarly(o, env.unescape);
  }

  lemma {:induction false} ColorEarly(o: string, unescape: string -> string)
    requires o in Colors
    ensures Early(o, unescape) == Some(Literal(Some(Int(Colors[o]))))
  {
    ColorNotEarlier(o);
  }

  /** A colour name is no earlier source word. */
  lemma {:induction false} ColorNotEarlier(o: string)
    requires o in Colors
    ensures !NamedSource(o) && o != "buffer" && o != "clipboard" && o != "c" && !PrefixedSource(o)
  {
    ColorShape(o);
  }

  lemma {:induction false} ColorShape(o: string)
    requires o in Colors
    ensures o[0] in "bgrpclywmo" && |o| >= 3
    ensures o[0] == 'p' ==> o[1] != 'l'
  {}

  /** A keyword is the value it stands for. */
  lemma {:induction false} KeywordResolves(o: string, param: Option<string>, env: Env)
    requires KeywordValue(o).Some?
    ensures Resolve(Some(o), param, env) == Literal(KeywordValue(o).value)
  {
    KeywordEarly(o, env.unescape);
  }

  lemma {:induction false} KeywordEarly(o: string, unescape: string -> string)
    requires KeywordValue(o).Some?
    ensures Early(o, unescape) == Some(Literal(KeywordValue(o).value))
  {
    KeywordNotEarlier(o);
  }

  /** A keyword is no earlier source word and no colour. */
  lemma {:induction false} KeywordNotEarlier(o: string)
    requires KeywordValue(o).Some?
    ensures !NamedSource(o) && o != "buffer" && o != "clipboard" && o != "c" && !PrefixedSource(o)
    ensures o !in Colors && !FileSource(o)
  {
    KeywordShape(o);
    KeywordNoColor(o);
  }

  lemma {:induction false} KeywordShape(o: string)
    requires KeywordValue(o).Some?
    ensures o[0] in "clotfnib" && |o| >= 2
    ensures o[0] == 'i' ==> o[1] == 'n'
    ensures o[0] == 'f' ==> o[1] == 'a'
  {}

  lemma {:induction false} KeywordNoColor(o: string)
    requires KeywordValue(o).Some?
    ensures o !in Colors
  {}

  // ---------------------------------------------------------------- which words are deferred

  lemma {:induction false} DeferredOnlyIf(o: string, param: Option<string>, env: Env)
    requires Resolve(Some(o), param, env) == Deferred
    ensures o == "*" || o == "self" || o == "this" || (param.None? && (BinaryLiteral(o) || NumberWord(o)))
  {
    ViaText(o, param, env);
  }

  /**
   * `getContainer` returns no container exactly for `*`, `self`, `this`, and, when
   * there is no parameter, for binary and number words.
   */
  lemma {:induction false} DeferredExactly(o: string, param: Option<string>, env: Env)
    ensures Resolve(Some(o), param, env) == Deferred <==>
      o == "*" || o == "self" || o == "this" || (param.None? && (BinaryLiteral(o) || NumberWord(o)))
  {
    if o == "*" || o == "self" || o == "this" {
      MarkersDeferred(o, param, env);
    } else if param.None? && BinaryLiteral(o) {
      BinaryEarly(o, env.unescape);
      ViaText(o, param, env);
      BinaryRequest(o, param, env.unescape);
    } else if param.None? && NumberWord(o) {
      NumberWordDeferred(o, env);
    } else if Resolve(Some(o), param, env) == Deferred {
      DeferredOnlyIf(o, param, env);
    }
  }

  // ---------------------------------------------------------------- what prepare makes of a deferred word

  /** A run of digits is its own leading run. */
  lemma {:induction false} AllLeading(t: string)
    requires NbtPrimitive.Digits(t)
    ensures LeadingDigits(t) == |t|
  {
    if t != [] {
      AllLeading(t[1..]);
    }
  }

  /** Digits up to a non-digit at `k`: the leading run ends at `k`. */
  lemma {:induction false} LeadingUpTo(t: string, k: nat)
    requires k < |t| && NbtPrimitive.Digits(t[..k]) && !NbtPrimitive.IsDigit(t[k])
    ensures LeadingDigits(t) == k
  {
    if k > 0 {
      assert t[..k][0] == t[0];
      assert t[1..][..k - 1] == t[1..k];
      LeadingUpTo(t[1..], k - 1);
    }
  }

  /** `prepare`'s number pattern accepts every whole number `getContainer` deferred. */
  lemma {:induction false} WholeIsLoose(o: string)
    requires WholeNumber(o)
    ensures LooseNumber(o)
  {
    AllLeading(AfterMinus(o));
  }

  /** `prepare`'s number pattern accepts every decimal `getContainer` deferred. */
  lemma {:induction false} PointIsLoose(o: string)
    requires PointNumber(o)
    ensures LooseNumber(o)
  {
    var t := AfterMinus(o);
    var k := NbtPrimitive.IndexOf(t, '.');
    LeadingUpTo(t, k);
  }

  /** A number word takes the number branch of `prepare`. */
  lemma {:induction false} NumberShape(o: string)
    requires NumberWord(o)
    ensures ShapeOf(o) == Number
  {
    if WholeNumber(o) {
      WholePlain(o);
      WholeIsLoose(o);
    } else if PointNumber(o) {
      PointPlain(o);
      PointIsLoose(o);
    }
  }

  /** A binary word takes the binary branch of `prepare`. */
  lemma {:induction false} BinaryShape(o: string)
    requires BinaryLiteral(o)
    ensures ShapeOf(o) == Binary
  {
    BinaryPlain(o);
  }

  /** Every word `getContainer` defers reaches one of the star, self, binary or number branches of `prepare`. */
  lemma {:induction false} DeferredShape(o: string, param: Option<string>, env: Env)
    requires Resolve(Some(o), param, env) == Deferred
    ensures ShapeOf(o) in {Star, SelfRef, Binary, Number}
  {
    DeferredOnlyIf(o, param, env);
    if o == "*" || o == "self" || o == "this" {
    } else if BinaryLiteral(o) {
      BinaryShape(o);
    } else {
      NumberShape(o);
    }
  }

  /** `getContainer`'s source and `prepare`'s step agree: the same value, or the same failure. */
  predicate Agree(src: Source, step: Step)
  {
    (src.Literal? && src.value.Some? && step == Build(src.value.value)) ||
    (src.Thrown? && step == Refuse(src.msg))
  }

  lemma {:induction false} TypedMade(k: Kind, text: string, env: Env)
    ensures Agree(Typed(k, text, env), Made(ParseText(k, text), env))
  {}

  /**
   * A deferred number word, prepared against a context whose query finds a tag of
   * kind `k`, ends as `getContainer` would have ended had the parameter named `k`.
   */
  lemma {:induction false} NumberPrepareAgrees(o: string, queryFuture: Option<string>, context: Context, tree: Option<Tag>, isPlayer: bool, x: Tag, env: Env)
    requires NumberWord(o) && Get(tree, context.query) == Found(Some(x))
    ensures Agree(Resolve(Some(o), Some(Name(KindOf(Some(x)))), env), Plan(o, queryFuture, Some(context), Ok(tree), isPlayer, env))
  {
    var k := KindOf(Some(x));
    NumberShape(o);
    NameIsLower(k);
    NumberWordTyped(o, Name(k), k, env);
    NumberPlanFound(o, queryFuture, context, tree, isPlayer, x, env);
    TypedMade(Scalar(k), o, env);
  }

  /** The number branch parses a found tag's own kind, narrowed to a scalar. */
  lemma {:induction false} NumberPlanFound(o: string, queryFuture: Option<string>, context: Context, tree: Option<Tag>, isPlayer: bool, x: Tag, env: Env)
    requires ShapeOf(o) == Number && Get(tree, context.query) == Found(Some(x))
    ensures Plan(o, queryFuture, Some(context), Ok(tree), isPlayer, env) == Made(ParseText(Scalar(KindOf(Some(x))), o), env)
  {
    assert NumberKind(Some(x), tree, context.query, Types(context.container), env.complete) == Scalar(KindOf(Some(x)));
  }

  /**
   * A deferred binary word, prepared against a context whose query finds a tag of
   * kind `k`, ends as `getContainer` would have ended had the parameter named `k`.
   */
  lemma {:induction false} BinaryPrepareAgrees(o: string, queryFuture: Option<string>, context: Context, tree: Option<Tag>, isPlayer: bool, x: Tag, env: Env)
    requires BinaryLiteral(o) && Get(tree, context.query) == Found(Some(x))
    ensures Agree(Resolve(Some(o), Some(Name(KindOf(Some(x)))), env), Plan(o, queryFuture, Some(context), Ok(tree), isPlayer, env))
  {
    var k := KindOf(Some(x));
    BinaryShape(o);
    NameIsLower(k);
    BinaryWordResolves(o, Name(k), k, env);
    if BinaryValue(o).Some? {
      TypedMade(k, ToDecimal(BinaryValue(o).value), env);
    }
  }

  /**
   * The binary, number and array branches read the context container strictly:
   * where the container's own path does not resolve in its store, they fail
   * before any kind is looked up.
   */
  lemma {:induction false} MissingContextRefuses(o: string, queryFuture: Option<string>, context: Context, root: Option<Tag>, isPlayer: bool, env: Env)
    requires ShapeOf(o) in {Binary, Number, Bracket}
    requires context.container.Complex? && Get(root, Path(context.container)) == TagNotFound
    ensures Plan(o, queryFuture, Some(context), CustomTagIn(context.container, root), isPlayer, env).Refuse?
  {
    ContainerFacts.MissingPathStrict(context.container, root);
  }

  /**
   * Reading `q` from the context's strict tree is the strict read of the joined
   * path: it succeeds exactly when the container's path followed by `q` resolves
   * in the store, and then gives what is found there.
   */
  lemma {:induction false} TreeReadJoins(context: Context, q: Query)
    ensures var c := context.container; var path := Join(Path(c), q);
      (ReadAt(Tree(Some(context)), q).Ok? <==> Get(StoreOf(c).root, path).Found?) &&
      (ReadAt(Tree(Some(context)), q).Ok? ==> ReadAt(Tree(Some(context)), q).value == Get(StoreOf(c).root, path).value)
  {
    NbtQueryFacts.GetJoin(StoreOf(context.container).root, Path(context.container), q);
  }

  /**
   * Under the strict query walk, a found tag below the root is never absent, so
   * the number kind is the kind found, narrowed: the completer and the list one
   * step up are never consulted.
   */
  lemma {:induction false} ListFallbackUnreachable(x: Option<Tag>, tree: Option<Tag>, q: Query, types: seq<string>, complete: (string, Query) -> Option<Kind>)
    requires Get(tree, q) == Found(x) && q != []
    ensures x.Some? && NumberKind(x, tree, q, types, complete) == Scalar(KindOf(x)) != END
  {
    assert x.Some?;
    ScalarOfTag(x.value);
  }

  /** A tag's kind, narrowed to a scalar, is never END. */
  lemma {:induction false} ScalarOfTag(t: Tag)
    ensures Scalar(KindOf(Some(t))) != END
  {
    assert KindOf(Some(t)) != END;
  }

  /** Nothing is found only at the empty query of an empty container. */
  lemma {:induction false} NothingOnlyAtRoot(tree: Option<Tag>, q: Query)
    requires Get(tree, q) == Found(None)
    ensures q == [] && tree.None?
  {}

  // ---------------------------------------------------------------- the type completer

  /** When no name gets an answer, no kind is completed. */
  lemma {:induction false} NoneCompleted(names: seq<string>, q: Query, complete: (string, Query) -> Option<Kind>)
    requires forall i :: 0 <= i < |names| ==> complete(names[i], q).None?
    ensures FirstCompleted(names, q, complete) == END
    decreases |names|
  {
    if names != [] {
      assert forall i :: 0 <= i < |names[1..]| ==> names[1..][i] == names[i + 1];
      NoneCompleted(names[1..], q, complete);
    }
  }

  /** The first name that gets an answer decides the kind. */
  lemma {:induction false} FirstAnswerWins(names: seq<string>, q: Query, complete: (string, Query) -> Option<Kind>, i: nat)
    requires i < |names| && complete(names[i], q).Some?
    requires forall j :: 0 <= j < i ==> complete(names[j], q).None?
    ensures FirstCompleted(names, q, complete) == complete(names[i], q).value
    decreases i
  {
    if i > 0 {
      assert complete(names[0], q).None?;
      assert forall j :: 0 <= j < i - 1 ==> names[1..][j] == names[j + 1];
      FirstAnswerWins(names[1..], q, complete, i - 1);
    }
  }

  // ---------------------------------------------------------------- the binary branch of prepare

  /** The binary branch of `prepare` as written: the digits read with the `b` still in front. */
  function PlanBinaryAsWritten(o: string, context: Option<Context>, tree: Result<Option<Tag>>, env: Env): Step
  {
    if context.None? then Refuse(UndefinedType)
    else
      match BinaryValueAsWritten(o)
      case None => Refuse(NumberFormatError)
      case Some(n) =>
        match ReadAt(tree, context.value.query)
        case Ok(x) => Made(ParseText(KindOf(x), ToDecimal(n)), env)
        case Err(m) => Refuse(m)
  }

  /** As written, `b` is no binary digit, so no binary word has a value. */
  lemma {:induction false} BinaryAsWrittenNone(o: string)
    requires BinaryPattern(o)
    ensures BinaryValueAsWritten(o).None?
  {
    assert DigitValue(o[0], 2).None?;
  }

  /** As written, every binary word prepared in a context fails with a number-format error. */
  lemma {:induction false} BinaryAsWrittenFails(o: string, context: Context, tree: Result<Option<Tag>>, env: Env)
    requires BinaryPattern(o)
    ensures PlanBinaryAsWritten(o, Some(context), tree, env) == Refuse(NumberFormatError)
  {
    BinaryAsWrittenNone(o);
  }

  /** `b101`: the value 5 with the digits after the `b`, a failure as written. */
  lemma {:induction false} BinaryExample()
    ensures BinaryValue("b101") == Some(5)
    ensures BinaryValueAsWritten("b101").None?
  {
    assert "b101"[1..] == "101";
    assert "101"[..2] == "10" && "10"[..1] == "1";
    assert DigitsOf("101", 2) == Some(5);
    BinaryAsWrittenNone("b101");
  }
}
