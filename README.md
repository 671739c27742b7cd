# PowerNBT core, modelled in Dafny

PowerNBT is a Bukkit plugin that lets a player read and edit NBT, the tag trees Minecraft
uses to store entities, items, blocks and files. This project models the part of it
that works on tag trees and on text:

- the **literal-text parser** `NBTParser` (`NbtScan.dfy`, `NbtPrimitive.dfy`, `NbtParser.dfy`):
  - the bracket and quote checker `getType`, with its escaped-quote rule;
  - the top-level separator search and the element-end scan;
  - the body loop of `parser`, which splits compound and list bodies;
  - the element name/value split;
  - the ordered classifier `PrimitiveParser.parse`;
  - the list and compound evaluators;
- the **kind table** `NBTType` (`Tags.dfy`, `NbtType.dfy`, `Numbers.dfy`):
  - the code/kind bijection;
  - name lookup by exact match, then by first prefix;
  - the scalar/array kind pairing and default values;
  - `parse`, with Java's two's-complement narrowing and the bracketed array literals;
- the **compound map** `NBTCompound` (`Compound.dfy`): a class whose `entries` map the
  operations update in place, with the never-failing coercion getters;
- the **path-composed container** `NBTContainerComplex` (`Containers.dfy`):
  - a chain of views ending at one mutable `Store`;
  - reads that swallow "tag not found";
  - writes and erases that fail instead;
  - the joined selector query;
- the **deferred command argument** `Argument` (`Argument.dfy`):
  - literal resolution in `getContainer`;
  - the constructor, `needPrepare` and `select`;
  - `prepare` for the `*`, `self`/`this`, hand, binary, numeric and bracket futures;
- the **edit actions** `ActionSwap`, `ActionMoveLast`, `ActionRename`, `ActionEdit`, `ActionCut`
  and `ActionCopy` (`Actions.dfy`): classes whose `Execute` is gated by the prepare protocol
  and whose end states are stated as contracts over the container functions.

The query class `NBTQuery` (key and index selectors with strict `get`/`remove` and a
creating `set`) is not part of this model. `NbtQuery.dfy` states the interface the rest of
the model assumes of it. The lemmas proved there are about that assumed interface, not
about source code; their rows cite the source lines that rely on them.

The game world, files, JSON, the string-literal unescaper, floating-point parsing, the
type completer and `NBTQuery.fromString` are parameters of type `Env` (see `Argument.dfy`).
They are never modelled behaviour.

In these places the code behaves in ways that are easy to misread; the model follows the code:

- A quoted primitive `"..."` evaluates to the text between the quotes without unescaping it
  (`NBTParser.java:365-367`).
- `parser` treats `[1,2,3]` as a primitive (it matches the pattern at `NBTParser.java:25`),
  and `PrimitiveParser` turns it into an int array, not a list.
- A `[..]b`, `[..]i` or `[..]l` literal never reaches the `]b`/`]i`/`]l` branches from
  `parser`: the trailing letter makes it a list body, which then fails.
- The regular-expression classes `[d|D]`, `[b|B]` and the others also accept the character
  `|`, so `7|` is classified as a double. `SuffixOf` states that the integer suffixes the
  model renders never collide with this.
- A malformed byte-array literal given to `NBTType.parse` reports the kind name `int[]`
  (`NBTType.java:271-306`), exactly as the code does.

## Model

| member | source | states |
|---|---|---|
| NbtScan.GetType | src/main/java/me/dpohvar/powernbt/utils/NBTParser.java:27-70 | the stack-and-flag loop returns exactly the left-to-right bracket check `BracketCheck` |
| NbtScan.BracketCheckMeaning | src/main/java/me/dpohvar/powernbt/utils/NBTParser.java:27-70 | the check succeeds iff the text has no illegal escape, no open quote and every closer matches the innermost opener; the count is the number of top-level groups, 1 for non-empty text with no brackets and 0 for empty text; each failure message names its cause |
| NbtScan.LeadingCloserRejected | src/main/java/me/dpohvar/powernbt/utils/NBTParser.java:27-70 | text that starts with `}` or `]` is never balanced |
| NbtScan.PlainTextIsOneGroup | src/main/java/me/dpohvar/powernbt/utils/NBTParser.java:27-70 | text without quotes or brackets is balanced and has no bracket group |
| NbtScan.ScanRunning | src/main/java/me/dpohvar/powernbt/utils/NBTParser.java:27-70 | while the scan runs, its quote flag, its stack and its group count are those of the prefix read so far |
| NbtScan.ScanStopped | src/main/java/me/dpohvar/powernbt/utils/NBTParser.java:27-70 | a stopped scan met an escaped quote outside quotes, or an unmatched closer |
| NbtScan.BackslashRun | src/main/java/me/dpohvar/powernbt/utils/NBTParser.java:266-268 | the maximal run of backslashes ending just before a position |
| NbtScan.EscapedIffOddRun | src/main/java/me/dpohvar/powernbt/utils/NBTParser.java:266-268 | the recursive escape test holds exactly when an odd number of backslashes precede the position |
| NbtScan.SeparatorFrom | src/main/java/me/dpohvar/powernbt/utils/NBTParser.java:244-264 | the result is -1 or an unquoted position holding the separator |
| NbtScan.SeparatorFromMeaning | src/main/java/me/dpohvar/powernbt/utils/NBTParser.java:244-264 | a found separator is the first unquoted one, with no unquoted `{` or `[` before it; -1 means every unquoted separator comes after an unquoted opener |
| NbtScan.FindSeparator | src/main/java/me/dpohvar/powernbt/utils/NBTParser.java:244-264 | the loop returns `SeparatorFrom(s, ch, 0)` |
| NbtScan.ElementScan | src/main/java/me/dpohvar/powernbt/utils/NBTParser.java:150-202 | the end of an element lies within the text; the scan fails only for an illegal escape or an unbalanced `}` or `]` |
| NbtScan.FindElementEnd | src/main/java/me/dpohvar/powernbt/utils/NBTParser.java:150-202 | the loop returns the recursive `ElementEnd` |
| NbtScan.PlainElementEndsAtComma | src/main/java/me/dpohvar/powernbt/utils/NBTParser.java:150-202 | in text without quotes or brackets an element ends at the first comma |
| NbtScan.Trim | src/main/java/me/dpohvar/powernbt/utils/NBTParser.java:73 | the result is the slice of the input that starts after its leading whitespace and control characters and is followed only by such characters, and neither of its ends is one of them |
| NbtScan.TrimIdempotent | src/main/java/me/dpohvar/powernbt/utils/NBTParser.java:73 | trimming twice is trimming once |
| NbtParser.SplitElement | src/main/java/me/dpohvar/powernbt/utils/NBTParser.java:132-148 | the element taken from a body is a prefix of that body |
| NbtParser.SplitFirst | src/main/java/me/dpohvar/powernbt/utils/NBTParser.java:132-148 | the method computes `SplitElement` |
| NbtParser.ElementName | src/main/java/me/dpohvar/powernbt/utils/NBTParser.java:204-222 | the name lookup fails exactly for a compound element with no top-level colon |
| NbtParser.NameOf | src/main/java/me/dpohvar/powernbt/utils/NBTParser.java:204-222 | the method computes `ElementName` |
| NbtParser.ElementText | src/main/java/me/dpohvar/powernbt/utils/NBTParser.java:224-242 | the value text is no longer than the element and fails exactly when the name does |
| NbtParser.ValueOf | src/main/java/me/dpohvar/powernbt/utils/NBTParser.java:224-242 | the method computes `ElementText` |
| NbtParser.Parser | src/main/java/me/dpohvar/powernbt/utils/NBTParser.java:72-124 | every parser built keeps the name it was given |
| NbtParser.ParseTree | src/main/java/me/dpohvar/powernbt/utils/NBTParser.java:72-124 | the method, which consumes the body by reassigning the remaining text, computes `Parser` |
| NbtParser.ParseBody | src/main/java/me/dpohvar/powernbt/utils/NBTParser.java:77-120 | the body loop computes `Items` |
| NbtParser.TakeElement | src/main/java/me/dpohvar/powernbt/utils/NBTParser.java:81-96 | one turn of the loop either ends the parse with the body's result or yields a shorter rest whose result completes it |
| NbtParser.ParseElement | src/main/java/me/dpohvar/powernbt/utils/NBTParser.java:126-130 | the method computes `Element` |
| NbtParser.Items | src/main/java/me/dpohvar/powernbt/utils/NBTParser.java:77-120 | a body yields no more parsers than it has characters |
| NbtParser.KeyOf | src/main/java/me/dpohvar/powernbt/utils/NBTParser.java:410-413 | the key of an entry fails exactly for the name made of a lone quote |
| NbtParser.EvalItems | src/main/java/me/dpohvar/powernbt/utils/NBTParser.java:393-395 | a successful evaluation gives one tag per element |
| NbtParserFacts.ParserDispatch | src/main/java/me/dpohvar/powernbt/utils/NBTParser.java:72-124 | trimmed text starting with `{` gives a compound parser, text starting with `[` that is not a numeric list gives a list parser, any other text a primitive parser of the trimmed text |
| NbtParserFacts.BracketPrimitiveIsIntArray | src/main/java/me/dpohvar/powernbt/utils/NBTParser.java:99-123 | a primitive the parser produces that starts with `[` matched the numeric-list pattern, since any other bracketed value goes to `ListParser` |
| NbtParserFacts.NumericListIsIntArray | src/main/java/me/dpohvar/powernbt/utils/NBTParser.java:356-364 | text matching the numeric-list pattern is classified as an int array of the tokens between its brackets, so the typed `]b`, `]i`, `]l` branches are never reached from the parser |
| NbtParserFacts.CompoundElementRules | src/main/java/me/dpohvar/powernbt/utils/NBTParser.java:132-148 | a compound body whose first element has no top-level colon, or a top-level comma before the colon, is rejected with the matching message |
| NbtParserFacts.ListSplitFailures | src/main/java/me/dpohvar/powernbt/utils/NBTParser.java:143-147 | splitting a list body fails only in the element-end scan |
| NbtParserFacts.UnexpectedTokenRule | src/main/java/me/dpohvar/powernbt/utils/NBTParser.java:92-95 | an element followed by a character other than `,` `{` `}` `[` `]` fails with "Unexpected token" naming that character and the rest of the body |
| NbtParserFacts.ParserFailure | src/main/java/me/dpohvar/powernbt/utils/NBTParser.java:72-124 | every failure of `parser` is one of the parser's own error kinds |
| NbtParserFacts.ItemsFailure | src/main/java/me/dpohvar/powernbt/utils/NBTParser.java:77-120 | every failure of a body is one of the parser's own error kinds |
| NbtParserFacts.ElementFailure | src/main/java/me/dpohvar/powernbt/utils/NBTParser.java:126-130 | every failure of an element is one of the parser's own error kinds |
| NbtParserFacts.PlainList | src/main/java/me/dpohvar/powernbt/utils/NBTParser.java:99-120 | a list body without quotes, colons or brackets gives one nameless primitive per non-empty comma piece, trimmed, in order |
| NbtParserFacts.EvalItemsMeaning | src/main/java/me/dpohvar/powernbt/utils/NBTParser.java:393-395 | list evaluation succeeds iff every element does, and element i's tag is the i-th result |
| NbtParserFacts.ListKeepsOrder | src/main/java/me/dpohvar/powernbt/utils/NBTParser.java:393-395 | `ListParser.parse` gives a list holding each element's tag in the elements' order, and fails iff an element fails |
| NbtParserFacts.EvalEntriesKeys | src/main/java/me/dpohvar/powernbt/utils/NBTParser.java:407-417 | the compound's keys are exactly the keys of its elements |
| NbtParserFacts.EvalEntriesLast | src/main/java/me/dpohvar/powernbt/utils/NBTParser.java:407-417 | the value under a key is the tag of the last element with that key |
| NbtParserFacts.CompoundLastWins | src/main/java/me/dpohvar/powernbt/utils/NBTParser.java:407-417 | `CompoundParser.parse` succeeds iff every element has a key and a tag; its keys are the elements' keys and a later duplicate overwrites an earlier one |
| NbtParserFacts.QuotedKey | src/main/java/me/dpohvar/powernbt/utils/NBTParser.java:410-413 | a quoted key is passed, unquoted, to the string-literal parser; any other key stands as written |
| NbtPrimitive.ParsePrimitive | src/main/java/me/dpohvar/powernbt/utils/NBTParser.java:289-380 | the method computes the first-match classifier `Classify` |
| NbtPrimitive.ParseText | src/main/java/me/dpohvar/powernbt/utils/NBTParser.java:365-380 | the method computes the string fallback `TextValue` |
| NbtPrimitive.ParseArray | src/main/java/me/dpohvar/powernbt/utils/NBTParser.java:320-355 | the method computes `ArrayValue` of the comma tokens |
| NbtPrimitive.ParseTokens | src/main/java/me/dpohvar/powernbt/utils/NBTParser.java:323-325 | the token loop computes `TokenValues` |
| NbtPrimitive.Collapse | src/main/java/me/dpohvar/powernbt/utils/NBTParser.java:370-380 | the `StringBuilder` loop computes `Unpair(s, '\\')`: each backslash pair, left to right, becomes one backslash |
| NbtPrimitive.IntegerValue | src/main/java/me/dpohvar/powernbt/utils/NBTParser.java:308-310 | an integer parse succeeds exactly when Java's signed decimal parse is in range, and gives that value |
| NbtPrimitive.ArrayValue | src/main/java/me/dpohvar/powernbt/utils/NBTParser.java:320-355 | a parsed array literal has the array kind asked for |
| NbtPrimitive.ArrayShape | src/main/java/me/dpohvar/powernbt/utils/NBTParser.java:320-355 | a recognised array shape names an array kind |
| NbtPrimitive.Tokens | src/main/java/me/dpohvar/powernbt/utils/NBTParser.java:280 | the comma splitter omits empty pieces |
| NbtPrimitive.TokenValuesRead | src/main/java/me/dpohvar/powernbt/utils/NBTParser.java:323-325 | each successful element is the value of its token and lies in the element kind's range |
| NbtPrimitive.TokenValuesFail | src/main/java/me/dpohvar/powernbt/utils/NBTParser.java:323-325 | the array fails iff some token does not parse |
| NbtPrimitiveFacts.SuffixOf | src/main/java/me/dpohvar/powernbt/utils/NBTParser.java:272-277 | the integer suffixes are never `d`, `D`, `f`, `F` or `\|` |
| NbtPrimitiveFacts.SuffixDispatch | src/main/java/me/dpohvar/powernbt/utils/NBTParser.java:290-307 | an integer text with a `b`, `s`, `i` or `l` suffix is parsed at that kind's width |
| NbtPrimitiveFacts.SuffixedRoundTrip | src/main/java/me/dpohvar/powernbt/utils/NBTParser.java:296-307 | printing n with a kind's suffix parses back to n at that kind when in range, and otherwise fails with a number-format error (e.g. `200b`) |
| NbtPrimitiveFacts.BareIntegerRoundTrip | src/main/java/me/dpohvar/powernbt/utils/NBTParser.java:308-310 | a bare integer parses back as an int when in the 32-bit range, and fails otherwise |
| NbtPrimitiveFacts.BooleanLiterals | src/main/java/me/dpohvar/powernbt/utils/NBTParser.java:314-319 | `true` and `false`, in any case, are the bytes 1 and 0 |
| NbtPrimitiveFacts.QuotedLiteral | src/main/java/me/dpohvar/powernbt/utils/NBTParser.java:365-367 | a quoted text is the string between the quotes, unchanged |
| NbtPrimitiveFacts.LoneQuoteFails | src/main/java/me/dpohvar/powernbt/utils/NBTParser.java:365-367 | the text made of a single quote fails with an index error |
| NbtPrimitiveFacts.NoScalar | src/main/java/me/dpohvar/powernbt/utils/NBTParser.java:289-380 | text of two or more characters that starts with no digit, sign or point and is not a boolean falls through to the string branches |
| NbtPrimitive.UnescapeEscape | src/main/java/me/dpohvar/powernbt/utils/NBTParser.java:369-380 | unescaping undoes the reference escaper `Escape`, which puts a backslash before each backslash and each quote |
| NbtPrimitive.EscapeQuotesFirst | src/main/java/me/dpohvar/powernbt/utils/NBTParser.java:369 | the quote step applied to escaped text leaves the original text with its backslashes doubled |
| NbtPrimitive.DoubledCollapse | src/main/java/me/dpohvar/powernbt/utils/NBTParser.java:370-380 | the backslash collapse inverts backslash doubling |
| NbtPrimitiveFacts.UnescapePlain | src/main/java/me/dpohvar/powernbt/utils/NBTParser.java:369-380 | text without backslashes is left alone |
| NbtPrimitiveFacts.BracketedIsIntArray | src/main/java/me/dpohvar/powernbt/utils/NBTParser.java:356-364 | a bracketed primitive is read as an int array of its comma tokens |
| NbtPrimitiveFacts.IntArrayLiteral | src/main/java/me/dpohvar/powernbt/utils/NBTParser.java:356-364 | printing in-range ints as `[a,b,...]` parses back to that int array |
| NbtType.Code | src/main/java/me/dpohvar/powernbt/nbt/NBTType.java:18-30 | a kind's code is its position in the kind table |
| NbtType.CodeInjective | src/main/java/me/dpohvar/powernbt/nbt/NBTType.java:18-30 | no two kinds share a code |
| NbtType.FromByte | src/main/java/me/dpohvar/powernbt/nbt/NBTType.java:49-56 | a byte gives a kind exactly when it is 0..12, and that kind has the byte as its code |
| NbtType.FromString | src/main/java/me/dpohvar/powernbt/nbt/NBTType.java:148-164 | the method computes the name lookup `KindFromName` |
| NbtType.ExactFrom | src/main/java/me/dpohvar/powernbt/nbt/NBTType.java:152-156 | the exact search finds a kind with the given name, or none exists after the start |
| NbtType.PrefixFrom | src/main/java/me/dpohvar/powernbt/nbt/NBTType.java:157-161 | the prefix search finds the first kind whose name starts with the text, or none exists |
| NbtType.KindFromOwnName | src/main/java/me/dpohvar/powernbt/nbt/NBTType.java:148-164 | any capitalisation of a kind's name gives that kind |
| NbtType.KindFromNameIsFirstPrefix | src/main/java/me/dpohvar/powernbt/nbt/NBTType.java:148-164 | a name gives the first kind in table order whose name it begins, and END when it begins none |
| NbtType.ExactNameIsFirstPrefix | src/main/java/me/dpohvar/powernbt/nbt/NBTType.java:148-164 | a kind's own name is never a prefix of an earlier kind's name, so the prefix search agrees with the exact one |
| NbtType.BaseArrayInverse | src/main/java/me/dpohvar/powernbt/nbt/NBTType.java:166-182 | `getArrayType` and `getBaseType` are inverse between BYTE/INT/LONG and their arrays, and `getBaseType` is defined only on the array kinds |
| NbtType.DefaultValue | src/main/java/me/dpohvar/powernbt/nbt/NBTType.java:184-186 | the default value has the kind asked for (none for END); the integer defaults are 0, the string default is `""`, the array defaults are empty, and the list and compound defaults are empty |
| NbtType.WidthRanges | src/main/java/me/dpohvar/powernbt/nbt/NBTType.java:191-245 | the 8, 16, 32 and 64-bit ranges are Java's byte, short, int and long ranges |
| NbtType.IntegerTag | src/main/java/me/dpohvar/powernbt/nbt/NBTType.java:191-245 | the tag built for an integer kind has that kind |
| NbtType.ParseText | src/main/java/me/dpohvar/powernbt/nbt/NBTType.java:188-379 | a parsed value has the kind asked for; text deferred to floating point is kept with its kind |
| NbtType.Parse | src/main/java/me/dpohvar/powernbt/nbt/NBTType.java:188-379 | the method computes `ParseText` |
| NbtType.ParseArrayText | src/main/java/me/dpohvar/powernbt/nbt/NBTType.java:271-378 | a parsed array literal has the array kind asked for |
| NbtType.ParseArray | src/main/java/me/dpohvar/powernbt/nbt/NBTType.java:271-378 | the method computes `ParseArrayText` |
| NbtType.ElementValues | src/main/java/me/dpohvar/powernbt/nbt/NBTType.java:271-378 | each element read is its token's value, and the result is a bad element exactly when some token does not parse |
| NbtType.ReadElements | src/main/java/me/dpohvar/powernbt/nbt/NBTType.java:271-378 | the index loop computes `ElementValues` |
| NbtType.ArrayTag | src/main/java/me/dpohvar/powernbt/nbt/NBTType.java:271-378 | the array built has the array kind asked for |
| NbtTypeFacts.IntegerNarrowing | src/main/java/me/dpohvar/powernbt/nbt/NBTType.java:191-235 | any long text parsed at BYTE, SHORT or INT gives the two's-complement truncation of the long |
| NbtTypeFacts.IntegerRoundTrip | src/main/java/me/dpohvar/powernbt/nbt/NBTType.java:191-245 | printing an in-range integer parses back to it at its kind |
| NbtTypeFacts.ByteOverflowWraps | src/main/java/me/dpohvar/powernbt/nbt/NBTType.java:191-205 | `200` parsed as a byte is -56 |
| NbtTypeFacts.IntegerFallback | src/main/java/me/dpohvar/powernbt/nbt/NBTType.java:191-245 | an integer kind gives a value iff the text is a long, and otherwise defers to floating point |
| NbtTypeFacts.StructuredKindsRejected | src/main/java/me/dpohvar/powernbt/nbt/NBTType.java:379 | END, LIST and COMPOUND always fail with a parse error naming the kind |
| NbtTypeFacts.SplitJoin | src/main/java/me/dpohvar/powernbt/nbt/NBTType.java:271-306 | splitting a comma-joined list of comma-free texts gives the texts back |
| NbtTypeFacts.RenderedTokens | src/main/java/me/dpohvar/powernbt/nbt/NBTType.java:271-378 | the printed elements of an in-range array read back as those elements |
| NbtTypeFacts.ArrayRoundTrip | src/main/java/me/dpohvar/powernbt/nbt/NBTType.java:271-378 | printing in-range values as `[a,b,...]` parses back to that array at each array kind |
| NbtTypeFacts.HexByteElement | src/main/java/me/dpohvar/powernbt/nbt/NBTType.java:271-306 | the byte element `#ff` is -1 |
| NbtTypeFacts.MalformedByteArrayNamesIntArray | src/main/java/me/dpohvar/powernbt/nbt/NBTType.java:271-306 | a malformed byte-array literal fails with a parse error naming `int[]` |
| Numbers.Wrap | src/main/java/me/dpohvar/powernbt/nbt/NBTType.java:191-235 | the narrowed value is in the target range and equals the input when that is already in range |
| Numbers.WrapKeepsLowBits | src/main/java/me/dpohvar/powernbt/nbt/NBTType.java:191-235 | narrowing keeps the low bits: it agrees with the input modulo 2^bits |
| Numbers.ParseSigned | src/main/java/me/dpohvar/powernbt/nbt/NBTType.java:191-245 | a parsed value is in range, and the text starts with a sign or a digit |
| Numbers.ParseToDecimal | src/main/java/me/dpohvar/powernbt/nbt/NBTType.java:191-245 | printing n in decimal parses back to n exactly when n is in range |
| Numbers.ParseRejectsNonDigit | src/main/java/me/dpohvar/powernbt/nbt/NBTType.java:191-245 | a non-digit after the first character makes the parse fail |
| Numbers.Lower | src/main/java/me/dpohvar/powernbt/nbt/NBTType.java:149 | lower-casing maps each character and keeps the length |
| Compound.ToTag | src/main/java/me/dpohvar/powernbt/api/NBTCompound.java:228-237 | a map becomes a compound, a collection a list of the same length, a boolean the byte 0 or 1 |
| Compound.ValueOfTag | src/main/java/me/dpohvar/powernbt/api/NBTCompound.java:206-208 | a compound reads as a map and a list as a sequence, and nothing else does |
| Compound.CopyIsEqual | src/main/java/me/dpohvar/powernbt/api/NBTCompound.java:228-237 | converting a stored tag's value back to a tag gives an equal tag |
| Compound.SelfPutSnapshot | src/main/java/me/dpohvar/powernbt/api/NBTCompound.java:26-31 | putting a compound into itself stores a snapshot of its old entries and keeps the other keys |
| Compound.NbtCompound.constructor | src/main/java/me/dpohvar/powernbt/api/NBTCompound.java:141-143 | a new compound is empty |
| Compound.NbtCompound.FromMap | src/main/java/me/dpohvar/powernbt/api/NBTCompound.java:157-162 | a compound built from a map holds that map's conversion |
| Compound.NbtCompound.Get | src/main/java/me/dpohvar/powernbt/api/NBTCompound.java:206-208 | a key gives a value exactly when it is stored, and that value converts back to the stored tag |
| Compound.NbtCompound.Put | src/main/java/me/dpohvar/powernbt/api/NBTCompound.java:220-244 | `put` returns the previous value; a null key changes nothing; a null value removes the key; otherwise only that key changes, to the converted value |
| Compound.NbtCompound.Remove | src/main/java/me/dpohvar/powernbt/api/NBTCompound.java:246-250 | `remove` returns the previous value and detaches only that key |
| Compound.NbtCompound.PutAll | src/main/java/me/dpohvar/powernbt/api/NBTCompound.java:258-267 | the entries become the map's entries put over the old ones, null keys skipped |
| Compound.NbtCompound.Clear | src/main/java/me/dpohvar/powernbt/api/NBTCompound.java:269-272 | the compound is empty afterwards |
| Compound.NbtCompound.Merge | src/main/java/me/dpohvar/powernbt/api/NBTCompound.java:295-312 | the entries become the deep overlay of the map on the old entries |
| Compound.NbtCompound.CompoundAt | src/main/java/me/dpohvar/powernbt/api/NBTCompound.java:597-617 | an existing compound entry is returned untouched; otherwise a fresh empty compound replaces the entry and is returned |
| Compound.NbtCompound.ListAt | src/main/java/me/dpohvar/powernbt/api/NBTCompound.java:618-638 | an existing list entry is returned untouched; otherwise a fresh empty list replaces the entry and is returned |
| Compound.NbtCompound.Bind | src/main/java/me/dpohvar/powernbt/api/NBTCompound.java:639-669 | the compound or list is stored under the key as given, and the previous value is returned |
| Compound.NbtCompound.ContainsKind | src/main/java/me/dpohvar/powernbt/api/NBTCompound.java:684-687 | a match implies the key is stored and the code is not negative |
| Compound.ContainsKindOfStored | src/main/java/me/dpohvar/powernbt/api/NBTCompound.java:684-687 | a stored key matches a kind's code exactly when its tag has that kind |
| Compound.NbtCompound.GetBoolean | src/main/java/me/dpohvar/powernbt/api/NBTCompound.java:325-360 | a missing key is false; an integer is true when non-zero; a string, int[] or byte[] when non-empty; a list only when empty; a compound only when non-empty; a long[] is false; the answer is left to a floating-point comparison with zero exactly for float and double entries |
| Compound.NbtCompound.GetInteger | src/main/java/me/dpohvar/powernbt/api/NBTCompound.java:361-460 | a missing key is 0; an integer entry is narrowed to the getter's width; text that parses as a long is that long narrowed, other text and float or double entries go through a double; arrays, lists and compounds give 0; an exact result lies in the kind's range |
| Compound.NbtCompound.GetString | src/main/java/me/dpohvar/powernbt/api/NBTCompound.java:503-518 | a missing key is the empty text; a string entry is returned as stored |
| Compound.NbtCompound.GetCompound | src/main/java/me/dpohvar/powernbt/api/NBTCompound.java:563-577 | a compound is returned exactly when the key holds one, and it is the stored one |
| Compound.NbtCompound.GetList | src/main/java/me/dpohvar/powernbt/api/NBTCompound.java:578-596 | a list is returned exactly when the key holds one, and it is the stored one |
| Compound.NbtCompound.GetIntArray | src/main/java/me/dpohvar/powernbt/api/NBTCompound.java:519-540 | a fresh array holding the entry read as ints (bytes widened) |
| Compound.NbtCompound.GetByteArray | src/main/java/me/dpohvar/powernbt/api/NBTCompound.java:541-562 | a fresh array holding the entry read as bytes (ints truncated) |
| Compound.Widened | src/main/java/me/dpohvar/powernbt/api/NBTCompound.java:519-540 | widening keeps every byte's value |
| Compound.Truncated | src/main/java/me/dpohvar/powernbt/api/NBTCompound.java:541-562 | truncation narrows every int to a byte with wrap-around |
| Compound.WidenThenTruncate | src/main/java/me/dpohvar/powernbt/api/NBTCompound.java:519-562 | truncating widened bytes gives the bytes back |
| Compound.ByteArrayRoundTrip | src/main/java/me/dpohvar/powernbt/api/NBTCompound.java:519-562 | a byte array read as ints and stored reads back as the same bytes |
| Compound.MergeKeepsOthers | src/main/java/me/dpohvar/powernbt/api/NBTCompound.java:295-312 | keys the map does not mention keep their entries |
| Compound.MergeOverwrites | src/main/java/me/dpohvar/powernbt/api/NBTCompound.java:295-312 | unless both sides are compounds, merge puts the incoming value (or removes the key for null), so lists are replaced wholesale |
| Compound.MergeRecurses | src/main/java/me/dpohvar/powernbt/api/NBTCompound.java:306-307 | a compound meeting a map is merged recursively |
| Compound.MergeSelf | src/main/java/me/dpohvar/powernbt/api/NBTCompound.java:295-312 | merging a compound's own value into it changes nothing |
| Compound.PutAllPuts | src/main/java/me/dpohvar/powernbt/api/NBTCompound.java:258-267 | after `putAll` each named key holds its converted value, or is absent for null |
| Compound.BooleanRoundTrip | src/main/java/me/dpohvar/powernbt/api/NBTCompound.java:325-385 | a stored boolean reads back as that boolean and as the byte 0 or 1 |
| Compound.IntegerRoundTrip | src/main/java/me/dpohvar/powernbt/api/NBTCompound.java:361-460 | a stored int reads back as itself at INT and LONG and as its truncation at BYTE and SHORT |
| Compound.StringOfIntegerRoundTrip | src/main/java/me/dpohvar/powernbt/api/NBTCompound.java:436-518 | a long printed by `getString` and stored as a string reads back by `getLong` as the same long |
| Compound.StringRoundTrip | src/main/java/me/dpohvar/powernbt/api/NBTCompound.java:503-518 | a stored string reads back as itself |
| Containers.Compose | src/main/java/me/dpohvar/powernbt/nbt/NBTContainerComplex.java:15-19 | a view wraps the container and query, takes its selector and store, and extends its path by the query |
| Containers.Types | src/main/java/me/dpohvar/powernbt/nbt/NBTContainerComplex.java:33-35 | a view reports no type names |
| Containers.SelectorQuery | src/main/java/me/dpohvar/powernbt/nbt/NBTContainerComplex.java:114-123 | a view always has a selector query, and the empty one when it has its own selector |
| Containers.RootContainer | src/main/java/me/dpohvar/powernbt/nbt/NBTContainerComplex.java:126-128 | the root container is the store at the bottom of the chain |
| Containers.Readonly | src/main/java/me/dpohvar/powernbt/nbt/NBTContainerComplex.java:131-133 | a view is read-only exactly when its store is |
| Containers.WriteTag | src/main/java/me/dpohvar/powernbt/nbt/NBTContainerComplex.java:60-67 | the store ends with the root `WriteIn` computes, or is untouched when a query error is raised |
| Containers.WriteCustomTag | src/main/java/me/dpohvar/powernbt/nbt/NBTContainerComplex.java:70-77 | the store ends with the root `WriteCustomIn` computes, or is untouched on failure |
| Containers.EraseTag | src/main/java/me/dpohvar/powernbt/nbt/NBTContainerComplex.java:80-87 | the store ends with the root `EraseIn` computes, or is untouched when the path is missing |
| Containers.EraseCustomTag | src/main/java/me/dpohvar/powernbt/nbt/NBTContainerComplex.java:90-97 | the store ends with the root `EraseCustomIn` computes, or is untouched on failure |
| Containers.SetAt | src/main/java/me/dpohvar/powernbt/command/action/ActionEdit.java:34 | `setCustomTag(query, v)` is a strict write through the view at that query |
| Containers.RemoveAt | src/main/java/me/dpohvar/powernbt/command/action/ActionCut.java:32 | `removeTag(query)` is an erase through the view at that query |
| Containers.ValueAt | src/main/java/me/dpohvar/powernbt/command/action/ActionEdit.java:32 | `getCustomTag(query)` gives the value at the container's path followed by the query wherever that resolves, and no value where the query does not resolve below the container's view |
| Containers.TagIn | src/main/java/me/dpohvar/powernbt/nbt/NBTContainerComplex.java:42-48 | where the strict read succeeds, the lenient read gives the same value |
| Containers.CustomTagIn | src/main/java/me/dpohvar/powernbt/nbt/NBTContainerComplex.java:51-57 | the strict read succeeds exactly where the joined path resolves from the store's root, and then gives the value found there |
| Containers.WriteIn | src/main/java/me/dpohvar/powernbt/nbt/NBTContainerComplex.java:60-67 | what a successful `writeTag` wrote is what `readTag` then reads |
| Containers.WriteCustomIn | src/main/java/me/dpohvar/powernbt/nbt/NBTContainerComplex.java:70-77 | a successful strict write writes what `writeTag` would |
| Containers.EraseIn | src/main/java/me/dpohvar/powernbt/nbt/NBTContainerComplex.java:80-87 | after a successful erase at a key, the view reads null |
| Containers.EraseCustomIn | src/main/java/me/dpohvar/powernbt/nbt/NBTContainerComplex.java:90-97 | a successful strict erase erases what `eraseTag` would |
| ContainerFacts.ReadThroughChain | src/main/java/me/dpohvar/powernbt/nbt/NBTContainerComplex.java:42-48 | reading a chain of views is one walk of the joined path from the store root, with a missing path read as no value |
| ContainerFacts.MissingPath | src/main/java/me/dpohvar/powernbt/nbt/NBTContainerComplex.java:42-48 | where the view's query is missing, `readTag` gives null and `eraseTag` fails |
| ContainerFacts.MissingPathStrict | src/main/java/me/dpohvar/powernbt/nbt/NBTContainerComplex.java:51-57 | where the joined path is missing, the strict read and the strict erase fail |
| ContainerFacts.WriteAlongPath | src/main/java/me/dpohvar/powernbt/nbt/NBTContainerComplex.java:60-67 | a write of a value along a path that resolves never fails |
| ContainerFacts.SelectorQueryChain | src/main/java/me/dpohvar/powernbt/nbt/NBTContainerComplex.java:114-123 | for views without selectors of their own, the selector query is the store's selector query followed by the whole path |
| NbtQuery.Get | src/main/java/me/dpohvar/powernbt/nbt/NBTContainerComplex.java:44 | (assumed) `get` never raises a query error, and a non-empty path that resolves holds a tag |
| NbtQuery.Set | src/main/java/me/dpohvar/powernbt/nbt/NBTContainerComplex.java:62 | (assumed) `set` never reports a missing tag, and a non-empty path gives a root |
| NbtQuery.Remove | src/main/java/me/dpohvar/powernbt/nbt/NBTContainerComplex.java:82 | (assumed) `remove` never raises a query error |
| NbtQuery.Parent | src/main/java/me/dpohvar/powernbt/command/action/ActionRename.java:33 | the parent exists iff the query is not empty, and the parent plus the last selector is the query |
| NbtQuery.Join | src/main/java/me/dpohvar/powernbt/nbt/NBTContainerComplex.java:122 | a join is the first query followed by the second |
| NbtQueryFacts.SetThenGet | src/main/java/me/dpohvar/powernbt/nbt/NBTContainerComplex.java:62 | (assumed interface) a value set is what `get` reads back; null set at a key leaves nothing |
| NbtQueryFacts.RemoveNeedsPath | src/main/java/me/dpohvar/powernbt/nbt/NBTContainerComplex.java:82 | (assumed interface) `remove` succeeds exactly where `get` does |
| NbtQueryFacts.RemoveThenGet | src/main/java/me/dpohvar/powernbt/command/action/ActionRename.java:41 | (assumed interface) after removing a key, the path no longer resolves |
| NbtQueryFacts.SetAlongPath | src/main/java/me/dpohvar/powernbt/command/action/ActionRename.java:42 | (assumed interface) setting a value along a resolving path never fails |
| NbtQueryFacts.SetElsewhere | src/main/java/me/dpohvar/powernbt/command/action/ActionRename.java:41-42 | (assumed interface) setting one path leaves every path that is neither its prefix nor its extension reading as before |
| NbtQueryFacts.GetJoin | src/main/java/me/dpohvar/powernbt/nbt/NBTContainerComplex.java:122 | (assumed interface) walking a joined query walks the first part, then the second |
| Arguments.AfterMinus | src/main/java/me/dpohvar/powernbt/command/action/Argument.java:369 | the optional minus of `-?` is dropped and nothing else |
| Arguments.LeadingDigits | src/main/java/me/dpohvar/powernbt/command/action/Argument.java:369 | the length of the maximal run of leading digits |
| Arguments.CutAtColon | src/main/java/me/dpohvar/powernbt/command/action/Argument.java:268 | the text is split at its first colon, and the part before holds no colon |
| Arguments.ArrayKindOf | src/main/java/me/dpohvar/powernbt/command/action/Argument.java:415-420 | `b`, `i` and `l` name an array kind |
| Arguments.Scalar | src/main/java/me/dpohvar/powernbt/command/action/Argument.java:374-380 | the result is never an array kind; an array kind narrows to the element kind whose array it is; every other kind stands; only END gives END |
| Arguments.Resolve | src/main/java/me/dpohvar/powernbt/command/action/Argument.java:106-491 | only a word can be supplied from outside the literal grammar |
| Arguments.ShapeOf | src/main/java/me/dpohvar/powernbt/command/action/Argument.java:495-605 | a binary future has at least one character |
| Arguments.NewValue | src/main/java/me/dpohvar/powernbt/command/action/Argument.java:488 | a value container is a fresh root store holding the value |
| Arguments.CompleteType | src/main/java/me/dpohvar/powernbt/command/action/Argument.java:551-558 | the loop returns the first type name's completion, as `FirstCompleted` |
| Arguments.GetContainer | src/main/java/me/dpohvar/powernbt/command/action/Argument.java:106-491 | an exception becomes an error, a deferred literal null, the buffer names the caller's buffer, outside words the supplier's answer, and a literal a fresh value store holding it |
| Arguments.Make | src/main/java/me/dpohvar/powernbt/command/action/Argument.java:93-104 | construction fails iff resolution throws; the new argument needs preparing iff the literal is deferred, and then keeps the word and parameter |
| Arguments.Caller.constructor | src/main/java/me/dpohvar/powernbt/command/action/ActionCut.java:30 | a caller starts with an empty buffer and no messages |
| Arguments.Caller.Send | src/main/java/me/dpohvar/powernbt/command/action/ActionSwap.java:37 | one message is appended |
| Arguments.Caller.SendValue | src/main/java/me/dpohvar/powernbt/command/action/ActionMoveLast.java:42 | one message and its value are appended |
| Arguments.Caller.Keep | src/main/java/me/dpohvar/powernbt/command/action/ActionCut.java:30 | the buffer holds the value |
| Arguments.Caller.Hold | src/main/java/me/dpohvar/powernbt/command/action/Argument.java:500 | the argument is appended to the held ones |
| Arguments.Argument.NeedPrepare | src/main/java/me/dpohvar/powernbt/command/action/Argument.java:89-91 | preparing is needed exactly when no container is held |
| Arguments.Argument.constructor | src/main/java/me/dpohvar/powernbt/command/action/Argument.java:93-104 | with no container the word and parameter are kept; a value container gets the empty query; any other container the parsed parameter |
| Arguments.Argument.Select | src/main/java/me/dpohvar/powernbt/command/action/Argument.java:609-612 | `select` installs the container and the parsed deferred query and keeps the futures |
| Arguments.Early | src/main/java/me/dpohvar/powernbt/command/action/Argument.java:110-335 | the tests before quoted text never throw and never defer: they give an outside source, the buffer or a literal |
| Arguments.TextRequest | src/main/java/me/dpohvar/powernbt/command/action/Argument.java:336-491 | the textual branches defer only `*`, `self`, `this`, and binary or numeric words without a parameter |
| Arguments.Fulfil | src/main/java/me/dpohvar/powernbt/command/action/Argument.java:336-491 | a source given outright is kept; parsing text ends in a literal or a thrown failure, never in a deferral or an outside source |
| Arguments.NumberKind | src/main/java/me/dpohvar/powernbt/command/action/Argument.java:545-575 | a kind found at the context decides, narrowed from an array kind; else the completer's answer, narrowed; else the parent list's element kind |
| Arguments.ParentListKind | src/main/java/me/dpohvar/powernbt/command/action/Argument.java:567-574 | END without a parent query; any other kind comes from a list found at the parent query |
| Arguments.BracketKind | src/main/java/me/dpohvar/powernbt/command/action/Argument.java:584-595 | a byte, int or long found becomes the array kind of that element kind; nothing found asks the completer; any other kind stands |
| Arguments.Plan | src/main/java/me/dpohvar/powernbt/command/action/Argument.java:494-607 | only `*` for a player waits for a selection; only `self`, `this`, `hand` and `h` adopt a container; only the binary, numeric and bracket words build a value, and only with a context; without a context the self, binary, numeric and bracket words fail |
| Arguments.PlanSelf | src/main/java/me/dpohvar/powernbt/command/action/Argument.java:501-507 | the context container is adopted with the parsed deferred query exactly when there is a context; otherwise `error_undefinedself` |
| Arguments.PlanHand | src/main/java/me/dpohvar/powernbt/command/action/Argument.java:508-531 | a caller that is not a player fails with `error_noplayer`; the supplied container is adopted, with the parsed deferred query, exactly when the caller is a player and the supplier answers |
| Arguments.PlanBinary | src/main/java/me/dpohvar/powernbt/command/action/Argument.java:532-540 | no context fails with `error_undefinedtype`, bits that are not a long with a number-format error, and a failed strict read of the context or a missing path with that failure; a value is built only when all three pass (the corrected branch, see Findings; the code as written is `PlanBinaryAsWritten`) |
| Arguments.PlanNumber | src/main/java/me/dpohvar/powernbt/command/action/Argument.java:541-579 | no context fails with `error_undefinedtype`; a failed strict read of the context, or a missing path, fails before any kind is looked up |
| Arguments.PlanBracket | src/main/java/me/dpohvar/powernbt/command/action/Argument.java:580-603 | no context fails with `error_undefinedtype`; a failed strict read of the context, or a missing path, fails before any kind is looked up |
| Arguments.Argument.PrepareStar | src/main/java/me/dpohvar/powernbt/command/action/Argument.java:495-500 | a player caller is sent the select request and the argument is held, with the argument unchanged; any other caller fails with `error_noplayer` and nothing changes |
| Arguments.Argument.PrepareSelf | src/main/java/me/dpohvar/powernbt/command/action/Argument.java:501-507 | without a context it fails; otherwise it adopts the context container and the parsed query |
| Arguments.Argument.PrepareHand | src/main/java/me/dpohvar/powernbt/command/action/Argument.java:508-531 | a caller that is not a player fails; otherwise the supplied held-item container is adopted with the parsed deferred query, or the supplier's error is reported |
| Arguments.Argument.PrepareBinary | src/main/java/me/dpohvar/powernbt/command/action/Argument.java:532-540 | the state reached is the corrected binary plan: it fails without a context, for bits out of range, where the strict read of the context container fails, or where the context path is missing; otherwise it holds a value store with the number parsed at the kind found at the context |
| Arguments.Argument.PrepareNumber | src/main/java/me/dpohvar/powernbt/command/action/Argument.java:541-579 | the state reached is the numeric plan: the kind at the context, completed from type names, narrowed from an array kind, or taken from a parent list |
| Arguments.Argument.PrepareBracket | src/main/java/me/dpohvar/powernbt/command/action/Argument.java:580-603 | the state reached is the bracket plan: the kind at the context widened to its array kind, or completed from type names |
| Arguments.Argument.Prepare | src/main/java/me/dpohvar/powernbt/command/action/Argument.java:494-607 | the argument reaches the plan for its future with the context given and the context container read strictly; `*` sends the select request and holds the argument; nothing else touches the caller |
| ArgumentFacts.DeferredExactly | src/main/java/me/dpohvar/powernbt/command/action/Argument.java:360-413 | a literal is deferred iff it is `*`, `self` or `this`, or a binary or numeric word without a parameter |
| ArgumentFacts.DeferredShape | src/main/java/me/dpohvar/powernbt/command/action/Argument.java:495-605 | every deferred literal lands in the star, self, binary or numeric branch of `prepare`, never in the final error |
| ArgumentFacts.MarkersDeferred | src/main/java/me/dpohvar/powernbt/command/action/Argument.java:411-413 | `*`, `self` and `this` are always deferred |
| ArgumentFacts.NumberWordDeferred | src/main/java/me/dpohvar/powernbt/command/action/Argument.java:369-410 | a numeric word without a parameter is deferred |
| ArgumentFacts.NumberWordTyped | src/main/java/me/dpohvar/powernbt/command/action/Argument.java:369-410 | a numeric word with a type parameter is parsed at that kind, narrowed from an array kind |
| ArgumentFacts.DecimalAsInt | src/main/java/me/dpohvar/powernbt/command/action/Argument.java:374-381 | a whole number given the `int` or `int[]` parameter becomes that number truncated to 32 bits |
| ArgumentFacts.BinaryWordResolves | src/main/java/me/dpohvar/powernbt/command/action/Argument.java:360-368 | a binary word is deferred without a parameter and otherwise parsed, after its leading `b`, at the named kind |
| ArgumentFacts.BinaryAsInteger | src/main/java/me/dpohvar/powernbt/command/action/Argument.java:360-368 | a binary word typed as an integer kind is its value truncated to that kind |
| ArgumentFacts.HexResolves | src/main/java/me/dpohvar/powernbt/command/action/Argument.java:351-359 | `#hex` is the int truncation of the hexadecimal long, or fails when it is not a long |
| ArgumentFacts.QuotedResolves | src/main/java/me/dpohvar/powernbt/command/action/Argument.java:337-350 | a quoted word is the unescaped string, and with the `json` parameter is left to the JSON parser |
| ArgumentFacts.TypedArrayResolves | src/main/java/me/dpohvar/powernbt/command/action/Argument.java:414-422 | `[..]b`, `[..]i` and `[..]l` are parsed as a byte, int or long array |
| ArgumentFacts.ColorResolves | src/main/java/me/dpohvar/powernbt/command/action/Argument.java:62-78 | a colour name is its int value |
| ArgumentFacts.KeywordResolves | src/main/java/me/dpohvar/powernbt/command/action/Argument.java:244-267 | `compound`, `list`, `on`/`true`, `off`/`false`, `null` and the empty array names are their fixed values |
| ArgumentFacts.NumberPrepareAgrees | src/main/java/me/dpohvar/powernbt/command/action/Argument.java:541-579 | preparing a numeric word against a context value gives what resolving it with that value's kind name would |
| ArgumentFacts.BinaryPrepareAgrees | src/main/java/me/dpohvar/powernbt/command/action/Argument.java:532-540 | with the corrected conversion, preparing a binary word against a context value gives what resolving it with that value's kind name would |
| ArgumentFacts.ListFallbackUnreachable | src/main/java/me/dpohvar/powernbt/command/action/Argument.java:567-574 | when the context path resolves and is not empty, the kind found is never END, so the parent-list fallback never changes it |
| Arguments.Tree | src/main/java/me/dpohvar/powernbt/command/action/Argument.java:537 | without a context the tree is null; with one, `getCustomTag()` succeeds exactly when the container's path resolves in its store, and then gives the tag found there |
| Arguments.ReadAt | src/main/java/me/dpohvar/powernbt/command/action/Argument.java:537 | `paramQuery.get(tree)` succeeds exactly when the tree was read and the query resolves in it, giving the value found; a failed tree read passes its error on; a query that does not resolve fails |
| ArgumentFacts.TreeReadJoins | src/main/java/me/dpohvar/powernbt/command/action/Argument.java:545 | reading the query from the context's tree is the strict read of the container's path joined with the query |
| ArgumentFacts.MissingContextRefuses | src/main/java/me/dpohvar/powernbt/command/action/Argument.java:532-603 | where the path of the context container does not resolve in its store, the binary, numeric and bracket branches fail, as `getCustomTag` throws there |
| ArgumentFacts.NothingOnlyAtRoot | src/main/java/me/dpohvar/powernbt/command/action/Argument.java:545 | a resolving path holds no value only when it is the empty path of an empty root |
| ArgumentFacts.FirstAnswerWins | src/main/java/me/dpohvar/powernbt/command/action/Argument.java:551-558 | the completed kind is the answer for the first type name that has one |
| ArgumentFacts.NoneCompleted | src/main/java/me/dpohvar/powernbt/command/action/Argument.java:551-558 | with no answer for any type name the kind stays END |
| ArgumentFacts.BinaryAsWrittenNone | src/main/java/me/dpohvar/powernbt/command/action/Argument.java:536 | as written, the base-2 parse of the whole future, `b` included, never succeeds |
| ArgumentFacts.BinaryAsWrittenFails | src/main/java/me/dpohvar/powernbt/command/action/Argument.java:532-540 | as written, preparing any binary future with a context fails with a number-format error |
| ArgumentFacts.BinaryExample | src/main/java/me/dpohvar/powernbt/command/action/Argument.java:536 | `b101` is 5 after the corrected conversion and fails as written |
| Actions.PutAt | src/main/java/me/dpohvar/powernbt/command/action/ActionSwap.java:40-44 | a present value is set strictly and an absent one removed through the view; on failure the store is untouched |
| Actions.Exchange | src/main/java/me/dpohvar/powernbt/command/action/ActionSwap.java:34-50 | both values are read before any write; two empty places only report; otherwise location 1 is written, then location 2 in the root that write left, each with the other's old value or removed; a failure stops with the state reached |
| Actions.Swap.constructor | src/main/java/me/dpohvar/powernbt/command/action/ActionSwap.java:14-18 | the action keeps its caller and its two arguments |
| Actions.Swap.Execute | src/main/java/me/dpohvar/powernbt/command/action/ActionSwap.java:21-51 | while an argument needs preparing, arg1 is prepared with no context or else arg2 with arg1's container and query; the argument not prepared and its store are unchanged, and a waiting argument is recorded as held with only the selection request sent; otherwise the end state is `Exchange`'s and both arguments are unchanged |
| Actions.MakeSwap | src/main/java/me/dpohvar/powernbt/command/action/ActionSwap.java:14-18 | construction fails iff one of the two arguments fails to resolve |
| Actions.Relocate | src/main/java/me/dpohvar/powernbt/command/action/ActionMoveLast.java:34-45 | an absent source fails with `error_null` and writes nothing; otherwise the target is set, then the source removed from the root that write left, and the value read is reported; any failure is `fail_move` naming query2 |
| Actions.MoveLast.constructor | src/main/java/me/dpohvar/powernbt/command/action/ActionMoveLast.java:14-18 | the action keeps its caller and its two arguments |
| Actions.MoveLast.Execute | src/main/java/me/dpohvar/powernbt/command/action/ActionMoveLast.java:21-46 | the same gating as swap; otherwise the end state is `Relocate`'s |
| Actions.MakeMoveLast | src/main/java/me/dpohvar/powernbt/command/action/ActionMoveLast.java:14-18 | construction fails iff one of the two arguments fails to resolve |
| Actions.Reattach | src/main/java/me/dpohvar/powernbt/command/action/ActionRename.java:38-45 | an absent value reports `fail_rename` and writes nothing; otherwise the source is removed from the tree, the value set at the target in that same tree, the tree written back once, and the value reported |
| Actions.Rename | src/main/java/me/dpohvar/powernbt/command/action/ActionRename.java:31-45 | the target is the source's parent followed by the new name's selectors; the value at the source is read from the tree and moved there as in `Reattach` |
| Actions.Renaming.constructor | src/main/java/me/dpohvar/powernbt/command/action/ActionRename.java:18-23 | the action keeps the name and the query parsed from it |
| Actions.Renaming.Execute | src/main/java/me/dpohvar/powernbt/command/action/ActionRename.java:26-46 | while the argument needs preparing, it is prepared with no context and nothing else changes; otherwise the end state is `Rename`'s |
| Actions.MakeRenaming | src/main/java/me/dpohvar/powernbt/command/action/ActionRename.java:18-23 | construction fails iff the argument fails to resolve, and keeps the name and its parsed query |
| Actions.Overwrite | src/main/java/me/dpohvar/powernbt/command/action/ActionEdit.java:32-38 | the place of arg1 is set strictly to the value read at arg2 and that value is reported; a failure is `fail_edit` naming the query; arg2's store, if different, is never written |
| Actions.Edit.constructor | src/main/java/me/dpohvar/powernbt/command/action/ActionEdit.java:14-18 | the action keeps its caller and its two arguments |
| Actions.Edit.Execute | src/main/java/me/dpohvar/powernbt/command/action/ActionEdit.java:21-39 | the same gating as swap; otherwise the end state is `Overwrite`'s |
| Actions.MakeEdit | src/main/java/me/dpohvar/powernbt/command/action/ActionEdit.java:14-18 | construction fails iff one of the two arguments fails to resolve |
| Actions.Clip | src/main/java/me/dpohvar/powernbt/command/action/ActionCut.java:26-32 | an absent value fails with `error_null`, buffer and source untouched; otherwise the buffer takes the value, it is reported, and then the source is removed |
| Actions.Cut.constructor | src/main/java/me/dpohvar/powernbt/command/action/ActionCut.java:13-16 | the action keeps its caller and its argument |
| Actions.Cut.Execute | src/main/java/me/dpohvar/powernbt/command/action/ActionCut.java:19-33 | while the argument needs preparing, it is prepared with no context and the buffer is unchanged; otherwise the end state is `Clip`'s |
| Actions.MakeCut | src/main/java/me/dpohvar/powernbt/command/action/ActionCut.java:13-16 | construction fails iff the argument fails to resolve |
| Actions.Duplicate | src/main/java/me/dpohvar/powernbt/command/action/ActionCopy.java:26-28 | the buffer takes the value read, absent or not, it is reported, and the source is not written |
| Actions.Copy.constructor | src/main/java/me/dpohvar/powernbt/command/action/ActionCopy.java:12-15 | the action keeps its caller and its argument |
| Actions.Copy.Execute | src/main/java/me/dpohvar/powernbt/command/action/ActionCopy.java:19-29 | while the argument needs preparing, it is prepared with no context and the buffer is unchanged; otherwise the end state is `Duplicate`'s |
| Actions.MakeCopy | src/main/java/me/dpohvar/powernbt/command/action/ActionCopy.java:12-15 | construction fails iff the argument fails to resolve |
| Actions.Put | src/main/java/me/dpohvar/powernbt/command/action/ActionSwap.java:40-49 | after a successful put, the place reads the value put, or reads null after a removal at a key; a value cannot be put below a container whose own path does not resolve |
| ActionFacts.SwapExchanges | src/main/java/me/dpohvar/powernbt/command/action/ActionSwap.java:40-49 | each location, written in its own root, ends holding the other's old value |
| ActionFacts.MoveRelocates | src/main/java/me/dpohvar/powernbt/command/action/ActionMoveLast.java:40-42 | the target reads the moved value, the source erase cannot fail, and a key-ended source reads null afterwards |
| ActionFacts.RenameMoves | src/main/java/me/dpohvar/powernbt/command/action/ActionRename.java:37-43 | the remove cannot fail; after a successful set the new path holds the value read before removal and, for disjoint front-counted paths ending in a key, the old path no longer resolves |
| ActionFacts.EraseFound | src/main/java/me/dpohvar/powernbt/command/action/ActionCut.java:32 | removing a present value cannot fail, and at a key the place reads null afterwards |

## Left out

- Bukkit and the filesystem are outside the model. This covers players, entities, blocks, chunks, worlds, files, schematics, `@` selectors and `hand:` lookups, and the held-slot inventory search. `getContainer` leaves every such word to the supplier `Env.supply`; `prepare` for `hand` adopts what the supplier gives.
- `caller.hold` and the later `select` callback are out of scope. Preparing `*` sends the request and records the held argument; the selection itself is `Argument.Select`.
- `prepare`'s call back into `action.execute()` is not modelled. `Prepare` returns `Resumed`, and `Execute` returns `Preparing(...)`; running the action again is left to the caller.
- The model has no floating-point arithmetic. Float and double payloads are the literal text. `NBTType.parse` for FLOAT and DOUBLE, and the fallback of integer kinds to a double parse, become `Env.floating` or the `ViaFloatingPoint` outcome. `getFloat`, `getDouble` and the double truncation in the integer getters are left out.
- `StringParser`, `PowerJSONParser`, `NBTQuery.fromString` and the type completer are function parameters of `Env`. Only the `json` parameter goes to the outside parser, for a quoted word and for a word shaped like an NBT literal. With `mojangson` or `mj`, the unescaped text of a quoted word is read by the model's own NBT literal parser (`ParseNbt`), which fails with the malformed-literal message.
- `NBTQuery` is not part of this model. `NbtQuery.dfy` is the interface the model assumes: strict `get`/`remove`, a creating `set`, negative indices counting from the end.
- Under the strict `get`, a non-empty query that resolves always holds a tag. Two consequences follow. `prepare`'s parent-list fallback cannot change the kind (`ArgumentFacts.ListFallbackUnreachable`). Rename's `fail_rename` branch cannot be reached from `Rename`, so it is modelled in `Reattach`, where the value is a parameter.
- `NBTTagString` is not part of this model: it is reflection over server classes and stream serialisation.
- The `NBTCompound` views (`values`, `entrySet`, iterators, `toMap`, `equals`, `toString`) are not modelled. They delegate to the handle map.
- Compounds are modelled as values. `bind`, `compound(key)` and `list(key)` return or store a handle that later edits share; the model stores and returns the tag, so that aliasing is not captured.
- Messages are kept as their translation keys. Translation arguments (the query named in `fail_move` and `fail_edit`, the name in `success_rename`) are carried as the `RaisedAt` query, or dropped. The display flags of `sendValue` are dropped.
- A Java regular-expression `.` excludes line terminators; the model follows this where `.` appears. `File.separator` is taken as `/`.
- Actions.Exchange: when both locations share one store, the model computes the second write in the root the first left, as the code does. That location 1 still holds value 2 afterwards is proved only for distinct stores (`ActionFacts.SwapExchanges`).
- Actions.Relocate: likewise, that the target still holds the value after the source is removed from the same store is not proved.
- ActionFacts.RenameMoves: that the old path no longer resolves is proved only for key-ended, front-counted paths that are not prefixes of each other.
- Containers.ValueAt: `NBTContainer` is not part of this model. The actions call three of its methods, with the semantics assumed here: `getCustomTag(query)` is the lenient read (`TagIn` of the container composed with the query), so a path that does not resolve reads as null; `setCustomTag(query, v)` is the strict write `SetAt`, where a null value removes a key; `removeTag(query)` is the erase `RemoveAt`. Consequences: edit with an `arg2` whose path does not resolve removes `arg1`'s key and reports `success_edit`; copy of a path that does not resolve empties the clipboard; swap of two places that both do not resolve reports `success_swap_null`.
- Arguments.Resolve: its own ensures states only that outside words are words. Its meaning is given by the `ArgumentFacts` lemmas, one per literal family.
- Arguments.Argument.PrepareBinary models the corrected conversion (see Findings). The as-written plan is `PlanBinaryAsWritten`. `NBTManagerUtils.convertValue(val, type.type)` is not part of this model. Both plans stand in for it with `type.parse(Long.toString(val))`, the conversion `getContainer` applies to a binary word at lines 364-367. A kind whose `convertValue` differs from its `parse` of the decimal text is not captured.
- Numbers.Lower: case folding is ASCII only. Java's `toLowerCase` and `equalsIgnoreCase` also fold non-ASCII letters, and `toLowerCase` depends on the default locale (for example the Turkish dotless i). `EqualsIgnoreCase` and `KindFromName` inherit this.
- Numbers.DigitValue: only the ASCII digits 0-9 and the ASCII letters are digits. `Long.parseLong` and `Integer.parseInt` also accept other Unicode decimal digits, such as Arabic-Indic digits.
- NbtType.FromString: the type name is folded to lower case by ASCII rules only. A name such as `ſtring`, which Java folds to `string`, is not recognised.
- NbtType.KindFromNameIsFirstPrefix: the prefix match is over the ASCII-folded name, so it inherits the ASCII-only folding of `Numbers.Lower`.
- NbtTypeFacts.IntegerFallback: the integer parse accepts only ASCII digits, so text of non-ASCII digits goes to the floating-point fallback here, where Java reads it as an integer.
- NbtPrimitive.ParsePrimitive: the keywords `true` and `false` are compared with ASCII-only case folding. Java's `equalsIgnoreCase` reads `falſe` as `false`; the model does not. The number patterns themselves are ASCII-only in Java too.

## Findings

| source | as written | input that shows it | evidently intended | confidence | as-written member | corrected member |
|---|---|---|---|---|---|---|
| src/main/java/me/dpohvar/powernbt/command/action/Argument.java:536 | the binary branch of `prepare` parses the whole future with `Long.parseLong(objectFuture, 2)`, leading `b` included, so it always throws a number-format error | `b101` with a context holding an int: fails instead of giving 5 | parse the bits after the `b`, as `getContainer` does at line 364 (both members convert the long with `type.parse(Long.toString(val))` in place of `NBTManagerUtils.convertValue`, which is not part of this model) | high, not executed | ArgumentFacts.BinaryAsWrittenFails | ArgumentFacts.BinaryPrepareAgrees |
