/**
 * The character-level scanners of the literal-text parser: the escaped-quote rule,
 * quote parity, the bracket balance check (`getType`), the search for a separator
 * outside quotes and the scan for the end of one element of a compound or list body.
 */
module NbtScan {
  import opened Tags

  /** Why a scan or parse stops; each carries the text the Java exception message embeds. */
  datatype Failure =
    | IllegalEscape(text: string)          // an escaped quote outside quotes
    | UnbalancedCurly(text: string)        // a `}` with no matching `{`
    | UnbalancedSquare(text: string)       // a `]` with no matching `[`
    | UnbalancedQuotation(text: string)    // a quote left open at the end
    | UnbalancedBrackets(text: string)     // brackets left open at the end
    | MissingSeparator(text: string)       // no name/value `:` where one is required
    | NameError(text: string)              // a `,` before the name/value `:`
    | UnexpectedToken(c: char, rest: string)
    | IndexOutOfRange(text: string)        // a substring outside the text
    | NumberFormat(text: string)           // an integer literal its kind cannot hold

  datatype Outcome<+T> = Done(value: T) | Failed(failure: Failure)

  // ---------------------------------------------------------------- characters

  /** `String.trim` removes characters up to and including the space. */
  predicate IsTrimmed(c: char)
  {
    c <= ' '
  }

  /** `Character.isWhitespace`: the space separators other than no-break spaces, and the ASCII controls tab to carriage return and 0x1C to 0x1F. */
  predicate IsWhitespace(c: char)
  {
    c == ' ' || '\t' <= c <= '\r' || '\U{1C}' <= c <= '\U{1F}' ||
    c == '\U{1680}' || '\U{2000}' <= c <= '\U{2006}' || '\U{2008}' <= c <= '\U{200A}' ||
    c == '\U{2028}' || c == '\U{2029}' || c == '\U{205F}' || c == '\U{3000}'
  }

  /** The text without its leading trimmed characters. */
  function TrimStart(s: string): (r: string)
    ensures |r| <= |s| && r == s[|s| - |r|..]
    ensures forall j :: 0 <= j < |s| - |r| ==> IsTrimmed(s[j])
    ensures r == [] || !IsTrimmed(r[0])
  {
    if s != [] && IsTrimmed(s[0]) then TrimStart(s[1..]) else s
  }

  /** The text without its trailing trimmed characters. */
  function TrimEnd(s: string): (r: string)
    ensures |r| <= |s| && r == s[..|r|]
    ensures forall j :: |r| <= j < |s| ==> IsTrimmed(s[j])
    ensures r == [] || !IsTrimmed(r[|r| - 1])
  {
    if s != [] && IsTrimmed(s[|s| - 1]) then TrimEnd(s[..|s| - 1]) else s
  }

  /** How many trimmed characters the text starts with. */
  function LeadingTrimmed(s: string): (n: nat)
    ensures n <= |s| && forall j :: 0 <= j < n ==> IsTrimmed(s[j])
    ensures n < |s| ==> !IsTrimmed(s[n])
  {
    |s| - |TrimStart(s)|
  }

  /**
   * `String.trim`: the slice of the text left once the trimmed characters at
   * either end are dropped.
   */
  function Trim(s: string): (r: string)
    ensures |r| <= |s|
    ensures r == [] || (!IsTrimmed(r[0]) && !IsTrimmed(r[|r| - 1]))
    ensures LeadingTrimmed(s) + |r| <= |s| && r == s[LeadingTrimmed(s)..LeadingTrimmed(s) + |r|]
    ensures forall j :: LeadingTrimmed(s) + |r| <= j < |s| ==> IsTrimmed(s[j])
  {
    TrimEnd(TrimStart(s))
  }

  /** Text without trimmed characters at either end is its own trim. */
  lemma {:induction false} TrimIdempotent(s: string)
    ensures Trim(Trim(s)) == Trim(s)
  {
    var r := Trim(s);
    if r != [] {
      assert TrimStart(r) == r;
      assert TrimEnd(r) == r;
    }
  }

  predicate StartsWith(s: string, c: char)
  {
    |s| >= 1 && s[0] == c
  }

  predicate EndsWith(s: string, c: char)
  {
    |s| >= 1 && s[|s| - 1] == c
  }

  // ---------------------------------------------------------------- escapes and quotes

  /** Whether the character at `p` is escaped: preceded by a backslash that is not itself escaped. */
  function IsEscaped(s: string, p: nat): bool
    requires p <= |s|
  {
    p > 0 && s[p - 1] == '\\' && !IsEscaped(s, p - 1)
  }

  /** The length of the run of backslashes just before `p`. */
  function BackslashRun(s: string, p: nat): (n: nat)
    requires p <= |s|
    ensures n <= p
    ensures forall j :: p - n <= j < p ==> s[j] == '\\'
    ensures n == p || s[p - n - 1] != '\\'
  {
    if p > 0 && s[p - 1] == '\\' then 1 + BackslashRun(s, p - 1) else 0
  }

  /** A character is escaped exactly when an odd number of backslashes precede it. */
  lemma {:induction false} EscapedIffOddRun(s: string, p: nat)
    requires p <= |s|
    ensures IsEscaped(s, p) <==> BackslashRun(s, p) % 2 == 1
  {
    if p > 0 && s[p - 1] == '\\' {
      EscapedIffOddRun(s, p - 1);
    }
  }

  /** Escaping looks only backwards: two texts that agree before `p` agree on it. */
  lemma {:induction false} EscapedLooksBack(s: string, t: string, p: nat)
    requires p <= |s| && p <= |t| && s[..p] == t[..p]
    ensures IsEscaped(s, p) == IsEscaped(t, p)
  {
    if p > 0 {
      assert s[p - 1] == s[..p][p - 1] && t[p - 1] == t[..p][p - 1];
      assert s[..p - 1] == s[..p][..p - 1] && t[..p - 1] == t[..p][..p - 1];
      EscapedLooksBack(s, t, p - 1);
    }
  }

  /** Whether a quoted section is open after reading `p`: the parity of its unescaped quotes. */
  function QuoteOpen(p: string): bool
  {
    if p == [] then false
    else
      var q := p[..|p| - 1];
      if p[|p| - 1] == '"' && !IsEscaped(p, |p| - 1) then !QuoteOpen(q) else QuoteOpen(q)
  }

  /** Reading one more character toggles the quote state exactly at an unescaped quote. */
  lemma {:induction false} QuoteStep(s: string, i: nat)
    requires i < |s|
    ensures QuoteOpen(s[..i + 1]) == (if s[i] == '"' && !IsEscaped(s, i) then !QuoteOpen(s[..i]) else QuoteOpen(s[..i]))
  {
    var p := s[..i + 1];
    assert p[..i] == s[..i];
    assert p[..i] == s[..i] && p[i] == s[i];
    EscapedLooksBack(p, s, i);
  }

  // ---------------------------------------------------------------- bracket balance

  predicate IsOpener(c: char)
  {
    c == '{' || c == '['
  }

  predicate IsCloser(c: char)
  {
    c == '}' || c == ']'
  }

  function OpenerOf(c: char): char
  {
    if c == '}' then '{' else '['
  }

  /** The brackets of `p` that stand outside quotes, in order. */
  function Brackets(p: string): (b: seq<char>)
    ensures forall j :: 0 <= j < |b| ==> IsOpener(b[j]) || IsCloser(b[j])
  {
    if p == [] then []
    else
      var q := p[..|p| - 1];
      var c := p[|p| - 1];
      Brackets(q) + (if (IsOpener(c) || IsCloser(c)) && !QuoteOpen(q) then [c] else [])
  }

  /** One bracket read against the open ones: push an opener, pop a matching closer, fail on any other closer. */
  function BracketStep(st: seq<char>, c: char): Option<seq<char>>
  {
    if IsOpener(c) then Some(st + [c])
    else if IsCloser(c) && st != [] && st[|st| - 1] == OpenerOf(c) then Some(st[..|st| - 1])
    else if IsCloser(c) then None
    else Some(st)
  }

  /** The open brackets after reading `b` (innermost last), or None once a closer does not match. */
  function StackAfter(b: seq<char>): (r: Option<seq<char>>)
    ensures r.Some? ==> |r.value| == Count(b, true) - Count(b, false)
  {
    if b == [] then Some([])
    else
      match StackAfter(b[..|b| - 1])
      case None => None
      case Some(st) => BracketStep(st, b[|b| - 1])
  }

  /** The number of openers (`openers` true) or closers in `b`. */
  function Count(b: seq<char>, openers: bool): nat
  {
    if b == [] then 0
    else Count(b[..|b| - 1], openers) + (if (if openers then IsOpener(b[|b| - 1]) else IsCloser(b[|b| - 1])) then 1 else 0)
  }

  /** The number of groups in `b`: openers read while no bracket was open. */
  function TopGroups(b: seq<char>): nat
  {
    if b == [] then 0
    else
      var c := b[|b| - 1];
      TopGroups(b[..|b| - 1]) + (if IsOpener(c) && StackAfter(b[..|b| - 1]) == Some([]) then 1 else 0)
  }

  /** No quote that stands outside quotes is escaped. */
  predicate NoIllegalEscape(p: string)
  {
    p == [] ||
      var q := p[..|p| - 1];
      NoIllegalEscape(q) && (p[|p| - 1] == '"' && IsEscaped(p, |p| - 1) ==> QuoteOpen(q))
  }

  /** Text whose quotes and brackets the bracket check accepts. */
  predicate Balanced(s: string)
  {
    NoIllegalEscape(s) && !QuoteOpen(s) && StackAfter(Brackets(s)) == Some([])
  }

  /** Once a closer is unmatched, no continuation repairs it. */
  lemma {:induction false} StackFailureSticks(b: seq<char>, e: seq<char>)
    requires StackAfter(b).None?
    ensures StackAfter(b + e).None?
    decreases |e|
  {
    if e != [] {
      var be := b + e;
      assert be[..|be| - 1] == b + e[..|e| - 1];
      StackFailureSticks(b, e[..|e| - 1]);
      assert StackAfter(be[..|be| - 1]).None?;
    } else {
      assert b + e == b;
    }
  }

  /** The brackets of a prefix are a prefix of the brackets. */
  lemma {:induction false} BracketsOfPrefix(s: string, i: nat)
    requires i <= |s|
    ensures exists e :: Brackets(s) == Brackets(s[..i]) + e
    decreases |s| - i
  {
    if i == |s| {
      assert s[..i] == s;
      assert Brackets(s) == Brackets(s[..i]) + [];
    } else {
      BracketsOfPrefix(s, i + 1);
      var e :| Brackets(s) == Brackets(s[..i + 1]) + e;
      var p := s[..i + 1];
      assert p[..|p| - 1] == s[..i];
      var extra := if (IsOpener(s[i]) || IsCloser(s[i])) && !QuoteOpen(s[..i]) then [s[i]] else [];
      assert Brackets(s[..i + 1]) == Brackets(s[..i]) + extra;
      assert Brackets(s) == Brackets(s[..i]) + (extra + e);
    }
  }

  /** The escape rule on one more character. */
  lemma {:induction false} NoIllegalEscapeStep(s: string, i: nat)
    requires i < |s|
    ensures NoIllegalEscape(s[..i + 1]) <==>
      NoIllegalEscape(s[..i]) && (s[i] == '"' && IsEscaped(s, i) ==> QuoteOpen(s[..i]))
  {
    var p := s[..i + 1];
    assert p[..|p| - 1] == s[..i];
    EscapedLooksBack(p, s, i);
  }

  /** Why the character scan of `getType` stopped early. */
  datatype Stop = EscapeStop | CurlyStop | SquareStop

  /** The state of the character scan of `getType`: running, or stopped on an error. */
  datatype ScanState = Scanning(inQuote: bool, open: seq<char>, groups: nat) | Stopped(stop: Stop)

  /** One character of the scan; `escaped` says whether a backslash escapes it. */
  function Advance(inQuote: bool, open: seq<char>, groups: nat, c: char, escaped: bool): ScanState
  {
    if c == '"' then
      if escaped then (if inQuote then Scanning(inQuote, open, groups) else Stopped(EscapeStop))
      else Scanning(!inQuote, open, groups)
    else if inQuote then Scanning(inQuote, open, groups)
    else if c == '}' && (open == [] || open[|open| - 1] != '{') then Stopped(CurlyStop)
    else if c == ']' && (open == [] || open[|open| - 1] != '[') then Stopped(SquareStop)
    else if IsCloser(c) then Scanning(inQuote, open[..|open| - 1], groups)
    else if IsOpener(c) then Scanning(inQuote, open + [c], if open == [] then groups + 1 else groups)
    else Scanning(inQuote, open, groups)
  }

  /** The scan state after reading all of `p` from the left. */
  function ScanOf(p: string): ScanState
  {
    if p == [] then Scanning(false, [], 0)
    else
      match ScanOf(p[..|p| - 1])
      case Stopped(k) => Stopped(k)
      case Scanning(q, st, g) => Advance(q, st, g, p[|p| - 1], IsEscaped(p, |p| - 1))
  }

  /** The verdict of `getType` on `s`: the error it throws, or the number of top-level groups. */
  function BracketCheck(s: string): Outcome<nat>
  {
    match ScanOf(s)
    case Stopped(EscapeStop) => Failed(IllegalEscape(s))
    case Stopped(CurlyStop) => Failed(UnbalancedCurly(s))
    case Stopped(SquareStop) => Failed(UnbalancedSquare(s))
    case Scanning(q, st, g) =>
      if q then Failed(UnbalancedQuotation(s))
      else if st != [] then Failed(UnbalancedBrackets(s))
      else Done(if g == 0 && s != [] then 1 else g)
  }

  /** `getType`: the bracket check, one character at a time, as `BracketCheck` states it. */
  method GetType(s: string) returns (r: Outcome<nat>)
    ensures r == BracketCheck(s)
  {
    var groups := 0;
    var inQuote := false;
    var chars: seq<char> := [];
    var i := 0;
    while i < |s|
      invariant 0 <= i <= |s|
      invariant ScanOf(s[..i]) == Scanning(inQuote, chars, groups)
    {
      var c := s[i];
      ScanOfStep(s, i);
      if c == '"' {
        if IsEscaped(s, i) {
          if !inQuote {
            StoppedSticks(s, i + 1);
            return Failed(IllegalEscape(s));
          }
        } else {
          inQuote := !inQuote;
        }
      } else if !inQuote {
        if !IsOpener(c) {
          if c == '}' && (chars == [] || chars[|chars| - 1] != '{') {
            StoppedSticks(s, i + 1);
            return Failed(UnbalancedCurly(s));
          }
          if c == ']' && (chars == [] || chars[|chars| - 1] != '[') {
            StoppedSticks(s, i + 1);
            return Failed(UnbalancedSquare(s));
          }
          if IsCloser(c) {
            chars := chars[..|chars| - 1];
          }
        } else {
          if chars == [] {
            groups := groups + 1;
          }
          chars := chars + [c];
        }
      }
      i := i + 1;
    }
    assert s[..i] == s;
    if inQuote {
      return Failed(UnbalancedQuotation(s));
    } else if chars != [] {
      return Failed(UnbalancedBrackets(s));
    }
    return Done(if groups == 0 && s != [] then 1 else groups);
  }

  lemma {:induction false} ScanOfStep(s: string, i: nat)
    requires i < |s|
    ensures ScanOf(s[..i + 1]) ==
      match ScanOf(s[..i])
      case Stopped(k) => Stopped(k)
      case Scanning(q, st, g) => Advance(q, st, g, s[i], IsEscaped(s, i))
  {
    var p := s[..i + 1];
    assert p[..|p| - 1] == s[..i];
    EscapedLooksBack(p, s, i);
  }

  /** A stopped scan stays stopped: the verdict is fixed by the first error. */
  lemma {:induction false} StoppedSticks(s: string, i: nat)
    requires i <= |s| && ScanOf(s[..i]).Stopped?
    ensures ScanOf(s) == ScanOf(s[..i])
    decreases |s| - i
  {
    if i == |s| {
      assert s[..i] == s;
    } else {
      ScanOfStep(s, i);
      StoppedSticks(s, i + 1);
    }
  }

  /**
   * What a running scan means: it tracks the quote state, the open brackets and the
   * groups of the prefix read so far, and no rule is broken yet.
   */
  lemma {:induction false} ScanRunning(p: string)
    requires ScanOf(p).Scanning?
    ensures NoIllegalEscape(p) && ScanOf(p).inQuote == QuoteOpen(p)
    ensures StackAfter(Brackets(p)) == Some(ScanOf(p).open) && ScanOf(p).groups == TopGroups(Brackets(p))
  {
    if p != [] {
      var i := |p| - 1;
      var q := p[..i];
      assert p[..i + 1] == p;
      ScanOfStep(p, i);
      ScanRunning(q);
      BracketsStep(p, i);
      QuoteStep(p, i);
      NoIllegalEscapeStep(p, i);
      var sq := ScanOf(q);
      assert ScanOf(p) == Advance(sq.inQuote, sq.open, sq.groups, p[i], IsEscaped(p, i));
      AdvanceRunning(sq.inQuote, sq.open, sq.groups, p[i], IsEscaped(p, i));
      if (IsOpener(p[i]) || IsCloser(p[i])) && !QuoteOpen(q) {
        StackPush(Brackets(q), p[i], sq.open);
        assert Brackets(p) == Brackets(q) + [p[i]];
      } else {
        assert Brackets(p) == Brackets(q);
      }
    }
  }

  /** A step that keeps the scan running moves the stack as `BracketStep` does, on unquoted brackets only. */
  lemma {:induction false} AdvanceRunning(inQuote: bool, open: seq<char>, groups: nat, c: char, escaped: bool)
    requires Advance(inQuote, open, groups, c, escaped).Scanning?
    ensures var a := Advance(inQuote, open, groups, c, escaped);
      a.inQuote == (if c == '"' && !escaped then !inQuote else inQuote)
      && !(c == '"' && escaped && !inQuote)
      && (if !inQuote && (IsOpener(c) || IsCloser(c))
          then BracketStep(open, c) == Some(a.open) && a.groups == groups + (if IsOpener(c) && open == [] then 1 else 0)
          else a.open == open && a.groups == groups)
  {
  }

  /** Each stop names a broken rule: an escaped quote outside quotes, or an unmatched closer. */
  lemma {:induction false} ScanStopped(p: string)
    requires ScanOf(p).Stopped?
    ensures ScanOf(p).stop == EscapeStop ==> !NoIllegalEscape(p)
    ensures ScanOf(p).stop != EscapeStop ==> StackAfter(Brackets(p)).None?
  {
    var i := |p| - 1;
    var q := p[..i];
    if ScanOf(q).Stopped? {
      ScanStopped(q);
      StoppedEarlier(p);
    } else {
      ScanRunning(q);
      StoppedHere(p);
    }
  }

  /** A scan that had already stopped keeps its reason, and what that reason says stays true. */
  lemma {:induction false} StoppedEarlier(p: string)
    requires |p| >= 1 && ScanOf(p[..|p| - 1]).Stopped?
    requires var q := p[..|p| - 1];
      (ScanOf(q).stop == EscapeStop ==> !NoIllegalEscape(q)) &&
      (ScanOf(q).stop != EscapeStop ==> StackAfter(Brackets(q)).None?)
    ensures ScanOf(p).stop == EscapeStop ==> !NoIllegalEscape(p)
    ensures ScanOf(p).stop != EscapeStop ==> StackAfter(Brackets(p)).None?
  {
    var i := |p| - 1;
    var q := p[..i];
    assert p[..i + 1] == p;
    ScanOfStep(p, i);
    if ScanOf(q).stop == EscapeStop {
      NoIllegalEscapeStep(p, i);
    } else {
      BracketsStep(p, i);
      var e := if (IsOpener(p[i]) || IsCloser(p[i])) && !QuoteOpen(q) then [p[i]] else [];
      StackFailureSticks(Brackets(q), e);
    }
  }

  /** A scan that stops at the last character stops for an escaped quote or an unmatched closer. */
  lemma {:induction false} StoppedHere(p: string)
    requires |p| >= 1 && ScanOf(p).Stopped?
    requires var q := p[..|p| - 1];
      ScanOf(q).Scanning? && NoIllegalEscape(q) && ScanOf(q).inQuote == QuoteOpen(q) &&
      StackAfter(Brackets(q)) == Some(ScanOf(q).open)
    ensures ScanOf(p).stop == EscapeStop ==> !NoIllegalEscape(p)
    ensures ScanOf(p).stop != EscapeStop ==> StackAfter(Brackets(p)).None?
  {
    var i := |p| - 1;
    var q := p[..i];
    assert p[..i + 1] == p;
    ScanOfStep(p, i);
    if ScanOf(p).stop == EscapeStop {
      NoIllegalEscapeStep(p, i);
    } else {
      BracketsStep(p, i);
      StackPush(Brackets(q), p[i], ScanOf(q).open);
    }
  }

  /** The brackets of one more character: the character itself when it is an unquoted bracket. */
  lemma {:induction false} BracketsStep(s: string, i: nat)
    requires i < |s|
    ensures Brackets(s[..i + 1]) ==
      Brackets(s[..i]) + (if (IsOpener(s[i]) || IsCloser(s[i])) && !QuoteOpen(s[..i]) then [s[i]] else [])
  {
    var p := s[..i + 1];
    assert p[..|p| - 1] == s[..i];
  }

  /** One bracket more on a well-formed prefix: the stack step and the group count. */
  lemma {:induction false} StackPush(b: seq<char>, c: char, st: seq<char>)
    requires StackAfter(b) == Some(st)
    ensures StackAfter(b + [c]) == BracketStep(st, c)
    ensures TopGroups(b + [c]) == TopGroups(b) + (if IsOpener(c) && st == [] then 1 else 0)
  {
    assert (b + [c])[..|b|] == b;
  }

  /** The check accepts exactly the balanced texts; each error names the rule it saw broken. */
  lemma {:induction false} BracketCheckMeaning(s: string)
    ensures BracketCheck(s).Done? <==> Balanced(s)
    ensures BracketCheck(s).Done? ==>
      BracketCheck(s).value == (if TopGroups(Brackets(s)) == 0 && s != [] then 1 else TopGroups(Brackets(s)))
    ensures BracketCheck(s) == Failed(IllegalEscape(s)) ==> !NoIllegalEscape(s)
    ensures BracketCheck(s) == Failed(UnbalancedCurly(s)) || BracketCheck(s) == Failed(UnbalancedSquare(s)) ==>
      StackAfter(Brackets(s)).None?
    ensures BracketCheck(s) == Failed(UnbalancedQuotation(s)) ==>
      QuoteOpen(s) && NoIllegalEscape(s) && StackAfter(Brackets(s)).Some?
    ensures BracketCheck(s) == Failed(UnbalancedBrackets(s)) ==>
      !QuoteOpen(s) && NoIllegalEscape(s) && StackAfter(Brackets(s)).Some? && StackAfter(Brackets(s)) != Some([])
  {
    if ScanOf(s).Stopped? {
      ScanStopped(s);
    } else {
      ScanRunning(s);
    }
  }

  lemma {:induction false} BracketFailure(s: string, i: nat)
    requires i < |s| && StackAfter(Brackets(s[..i + 1])).None?
    ensures StackAfter(Brackets(s)).None?
  {
    BracketsOfPrefix(s, i + 1);
    var e :| Brackets(s) == Brackets(s[..i + 1]) + e;
    StackFailureSticks(Brackets(s[..i + 1]), e);
  }

  /** Text without quotes or brackets is one group when non-empty, none when empty. */
  lemma {:induction false} PlainTextIsOneGroup(s: string)
    requires forall j :: 0 <= j < |s| ==> s[j] != '"' && !IsOpener(s[j]) && !IsCloser(s[j])
    ensures Balanced(s)
    ensures Brackets(s) == [] && TopGroups(Brackets(s)) == 0
  {
    PlainNoBrackets(s);
  }

  lemma {:induction false} PlainNoBrackets(s: string)
    requires forall j :: 0 <= j < |s| ==> s[j] != '"' && !IsOpener(s[j]) && !IsCloser(s[j])
    ensures Brackets(s) == [] && !QuoteOpen(s) && NoIllegalEscape(s)
  {
    if s != [] {
      PlainNoBrackets(s[..|s| - 1]);
    }
  }

  /** A closer with nothing open is rejected. */
  lemma {:induction false} LeadingCloserRejected(c: char, rest: string)
    requires IsCloser(c)
    ensures !Balanced([c] + rest)
  {
    var s := [c] + rest;
    var p := s[..1];
    assert p[..0] == [];
    assert Brackets(p) == [c];
    BracketFailure(s, 0);
  }

  // ---------------------------------------------------------------- separator search

  /** Position `j` holds a character that stands outside quotes (and is not itself a quote). */
  predicate Unquoted(s: string, j: nat)
    requires j < |s|
  {
    s[j] != '"' && !QuoteOpen(s[..j])
  }

  /** The first index from `i` of `ch` outside quotes, or -1 when an unquoted opener or the end comes first. */
  function SeparatorFrom(s: string, ch: char, i: nat): (r: int)
    requires i <= |s|
    ensures r == -1 || (i <= r < |s| && s[r] == ch && Unquoted(s, r))
    decreases |s| - i
  {
    if i == |s| then -1
    else if Unquoted(s, i) && s[i] == ch then i
    else if Unquoted(s, i) && IsOpener(s[i]) then -1
    else SeparatorFrom(s, ch, i + 1)
  }

  /**
   * The search finds the first unquoted `ch` from `i`, passing no unquoted opener on
   * the way; it finds nothing only when every unquoted `ch` comes after an unquoted opener.
   */
  lemma {:induction false} SeparatorFromMeaning(s: string, ch: char, i: nat)
    requires i <= |s|
    ensures var r := SeparatorFrom(s, ch, i);
      r != -1 ==> forall j :: i <= j < r && Unquoted(s, j) ==> s[j] != ch && !IsOpener(s[j])
    ensures SeparatorFrom(s, ch, i) == -1 ==> forall j :: i <= j < |s| && Unquoted(s, j) && s[j] == ch ==>
      exists k :: i <= k < j && Unquoted(s, k) && IsOpener(s[k])
    decreases |s| - i
  {
    if i < |s| && !(Unquoted(s, i) && s[i] == ch) && !(Unquoted(s, i) && IsOpener(s[i])) {
      SeparatorFromMeaning(s, ch, i + 1);
    }
  }

  /** `a(String,char)`: the index of the first `ch` outside quotes, as `SeparatorFrom` from the start. */
  method FindSeparator(s: string, ch: char) returns (r: int)
    ensures r == SeparatorFrom(s, ch, 0)
  {
    var outside := true;
    var i := 0;
    while i < |s|
      invariant 0 <= i <= |s|
      invariant outside == !QuoteOpen(s[..i])
      invariant SeparatorFrom(s, ch, i) == SeparatorFrom(s, ch, 0)
    {
      var c := s[i];
      QuoteStep(s, i);
      if c == '"' {
        if !IsEscaped(s, i) {
          outside := !outside;
        }
      } else if outside {
        if c == ch {
          return i;
        }
        if IsOpener(c) {
          return -1;
        }
      }
      i := i + 1;
    }
    return -1;
  }

  // ---------------------------------------------------------------- element end

  /**
   * The state of the element-end scan: open brackets, whether a quote is open,
   * whether the element's first non-blank character opened a quote, whether a
   * non-blank character was seen, and where the last quote closed.
   */
  datatype ElemState = ElemState(stack: seq<char>, inQuote: bool, quoteFirst: bool, seenText: bool, lastClose: nat)

  /** The end of the element starting after `cur`: a top-level comma, the character after a leading quoted section, or the end. */
  function ElementScan(v: string, cur: nat, st: ElemState): (r: Outcome<nat>)
    requires cur <= |v| && st.lastClose <= cur
    ensures r.Done? ==> r.value <= |v|
    ensures r.Failed? ==> r.failure in {IllegalEscape(v), UnbalancedCurly(v), UnbalancedSquare(v)}
    decreases |v| - cur
  {
    if cur == |v| then Done(|v|)
    else
      var c := v[cur];
      if c == '"' then
        if IsEscaped(v, cur) then
          if !st.inQuote then Failed(IllegalEscape(v)) else AfterChar(v, cur, st)
        else
          var q := !st.inQuote;
          AfterChar(v, cur, st.(inQuote := q,
                                quoteFirst := if q && !st.seenText then true else st.quoteFirst,
                                lastClose := if !q then cur else st.lastClose))
      else if !st.inQuote then
        if IsOpener(c) then AfterChar(v, cur, st.(stack := st.stack + [c]))
        else if c == '}' && (st.stack == [] || st.stack[|st.stack| - 1] != '{') then Failed(UnbalancedCurly(v))
        else if c == ']' && (st.stack == [] || st.stack[|st.stack| - 1] != '[') then Failed(UnbalancedSquare(v))
        else
          var st' := if IsCloser(c) then st.(stack := st.stack[..|st.stack| - 1]) else st;
          if c == ',' && st'.stack == [] then Done(cur)
          else AfterChar(v, cur, st')
      else AfterChar(v, cur, st)
  }

  /** After the character at `cur`: stop after a closed leading quoted section, else go on. */
  function AfterChar(v: string, cur: nat, st: ElemState): (r: Outcome<nat>)
    requires cur < |v| && st.lastClose <= cur
    ensures r.Done? ==> r.value <= |v|
    ensures r.Failed? ==> r.failure in {IllegalEscape(v), UnbalancedCurly(v), UnbalancedSquare(v)}
    decreases |v| - cur, 0
  {
    if !IsWhitespace(v[cur]) then
      if !st.inQuote && st.quoteFirst && st.lastClose != cur then Done(st.lastClose + 1)
      else ElementScan(v, cur + 1, st.(seenText := true))
    else ElementScan(v, cur + 1, st)
  }

  const StartState := ElemState([], false, false, false, 0)

  /** `a(String,int)`: where the element that starts after position `pos` ends (`pos` is -1 or a separator). */
  function ElementEnd(v: string, pos: int): (r: Outcome<nat>)
    requires -1 <= pos < |v|
    ensures r.Done? ==> r.value <= |v|
  {
    ElementScan(v, pos + 1, StartState)
  }

  /** The element-end scan written as the Java loop, with an explicit bracket stack. */
  method FindElementEnd(v: string, pos: int) returns (r: Outcome<nat>)
    requires -1 <= pos < |v|
    ensures r == ElementEnd(v, pos)
  {
    var chars: seq<char> := [];
    var cur: nat := pos + 1;
    var inQuote, quoteFirst, seenText := false, false, false;
    var lastClose: nat := 0;
    while cur < |v|
      invariant cur <= |v| && lastClose <= cur
      invariant ElementScan(v, cur, ElemState(chars, inQuote, quoteFirst, seenText, lastClose)) == ElementEnd(v, pos)
      decreases |v| - cur
    {
      var c := v[cur];
      if c == '"' {
        if IsEscaped(v, cur) {
          if !inQuote {
            return Failed(IllegalEscape(v));
          }
        } else {
          inQuote := !inQuote;
          if inQuote && !seenText {
            quoteFirst := true;
          }
          if !inQuote {
            lastClose := cur;
          }
        }
      } else if !inQuote {
        if !IsOpener(c) {
          if c == '}' && (chars == [] || chars[|chars| - 1] != '{') {
            return Failed(UnbalancedCurly(v));
          }
          if c == ']' && (chars == [] || chars[|chars| - 1] != '[') {
            return Failed(UnbalancedSquare(v));
          }
          if IsCloser(c) {
            chars := chars[..|chars| - 1];
          }
          if c == ',' && chars == [] {
            return Done(cur);
          }
        } else {
          chars := chars + [c];
        }
      }
      if !IsWhitespace(c) {
        if !inQuote && quoteFirst && lastClose != cur {
          return Done(lastClose + 1);
        }
        seenText := true;
      }
      cur := cur + 1;
    }
    return Done(cur);
  }

  /** An element with no quotes or brackets ends at its first comma, or at the end of the text. */
  lemma {:induction false} PlainElementEndsAtComma(v: string, cur: nat, st: ElemState)
    requires cur <= |v| && st.lastClose <= cur && st.stack == [] && !st.inQuote && !st.quoteFirst
    requires forall j :: cur <= j < |v| ==> v[j] != '"' && !IsOpener(v[j]) && !IsCloser(v[j])
    ensures ElementScan(v, cur, st) == Done(CommaFrom(v, cur))
    decreases |v| - cur
  {
    if cur < |v| && v[cur] != ',' {
      var st' := if IsWhitespace(v[cur]) then st else st.(seenText := true);
      PlainElementEndsAtComma(v, cur + 1, st');
    }
  }

  /** The first comma from `i`, or the end of the text. */
  function CommaFrom(v: string, i: nat): (r: nat)
    requires i <= |v|
    ensures i <= r <= |v| && (r == |v| || v[r] == ',')
    ensures forall j :: i <= j < r ==> v[j] != ','
    decreases |v| - i
  {
    if i == |v| || v[i] == ',' then i else CommaFrom(v, i + 1)
  }
}
