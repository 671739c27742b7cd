/**
 * Java's integer text parsing and narrowing casts, on unbounded integers.
 *
 * `ParseSigned` is what `Byte.parseByte`, `Short.parseShort`, `Integer.parseInt` and
 * `Long.parseLong` do with ASCII text; `Wrap` is a narrowing cast `(byte)`, `(short)`,
 * `(int)` of an integer value (two's-complement truncation).
 */
module Numbers {
  import opened Tags

  function Pow2(n: nat): (r: nat)
    ensures r >= 1
  {
    if n == 0 then 1 else 2 * Pow2(n - 1)
  }

  /** The signed range of a `bits`-wide Java integer. */
  predicate InRange(n: int, bits: nat)
    requires bits >= 1
  {
    -(Pow2(bits - 1) as int) <= n < Pow2(bits - 1)
  }

  /** Two's-complement truncation to `bits` bits: the value of the low `bits` bits read as signed. */
  function Wrap(n: int, bits: nat): (r: int)
    requires bits >= 1
    ensures InRange(r, bits)
    ensures InRange(n, bits) ==> r == n
  {
    var p, h := Pow2(bits), Pow2(bits - 1);
    assert p == 2 * h;
    WrapCases(n, p, h);
    if n % p >= h then n % p - p else n % p
  }

  /** Truncation keeps the low `bits` bits: the result agrees with `n` modulo 2^bits. */
  lemma {:induction false} WrapKeepsLowBits(n: int, bits: nat)
    requires bits >= 1
    ensures Wrap(n, bits) % Pow2(bits) == n % Pow2(bits)
  {
    var p, h := Pow2(bits), Pow2(bits - 1);
    assert p == 2 * h;
    WrapCases(n, p, h);
    assert Wrap(n, bits) == if n % p >= h then n % p - p else n % p;
  }

  lemma {:induction false} WrapCases(n: int, p: int, h: int)
    requires h >= 1 && p == 2 * h
    ensures var r := if n % p >= h then n % p - p else n % p;
      -h <= r < h && r % p == n % p && (-h <= n < h ==> r == n)
  {
    var m := n % p;
    assert 0 <= m < p;
    ModUnique(m, p, 0, m);
    if m >= h {
      ModShift(m, p);
    }
    if 0 <= n < h {
      ModUnique(n, p, 0, n);
    } else if -h <= n < 0 {
      ModOfNegative(n, p);
    }
  }

  /** Euclidean division is unique: any quotient/remainder split of `a` is the one `/` and `%` give. */
  lemma {:induction false} ModUnique(a: int, p: int, q: int, r: int)
    requires p > 0 && 0 <= r < p && a == p * q + r
    ensures a % p == r
  {
    var d := a / p - q;
    assert p * d == r - a % p;
    if d >= 1 {
      MulAtLeast(p, d);
    } else if d <= -1 {
      MulAtLeast(p, -d);
    }
  }

  lemma {:induction false} MulAtLeast(p: int, k: int)
    requires p > 0 && k >= 1
    ensures p * k >= p
  {
    if k > 1 {
      MulAtLeast(p, k - 1);
    }
  }

  lemma {:induction false} ModShift(m: int, p: int)
    requires p > 0
    ensures (m - p) % p == m % p
  {
    ModUnique(m - p, p, m / p - 1, m % p);
  }

  lemma {:induction false} ModOfNegative(n: int, p: int)
    requires p > 0 && -p <= n < 0
    ensures n % p == n + p
  {
    ModUnique(n, p, -1, n + p);
  }

  lemma {:induction false} Pow2Values()
    ensures Pow2(7) == 0x80 && Pow2(8) == 0x100
    ensures Pow2(15) == 0x8000 && Pow2(16) == 0x1_0000
    ensures Pow2(31) == 0x8000_0000 && Pow2(32) == 0x1_0000_0000
    ensures Pow2(63) == 0x8000_0000_0000_0000
  {
    assert Pow2(1) == 2 && Pow2(2) == 4 && Pow2(3) == 8 && Pow2(4) == 16;
    assert Pow2(5) == 32 && Pow2(6) == 64 && Pow2(7) == 0x80 && Pow2(8) == 0x100;
    Pow2Add(7, 8);
    Pow2Add(8, 8);
    Pow2Add(15, 16);
    Pow2Add(16, 16);
    Pow2Add(31, 32);
  }

  lemma {:induction false} Pow2Add(a: nat, b: nat)
    ensures Pow2(a + b) == Pow2(a) * Pow2(b)
  {
    if b > 0 {
      Pow2Add(a, b - 1);
    }
  }

  lemma {:induction false} Pow2Monotone(a: nat, b: nat)
    requires a <= b
    ensures Pow2(a) <= Pow2(b)
  {
    if a < b {
      Pow2Monotone(a, b - 1);
    }
  }

  /** A value that fits a width fits every wider one. */
  lemma {:induction false} InRangeWiden(n: int, a: nat, b: nat)
    requires 1 <= a <= b && InRange(n, a)
    ensures InRange(n, b)
  {
    Pow2Monotone(a - 1, b - 1);
  }

  function WrapByte(n: int): (r: i8)
  {
    Pow2Values();
    Wrap(n, 8)
  }

  function WrapShort(n: int): (r: i16)
  {
    Pow2Values();
    Wrap(n, 16)
  }

  function WrapInt(n: int): (r: i32)
  {
    Pow2Values();
    Wrap(n, 32)
  }

  /** The value of one digit character in `radix` (2..36), as `Character.digit` does for ASCII. */
  function DigitValue(c: char, radix: nat): (r: Option<nat>)
    ensures r.Some? ==> r.value < radix
  {
    var d :=
      if '0' <= c <= '9' then (c as int - '0' as int)
      else if 'a' <= c <= 'z' then (c as int - 'a' as int + 10)
      else if 'A' <= c <= 'Z' then (c as int - 'A' as int + 10)
      else radix;
    if d < radix then Some(d) else None
  }

  predicate AllDigits(s: string, radix: nat)
  {
    forall i :: 0 <= i < |s| ==> DigitValue(s[i], radix).Some?
  }

  /** The natural number a run of digits denotes, or None when a character is not a digit. */
  function DigitsOf(s: string, radix: nat): (r: Option<nat>)
  {
    if s == [] then Some(0)
    else
      match DigitsOf(s[..|s| - 1], radix)
      case None => None
      case Some(v) =>
        match DigitValue(s[|s| - 1], radix)
        case None => None
        case Some(d) => Some(v * radix + d)
  }

  /** A run of digits has a value exactly when all its characters are digits. */
  lemma {:induction false} DigitsOfDefined(s: string, radix: nat)
    ensures DigitsOf(s, radix).Some? <==> AllDigits(s, radix)
  {
    if s != [] {
      var q := s[..|s| - 1];
      DigitsOfDefined(q, radix);
      assert forall i :: 0 <= i < |q| ==> q[i] == s[i];
    }
  }

  /**
   * Java's `parseLong(s, radix)` narrowed to `bits`: an optional sign, at least one
   * digit, and a value inside the signed range; anything else is a NumberFormatException.
   */
  function ParseSigned(s: string, radix: nat, bits: nat): (r: Option<int>)
    requires bits >= 1
    ensures r.Some? ==> InRange(r.value, bits)
    ensures r.Some? ==> |s| >= 1 && (s[0] == '-' || s[0] == '+' || DigitValue(s[0], radix).Some?)
  {
    if |s| == 0 then None
    else
      var signed := s[0] == '-' || s[0] == '+';
      var digits := if signed then s[1..] else s;
      if digits == [] then None
      else
        match DigitsOf(digits, radix)
        case None => None
        case Some(v) =>
          assert DigitsOf(digits[..1], radix).Some? by { DigitsOfPrefix(digits, 1, radix); }
          var n := if s[0] == '-' then -(v as int) else v;
          if InRange(n, bits) then Some(n) else None
  }

  /** Every prefix of a run of digits is one. */
  lemma {:induction false} DigitsOfPrefix(s: string, k: nat, radix: nat)
    requires k <= |s| && DigitsOf(s, radix).Some?
    ensures DigitsOf(s[..k], radix).Some?
    decreases |s| - k
  {
    if k < |s| {
      var q := s[..|s| - 1];
      DigitsOfPrefix(q, k, radix);
      assert q[..k] == s[..k];
    } else {
      assert s[..k] == s;
    }
  }

  /** `Long.parseLong(s)`. */
  function ParseLong(s: string): (r: Option<int>)
  {
    ParseSigned(s, 10, 64)
  }

  /** The decimal digits of a natural number, without leading zeros. */
  function NatDigits(n: nat): (s: string)
    ensures |s| >= 1 && AllDigits(s, 10)
    ensures s[0] != '0' || n == 0
  {
    var last := ('0' as int + n % 10) as char;
    if n < 10 then [last] else NatDigits(n / 10) + [last]
  }

  /** `Long.toString(n)`: an optional minus sign followed by the digits. */
  function ToDecimal(n: int): (s: string)
    ensures |s| >= 1
  {
    if n < 0 then "-" + NatDigits(-n) else NatDigits(n)
  }

  lemma {:induction false} NatDigitsValue(n: nat)
    ensures DigitsOf(NatDigits(n), 10) == Some(n)
  {
    var s := NatDigits(n);
    if n >= 10 {
      NatDigitsValue(n / 10);
      assert s[..|s| - 1] == NatDigits(n / 10);
    }
  }

  /** Reading back the decimal text of a value gives that value when it is in range, and fails otherwise. */
  lemma {:induction false} ParseToDecimal(n: int, bits: nat)
    requires bits >= 1
    ensures ParseSigned(ToDecimal(n), 10, bits) == if InRange(n, bits) then Some(n) else None
  {
    if n < 0 {
      ParseNegative(-n, bits);
    } else {
      ParseNatural(n, bits);
    }
  }

  lemma {:induction false} ParseNegative(m: nat, bits: nat)
    requires bits >= 1 && m > 0
    ensures ParseSigned("-" + NatDigits(m), 10, bits) == if InRange(-(m as int), bits) then Some(-(m as int)) else None
  {
    var s := "-" + NatDigits(m);
    NatDigitsValue(m);
    assert s[0] == '-' && s[1..] == NatDigits(m);
  }

  lemma {:induction false} ParseNatural(n: nat, bits: nat)
    requires bits >= 1
    ensures ParseSigned(NatDigits(n), 10, bits) == if InRange(n, bits) then Some(n) else None
  {
    NatDigitsValue(n);
    var s := NatDigits(n);
    assert s[0] != '-' && s[0] != '+' by { assert AllDigits(s, 10); }
  }

  /** Text that is not a signed run of digits is never accepted, whatever the width. */
  lemma {:induction false} ParseRejectsNonDigit(s: string, radix: nat, bits: nat, i: nat)
    requires bits >= 1 && 0 < i < |s| && DigitValue(s[i], radix).None?
    ensures ParseSigned(s, radix, bits).None?
  {
    var signed := s[0] == '-' || s[0] == '+';
    var digits := if signed then s[1..] else s;
    if digits != [] {
      var j := if signed then i - 1 else i;
      assert digits[j] == s[i];
      DigitsOfDefined(digits, radix);
    }
  }

  /** ASCII lower-casing, as `toLowerCase` does on ASCII text. */
  function LowerChar(c: char): char
  {
    if 'A' <= c <= 'Z' then (c as int - 'A' as int + 'a' as int) as char else c
  }

  function Lower(s: string): (r: string)
    ensures |r| == |s|
    ensures forall i :: 0 <= i < |s| ==> r[i] == LowerChar(s[i])
  {
    if s == [] then [] else [LowerChar(s[0])] + Lower(s[1..])
  }

  /** Text without capital letters is its own lower case. */
  lemma {:induction false} LowerOfLowerCase(s: string)
    requires forall i :: 0 <= i < |s| ==> !('A' <= s[i] <= 'Z')
    ensures Lower(s) == s
  {
    var l := Lower(s);
    forall i | 0 <= i < |s|
      ensures l[i] == s[i]
    {
    }
  }
}
