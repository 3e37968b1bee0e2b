/**
  The pieces of Go's standard library that the photo service leans on for its
  string handling: strings.Split and fmt.Sprintf("%s/%s/%s", ...) over a
  one-character separator, fmt.Sprint / strconv.Itoa of an integer, and the
  value strconv.ParseInt and strconv.Atoi hand back (which the service uses
  even when they also report an error).
*/
module Text {
  import opened Wrappers

  // ---------------------------------------------------------------------------
  // Splitting and joining on a separator character
  // ---------------------------------------------------------------------------

  /** strings.Split(s, string(sep)): the pieces between the occurrences of `sep`.
      There is always at least one piece, and "" splits to [""]. */
  function Split(s: string, sep: char): (parts: seq<string>)
    ensures |parts| >= 1
    ensures forall i :: 0 <= i < |parts| ==> sep !in parts[i]
    decreases |s|
  {
    if |s| == 0 then [""]
    else
      var rest := Split(s[1..], sep);
      if s[0] == sep then [""] + rest
      else [[s[0]] + rest[0]] + rest[1..]
  }

  /** The pieces written one after the other with `sep` between them:
      Join([a, b, c], '/') is fmt.Sprintf("%s/%s/%s", a, b, c). */
  function Join(parts: seq<string>, sep: char): string
  {
    if |parts| == 0 then ""
    else if |parts| == 1 then parts[0]
    else parts[0] + [sep] + Join(parts[1..], sep)
  }

  /** Joining the pieces of a split gives back the original string. */
  lemma {:induction false} JoinSplit(s: string, sep: char)
    ensures Join(Split(s, sep), sep) == s
    decreases |s|
  {
    if |s| > 0 {
      JoinSplit(s[1..], sep);
      var rest := Split(s[1..], sep);
      assert s == [s[0]] + s[1..];
      if s[0] == sep {
        var parts := [""] + rest;
        assert Split(s, sep) == parts;
        assert parts[1..] == rest;
        assert Join(parts, sep) == "" + [sep] + Join(rest, sep);
      } else if |rest| == 1 {
        assert Split(s, sep) == [[s[0]] + rest[0]];
      } else {
        var parts := [[s[0]] + rest[0]] + rest[1..];
        assert Split(s, sep) == parts;
        assert parts[1..] == rest[1..];
        assert Join(rest, sep) == rest[0] + [sep] + Join(rest[1..], sep);
        assert Join(parts, sep) == [s[0]] + rest[0] + [sep] + Join(rest[1..], sep);
      }
    }
  }

  /** A string without the separator is a single piece. */
  lemma {:induction false} SplitWithoutSep(a: string, sep: char)
    requires sep !in a
    ensures Split(a, sep) == [a]
    decreases |a|
  {
    if |a| > 0 {
      SplitWithoutSep(a[1..], sep);
      assert a == [a[0]] + a[1..];
    }
  }

  /** Splitting stops exactly at the first separator. */
  lemma {:induction false} SplitAtFirstSep(a: string, sep: char, t: string)
    requires sep !in a
    ensures Split(a + [sep] + t, sep) == [a] + Split(t, sep)
    decreases |a|
  {
    if |a| == 0 {
      assert a + [sep] + t == [sep] + t;
      assert ([sep] + t)[1..] == t;
    } else {
      SplitAtFirstSep(a[1..], sep, t);
      assert (a + [sep] + t)[1..] == a[1..] + [sep] + t;
      assert [a[0]] + a[1..] == a;
    }
  }

  /** Splitting a join of separator-free pieces gives back the pieces. */
  lemma {:induction false} SplitJoin(parts: seq<string>, sep: char)
    requires |parts| >= 1
    requires forall i :: 0 <= i < |parts| ==> sep !in parts[i]
    ensures Split(Join(parts, sep), sep) == parts
    decreases |parts|
  {
    if |parts| == 1 {
      SplitWithoutSep(parts[0], sep);
    } else {
      SplitJoin(parts[1..], sep);
      SplitAtFirstSep(parts[0], sep, Join(parts[1..], sep));
      assert [parts[0]] + parts[1..] == parts;
    }
  }

  /** A join of at least two groups of pieces is the join of the front group,
      the separator, and the join of the back group. */
  lemma {:induction false} JoinAt(parts: seq<string>, sep: char, k: nat)
    requires 1 <= k < |parts|
    ensures Join(parts, sep) == Join(parts[..k], sep) + [sep] + Join(parts[k..], sep)
    decreases k
  {
    if k > 1 {
      JoinAt(parts[1..], sep, k - 1);
      assert parts[1..][..k - 1] == parts[..k][1..];
      assert parts[1..][k - 1..] == parts[k..];
    }
  }

  /** Splitting two strings joined by the separator splits each of them. */
  lemma SplitConcat(a: string, sep: char, b: string)
    ensures Split(a + [sep] + b, sep) == Split(a, sep) + Split(b, sep)
  {
    var front := Split(a, sep);
    var parts := front + Split(b, sep);
    JoinSplit(a, sep);
    JoinSplit(b, sep);
    JoinAt(parts, sep, |front|);
    assert parts[..|front|] == front && parts[|front|..] == Split(b, sep);
    SplitJoin(parts, sep);
  }

  /** Three pieces joined, as fmt.Sprintf("%s/%s/%s") writes them, split
      into the first piece's pieces, the middle one, and the last one's. */
  lemma SplitJoinThree(a: string, b: string, c: string, sep: char)
    requires sep !in b
    ensures Join([a, b, c], sep) == a + [sep] + b + [sep] + c
    ensures Split(Join([a, b, c], sep), sep) == Split(a, sep) + [b] + Split(c, sep)
  {
    assert [a, b, c][1..] == [b, c];
    assert [b, c][1..] == [c];
    assert Join([b, c], sep) == b + [sep] + c;
    assert a + [sep] + b + [sep] + c == a + [sep] + (b + [sep] + c);
    SplitConcat(a, sep, b + [sep] + c);
    SplitConcat(b, sep, c);
    SplitWithoutSep(b, sep);
  }

  // ---------------------------------------------------------------------------
  // Decimal rendering and parsing
  // ---------------------------------------------------------------------------

  predicate IsDigit(c: char) { '0' <= c <= '9' }

  predicate AllDigits(s: string) { forall i :: 0 <= i < |s| ==> IsDigit(s[i]) }

  function DigitValue(c: char): nat
    requires IsDigit(c)
  {
    c as int - '0' as int
  }

  function DigitChar(d: nat): (c: char)
    requires d < 10
    ensures IsDigit(c) && DigitValue(c) == d
  {
    ('0' as int + d) as char
  }

  /** The decimal digits of a natural number, most significant first, without
      leading zeros. */
  function NatToDecimal(n: nat): (s: string)
    ensures |s| >= 1 && AllDigits(s)
  {
    if n < 10 then [DigitChar(n)] else NatToDecimal(n / 10) + [DigitChar(n % 10)]
  }

  /** fmt.Sprint(n) and strconv.Itoa(n) for an integer n. */
  function Decimal(n: int): string
    decreases if n < 0 then 1 else 0
  {
    if n < 0 then "-" + Decimal(-n) else NatToDecimal(n)
  }

  /** The number a string of decimal digits denotes. */
  function DigitsValue(s: string): nat
    requires AllDigits(s)
  {
    if |s| == 0 then 0 else DigitsValue(s[..|s| - 1]) * 10 + DigitValue(s[|s| - 1])
  }

  /** A string with one leading '+' or '-' taken off, as strconv.ParseInt
      does before it hands the rest to ParseUint. */
  function Unsigned(s: string): string
  {
    if |s| > 0 && (s[0] == '+' || s[0] == '-') then s[1..] else s
  }

  predicate Negative(s: string) { |s| > 0 && s[0] == '-' }

  /** The base-10 syntax strconv.ParseInt accepts: an optional '+' or '-' and
      then one or more decimal digits (no underscores, no spaces). None is a
      syntax error; the number is not yet range checked. */
  function ParseDecimal(s: string): Option<int>
  {
    var digits := Unsigned(s);
    if |digits| > 0 && AllDigits(digits) then
      var magnitude: int := DigitsValue(digits);
      Some(if Negative(s) then -magnitude else magnitude)
    else None
  }

  lemma {:induction false} NatToDecimalValue(n: nat)
    ensures DigitsValue(NatToDecimal(n)) == n
  {
    if n >= 10 {
      NatToDecimalValue(n / 10);
      var s := NatToDecimal(n);
      assert s[..|s| - 1] == NatToDecimal(n / 10);
    }
  }

  /** Parsing what fmt.Sprint printed gives back the number. */
  lemma DecimalRoundTrip(n: int)
    ensures ParseDecimal(Decimal(n)) == Some(n)
  {
    if n < 0 {
      var digits := NatToDecimal(-n);
      assert Decimal(n) == "-" + digits;
      assert Unsigned(Decimal(n)) == digits;
      NatToDecimalValue(-n);
    } else {
      var digits := NatToDecimal(n);
      assert Decimal(n) == digits;
      assert IsDigit(digits[0]);
      assert Unsigned(digits) == digits;
      NatToDecimalValue(n);
    }
  }

  const MinInt32: int := -0x8000_0000
  const MaxInt32: int := 0x7fff_ffff
  const MinInt64: int := -0x8000_0000_0000_0000
  const MaxInt64: int := 0x7fff_ffff_ffff_ffff

  /** What strconv.ParseUint(s, 10, bitSize) decides. */
  datatype UintParse = UintSyntaxError | UintRangeError | UintValue(n: nat)

  /** ParseUint's loop, from the value `acc` of the digits read so far, with
      maxVal = 2^bitSize - 1: a non-digit is a syntax error, and a digit that
      takes the value past maxVal is a range error at once, before anything
      after it is looked at. */
  function ScanUint(s: string, acc: nat, maxVal: nat): UintParse
    decreases |s|
  {
    if |s| == 0 then UintValue(acc)
    else if !IsDigit(s[0]) then UintSyntaxError
    else
      var next := acc * 10 + DigitValue(s[0]);
      if next > maxVal then UintRangeError else ScanUint(s[1..], next, maxVal)
  }

  /** strconv.ParseUint(s, 10, bitSize) with maxVal = 2^bitSize - 1; the
      empty string is a syntax error. */
  function ParseUint(s: string, maxVal: nat): UintParse
  {
    if |s| == 0 then UintSyntaxError else ScanUint(s, 0, maxVal)
  }

  /** The value strconv.ParseInt(s, 10, bitSize) returns, with
      hi = 2^(bitSize-1) - 1: the sign is taken off and the rest read by
      ParseUint with maxVal = 2*hi + 1. A syntax error gives 0; a range error,
      or a magnitude beyond the signed range, gives the bound on the side of
      the sign. */
  function ParseIntValue(s: string, hi: int): (r: int)
    requires hi >= 0
    ensures -hi - 1 <= r <= hi
  {
    match ParseUint(Unsigned(s), 2 * hi + 1)
    case UintSyntaxError => 0
    case UintRangeError => if Negative(s) then -hi - 1 else hi
    case UintValue(un) =>
      var n: int := un;
      if !Negative(s) && n > hi then hi
      else if Negative(s) && n > hi + 1 then -hi - 1
      else if Negative(s) then -n else n
  }

  /** strconv.ParseInt(s, 10, 32), the value part. */
  function ParseInt32(s: string): (r: int)
    ensures MinInt32 <= r <= MaxInt32
  {
    ParseIntValue(s, MaxInt32)
  }

  /** strconv.Atoi(s) on a 64-bit platform, the value part. Its fast path
      for strings shorter than 19 bytes decides as ParseInt(s, 10, 64) does. */
  function Atoi(s: string): (r: int)
    ensures MinInt64 <= r <= MaxInt64
  {
    ParseIntValue(s, MaxInt64)
  }

  function Pow10(k: nat): (p: nat)
    ensures p >= 1
  {
    if k == 0 then 1 else 10 * Pow10(k - 1)
  }

  /** The longest prefix of s made of decimal digits. */
  function LeadingDigits(s: string): (p: string)
    ensures |p| <= |s| && p == s[..|p|] && AllDigits(p)
    ensures |p| < |s| ==> !IsDigit(s[|p|])
  {
    if |s| == 0 || !IsDigit(s[0]) then ""
    else
      var rest := LeadingDigits(s[1..]);
      assert s[1..][..|rest|] == s[1..|rest| + 1];
      [s[0]] + rest
  }

  lemma ScaleByTen(a: int, b: int)
    ensures a * (10 * b) == (a * b) * 10
  {
  }

  /** A leading digit counts for its place value. */
  lemma {:induction false} DigitsValueCons(c: char, q: string)
    requires IsDigit(c) && AllDigits(q)
    ensures DigitsValue([c] + q) == DigitValue(c) * Pow10(|q|) + DigitsValue(q)
    decreases |q|
  {
    var s := [c] + q;
    if |q| == 0 {
      assert s[..0] == [];
    } else {
      var front := q[..|q| - 1];
      var last := DigitValue(q[|q| - 1]);
      assert s[..|s| - 1] == [c] + front;
      assert s[|s| - 1] == q[|q| - 1];
      DigitsValueCons(c, front);
      var d := DigitValue(c);
      var p := Pow10(|front|);
      assert DigitsValue(q) == DigitsValue(front) * 10 + last;
      assert DigitsValue(s) == (d * p + DigitsValue(front)) * 10 + last;
      ScaleByTen(d, p);
    }
  }

  /** Reading one more digit d before k's place: the value so far moves up
      one place and d takes the place of k. */
  lemma ShiftDigit(acc: nat, d: nat, k: nat, rest: nat)
    requires k >= 1
    ensures acc * (10 * k) + (d * k + rest) == (acc * 10 + d) * k + rest
    ensures (acc * 10 + d) * k + rest >= acc * 10 + d
  {
  }

  /** ParseUint's loop in terms of the digits it can read: with v the value
      of what was read so far followed by the leading digits, it is a range
      error exactly when v passes maxVal; otherwise it is v when the digits are
      all of s, and a syntax error when a non-digit follows them. */
  lemma {:induction false} ScanUintLeading(s: string, acc: nat, maxVal: nat)
    requires acc <= maxVal
    ensures var p := LeadingDigits(s);
      var v := acc * Pow10(|p|) + DigitsValue(p);
      ScanUint(s, acc, maxVal) ==
        if v > maxVal then UintRangeError
        else if |p| == |s| then UintValue(v)
        else UintSyntaxError
    decreases |s|
  {
    if |s| > 0 && IsDigit(s[0]) {
      var next := acc * 10 + DigitValue(s[0]);
      var p := LeadingDigits(s);
      var q := LeadingDigits(s[1..]);
      assert p == [s[0]] + q;
      DigitsValueCons(s[0], q);
      var k := Pow10(|q|);
      assert Pow10(|p|) == 10 * k;
      ShiftDigit(acc, DigitValue(s[0]), k, DigitsValue(q));
      if next <= maxVal {
        ScanUintLeading(s[1..], next, maxVal);
      }
    }
  }

  /** A string of digits is its own longest digit prefix. */
  lemma LeadingDigitsOfDigits(s: string)
    requires AllDigits(s)
    ensures LeadingDigits(s) == s
  {
  }

  /** Inside the grammar, ParseInt gives the number, clamped to the range. */
  lemma ParseIntInGrammar(s: string, hi: int)
    requires hi >= 0 && ParseDecimal(s).Some?
    ensures var n := ParseDecimal(s).value;
      ParseIntValue(s, hi) == if n > hi then hi else if n < -hi - 1 then -hi - 1 else n
  {
    var digits := Unsigned(s);
    LeadingDigitsOfDigits(digits);
    ScanUintLeading(digits, 0, 2 * hi + 1);
  }

  /** Whether the digits after the sign and before the first non-digit
      already exceed maxVal, so that ParseUint stops with a range error. */
  predicate LeadingOverflow(s: string, maxVal: int)
  {
    DigitsValue(LeadingDigits(Unsigned(s))) > maxVal
  }

  /** Outside the grammar, ParseInt gives 0, unless the digits after the sign
      and before the first non-digit already exceed 2^bitSize - 1: the range
      error comes first, and the value is the bound on the side of the sign. */
  lemma ParseIntOutsideGrammar(s: string, hi: int)
    requires hi >= 0 && ParseDecimal(s).None?
    ensures ParseIntValue(s, hi) ==
      if LeadingOverflow(s, 2 * hi + 1) then (if Negative(s) then -hi - 1 else hi) else 0
  {
    var digits := Unsigned(s);
    if |digits| > 0 {
      ScanUintLeading(digits, 0, 2 * hi + 1);
      var p := LeadingDigits(digits);
      if |p| == |digits| {
        assert p == digits;
      }
    }
  }

  /** The range error is raised before a later bad byte is read:
      "4294967296x" passes 2^32 - 1 before the 'x' and gives the bound on the
      side of its sign. */
  lemma ParseInt32LeadingOverflow()
    ensures ParseInt32("4294967296x") == MaxInt32
    ensures ParseInt32("-4294967296x") == MinInt32
  {
  }

  /** The early range check is against 2^32 - 1, not the signed bound:
      "2147483648x" is still a syntax error, and gives 0 like "12x". */
  lemma ParseInt32LateSyntaxError()
    ensures ParseInt32("2147483648x") == 0
    ensures ParseInt32("12x") == 0
  {
  }

  /** Any 32-bit value printed in decimal parses back to itself. */
  lemma ParseInt32RoundTrip(n: int)
    requires MinInt32 <= n <= MaxInt32
    ensures ParseInt32(Decimal(n)) == n
  {
    DecimalRoundTrip(n);
    ParseIntInGrammar(Decimal(n), MaxInt32);
  }

  /** Any 64-bit value printed in decimal parses back to itself. */
  lemma AtoiRoundTrip(n: int)
    requires MinInt64 <= n <= MaxInt64
    ensures Atoi(Decimal(n)) == n
  {
    DecimalRoundTrip(n);
    ParseIntInGrammar(Decimal(n), MaxInt64);
  }

  // ---------------------------------------------------------------------------
  // Cutting at the first occurrence of a character (strings.Cut, IndexByte)
  // ---------------------------------------------------------------------------

  /** The part of s before the first `c`; all of s when it has none. */
  function Before(s: string, c: char): (r: string)
    ensures |r| <= |s| && r == s[..|r|] && c !in r
    ensures |r| < |s| <==> c in s
    ensures |r| < |s| ==> s[|r|] == c
  {
    if |s| == 0 then ""
    else if s[0] == c then ""
    else
      var rest := Before(s[1..], c);
      assert s[1..][..|rest|] == s[1..|rest| + 1];
      [s[0]] + rest
  }

  /** Before stops at the first `c`, whatever follows it. */
  lemma {:induction false} BeforeSep(a: string, c: char, t: string)
    requires c !in a
    ensures Before(a + [c] + t, c) == a
    decreases |a|
  {
    if |a| > 0 {
      assert (a + [c] + t)[1..] == a[1..] + [c] + t;
      BeforeSep(a[1..], c, t);
    }
  }

  /** A string without `c` is left whole by Before. */
  lemma BeforeWithout(s: string, c: char)
    requires c !in s
    ensures Before(s, c) == s
  {
  }
}
