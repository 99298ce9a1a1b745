/** Integers as decimal text: what an output stream prints and an input stream reads back. */
module Decimal {
  import opened Concepts

  function Digit(d: nat): (c: char)
    requires d < 10
  {
    "0123456789"[d]
  }

  predicate IsDigit(c: char) {
    '0' <= c <= '9'
  }

  function DigitValue(c: char): (d: nat)
    requires IsDigit(c)
  {
    c as int - '0' as int
  }

  function PrintNat(n: nat): (s: string)
    ensures 0 < |s| && forall p :: 0 <= p < |s| ==> IsDigit(s[p])
  {
    if n < 10 then [Digit(n)] else PrintNat(n / 10) + [Digit(n % 10)]
  }

  function PrintInt(v: int): (s: string)
    ensures 0 < |s|
  {
    if v < 0 then "-" + PrintNat(-v) else PrintNat(v)
  }

  /*---------- Reading ----------*/

  predicate IsSpace(c: char) {
    c == ' ' || c == '\t' || c == '\n' || c == '\r' || c == '\U{0B}' || c == '\U{0C}'
  }

  function SkipSpaces(s: string): string {
    if s != [] && IsSpace(s[0]) then SkipSpaces(s[1..]) else s
  }

  /** How many digits the text begins with. */
  function DigitRun(s: string): (n: nat)
    ensures n <= |s| && forall p :: 0 <= p < n ==> IsDigit(s[p])
  {
    if s != [] && IsDigit(s[0]) then 1 + DigitRun(s[1..]) else 0
  }

  function ParseNat(s: string): nat
    requires forall p :: 0 <= p < |s| ==> IsDigit(s[p])
  {
    if s == [] then 0 else 10 * ParseNat(s[..|s| - 1]) + DigitValue(s[|s| - 1])
  }

  function ReadNat(s: string): Option<(nat, string)> {
    var n := DigitRun(s);
    if n == 0 then None else Some((ParseNat(s[..n]), s[n..]))
  }

  function ReadSigned(t: string): Option<(int, string)> {
    if t != [] && (t[0] == '-' || t[0] == '+') then
      match ReadNat(t[1..])
      case None => None
      case Some((n, rest)) => Some((if t[0] == '-' then 0 - n else n + 0, rest))
    else
      match ReadNat(t)
      case None => None
      case Some((n, rest)) => Some((n, rest))
  }

  /** Formatted extraction of an integer: the value, and what is left in the stream. */
  function ReadInt(s: string): Option<(int, string)> {
    ReadSigned(SkipSpaces(s))
  }

  const INT32_MAX: int := 0x7FFF_FFFF

  predicate IsInt64(v: int) {
    -INT64_MAX - 1 <= v <= INT64_MAX
  }

  /** Extraction into a type whose greatest value is max fails on values that do not fit. */
  function ReadFitting(s: string, max: int): Option<(int, string)> {
    match ReadInt(s)
    case None => None
    case Some((v, rest)) => if -max - 1 <= v <= max then Some((v, rest)) else None
  }

  /*---------- Reading back what was printed ----------*/

  lemma {:induction false} DigitRunOfDigits(s: string, rest: string)
    requires forall p :: 0 <= p < |s| ==> IsDigit(s[p])
    requires rest == [] || !IsDigit(rest[0])
    ensures DigitRun(s + rest) == |s|
  {
    if s == [] {
      assert s + rest == rest;
    } else {
      assert (s + rest)[1..] == s[1..] + rest;
      DigitRunOfDigits(s[1..], rest);
    }
  }

  lemma {:induction false} ParsePrinted(n: nat)
    ensures ParseNat(PrintNat(n)) == n
  {
    if n >= 10 {
      ParsePrinted(n / 10);
      assert PrintNat(n)[..|PrintNat(n)| - 1] == PrintNat(n / 10);
    }
  }

  lemma DigitOfValue(c: char)
    requires IsDigit(c)
    ensures DigitValue(c) < 10 && Digit(DigitValue(c)) == c
  {
    assert c as int <= 57 && '0' as int == 48;
    assert DigitValue(c) == 0 ==> c == '0';
    assert DigitValue(c) == 1 ==> c == '1';
    assert DigitValue(c) == 2 ==> c == '2';
    assert DigitValue(c) == 3 ==> c == '3';
    assert DigitValue(c) == 4 ==> c == '4';
    assert DigitValue(c) == 5 ==> c == '5';
    assert DigitValue(c) == 6 ==> c == '6';
    assert DigitValue(c) == 7 ==> c == '7';
    assert DigitValue(c) == 8 ==> c == '8';
    assert DigitValue(c) == 9 ==> c == '9';
  }

  /** The printed form of a number is its one decimal form without leading zeros. */
  lemma {:induction false} PrintedIffCanonical(s: string, n: nat)
    requires s != [] && forall p :: 0 <= p < |s| ==> IsDigit(s[p])
    ensures s == PrintNat(n) <==> ParseNat(s) == n && (1 < |s| ==> s[0] != '0')
    decreases |s|
  {
    var front, value := s[..|s| - 1], ParseNat(s);
    DigitOfValue(s[|s| - 1]);
    if |s| == 1 {
      assert value == DigitValue(s[0]);
      ParsePrinted(n);
    } else {
      assert s == front + [s[|s| - 1]] && value % 10 == DigitValue(s[|s| - 1]);
      PrintedIffCanonical(front, ParseNat(front));
      ParsePrinted(n);
      if s == PrintNat(n) { assert front == PrintNat(n / 10); }
    }
  }

  lemma ReadPrintedNat(n: nat, rest: string)
    requires rest == [] || !IsDigit(rest[0])
    ensures ReadNat(PrintNat(n) + rest) == Some((n, rest))
  {
    DigitRunOfDigits(PrintNat(n), rest);
    ParsePrinted(n);
    assert (PrintNat(n) + rest)[..|PrintNat(n)|] == PrintNat(n);
    assert (PrintNat(n) + rest)[|PrintNat(n)|..] == rest;
  }

  lemma PrintedHasNoSpaces(v: int, rest: string)
    ensures SkipSpaces(PrintInt(v) + rest) == PrintInt(v) + rest
    ensures SkipSpaces(" " + (PrintInt(v) + rest)) == PrintInt(v) + rest
  {
    var s := PrintInt(v) + rest;
    assert s[0] == PrintInt(v)[0];
    assert s[0] == '-' || IsDigit(s[0]);
    assert (" " + s)[1..] == s;
  }

  lemma ReadSignedNegative(n: nat, t: string, rest: string)
    requires t == "-" + PrintNat(n) + rest && (rest == [] || !IsDigit(rest[0]))
    ensures ReadSigned(t) == Some((0 - n, rest))
  {
    ReadPrintedNat(n, rest);
    assert t[1..] == PrintNat(n) + rest;
  }

  lemma ReadSignedNatural(n: nat, t: string, rest: string)
    requires t == PrintNat(n) + rest && (rest == [] || !IsDigit(rest[0]))
    ensures ReadSigned(t) == Some((n, rest))
  {
    ReadPrintedNat(n, rest);
    assert t[0] == PrintNat(n)[0];
  }

  lemma ReadPrintedInt(v: int, rest: string)
    requires rest == [] || !IsDigit(rest[0])
    ensures ReadInt(PrintInt(v) + rest) == Some((v, rest))
    ensures ReadInt(" " + (PrintInt(v) + rest)) == Some((v, rest))
  {
    PrintedHasNoSpaces(v, rest);
    if v < 0 {
      ReadSignedNegative(-v, PrintInt(v) + rest, rest);
    } else {
      ReadSignedNatural(v, PrintInt(v) + rest, rest);
    }
  }

  /** A printed integer and a blank separate what follows unambiguously. */
  lemma PrintedPrefixIsUnique(v: int, w: int, a: string, b: string)
    requires PrintInt(v) + (" " + a) == PrintInt(w) + (" " + b)
    ensures v == w && a == b
  {
    ReadPrintedInt(v, " " + a);
    ReadPrintedInt(w, " " + b);
    assert (" " + a)[1..] == a && (" " + b)[1..] == b;
  }

  lemma PrintIntIsInjective(v: int, w: int)
    requires PrintInt(v) == PrintInt(w)
    ensures v == w
  {
    ReadPrintedInt(v, "");
    ReadPrintedInt(w, "");
    assert PrintInt(v) + "" == PrintInt(v) && PrintInt(w) + "" == PrintInt(w);
  }
}
