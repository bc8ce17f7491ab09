/** Decimal text of integers, as `%d` prints and scans it. */
module Decimal {

  predicate IsDigit(c: char) { '0' <= c <= '9' }

  function DigitChar(d: nat): (c: char)
    requires d < 10
  {
    '0' + d as char
  }

  function DigitValue(c: char): nat
    requires IsDigit(c)
  {
    (c - '0') as nat
  }

  function Digits(n: nat): (s: string)
    ensures s != [] && forall i :: 0 <= i < |s| ==> IsDigit(s[i])
  {
    if n < 10 then [DigitChar(n)] else Digits(n / 10) + [DigitChar(n % 10)]
  }

  function IntText(n: int): string {
    if n < 0 then "-" + Digits(-n) else Digits(n)
  }

  function Value(s: string): nat
    requires forall i :: 0 <= i < |s| ==> IsDigit(s[i])
  {
    if s == [] then 0 else Value(s[..|s| - 1]) * 10 + DigitValue(s[|s| - 1])
  }

  /** How many leading characters are digits. */
  function Span(s: string): (n: nat)
    ensures n <= |s| && forall i :: 0 <= i < n ==> IsDigit(s[i])
    ensures n < |s| ==> !IsDigit(s[n])
  {
    if s == [] || !IsDigit(s[0]) then 0 else 1 + Span(s[1..])
  }

  lemma {:induction false} ValueOfDigits(n: nat)
    ensures Value(Digits(n)) == n
  {
    var s := Digits(n);
    if n < 10 {
      assert s[..0] == [];
    } else {
      assert s[..|s| - 1] == Digits(n / 10);
      ValueOfDigits(n / 10);
    }
  }

  lemma {:induction false} SpanOf(digits: string, rest: string)
    requires forall i :: 0 <= i < |digits| ==> IsDigit(digits[i])
    requires rest == [] || !IsDigit(rest[0])
    ensures Span(digits + rest) == |digits|
  {
    if digits == [] {
      assert digits + rest == rest;
    } else {
      assert (digits + rest)[1..] == digits[1..] + rest;
      SpanOf(digits[1..], rest);
    }
  }
}

/** Seat freeze tokens: `freeze-st<show time>-tc<ticket category>-o<order number>`. */
module FreezeToken {
  import opened Decimal

  const INT64_MAX := 0x7fff_ffff_ffff_ffff

  datatype Token = Token(showTimeID: int, ticketCategoryID: int, orderNumber: int)

  datatype Result = Ok(token: Token) | Invalid

  /** A partial scan: the value and what is left of the input. */
  datatype Scan = Scanned(value: int, rest: string) | Stuck

  function FormatToken(t: Token): string {
    "freeze-st" + IntText(t.showTimeID) + "-tc" + IntText(t.ticketCategoryID) + "-o" + IntText(t.orderNumber)
  }

  function SkipSpaces(s: string): string {
    if s != [] && (s[0] == ' ' || s[0] == '\t') then SkipSpaces(s[1..]) else s
  }

  /** `%d`: leading blanks, an optional sign, digits, within int64. */
  function ScanInt(s: string): Scan {
    var t := SkipSpaces(s);
    var signed := t != [] && (t[0] == '+' || t[0] == '-');
    var negative := signed && t[0] == '-';
    var u := if signed then t[1..] else t;
    var n := Span(u);
    if n == 0 then Stuck
    else
      var magnitude: int := Value(u[..n]);
      var v := if negative then 0 - magnitude else magnitude;
      if v > INT64_MAX || v < -INT64_MAX - 1 then Stuck else Scanned(v, u[n..])
  }

  /** Literal text of the format. */
  function ScanText(text: string, s: string): Scan {
    if text <= s then Scanned(0, s[|text|..]) else Stuck
  }

  /** Sscanf against the token format; what follows the last number is not looked at. */
  function Sscanf(s: string): Result {
    var a := ScanText("freeze-st", s);
    if a.Stuck? then Invalid else
    var x := ScanInt(a.rest);
    if x.Stuck? then Invalid else
    var b := ScanText("-tc", x.rest);
    if b.Stuck? then Invalid else
    var y := ScanInt(b.rest);
    if y.Stuck? then Invalid else
    var c := ScanText("-o", y.rest);
    if c.Stuck? then Invalid else
    var z := ScanInt(c.rest);
    if z.Stuck? then Invalid else Ok(Token(x.value, y.value, z.value))
  }

  function ParseToken(s: string): Result {
    var r := Sscanf(s);
    if r.Invalid? then Invalid
    else if r.token.showTimeID <= 0 || r.token.ticketCategoryID <= 0 || r.token.orderNumber <= 0
        || FormatToken(r.token) != s
    then Invalid
    else r
  }

  ghost predicate Positive(n: int) { 0 < n <= INT64_MAX }

  ghost predicate Proper(t: Token) {
    Positive(t.showTimeID) && Positive(t.ticketCategoryID) && Positive(t.orderNumber)
  }

  lemma ScanPrinted(n: int, rest: string)
    requires Positive(n) && (rest == [] || !IsDigit(rest[0]))
    ensures ScanInt(IntText(n) + rest) == Scanned(n, rest)
  {
    var digits := Digits(n);
    var s := digits + rest;
    assert IsDigit(s[0]);
    assert SkipSpaces(s) == s;
    SpanOf(digits, rest);
    assert s[..|digits|] == digits && s[|digits|..] == rest;
    ValueOfDigits(n);
  }

  lemma ScanLiteral(text: string, rest: string)
    ensures ScanText(text, text + rest) == Scanned(0, rest)
  {}

  lemma ScanFormatted(t: Token)
    requires Proper(t)
    ensures Sscanf(FormatToken(t)) == Ok(t)
  {
    hide ScanInt, ScanText, IntText;
    var z := IntText(t.orderNumber);
    var y := IntText(t.ticketCategoryID) + ("-o" + z);
    var x := IntText(t.showTimeID) + ("-tc" + y);
    assert FormatToken(t) == "freeze-st" + x;
    ScanLiteral("freeze-st", x);
    ScanPrinted(t.showTimeID, "-tc" + y);
    ScanLiteral("-tc", y);
    ScanPrinted(t.ticketCategoryID, "-o" + z);
    ScanLiteral("-o", z);
    assert z + "" == z;
    ScanPrinted(t.orderNumber, "");
  }

  /** ParseToken inverts FormatToken exactly: a string is accepted with a token if and only if it is
      the print of that token and all three numbers are positive int64s. */
  lemma ParseIsExactInverse(s: string, t: Token)
    ensures ParseToken(s) == Ok(t) <==> Proper(t) && s == FormatToken(t)
  {
    hide FormatToken, Sscanf;
    if Proper(t) && s == FormatToken(t) {
      ScanFormatted(t);
    }
    if ParseToken(s) == Ok(t) {
      SscanfInRange(s);
    }
  }

  lemma SscanfInRange(s: string)
    ensures Sscanf(s).Ok? ==>
              var t := Sscanf(s).token;
              t.showTimeID <= INT64_MAX && t.ticketCategoryID <= INT64_MAX && t.orderNumber <= INT64_MAX
  {}

  /** Different proper tokens print differently. */
  lemma FormatInjective(t: Token, u: Token)
    requires Proper(t) && Proper(u) && FormatToken(t) == FormatToken(u)
    ensures t == u
  {
    ParseIsExactInverse(FormatToken(t), t);
    ParseIsExactInverse(FormatToken(u), u);
  }
}
