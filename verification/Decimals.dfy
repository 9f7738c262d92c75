/** Decimal numerals as the C and Python formatters print them and the parsers read them. */
module Decimals {
  import opened Common

  predicate IsDigit(c: char) { '0' <= c <= '9' }

  predicate AllDigits(s: string) { forall i | 0 <= i < |s| :: IsDigit(s[i]) }

  function DigitOf(n: nat): (c: char)
    requires n < 10
    ensures IsDigit(c) && c as int - '0' as int == n
  {
    '0' + n as char
  }

  /** What `%u`, `%d` and str() print for a natural number. */
  function Decimal(n: nat): string {
    if n < 10 then [DigitOf(n)] else Decimal(n / 10) + [DigitOf(n % 10)]
  }

  /** The number a string of digits stands for. */
  function Value(s: string): nat
    requires AllDigits(s)
  {
    if s == "" then 0 else Value(s[..|s| - 1]) * 10 + (s[|s| - 1] as int - '0' as int)
  }

  lemma {:induction false} ValueOfDecimal(n: nat)
    ensures Decimal(n) != "" && AllDigits(Decimal(n)) && Value(Decimal(n)) == n
  {
    if n < 10 {
      assert Value("") == 0 && Decimal(n)[..0] == "";
    } else {
      ValueOfDecimal(n / 10);
      assert Decimal(n)[..|Decimal(n)| - 1] == Decimal(n / 10);
    }
  }

  lemma {:induction false} DecimalLength(n: nat, digits: nat, limit: nat)
    requires digits > 0 && limit == Power10(digits) && n < limit
    ensures |Decimal(n)| <= digits
    ensures digits > 1 && n >= Power10(digits - 1) ==> |Decimal(n)| == digits
    decreases digits
  {
    if n >= 10 {
      assert digits > 1;
      DecimalLength(n / 10, digits - 1, Power10(digits - 1));
    }
  }

  function Power10(k: nat): nat { if k == 0 then 1 else 10 * Power10(k - 1) }

  /** How many digits a string begins with. */
  function DigitRun(s: string): (n: nat)
    ensures n <= |s| && AllDigits(s[..n])
    ensures n < |s| ==> !IsDigit(s[n])
  {
    if s == "" || !IsDigit(s[0]) then 0 else
      var n := 1 + DigitRun(s[1..]);
      assert s[..n] == [s[0]] + s[1..][..n - 1];
      n
  }

  lemma {:induction false} DigitRunOf(digits: string, rest: string)
    requires AllDigits(digits) && (rest == "" || !IsDigit(rest[0]))
    ensures DigitRun(digits + rest) == |digits|
    decreases digits
  {
    if digits == "" {
      assert digits + rest == rest;
    } else {
      assert (digits + rest)[1..] == digits[1..] + rest;
      DigitRunOf(digits[1..], rest);
    }
  }

  /** A numeral in front of something else, and the number read off it. */
  lemma DecimalInFront(n: nat, rest: string)
    requires rest == "" || !IsDigit(rest[0])
    ensures var s := Decimal(n) + rest;
      DigitRun(s) == |Decimal(n)| > 0 && s[..DigitRun(s)] == Decimal(n) && s[DigitRun(s)..] == rest
        && Value(s[..DigitRun(s)]) == n
  {
    ValueOfDecimal(n);
    DigitRunOf(Decimal(n), rest);
    assert (Decimal(n) + rest)[..|Decimal(n)|] == Decimal(n);
  }

  /** The white space of C's isspace, which scanf, strtoll and the server's own trimming skip. */
  predicate IsSpace(c: char) { c == ' ' || '\t' <= c <= '\r' }

  function SkipSpaces(s: string): (r: string)
    ensures r == "" || !IsSpace(r[0])
  {
    if s != "" && IsSpace(s[0]) then SkipSpaces(s[1..]) else s
  }

  /**
   * A number with an optional sign, as strtoll and scanf read it: its value and what follows; None if there is no
   * digit.
   */
  function ScanNumber(s: string): Option<(int, string)> {
    var t := SkipSpaces(s);
    var negative := t != "" && t[0] == '-';
    var u := if t != "" && (t[0] == '-' || t[0] == '+') then t[1..] else t;
    var n := DigitRun(u);
    var magnitude: int := Value(u[..n]);
    if n == 0 then None else Some((if negative then -magnitude else magnitude, u[n..]))
  }

  lemma ScanDecimal(n: nat, rest: string)
    requires rest == "" || !IsDigit(rest[0])
    ensures ScanNumber(Decimal(n) + rest) == Some((n as int, rest))
  {
    DecimalInFront(n, rest);
    var s := Decimal(n) + rest;
    assert IsDigit(s[0]) by { assert s[0] == s[..DigitRun(s)][0]; }
    assert SkipSpaces(s) == s;
  }

  lemma {:induction false} SpacesAreSkipped(spaces: string, rest: string)
    requires forall c | c in spaces :: IsSpace(c)
    requires rest != "" && !IsSpace(rest[0])
    ensures SkipSpaces(spaces + rest) == rest
    decreases spaces
  {
    if spaces == "" {
      assert spaces + rest == rest;
    } else {
      assert spaces[0] in spaces && (spaces + rest)[1..] == spaces[1..] + rest;
      SpacesAreSkipped(spaces[1..], rest);
    }
  }

  /** What strtoll reads off white space, a sign, a numeral and something that does not go on with a digit. */
  lemma ScanSigned(spaces: string, sign: string, n: nat, rest: string)
    requires forall c | c in spaces :: IsSpace(c)
    requires sign in {"", "+", "-"} && (rest == "" || !IsDigit(rest[0]))
    ensures ScanNumber(spaces + sign + Decimal(n) + rest)
            == Some((if sign == "-" then -(n as int) else n as int, rest))
  {
    hide DigitRun, Value, Decimal, SkipSpaces;
    DecimalInFront(n, rest);
    var u := Decimal(n) + rest;
    assert u[..DigitRun(u)] == Decimal(n) && u[0] == Decimal(n)[0] && IsDigit(u[0]);
    var t := sign + u;
    assert spaces + sign + Decimal(n) + rest == spaces + t;
    if sign == "" { assert t == u; } else { assert t[0] == sign[0] && t[1..] == u; }
    SpacesAreSkipped(spaces, t);
  }
}
