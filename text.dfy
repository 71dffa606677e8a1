/** String helpers the pages rely on: decimal rendering and parsing, `split(c)[0]`,
  * and the code-unit ordering used by `Array.prototype.sort()` on strings. */
module Text {

  import opened Base

  predicate IsDigit(c: char) {
    '0' <= c <= '9'
  }

  predicate AllDigits(s: string) {
    forall i :: 0 <= i < |s| ==> IsDigit(s[i])
  }

  function DigitChar(d: nat): (c: char)
    requires d < 10
    ensures IsDigit(c)
  {
    ('0' as int + d) as char
  }

  function DigitValue(c: char): (d: nat)
    requires IsDigit(c)
    ensures d < 10
  {
    c as int - '0' as int
  }

  /** Decimal rendering of a natural number, without leading zeros. */
  function NatToString(n: nat): (s: string)
    ensures |s| > 0 && AllDigits(s)
    ensures n < 10 <==> |s| == 1
    decreases n
  {
    if n < 10 then [DigitChar(n)] else NatToString(n / 10) + [DigitChar(n % 10)]
  }

  /** Decimal rendering of an integer, as `String(n)` renders an integral number. */
  function IntToString(n: int): (s: string)
    ensures |s| > 0
    ensures n >= 0 <==> s[0] != '-'
  {
    if n < 0 then "-" + NatToString(-n) else NatToString(n)
  }

  /** The value of a string of decimal digits. */
  function ParseDigits(s: string): nat
    requires AllDigits(s)
  {
    if s == [] then 0 else ParseDigits(s[..|s| - 1]) * 10 + DigitValue(s[|s| - 1])
  }

  /** Rendering a natural number and reading it back gives the number. */
  lemma {:induction false} ParseNatToString(n: nat)
    ensures ParseDigits(NatToString(n)) == n
    decreases n
  {
    if n >= 10 {
      ParseNatToString(n / 10);
      var s := NatToString(n);
      assert s[..|s| - 1] == NatToString(n / 10);
    }
  }

  /** `Number(s)` for the strings this model gives a numeric meaning: the empty string is 0,
    * and an optional sign followed by decimal digits is that integer; everything else is
    * treated as not a number. */
  function StrToNumber(s: string): Option<int>
  {
    if s == [] then Some(0)
    else if (s[0] == '-' || s[0] == '+') && |s| > 1 && AllDigits(s[1..]) then
      Some(if s[0] == '-' then 0 - ParseDigits(s[1..]) else ParseDigits(s[1..]) as int)
    else if AllDigits(s) then Some(ParseDigits(s))
    else None
  }

  /** `Number(String(n)) == n` for every integer. */
  lemma NumberOfIntToString(n: int)
    ensures StrToNumber(IntToString(n)) == Some(n)
  {
    var s := IntToString(n);
    if n < 0 {
      var digits := NatToString(-n);
      assert s[1..] == digits;
      assert s[0] == '-' && |s| > 1 && AllDigits(s[1..]);
      ParseNatToString(-n);
    } else {
      assert IsDigit(s[0]);
      ParseNatToString(n);
    }
  }

  /** `s.split(c)[0]`: everything before the first `c`, or all of `s` when `c` does not occur. */
  function BeforeFirst(s: string, c: char): (r: string)
    ensures |r| <= |s|
    ensures c !in r
    ensures |r| < |s| ==> s[|r|] == c
  {
    if s == [] then []
    else if s[0] == c then []
    else [s[0]] + BeforeFirst(s[1..], c)
  }

  /** `s.split(c)[0]` is a prefix of `s`. */
  lemma {:induction false} BeforeFirstIsPrefix(s: string, c: char)
    ensures BeforeFirst(s, c) <= s
  {
    if s != [] && s[0] != c {
      BeforeFirstIsPrefix(s[1..], c);
      assert s == [s[0]] + s[1..];
    }
  }

  /** The three properties of `BeforeFirst` determine it: any prefix without `c` that is
    * either all of `s` or followed by `c` is the result. */
  lemma {:induction false} BeforeFirstUnique(s: string, c: char, p: string)
    requires p <= s && c !in p && (|p| < |s| ==> s[|p|] == c)
    ensures BeforeFirst(s, c) == p
  {
    if s != [] && s[0] != c {
      assert p != [];
      assert p[0] == s[0];
      BeforeFirstUnique(s[1..], c, p[1..]);
    }
  }

  /** Splitting at the first `c` of `a + [c] + b`, where `a` has no `c`, gives `a`. */
  lemma BeforeFirstOfJoined(a: string, c: char, b: string)
    requires c !in a
    ensures BeforeFirst(a + [c] + b, c) == a
  {
    BeforeFirstUnique(a + [c] + b, c, a);
  }

  /** Strict lexicographic order on strings, comparing characters from the left;
    * a proper prefix comes first. */
  predicate LexLess(a: string, b: string)
  {
    if a == [] then b != []
    else if b == [] then false
    else if a[0] != b[0] then a[0] < b[0]
    else LexLess(a[1..], b[1..])
  }

  lemma {:induction false} LexLessIrreflexive(a: string)
    ensures !LexLess(a, a)
  {
    if a != [] {
      LexLessIrreflexive(a[1..]);
    }
  }

  lemma {:induction false} LexLessTotal(a: string, b: string)
    requires a != b
    ensures LexLess(a, b) || LexLess(b, a)
  {
    if a != [] && b != [] && a[0] == b[0] {
      assert a == [a[0]] + a[1..] && b == [b[0]] + b[1..];
      LexLessTotal(a[1..], b[1..]);
    }
  }

  lemma {:induction false} LexLessAsymmetric(a: string, b: string)
    requires LexLess(a, b)
    ensures !LexLess(b, a)
  {
    if a != [] && b != [] && a[0] == b[0] {
      LexLessAsymmetric(a[1..], b[1..]);
    }
  }

  lemma {:induction false} LexLessTransitive(a: string, b: string, c: string)
    requires LexLess(a, b) && LexLess(b, c)
    ensures LexLess(a, c)
  {
    if a != [] && b != [] && c != [] && a[0] == b[0] && b[0] == c[0] {
      LexLessTransitive(a[1..], b[1..], c[1..]);
    }
  }
}
