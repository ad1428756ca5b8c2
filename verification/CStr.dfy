/** The C string functions the command interpreter uses, on strings without their terminator. */
module CStr {

  /** strchr: the place of the first c, or the length (the place of the terminator). */
  function IndexOf(s: string, c: char): (r: nat)
    ensures r <= |s| && c !in s[..r] && (r < |s| ==> s[r] == c)
  {
    if s == [] || s[0] == c then 0 else 1 + IndexOf(s[1..], c)
  }

  /** strstr: the first place where the pattern starts, or -1. */
  function Find(s: string, pattern: string): (r: int)
    ensures r == -1 || (0 <= r <= |s| - |pattern| && s[r..r + |pattern|] == pattern)
  {
    if pattern <= s then 0
    else if s == [] then -1
    else
      var r := Find(s[1..], pattern);
      if r == -1 then -1 else r + 1
  }

  predicate IsDigit(c: char) { '0' <= c <= '9' }

  predicate IsSpace(c: char) { c == ' ' || '\t' <= c <= '\r' }

  function DigitValue(c: char): nat { if IsDigit(c) then c as int - '0' as int else 0 }

  function Digits(s: string, acc: nat): nat
    decreases |s|
  {
    if s != [] && IsDigit(s[0]) then Digits(s[1..], 10 * acc + DigitValue(s[0])) else acc
  }

  /** atoi: blanks, a sign, digits; anything else ends the number. */
  function Atoi(s: string): int {
    if s == [] then 0
    else if IsSpace(s[0]) then Atoi(s[1..])
    else if s[0] == '-' then 0 - (Digits(s[1..], 0) as int)
    else if s[0] == '+' then Digits(s[1..], 0)
    else Digits(s, 0)
  }

  function Digit(n: nat): char
    requires n < 10
  {
    '0' + n as char
  }

  /** printf's %u. */
  function Decimal(n: nat): (r: string)
    ensures |r| > 0 && forall c :: c in r ==> IsDigit(c)
  {
    if n < 10 then [Digit(n)] else Decimal(n / 10) + [Digit(n % 10)]
  }

  lemma {:induction false} DigitsCat(a: string, b: string, acc: nat)
    requires forall c :: c in a ==> IsDigit(c)
    ensures Digits(a + b, acc) == Digits(b, Digits(a, acc))
    decreases |a|
  {
    if a == [] {
      assert a + b == b;
    } else {
      assert (a + b)[0] == a[0] && (a + b)[1..] == a[1..] + b;
      DigitsCat(a[1..], b, 10 * acc + DigitValue(a[0]));
    }
  }

  lemma {:induction false} DigitsOfDecimal(n: nat)
    ensures Digits(Decimal(n), 0) == n
    decreases n
  {
    if n >= 10 {
      var last := Digit(n % 10);
      DigitsOfDecimal(n / 10);
      DigitsCat(Decimal(n / 10), [last], 0);
      assert [last][1..] == [];
      assert Digits([last], n / 10) == Digits([], 10 * (n / 10) + n % 10);
    } else {
      assert [Digit(n)][1..] == [];
      assert Digits([Digit(n)], 0) == Digits([], n);
    }
  }

  /** atoi reads back what printf wrote, for every number. */
  lemma AtoiOfDecimal(n: nat)
    ensures Atoi(Decimal(n)) == n
  {
    DigitsOfDecimal(n);
    assert Decimal(n)[0] in Decimal(n);
  }

  function HexDigit(n: nat): char
    requires n < 16
  {
    if n < 10 then '0' + n as char else 'A' + (n - 10) as char
  }

  /** printf's %02X of a byte. */
  function Hex2(n: nat): (r: string)
    requires n < 256
    ensures |r| == 2
  {
    [HexDigit(n / 16), HexDigit(n % 16)]
  }

  /** Find gives the first place. */
  lemma {:induction false} FindIsFirst(s: string, pattern: string, i: nat)
    requires i + |pattern| <= |s| && s[i..i + |pattern|] == pattern
    ensures 0 <= Find(s, pattern) <= i
    decreases i
  {
    assert i == 0 ==> s[i..i + |pattern|] == s[..|pattern|];
    if !(pattern <= s) {
      assert s[1..][i - 1..i - 1 + |pattern|] == s[i..i + |pattern|];
      FindIsFirst(s[1..], pattern, i - 1);
    }
  }

  /** Decimal digits, the higher first. */
  lemma TwoDigits(n: nat)
    requires 10 <= n < 100
    ensures Decimal(n) == ["0123456789"[n / 10], "0123456789"[n % 10]]
  {}
}
