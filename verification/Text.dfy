/** Decimal numerals, as %d and template strings print them, and a reader for them. */
module Text {
  import opened Wrappers

  const DIGITS: string := "0123456789"

  /** The decimal numeral of n, without leading zeros. */
  function Decimal(n: nat): (s: string)
    ensures |s| > 0
  {
    if n < 10 then [DIGITS[n]] else Decimal(n / 10) + [DIGITS[n % 10]]
  }

  predicate IsDigit(c: char) {
    '0' <= c <= '9'
  }

  ghost predicate AllDigits(s: string) {
    forall i | 0 <= i < |s| :: IsDigit(s[i])
  }

  /** The number that a string of digits denotes. */
  function Numeral(s: string): nat
    requires AllDigits(s)
  {
    if s == [] then 0 else 10 * Numeral(s[..|s| - 1]) + (s[|s| - 1] - '0') as nat
  }

  /** The longest prefix of digits. */
  function DigitPrefix(s: string): (n: nat)
    ensures n <= |s| && AllDigits(s[..n])
    ensures n < |s| ==> !IsDigit(s[n])
  {
    if s == [] || !IsDigit(s[0]) then 0
    else
      var n := DigitPrefix(s[1..]);
      assert s[..n + 1] == [s[0]] + s[1..][..n];
      n + 1
  }

  lemma {:induction false} DecimalReadsBack(n: nat)
    ensures AllDigits(Decimal(n)) && Numeral(Decimal(n)) == n
  {
    assert forall d | 0 <= d < 10 :: IsDigit(DIGITS[d]) && (DIGITS[d] - '0') as nat == d;
    if n >= 10 {
      DecimalReadsBack(n / 10);
      var s := Decimal(n);
      assert s[..|s| - 1] == Decimal(n / 10);
    } else {
      assert Decimal(n)[..0] == [];
    }
  }

  /** Digits followed by a non-digit are read exactly. */
  lemma {:induction false} DigitPrefixStops(s: string, rest: string)
    requires AllDigits(s) && (rest == [] || !IsDigit(rest[0]))
    ensures DigitPrefix(s + rest) == |s|
  {
    if s != [] {
      assert AllDigits(s[1..]);
      DigitPrefixStops(s[1..], rest);
      assert (s + rest)[1..] == s[1..] + rest;
    } else {
      assert s + rest == rest;
    }
  }

  /** The strings with a separator between them. */
  function Join(fields: seq<string>, separator: string): string
    requires fields != []
  {
    if |fields| == 1 then fields[0] else fields[0] + separator + Join(fields[1..], separator)
  }

  lemma CancelPrefix(a: string, x: string, y: string)
    requires a + x == a + y
    ensures x == y
  {
    assert x == (a + x)[|a|..] && y == (a + y)[|a|..];
  }

  lemma CancelSuffix(x: string, y: string, b: string)
    requires x + b == y + b
    ensures x == y
  {
    assert |x| == |y|;
    assert x == (x + b)[..|x|] && y == (y + b)[..|x|];
  }

  /** Lists that differ in one place join to different strings. */
  lemma {:induction false} JoinTellsOneField(fields: seq<string>, k: nat, other: string, separator: string)
    requires k < |fields| && Join(fields[k := other], separator) == Join(fields, separator)
    ensures fields[k] == other
  {
    var more := fields[k := other];
    if |fields| > 1 {
      if k == 0 {
        assert more[1..] == fields[1..];
        var rest := separator + Join(fields[1..], separator);
        assert fields[0] + rest == Join(fields, separator) && other + rest == Join(more, separator);
        CancelSuffix(fields[0], other, rest);
      } else {
        assert more[1..] == fields[1..][k - 1 := other];
        CancelPrefix(fields[0] + separator, Join(fields[1..], separator), Join(more[1..], separator));
        JoinTellsOneField(fields[1..], k - 1, other, separator);
      }
    }
  }

  lemma {:induction false} JoinSix(a: string, b: string, c: string, d: string, e: string, f: string, bar: string)
    ensures Join([a, b, c, d, e, f], bar) == a + bar + (b + bar + (c + bar + (d + bar + (e + bar + f))))
  {
    assert [a, b, c, d, e, f][1..] == [b, c, d, e, f];
    assert [b, c, d, e, f][1..] == [c, d, e, f];
    assert [c, d, e, f][1..] == [d, e, f];
    assert [d, e, f][1..] == [e, f];
    assert [e, f][1..] == [f];
    assert Join([e, f], bar) == e + bar + f;
    assert Join([d, e, f], bar) == d + bar + Join([e, f], bar);
    assert Join([c, d, e, f], bar) == c + bar + Join([d, e, f], bar);
    assert Join([b, c, d, e, f], bar) == b + bar + Join([c, d, e, f], bar);
  }
}
