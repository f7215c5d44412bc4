/** Decimal text for natural numbers: Python's `str(n)`, `int(s)` on digit strings, and
    the thousands-grouped form `f"{n:,}"`. */
module Decimal {
  import opened Text

  predicate IsDigit(c: char)
  {
    '0' <= c <= '9'
  }

  predicate AllDigits(s: string)
  {
    forall i :: 0 <= i < |s| ==> IsDigit(s[i])
  }

  function DigitChar(d: nat): (c: char)
    requires d < 10
    ensures IsDigit(c)
  {
    ('0' as int + d) as char
  }

  function DigitValue(c: char): (d: nat)
    requires IsDigit(c)
    ensures d < 10 && DigitChar(d) == c
  {
    c as int - '0' as int
  }

  /** Python's `str(n)` for a natural number: at least one digit, and no leading zero
      unless the number itself is zero. */
  function DigitsOf(n: nat): (s: string)
    ensures |s| >= 1 && AllDigits(s)
    ensures s[0] == '0' ==> n == 0 && |s| == 1
    decreases n
  {
    if n < 10 then [DigitChar(n)] else DigitsOf(n / 10) + [DigitChar(n % 10)]
  }

  /** Python's `int(s)` on a string of ASCII digits (leading zeros allowed). */
  function ParseDigits(s: string): nat
    requires AllDigits(s)
  {
    if |s| == 0 then 0 else ParseDigits(s[..|s| - 1]) * 10 + DigitValue(s[|s| - 1])
  }

  /** Reading back the decimal text of `n` gives `n`. */
  lemma {:induction false} ParseDigitsOf(n: nat)
    ensures ParseDigits(DigitsOf(n)) == n
    decreases n
  {
    var s := DigitsOf(n);
    if n >= 10 {
      assert s[..|s| - 1] == DigitsOf(n / 10);
      ParseDigitsOf(n / 10);
    }
  }

  /** Different numbers have different decimal texts. */
  lemma DigitsOfInjective(a: nat, b: nat)
    requires DigitsOf(a) == DigitsOf(b)
    ensures a == b
  {
    ParseDigitsOf(a);
    ParseDigitsOf(b);
  }

  /** Python's `str(i)` for any integer. */
  function IntToString(i: int): (s: string)
    ensures |s| >= 1
    ensures i >= 0 ==> s == DigitsOf(i)
    ensures i < 0 ==> s == "-" + DigitsOf(-i)
  {
    if i < 0 then "-" + DigitsOf(-i) else DigitsOf(i)
  }

  /** The last three digits of a number below 1000, zero-padded. */
  function Pad3(k: nat): (s: string)
    requires k < 1000
    ensures |s| == 3 && AllDigits(s)
  {
    [DigitChar(k / 100), DigitChar(k / 10 % 10), DigitChar(k % 10)]
  }

  /** Python's `f"{n:,}"`: decimal digits with a comma between every group of three. */
  function Grouped(n: nat): (s: string)
    ensures |s| >= 1 && IsDigit(s[0]) && IsDigit(s[|s| - 1])
    ensures forall i :: 0 <= i < |s| ==> IsDigit(s[i]) || s[i] == ','
    decreases n
  {
    if n < 1000 then DigitsOf(n) else Grouped(n / 1000) + "," + Pad3(n % 1000)
  }

  /** The decimal text of a number of four or more digits ends in its last three digits. */
  lemma DigitsOfSplit(n: nat)
    requires n >= 1000
    ensures DigitsOf(n) == DigitsOf(n / 1000) + Pad3(n % 1000)
  {
    var a, b, c := n / 10, n / 100, n / 1000;
    ThousandsDigits(n);
    assert DigitsOf(n) == DigitsOf(a) + [DigitChar(n % 10)];
    assert DigitsOf(a) == DigitsOf(b) + [DigitChar(a % 10)];
    assert DigitsOf(b) == DigitsOf(c) + [DigitChar(b % 10)];
  }

  /** Peeling off three decimal digits one at a time agrees with dividing by 1000. */
  lemma ThousandsDigits(n: nat)
    ensures n / 10 / 10 == n / 100 && n / 100 / 10 == n / 1000
    ensures n / 100 % 10 == n % 1000 / 100 && n / 10 % 10 == n % 1000 / 10 % 10 && n % 10 == n % 1000 % 10
  {
    var q, r := n / 1000, n % 1000;
    assert n == 1000 * q + r;
    assert n / 10 == 100 * q + r / 10;
    assert n / 100 == 10 * q + r / 100;
  }

  /** The grouped form is `str(n)` with commas inserted, and nothing else. */
  lemma {:induction false} GroupedIsDigitsWithCommas(n: nat)
    ensures RemoveChar(Grouped(n), ',') == DigitsOf(n)
    decreases n
  {
    if n < 1000 {
      assert RemoveChar(DigitsOf(n), ',') == DigitsOf(n);
    } else {
      GroupedIsDigitsWithCommas(n / 1000);
      RemoveCommaBefore(Grouped(n / 1000), Pad3(n % 1000));
      DigitsOfSplit(n);
    }
  }

  /** Deleting the commas of "G,DDD" deletes those of G and the separating one. */
  lemma RemoveCommaBefore(g: string, p: string)
    requires AllDigits(p)
    ensures RemoveChar(g + "," + p, ',') == RemoveChar(g, ',') + p
  {
    assert RemoveChar(p, ',') == p by {
      assert forall i :: 0 <= i < |p| ==> p[i] != ',';
    }
    assert RemoveChar(",", ',') == "" by {
      assert ","[1..] == "";
    }
    RemoveCharAppend(g, ",", ',');
    assert RemoveChar(g + ",", ',') == RemoveChar(g, ',');
    RemoveCharAppend(g + ",", p, ',');
  }

  /** Numbers below 1000 are exactly those with at most three digits. */
  lemma DigitsOfShort(n: nat)
    ensures n < 1000 <==> |DigitsOf(n)| <= 3
  {
    if n >= 1000 {
      assert |DigitsOf(n)| == |DigitsOf(n / 10)| + 1;
      assert |DigitsOf(n / 10)| == |DigitsOf(n / 100)| + 1;
      assert |DigitsOf(n / 100)| == |DigitsOf(n / 1000)| + 1;
    } else if n >= 100 {
      assert |DigitsOf(n)| == |DigitsOf(n / 10)| + 1;
      assert |DigitsOf(n / 10)| == |DigitsOf(n / 100)| + 1;
    } else if n >= 10 {
      assert |DigitsOf(n)| == |DigitsOf(n / 10)| + 1;
    }
  }

  /** The shape of a thousands-grouped numeral: one to three digits, followed by any number of
      groups made of a comma and exactly three digits. */
  predicate IsThousandsForm(s: string)
    decreases |s|
  {
    if |s| <= 3 then |s| > 0 && AllDigits(s)
    else |s| >= 5 && s[|s| - 4] == ',' && AllDigits(s[|s| - 3..]) && IsThousandsForm(s[..|s| - 4])
  }

  /** `f"{n:,}"` has the thousands-grouped shape. */
  lemma {:induction false} GroupedShape(n: nat)
    ensures IsThousandsForm(Grouped(n))
    decreases n
  {
    if n < 1000 {
      DigitsOfShort(n);
    } else {
      var g, p := Grouped(n / 1000), Pad3(n % 1000);
      var s := g + "," + p;
      assert s[|s| - 4] == ',' && s[|s| - 3..] == p && s[..|s| - 4] == g;
      GroupedShape(n / 1000);
    }
  }

  /** A thousands-grouped numeral starts with a digit. */
  lemma {:induction false} ThousandsFormHead(s: string)
    requires IsThousandsForm(s)
    ensures IsDigit(s[0])
    decreases |s|
  {
    if |s| > 3 {
      ThousandsFormHead(s[..|s| - 4]);
    }
  }

  /** The commas of `f"{n:,}"` sit where the grouping puts them and nowhere else: the only
      thousands-grouped numeral whose digits are those of `n` is `f"{n:,}"`. */
  lemma {:induction false} GroupedUnique(s: string, n: nat)
    requires IsThousandsForm(s) && RemoveChar(s, ',') == DigitsOf(n)
    ensures s == Grouped(n)
    decreases |s|
  {
    if |s| <= 3 {
      assert forall i :: 0 <= i < |s| ==> s[i] != ',';
      DigitsOfShort(n);
    } else {
      var g, p := s[..|s| - 4], s[|s| - 3..];
      assert s == g + "," + p;
      RemoveCommaBefore(g, p);
      var head := RemoveChar(g, ',');
      assert |head| > 0 by {
        ThousandsFormHead(g);
        assert g == [g[0]] + g[1..];
        RemoveCharCons(g[0], g[1..], ',');
      }
      DigitsOfShort(n);
      DigitsOfSplit(n);
      SplitAtSameLength(head, p, DigitsOf(n / 1000), Pad3(n % 1000));
      GroupedUnique(g, n / 1000);
    }
  }

  /** Two concatenations with equally long tails are equal piecewise. */
  lemma SplitAtSameLength(a: string, b: string, c: string, d: string)
    requires a + b == c + d && |b| == |d|
    ensures a == c && b == d
  {
    assert a == (a + b)[..|a|];
    assert c == (c + d)[..|c|];
    assert b == (a + b)[|a|..];
    assert d == (c + d)[|c|..];
  }

  /** Commas deleted, then read as digits: Python's `int(s.replace(",", ""))`. */
  predicate IsGroupedNumber(s: string)
  {
    |s| > 0 && AllDigits(RemoveChar(s, ','))
  }

  function ParseGrouped(s: string): nat
    requires IsGroupedNumber(s)
  {
    ParseDigits(RemoveChar(s, ','))
  }

  /** Reading back the grouped text of `n` gives `n`. */
  lemma ParseGroupedOf(n: nat)
    ensures IsGroupedNumber(Grouped(n)) && ParseGrouped(Grouped(n)) == n
  {
    GroupedIsDigitsWithCommas(n);
    ParseDigitsOf(n);
  }

}
