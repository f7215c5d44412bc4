/** The budget column's display form: `format_money` inside `handle_success`
    (narasearch_v1.py, lines 719-735). An amount is shown in units of 억 (10^8 won) and
    만 (10^4 won), and only amounts below 만 fall back to the grouped won figure. */
module Money {
  import opened Common
  import opened Text
  import opened Decimal

  const Eok: nat := 100000000
  const Man: nat := 10000

  /** How `float(str(x).replace(",", ""))` reads a cell text, as far as the display goes:
      blank, a non-negative number (only its integer part matters), or not a number. */
  datatype Amount = Blank | Whole(n: nat) | Unparsed

  /** The number of leading ASCII digits of `s`. */
  function LeadingDigits(s: string): (k: nat)
    ensures k <= |s| && AllDigits(s[..k])
    ensures k < |s| ==> !IsDigit(s[k])
  {
    if |s| == 0 || !IsDigit(s[0]) then 0
    else
      var k := 1 + LeadingDigits(s[1..]);
      assert s[..k] == [s[0]] + s[1..][..k - 1];
      k
  }

  /** The text `float` sees: commas removed, surrounding whitespace ignored. */
  function AmountText(x: string): string
  {
    Strip(RemoveChar(x, ','))
  }

  /** The decimal texts this model reads, split at the first point: digits, or digits, a point
      and digits (possibly none, as in "5."). Every other non-blank text makes `float` raise in
      the forms the model covers, and the cell is echoed. */
  predicate IsDecimalText(t: string)
  {
    match IndexOf(t, '.')
    case None => |t| > 0 && AllDigits(t)
    case Some(k) => k > 0 && AllDigits(t[..k]) && AllDigits(t[k + 1..])
  }

  /** The digits before the first point. */
  function IntegerPart(t: string): string
  {
    match IndexOf(t, '.')
    case None => t
    case Some(k) => t[..k]
  }

  /** Scanning the leading digits and looking at what follows accepts exactly the decimal
      texts, and the digits it reads are their integer part. */
  /** The digit scan stops no later than the first character that is not a digit. */
  lemma LeadingDigitsBelow(t: string, j: nat)
    requires j < |t| && !IsDigit(t[j])
    ensures LeadingDigits(t) <= j
  {
  }

  /** A run of digits ended by a non-digit (or by the end) is exactly what the scan finds. */
  lemma LeadingDigitsAt(t: string, j: nat)
    requires j <= |t| && AllDigits(t[..j]) && (j < |t| ==> !IsDigit(t[j]))
    ensures LeadingDigits(t) == j
  {
    if j < |t| {
      LeadingDigitsBelow(t, j);
    }
  }

  /** The scan in `ParseAmount` accepts a text with no point exactly when it is a decimal text. */
  lemma ScanNoPoint(t: string)
    requires '.' !in t
    ensures var k := LeadingDigits(t);
      (k > 0 && (k == |t| || (t[k] == '.' && AllDigits(t[k + 1..])))) <==> IsDecimalText(t)
    ensures IsDecimalText(t) ==> LeadingDigits(t) == |t|
  {
    if AllDigits(t) {
      assert t[..|t|] == t;
      LeadingDigitsAt(t, |t|);
    }
    var k := LeadingDigits(t);
    if k == |t| {
      assert t[..k] == t;
    }
  }

  /** The scan accepts a text whose first point is at `j` exactly when it is a decimal text,
      and then stops at `j`. */
  lemma ScanAtPoint(t: string, j: nat)
    requires IndexOf(t, '.') == Some(j)
    ensures var k := LeadingDigits(t);
      (k > 0 && (k == |t| || (t[k] == '.' && AllDigits(t[k + 1..])))) <==> IsDecimalText(t)
    ensures IsDecimalText(t) ==> LeadingDigits(t) == j
  {
    LeadingDigitsBelow(t, j);
    if AllDigits(t[..j]) {
      LeadingDigitsAt(t, j);
    }
  }

  /** The digit scan of `ParseAmount` reads a text as a number exactly when it is a decimal
      text, and then its digits are the integer part. */
  lemma ScanIsDecimal(t: string)
    ensures var k := LeadingDigits(t);
      && ((k > 0 && (k == |t| || (t[k] == '.' && AllDigits(t[k + 1..])))) <==> IsDecimalText(t))
      && (IsDecimalText(t) ==> t[..k] == IntegerPart(t))
  {
    match IndexOf(t, '.')
    case None =>
      ScanNoPoint(t);
      assert t[..|t|] == t;
    case Some(j) =>
      ScanAtPoint(t, j);
  }


  /** How `float(str(x).replace(",", ""))` reads a cell, in the forms the model covers: blank,
      a decimal text read as its integer part, or anything else, which makes `float` raise. */
  function ParseAmount(x: string): (a: Amount)
    ensures a.Blank? <==> Strip(x) == ""
    ensures a.Whole? ==> |AmountText(x)| > 0 && IsDigit(AmountText(x)[0])
    ensures Strip(x) != "" && |AmountText(x)| > 0 && AllDigits(AmountText(x)) ==> a == Whole(ParseDigits(AmountText(x)))
  {
    if x == "" || Strip(x) == "" then Blank
    else
      var t := AmountText(x);
      var k := LeadingDigits(t);
      assert AllDigits(t) ==> k == |t| && t[..k] == t;
      if k > 0 && (k == |t| || (t[k] == '.' && AllDigits(t[k + 1..]))) then Whole(ParseDigits(t[..k]))
      else Unparsed
  }

  /** A non-blank cell is read as a number exactly when its comma-free, stripped text is a
      decimal text, and then as the integer part of that text; every other non-blank cell is
      not a number. */
  lemma ParseAmountAccepts(x: string)
    ensures ParseAmount(x).Whole? <==> Strip(x) != "" && IsDecimalText(AmountText(x))
    ensures ParseAmount(x).Unparsed? <==> Strip(x) != "" && !IsDecimalText(AmountText(x))
    ensures ParseAmount(x).Whole? ==> ParseAmount(x).n == ParseDigits(IntegerPart(AmountText(x)))
  {
    ScanIsDecimal(AmountText(x));
  }

  /** The 억/만 rendering of a non-negative amount. */
  function FormatWon(n: nat): (r: string)
    ensures |r| > 0
  {
    var eok := n / Eok;
    var man := n % Eok / Man;
    var units :=
      (if eok > 0 then DigitsOf(eok) + "억" else "")
      + (if eok > 0 && man > 0 then " " else "")
      + (if man > 0 then Grouped(man) + "만원" else "");
    if units == "" then Grouped(n) + "원" else units
  }

  /** The grouped won figure is the form exactly for amounts below 만; from 만 on the text
      ends in a 억 or a 만 unit. */
  lemma FormatWonForms(n: nat)
    ensures n < Man ==> FormatWon(n) == Grouped(n) + "원"
    ensures n >= Man ==> EndsWith(FormatWon(n), "억") || EndsWith(FormatWon(n), "만원")
  {
    UnitSplit(n);
    FormatWonShape(n);
  }

  /** `format_money` on one cell text: "-" for a blank cell, the 억/만 form for a number, and
      the text unchanged when it is not a number. */
  function FormatMoney(x: string): (r: string)
    ensures Strip(x) == "" ==> r == "-"
    ensures ParseAmount(x).Unparsed? ==> r == x
    ensures ParseAmount(x).Whole? ==> r == FormatWon(ParseAmount(x).n)
  {
    match ParseAmount(x)
    case Blank => "-"
    case Whole(n) => FormatWon(n)
    case Unparsed => x
  }

  /** A non-blank cell that is not a decimal text ("1abc", "1.2.3", "100원") is echoed
      unchanged, the `except` branch of `format_money`. */
  lemma FormatMoneyEchoes(x: string)
    requires Strip(x) != "" && !IsDecimalText(AmountText(x))
    ensures FormatMoney(x) == x
  {
    ParseAmountAccepts(x);
  }

  /** The figures a display shows: a count of 억, a count of 만, and plain won. */
  datatype Figures = Figures(eok: nat, man: nat, won: nat)

  /** The amount in won that the figures stand for. */
  function Total(f: Figures): nat
  {
    f.eok * Eok + f.man * Man + f.won
  }

  /** Reads a displayed amount back into its figures: "D억", "D억 G만원", "G만원" or "G원". */
  function DecodeWon(s: string): Option<Figures>
  {
    if |s| >= 2 && s[|s| - 2] == '만' && s[|s| - 1] == '원' then DecodeMan(s[..|s| - 2])
    else if |s| >= 1 && s[|s| - 1] == '억' then
      var d := s[..|s| - 1];
      if |d| > 0 && AllDigits(d) then Some(Figures(ParseDigits(d), 0, 0)) else None
    else if |s| >= 1 && s[|s| - 1] == '원' then
      var g := s[..|s| - 1];
      if IsGroupedNumber(g) then Some(Figures(0, 0, ParseGrouped(g))) else None
    else None
  }

  /** The text before "만원": "G", or "D억 G". */
  function DecodeMan(t: string): Option<Figures>
  {
    match IndexOf(t, '억')
    case None => if IsGroupedNumber(t) then Some(Figures(0, ParseGrouped(t), 0)) else None
    case Some(k) => DecodeEokMan(t[..k], t[k + 1..])
  }

  /** "D" and " G" around the 억 unit. */
  function DecodeEokMan(d: string, g: string): Option<Figures>
  {
    if |d| > 0 && AllDigits(d) && |g| > 0 && g[0] == ' ' && IsGroupedNumber(g[1..])
    then Some(Figures(ParseDigits(d), ParseGrouped(g[1..]), 0))
    else None
  }

  /** An amount of at least one 만 splits into whole 억, whole 만 below that, and a remainder
      below 만. */
  lemma UnitSplit(n: nat)
    ensures n / Eok * Eok + n % Eok / Man * Man + n % Man == n
    ensures n % Eok / Man < Eok / Man
    ensures n < Man <==> n / Eok == 0 && n % Eok / Man == 0
  {
    var q, r := n / Eok, n % Eok;
    var m, s := r / Man, r % Man;
    assert r == m * Man + s;
    assert n == (q * 10000 + m) * Man + s;
    ManDivUnique(n, q * 10000 + m, s);
  }

  /** Division by 만 is unique: the quotient and remainder are determined by any split. */
  lemma ManDivUnique(n: nat, k: nat, r: nat)
    requires r < Man && n == k * Man + r
    ensures n / Man == k && n % Man == r
  {
  }

  /** "G원" reads back as G. */
  lemma DecodeWonFigure(n: nat)
    ensures DecodeWon(Grouped(n) + "원") == Some(Figures(0, 0, n))
  {
    var g := Grouped(n);
    var s := g + "원";
    assert s[|s| - 2] == g[|g| - 1];
    assert s[..|s| - 1] == g;
    ParseGroupedOf(n);
  }

  /** "D억" reads back as D 억. */
  lemma DecodeEokOnly(e: nat)
    ensures DecodeWon(DigitsOf(e) + "억") == Some(Figures(e, 0, 0))
  {
    var d := DigitsOf(e);
    var s := d + "억";
    assert s[..|s| - 1] == d;
    ParseDigitsOf(e);
  }

  /** "G만원" reads back as G 만. */
  lemma DecodeManOnly(m: nat)
    ensures DecodeWon(Grouped(m) + "만원") == Some(Figures(0, m, 0))
  {
    var g := Grouped(m);
    var s := g + "만원";
    assert s[..|s| - 2] == g;
    assert DecodeMan(g) == Some(Figures(0, m, 0)) by {
      assert '억' !in g;
      ParseGroupedOf(m);
    }
  }

  /** "D억 G만원" reads back as D 억 and G 만. */
  lemma DecodeEokAndMan(e: nat, m: nat)
    ensures DecodeWon(DigitsOf(e) + "억" + " " + Grouped(m) + "만원") == Some(Figures(e, m, 0))
  {
    var t := DigitsOf(e) + ("억" + " " + Grouped(m));
    var s := DigitsOf(e) + "억" + " " + Grouped(m) + "만원";
    assert s[..|s| - 2] == t;
    DecodeManEok(e, m);
  }

  /** "D억 G" before "만원" reads as D 억 and G 만. */
  lemma DecodeManEok(e: nat, m: nat)
    ensures DecodeMan(DigitsOf(e) + ("억" + " " + Grouped(m))) == Some(Figures(e, m, 0))
  {
    DecodeManAtEok(DigitsOf(e), Grouped(m));
    DecodeEokManOf(e, m);
  }

  /** Before "만원", text with a 억 after digits is read around that 억. */
  lemma DecodeManAtEok(d: string, g: string)
    requires AllDigits(d)
    ensures DecodeMan(d + ("억" + " " + g)) == DecodeEokMan(d, " " + g)
  {
    EokSplit(d, g);
  }

  /** The parts around 억 read back as the two counts. */
  lemma DecodeEokManOf(e: nat, m: nat)
    ensures DecodeEokMan(DigitsOf(e), " " + Grouped(m)) == Some(Figures(e, m, 0))
  {
    assert (" " + Grouped(m))[1..] == Grouped(m);
    ParseDigitsOf(e);
    ParseGroupedOf(m);
  }

  /** The first 억 of "D억 G" is the one after the digits. */
  lemma EokSplit(d: string, g: string)
    requires AllDigits(d)
    ensures var t := d + ("억" + " " + g);
      && IndexOf(t, '억') == Some(|d|) && t[..|d|] == d && t[|d| + 1..] == " " + g
  {
    var rest := "억" + " " + g;
    var t := d + rest;
    assert '억' !in d;
    IndexOfAfter(d, rest, '억');
    assert t[..|d|] == d;
    assert t[|d| + 1..] == " " + g;
  }

  /** The display shows the whole 억 and the whole 만 below them, and the won figure only for
      amounts below 만. */
  lemma DecodeFormatWon(n: nat)
    ensures DecodeWon(FormatWon(n)) == Some(Figures(n / Eok, n % Eok / Man, if n < Man then n else 0))
  {
    var eok := n / Eok;
    var man := n % Eok / Man;
    UnitSplit(n);
    FormatWonShape(n);
    if eok == 0 && man == 0 {
      DecodeWonFigure(n);
    } else if man == 0 {
      DecodeEokOnly(eok);
    } else if eok == 0 {
      DecodeManOnly(man);
    } else {
      DecodeEokAndMan(eok, man);
    }
  }

  /** The display loses nothing but the won below one 만: reading it back gives the amount
      itself below 만, and the amount rounded down to whole 만 from there on. */
  lemma DecodeFormatWonTotal(n: nat)
    ensures DecodeWon(FormatWon(n)).Some?
    ensures Total(DecodeWon(FormatWon(n)).value) == if n < Man then n else n - n % Man
  {
    DecodeFormatWon(n);
    UnitSplit(n);
  }

  /** The four shapes of the display, by which of the 억 and 만 parts are non-zero. */
  lemma FormatWonShape(n: nat)
    ensures var eok, man := n / Eok, n % Eok / Man;
      && (eok == 0 && man == 0 ==> FormatWon(n) == Grouped(n) + "원")
      && (eok > 0 && man == 0 ==> FormatWon(n) == DigitsOf(eok) + "억")
      && (eok == 0 && man > 0 ==> FormatWon(n) == Grouped(man) + "만원")
      && (eok > 0 && man > 0 ==> FormatWon(n) == DigitsOf(eok) + "억" + " " + Grouped(man) + "만원")
  {
  }

  /** A number's decimal text is its own amount text. */
  lemma AmountTextOfDigits(d: string)
    requires |d| > 0 && AllDigits(d)
    ensures Strip(d) != "" && AmountText(d) == d
  {
    assert forall i :: 0 <= i < |d| ==> d[i] != ',';
    assert !IsSpace(d[0]) && !IsSpace(d[|d| - 1]);
    StripKeeps(d);
  }

  /** A text that starts and ends with a digit is left alone by `Strip`. */
  lemma StripDigitEnds(s: string)
    requires |s| > 0 && IsDigit(s[0]) && IsDigit(s[|s| - 1])
    ensures Strip(s) == s
  {
    StripKeeps(s);
  }

  /** The amount text of a grouped number is its plain decimal text. */
  lemma AmountTextOfGrouped(n: nat)
    ensures Strip(Grouped(n)) != "" && AmountText(Grouped(n)) == DigitsOf(n)
  {
    GroupedIsDigitsWithCommas(n);
    AmountTextOfDigits(DigitsOf(n));
    StripDigitEnds(Grouped(n));
  }

  /** Commas in the cell do not matter: the grouped and the plain decimal text of an amount
      are shown alike. */
  lemma FormatMoneyIgnoresCommas(n: nat)
    ensures FormatMoney(Grouped(n)) == FormatWon(n)
    ensures FormatMoney(DigitsOf(n)) == FormatWon(n)
  {
    var d, g := DigitsOf(n), Grouped(n);
    ParseDigitsOf(n);
    assert ParseAmount(d) == Whole(n) by {
      AmountTextOfDigits(d);
    }
    assert ParseAmount(g) == Whole(n) by {
      AmountTextOfGrouped(n);
    }
  }

  /** A fractional part is dropped: "D.F" is shown as "D". The bound keeps the claim inside
      what a double holds exactly enough: with at most 15 digits in all, the gap between D.F
      and D + 1 is more than half a unit in the last place, so `float` cannot round up. */
  lemma FormatMoneyDropsFraction(n: nat, f: nat)
    requires |DigitsOf(n)| + |DigitsOf(f)| <= 15
    ensures FormatMoney(DigitsOf(n) + "." + DigitsOf(f)) == FormatWon(n)
  {
    ParseAmountDecimal(DigitsOf(n), DigitsOf(f));
    ParseDigitsOf(n);
  }

  /** "D.F" is read as the number D, for at most 15 digits in all (see the note on
      `FormatMoneyDropsFraction`). */
  lemma ParseAmountDecimal(d: string, e: string)
    requires |d| > 0 && AllDigits(d) && |e| > 0 && AllDigits(e)
    requires |d| + |e| <= 15
    ensures ParseAmount(d + "." + e) == Whole(ParseDigits(d))
  {
    var x := d + "." + e;
    DecimalParts(d, e);
    DecimalTextClean(d, e);
    ParseAmountAtPoint(x, |d|);
  }

  /** "D.F" splits at the point into its digits. */
  lemma DecimalParts(d: string, e: string)
    requires |d| > 0 && AllDigits(d) && |e| > 0 && AllDigits(e)
    ensures var x := d + "." + e;
      && |d| < |x| && x[..|d|] == d && x[|d|] == '.' && AllDigits(x[|d| + 1..])
      && LeadingDigits(x) == |d|
  {
    var x := d + "." + e;
    assert x == d + ("." + e);
    assert x[..|d|] == d && x[|d|] == '.' && x[|d| + 1..] == e;
    LeadingDigitsPrefix(d, "." + e);
  }

  /** "D.F" has no comma and no surrounding whitespace. */
  lemma DecimalTextClean(d: string, e: string)
    requires |d| > 0 && AllDigits(d) && |e| > 0 && AllDigits(e)
    ensures Strip(d + "." + e) != "" && AmountText(d + "." + e) == d + "." + e
  {
    var x := d + "." + e;
    var k := |d|;
    forall i | 0 <= i < |x| ensures x[i] != ',' {
      if i < k { assert x[i] == d[i]; } else if i > k { assert x[i] == e[i - k - 1]; }
    }
    assert x[|x| - 1] == e[|e| - 1];
    StripDigitEnds(x);
  }

  /** A clean text whose leading digits stop at a point followed by digits reads as those
      leading digits. */
  lemma ParseAmountAtPoint(x: string, k: nat)
    requires Strip(x) != "" && AmountText(x) == x
    requires LeadingDigits(x) == k && 0 < k < |x| && x[k] == '.' && AllDigits(x[k + 1..])
    ensures ParseAmount(x) == Whole(ParseDigits(x[..k]))
  {
  }

  /** Digits followed by a non-digit: the leading digits are exactly the digits. */
  lemma {:induction false} LeadingDigitsPrefix(d: string, rest: string)
    requires AllDigits(d)
    requires |rest| > 0 && !IsDigit(rest[0])
    ensures LeadingDigits(d + rest) == |d|
    decreases |d|
  {
    if |d| > 0 {
      assert (d + rest)[1..] == d[1..] + rest;
      LeadingDigitsPrefix(d[1..], rest);
    }
  }

  /** 150,000,000 won is shown as "1억 5,000만원". */
  lemma FormatEokAndMan()
    ensures FormatWon(150000000) == "1억 5,000만원"
  {
    assert Grouped(5000) == "5,000";
  }

  /** 50,000 won is shown as "5만원", not as a grouped won figure. */
  lemma FormatManOnly()
    ensures FormatWon(50000) == "5만원"
  {
  }

  /** An amount below 만 keeps the grouped won figure. */
  lemma FormatWonOnly()
    ensures FormatWon(9999) == "9,999원"
  {
    assert Grouped(9999) == "9,999";
  }

}
