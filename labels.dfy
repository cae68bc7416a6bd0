/** Chart labels: a Portuguese month abbreviation, a slash and the last two
    characters of the year's decimal representation, as in "Jun/24". */
module Labels {

  import Calendar

  /** `monthNames[m]`: the Portuguese abbreviation of month `m` (0-based). */
  function MonthName(m: int): (s: string)
    requires 0 <= m < 12
    ensures |s| == 3
  {
    match m
    case 0 => "Jan" case 1 => "Fev" case 2 => "Mar" case 3 => "Abr"
    case 4 => "Mai" case 5 => "Jun" case 6 => "Jul" case 7 => "Ago"
    case 8 => "Set" case 9 => "Out" case 10 => "Nov" case _ => "Dez"
  }

  function Digit(d: int): (c: char)
    requires 0 <= d < 10
    ensures '0' <= c <= '9' && c as int - '0' as int == d
  {
    ('0' as int + d) as char
  }

  /** Decimal representation of a natural number, without leading zeros. */
  function NatToString(n: nat): (s: string)
    ensures 1 <= |s|
  {
    if n < 10 then [Digit(n)] else NatToString(n / 10) + [Digit(n % 10)]
  }

  /** The last character is the units digit; from 10 on there is a
      character before it, the tens digit. */
  lemma NatToStringLastDigits(n: nat)
    ensures var s := NatToString(n);
            s[|s| - 1] == Digit(n % 10) &&
            (n < 10 <==> |s| == 1) &&
            (n >= 10 ==> s[|s| - 2] == Digit(n / 10 % 10))
  {
    if n >= 10 {
      NatToStringLastDigits(n / 10);
    }
  }

  /** `Number.prototype.toString()` on an integer year. */
  function IntToString(n: int): string
  {
    if n < 0 then "-" + NatToString(-n) else NatToString(n)
  }

  /** `year.toString().slice(-2)` as written: the last two characters of
      the decimal string, or the whole string when it is shorter. */
  function SliceYearString(year: int): string
  {
    var t := IntToString(year);
    t[(if |t| >= 2 then |t| - 2 else 0)..]
  }

  /** The same two (or fewer) characters, read off the number itself. */
  function YearSuffix(year: int): (s: string)
    ensures 1 <= |s| <= 2
  {
    if year >= 10 then [Digit(year % 100 / 10), Digit(year % 10)]
    else if year >= 0 then [Digit(year)]
    else if year > -10 then ['-', Digit(-year)]
    else [Digit(-year % 100 / 10), Digit(-year % 10)]
  }

  /** The label of month `m` (0-based) of `year`. */
  function MonthLabel(year: int, m: int): (l: string)
    requires 0 <= m < 12
    ensures 5 <= |l| <= 6
  {
    MonthName(m) + "/" + YearSuffix(year)
  }

  /** Division by ten is determined by any quotient and remainder pair. */
  lemma DivModTen(n: int, q: int, r: int)
    requires n == 10 * q + r && 0 <= r < 10
    ensures n / 10 == q && n % 10 == r
  {
  }

  /** `(n / 10) % 10` is the tens digit of `n % 100`. */
  lemma TensDigit(n: nat)
    ensures n / 10 % 10 == n % 100 / 10
  {
    var q, r := n / 100, n % 100;
    var a, b := r / 10, r % 10;
    DivModTen(n, 10 * q + a, b);
    DivModTen(10 * q + a, q, a);
  }

  /** The last two characters of a numeral from 10 on are the tens and
      units digits. */
  lemma NatToStringLastTwo(n: nat)
    requires n >= 10
    ensures var t := NatToString(n);
            t[|t| - 2..] == [Digit(n % 100 / 10), Digit(n % 10)]
  {
    var t, p := NatToString(n), NatToString(n / 10);
    NatToStringLastDigits(n / 10);
    TensDigit(n);
    assert t == p + [Digit(n % 10)];
    assert t[|t| - 2..] == [p[|p| - 1], Digit(n % 10)];
  }

  /** The arithmetic suffix is exactly what slicing the decimal string
      gives, for every year, negative ones included. */
  lemma YearSuffixMatchesString(year: int)
    ensures YearSuffix(year) == SliceYearString(year)
  {
    if year >= 10 {
      NatToStringLastTwo(year);
    } else if year <= -10 {
      var t := NatToString(-year);
      NatToStringLastTwo(-year);
      var u := "-" + t;
      assert u[|u| - 2..] == t[|t| - 2..];
    } else if year < 0 {
      NatToStringLastDigits(-year);
    } else {
      NatToStringLastDigits(year);
    }
  }

  /** The label is the template `${monthNames[m]}/${year.toString().slice(-2)}`
      itself, for every year. */
  lemma MonthLabelMatchesTemplate(year: int, m: int)
    requires 0 <= m < 12
    ensures MonthLabel(year, m) == MonthName(m) + "/" + SliceYearString(year)
  {
    YearSuffixMatchesString(year);
  }

  /** A label from year 10 on is six characters: the month name, a slash
      and two decimal digits of the year. */
  lemma MonthLabelFormat(year: int, m: int)
    requires year >= 10 && 0 <= m < 12
    ensures var l := MonthLabel(year, m);
            |l| == 6 && l[..3] == MonthName(m) && l[3] == '/' &&
            l[4..] == [Digit(year % 100 / 10), Digit(year % 10)]
  {
    var l := MonthLabel(year, m);
    assert |MonthName(m)| == 3;
    assert l[..3] == MonthName(m);
  }

  /** The twelve abbreviations are three letters each and pairwise distinct. */
  lemma MonthNamesDistinct(m1: int, m2: int)
    requires 0 <= m1 < 12 && 0 <= m2 < 12
    ensures |MonthName(m1)| == 3
    ensures MonthName(m1) == MonthName(m2) <==> m1 == m2
  {
  }

  /** Two strings split at the same length are equal exactly when both
      halves are. */
  lemma ConcatEqual(a1: string, b1: string, a2: string, b2: string)
    requires |a1| == |a2|
    ensures a1 + b1 == a2 + b2 <==> a1 == a2 && b1 == b2
  {
    if a1 + b1 == a2 + b2 {
      assert a1 == (a1 + b1)[..|a1|] && a2 == (a2 + b2)[..|a2|];
      assert b1 == (a1 + b1)[|a1|..] && b2 == (a2 + b2)[|a2|..];
    }
  }

  /** `n % 100` is ten times its tens digit plus the units digit of `n`. */
  lemma LastTwoDigits(n: int)
    ensures n % 100 == 10 * (n % 100 / 10) + n % 10
  {
    var q, r := n / 100, n % 100;
    var a, b := r / 10, r % 10;
    DivModTen(n, 10 * q + a, b);
  }

  /** From year 10 on, two suffixes are equal exactly when the years agree
      modulo 100. */
  lemma YearSuffixInjective(y1: int, y2: int)
    requires y1 >= 10 && y2 >= 10
    ensures YearSuffix(y1) == YearSuffix(y2) <==> y1 % 100 == y2 % 100
  {
    LastTwoDigits(y1);
    LastTwoDigits(y2);
    if YearSuffix(y1) == YearSuffix(y2) {
      assert YearSuffix(y1)[0] == YearSuffix(y2)[0] && YearSuffix(y1)[1] == YearSuffix(y2)[1];
    }
  }

  /** Two labels (years 10 on) are equal exactly when they name the same
      month of years with the same last two digits. */
  lemma MonthLabelInjective(y1: int, m1: int, y2: int, m2: int)
    requires y1 >= 10 && y2 >= 10 && 0 <= m1 < 12 && 0 <= m2 < 12
    ensures MonthLabel(y1, m1) == MonthLabel(y2, m2) <==> m1 == m2 && y1 % 100 == y2 % 100
  {
    MonthNamesDistinct(m1, m2);
    ConcatEqual(MonthName(m1) + "/", YearSuffix(y1), MonthName(m2) + "/", YearSuffix(y2));
    ConcatEqual(MonthName(m1), "/", MonthName(m2), "/");
    YearSuffixInjective(y1, y2);
  }

  /** Labels of different months less than a year apart differ, whatever
      the year: their first three characters already do. */
  lemma MonthLabelsDistinctWithinYear(y1: int, m1: int, y2: int, m2: int)
    requires 0 <= m1 < 12 && 0 <= m2 < 12
    requires 0 < Calendar.MonthOrdinal(y2, m2) - Calendar.MonthOrdinal(y1, m1) < 12
    ensures MonthLabel(y1, m1) != MonthLabel(y2, m2)
  {
    MonthNamesDistinct(m1, m2);
    assert MonthLabel(y1, m1)[..3] == MonthName(m1);
    assert MonthLabel(y2, m2)[..3] == MonthName(m2);
  }
}
