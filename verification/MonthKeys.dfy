/** The `YYYY-MM` key of a month: printing, parsing it back, and its order as a string. */
module MonthKeys {
  import opened Text
  import opened Calendar

  const DIGITS := "0123456789"

  predicate IsDigit(c: char) {
    '0' <= c <= '9'
  }

  predicate AllDigits(s: string) {
    forall i :: 0 <= i < |s| ==> IsDigit(s[i])
  }

  function Digit(d: int): (c: char)
    requires 0 <= d <= 9
    ensures IsDigit(c) && c as int == 48 + d
  {
    DIGITS[d]
  }

  function DigitValue(c: char): (d: int)
    ensures IsDigit(c) ==> 0 <= d <= 9
  {
    c as int - 48
  }

  function Digits(n: nat): (s: string)
    ensures s != "" && AllDigits(s)
  {
    if n < 10 then [Digit(n)] else Digits(n / 10) + [Digit(n % 10)]
  }

  function IntToString(n: int): string {
    if n < 0 then "-" + Digits(-n) else Digits(n)
  }

  /** `String(n).padStart(2, '0')` */
  function PadTwo(n: nat): string {
    if n < 10 then "0" + Digits(n) else Digits(n)
  }

  function MonthKeyUtc(t: int): string {
    IntToString(GetUTCFullYear(t)) + "-" + PadTwo(GetUTCMonth(t) + 1)
  }

  function DecimalValue(s: string): int {
    if s == "" then 0 else 10 * DecimalValue(s[..|s| - 1]) + DigitValue(s[|s| - 1])
  }

  /** `Number` on the texts a key can be split into: digits, or nothing at all. */
  function Number(s: string): Option<int> {
    if AllDigits(s) then Some(DecimalValue(s)) else None
  }

  /** The first two parts are taken as year and month; anything but numbers gives an invalid date. */
  function ParseMonthKey(key: string): Option<int> {
    var parts := Split(key, '-');
    if |parts| < 2 then None
    else
      var y, m := Number(parts[0]), Number(parts[1]);
      if y.None? || m.None? then None else Some(DateUTC(y.value, m.value - 1, 1, 0))
  }

  lemma {:induction false} DigitsHaveValue(n: nat)
    ensures DecimalValue(Digits(n)) == n
  {
    if n >= 10 {
      DigitsHaveValue(n / 10);
      var s := Digits(n);
      assert s[..|s| - 1] == Digits(n / 10);
    }
  }

  lemma {:induction false} PadHasValue(n: nat)
    requires n < 100
    ensures |PadTwo(n)| == 2 && DecimalValue(PadTwo(n)) == n
    ensures AllDigits(PadTwo(n))
  {
    DigitsHaveValue(n);
    if n < 10 {
      var s := PadTwo(n);
      assert s[..1] == "0" && "0"[..0] == "";
    } else {
      assert Digits(n) == [Digit(n / 10)] + [Digit(n % 10)];
    }
  }

  lemma {:induction false} SplitDigits(digits: string, rest: string)
    requires AllDigits(digits)
    ensures Split(digits + "-" + rest, '-') == [digits] + Split(rest, '-')
  {
    var s := digits + "-" + rest;
    if digits == "" {
      assert s[1..] == rest;
    } else {
      SplitDigits(digits[1..], rest);
      assert s[1..] == digits[1..] + "-" + rest;
      assert [s[0]] + digits[1..] == digits;
    }
  }

  lemma {:induction false} SplitOnlyDigits(digits: string)
    requires AllDigits(digits)
    ensures Split(digits, '-') == [digits]
  {
    if digits != "" {
      SplitOnlyDigits(digits[1..]);
      assert [digits[0]] + digits[1..] == digits;
    }
  }

  lemma {:induction false} ParseTwoParts(year: string, month: string)
    requires AllDigits(year) && AllDigits(month)
    ensures ParseMonthKey(year + "-" + month) == Some(DateUTC(DecimalValue(year), DecimalValue(month) - 1, 1, 0))
  {
    hide DateUTC, DecimalValue;
    SplitDigits(year, month);
    SplitOnlyDigits(month);
  }

  /** A leading minus sign leaves an empty first part, so the digits of the year are read as the month. */
  lemma {:induction false} ParseNegativeYear(year: string, month: string)
    requires AllDigits(year) && AllDigits(month)
    ensures ParseMonthKey("-" + year + "-" + month) == Some(DateUTC(0, DecimalValue(year) - 1, 1, 0))
  {
    hide DateUTC;
    var key := "-" + year + "-" + month;
    assert key == "" + "-" + (year + "-" + month);
    SplitDigits("", year + "-" + month);
    SplitDigits(year, month);
    SplitOnlyDigits(month);
  }

  lemma {:induction false} ParsePrinted(y: int, m: nat)
    requires m < 99
    ensures ParseMonthKey(IntToString(y) + "-" + PadTwo(m + 1))
         == Some(if y >= 0 then DateUTC(y, m, 1, 0) else DateUTC(0, -y - 1, 1, 0))
  {
    hide ParseMonthKey, DateUTC;
    PadHasValue(m + 1);
    DigitsHaveValue(if y < 0 then -y else y);
    if y >= 0 {
      ParseTwoParts(Digits(y), PadTwo(m + 1));
    } else {
      ParseNegativeYear(Digits(-y), PadTwo(m + 1));
    }
  }

  /** Parsing a printed key gives the start of the month exactly when the year is not negative. */
  lemma {:induction false} ParseMonthKeyInverts(t: int)
    ensures ParseMonthKey(MonthKeyUtc(t)) == Some(StartOfUtcMonth(t)) <==> GetUTCFullYear(t) >= 0
  {
    hide GetUTCFullYear, GetUTCMonth, DateUTC, MonthStart;
    var y, m := GetUTCFullYear(t), GetUTCMonth(t);
    ParsePrinted(y, m);
    if y < 0 {
      DateUTCIsMonthStart(0, -y - 1);
      DateUTCIsMonthStart(y, m);
      MonthStartsAscend(12 * 1900 - y - 1, 12 * y + m);
      MonthStartsAscend(12 * y + m, 12 * 1900 - y - 1);
    }
  }

  // ----- Order of keys -----

  lemma {:induction false} LessIsIrreflexive(s: string)
    ensures !Less(s, s)
  {
    if s != "" {
      LessIsIrreflexive(s[1..]);
    }
  }

  lemma {:induction false} LessAppend(a: string, b: string, x: string, y: string)
    requires |a| == |b|
    ensures Less(a + x, b + y) <==> Less(a, b) || (a == b && Less(x, y))
  {
    if a == "" {
      assert a + x == x && b + y == y;
    } else {
      LessAppend(a[1..], b[1..], x, y);
      assert (a + x)[1..] == a[1..] + x && (b + y)[1..] == b[1..] + y;
      assert a == [a[0]] + a[1..] && b == [b[0]] + b[1..];
    }
  }

  lemma {:induction false} LessIsValueOrder(a: string, b: string)
    requires |a| == |b|
    requires AllDigits(a) && AllDigits(b)
    ensures Less(a, b) <==> DecimalValue(a) < DecimalValue(b)
    ensures a == b <==> DecimalValue(a) == DecimalValue(b)
  {
    if a != "" {
      var n := |a| - 1;
      var a', b', c, d := a[..n], b[..n], a[n], b[n];
      LessIsValueOrder(a', b');
      LessAppend(a', b', [c], [d]);
      assert a == a' + [c] && b == b' + [d];
      assert Less([c], [d]) <==> c < d;
    }
  }

  lemma {:induction false} IntToStringIsInjective(a: int, b: int)
    requires IntToString(a) == IntToString(b)
    ensures a == b
  {
    hide Digits;
    DigitsHaveValue(if a < 0 then -a else a);
    DigitsHaveValue(if b < 0 then -b else b);
    assert a < 0 ==> IntToString(a)[0] == '-' && IntToString(a)[1..] == Digits(-a);
    assert b < 0 ==> IntToString(b)[0] == '-' && IntToString(b)[1..] == Digits(-b);
  }

  /** In all years, two instants have the same key exactly when they lie in the same month. */
  lemma {:induction false} SameKeyIsSameMonth(a: int, b: int)
    ensures MonthKeyUtc(a) == MonthKeyUtc(b) <==> MonthIndex(a) == MonthIndex(b)
  {
    hide GetUTCFullYear, GetUTCMonth, IntToString, PadTwo;
    var y, m, y', m' := GetUTCFullYear(a), GetUTCMonth(a), GetUTCFullYear(b), GetUTCMonth(b);
    var s, mm, s', mm' := IntToString(y), PadTwo(m + 1), IntToString(y'), PadTwo(m' + 1);
    PadHasValue(m + 1);
    PadHasValue(m' + 1);
    if MonthKeyUtc(a) == MonthKeyUtc(b) {
      assert |s| == |s'|;
      assert (s + "-" + mm)[..|s|] == s && (s' + "-" + mm')[..|s|] == s';
      assert (s + "-" + mm)[|s| + 1..] == mm && (s' + "-" + mm')[|s| + 1..] == mm';
      IntToStringIsInjective(y, y');
    }
  }

  /** Among years of equally many digits, keys are ordered as strings the way their months are in time. */
  lemma {:induction false} KeyOrderIsTimeOrder(a: int, b: int)
    requires GetUTCFullYear(a) >= 0 && GetUTCFullYear(b) >= 0
    requires |Digits(GetUTCFullYear(a))| == |Digits(GetUTCFullYear(b))|
    ensures Less(MonthKeyUtc(a), MonthKeyUtc(b)) <==> MonthIndex(a) < MonthIndex(b)
    ensures MonthKeyUtc(a) == MonthKeyUtc(b) <==> MonthIndex(a) == MonthIndex(b)
  {
    hide GetUTCFullYear, GetUTCMonth, Digits, PadTwo, Less;
    var y, m, y', m' := GetUTCFullYear(a), GetUTCMonth(a), GetUTCFullYear(b), GetUTCMonth(b);
    var s, s', mm, mm' := Digits(y), Digits(y'), PadTwo(m + 1), PadTwo(m' + 1);
    SameKeyIsSameMonth(a, b);
    DigitsHaveValue(y);
    DigitsHaveValue(y');
    PadHasValue(m + 1);
    PadHasValue(m' + 1);
    LessIsValueOrder(s, s');
    LessIsValueOrder(mm, mm');
    assert s + "-" + mm == s + ("-" + mm) && s' + "-" + mm' == s' + ("-" + mm');
    LessAppend(s, s', "-" + mm, "-" + mm');
    LessAppend("-", "-", mm, mm');
    LessIsIrreflexive("-");
  }

  predicate FourDigitYear(t: int) {
    1000 <= GetUTCFullYear(t) <= 9999
  }

  lemma {:induction false} FourDigits(n: nat)
    requires 1000 <= n <= 9999
    ensures |Digits(n)| == 4
  {
    assert |Digits(n / 10)| == 3 by {
      assert |Digits(n / 100)| == 2;
      assert n / 10 / 10 == n / 100;
    }
  }

  /** In the years 1000 to 9999 string order of keys is time order, and equal keys mean equal months. */
  lemma {:induction false} KeysOfFourDigitYears(a: int, b: int)
    requires FourDigitYear(a) && FourDigitYear(b)
    ensures Less(MonthKeyUtc(a), MonthKeyUtc(b)) <==> StartOfUtcMonth(a) < StartOfUtcMonth(b)
    ensures MonthKeyUtc(a) == MonthKeyUtc(b) <==> StartOfUtcMonth(a) == StartOfUtcMonth(b)
    ensures MonthKeyUtc(a) == MonthKeyUtc(b) <==> MonthIndex(a) == MonthIndex(b)
    ensures Less(MonthKeyUtc(a), MonthKeyUtc(b)) <==> MonthIndex(a) < MonthIndex(b)
  {
    hide GetUTCFullYear, GetUTCMonth, MonthDiff, MonthIndex, StartOfUtcMonth, MonthKeyUtc, Digits;
    FourDigits(GetUTCFullYear(a));
    FourDigits(GetUTCFullYear(b));
    KeyOrderIsTimeOrder(a, b);
    StartsAreOrdered(a, b);
  }

  // ----- Exactly when the order of keys is the order of time -----

  /** The minus sign after the year sorts before every digit, so two keys are ordered as their years' texts are. */
  lemma {:induction false} YearsDecide(year: string, year': string, rest: string, rest': string)
    requires AllDigits(year) && AllDigits(year') && year != year'
    ensures Less(year + ("-" + rest), year' + ("-" + rest')) <==> Less(year, year')
  {
    if year != "" && year' != "" {
      var s, s' := year + ("-" + rest), year' + ("-" + rest');
      assert s[1..] == year[1..] + ("-" + rest) && s'[1..] == year'[1..] + ("-" + rest');
      if year[0] == year'[0] {
        assert year == [year[0]] + year[1..] && year' == [year'[0]] + year'[1..];
        YearsDecide(year[1..], year'[1..], rest, rest');
      }
    }
  }

  lemma {:induction false} SignedYearsDecide(y: int, y': int, rest: string, rest': string)
    requires y != y'
    ensures Less(IntToString(y) + ("-" + rest), IntToString(y') + ("-" + rest'))
       <==> Less(IntToString(y), IntToString(y'))
  {
    hide Digits;
    var s, s' := IntToString(y), IntToString(y');
    if IntToString(y) == IntToString(y') {
      IntToStringIsInjective(y, y');
    }
    if y >= 0 && y' >= 0 {
      YearsDecide(s, s', rest, rest');
    } else if y < 0 && y' < 0 {
      YearsDecide(Digits(-y), Digits(-y'), rest, rest');
      assert s == "-" + Digits(-y) && s' == "-" + Digits(-y');
      assert s + ("-" + rest) == "-" + (Digits(-y) + ("-" + rest));
      assert s' + ("-" + rest') == "-" + (Digits(-y') + ("-" + rest'));
      LessAppend("-", "-", Digits(-y), Digits(-y'));
      LessAppend("-", "-", Digits(-y) + ("-" + rest), Digits(-y') + ("-" + rest'));
      LessIsIrreflexive("-");
    }
  }

  /**
   In all years, the key of an earlier month sorts before the key of a later one exactly when the two are in the
   same year or the decimal text of the earlier year sorts before that of the later one.
   */
  lemma {:induction false} EarlierKeySortsFirst(a: int, b: int)
    requires MonthIndex(a) < MonthIndex(b)
    ensures Less(MonthKeyUtc(a), MonthKeyUtc(b))
       <==> GetUTCFullYear(a) == GetUTCFullYear(b)
            || Less(IntToString(GetUTCFullYear(a)), IntToString(GetUTCFullYear(b)))
  {
    hide GetUTCFullYear, GetUTCMonth, IntToString, PadTwo;
    var y, m, y', m' := GetUTCFullYear(a), GetUTCMonth(a), GetUTCFullYear(b), GetUTCMonth(b);
    var s, mm, s', mm' := IntToString(y), PadTwo(m + 1), IntToString(y'), PadTwo(m' + 1);
    assert s + "-" + mm == s + ("-" + mm) && s' + "-" + mm' == s' + ("-" + mm');
    if y != y' {
      SignedYearsDecide(y, y', mm, mm');
    } else {
      PadHasValue(m + 1);
      PadHasValue(m' + 1);
      LessIsValueOrder(mm, mm');
      LessAppend(s, s, "-" + mm, "-" + mm');
      LessAppend("-", "-", mm, mm');
      LessIsIrreflexive(s);
      LessIsIrreflexive("-");
    }
  }

  lemma {:induction false} MoreDigits(n: nat, m: nat)
    requires n <= m
    ensures |Digits(n)| <= |Digits(m)|
  {
    if n >= 10 {
      MoreDigits(n / 10, m / 10);
    }
  }

  /** Where a digit is added, nines become a one and zeros. */
  lemma {:induction false} NewDigit(y: nat)
    requires |Digits(y)| < |Digits(y + 1)|
    ensures Digits(y)[0] == '9' && Digits(y + 1)[0] == '1'
  {
    hide Digits;
    if y < 10 {
      SecondDigit(y);
    } else {
      TenthOfNext(y);
      DigitsOfTenth(y);
      DigitsOfTenth(y + 1);
      NewDigit(y / 10);
    }
  }

  lemma SecondDigit(y: nat)
    requires y < 10 && |Digits(y)| < |Digits(y + 1)|
    ensures Digits(y)[0] == '9' && Digits(y + 1)[0] == '1'
  {
  }

  lemma TenthOfNext(y: nat)
    ensures (y + 1) / 10 == y / 10 || (y + 1) / 10 == y / 10 + 1
  {
  }

  lemma DigitsOfTenth(n: nat)
    requires n >= 10
    ensures |Digits(n)| == |Digits(n / 10)| + 1 && Digits(n)[0] == Digits(n / 10)[0]
  {
  }

  /** Some year from `lo` on is the last one with its number of digits. */
  lemma {:induction false} LastWithItsDigits(lo: nat, hi: nat) returns (y: nat)
    requires lo <= hi && |Digits(lo)| != |Digits(hi)|
    ensures lo <= y < hi && |Digits(y)| < |Digits(y + 1)|
    decreases hi - lo
  {
    hide Digits;
    MoreDigits(lo, lo + 1);
    if |Digits(lo)| < |Digits(lo + 1)| {
      y := lo;
    } else {
      y := LastWithItsDigits(lo + 1, hi);
    }
  }

  /** The last month of such a year does not sort before the first of the next. */
  lemma {:induction false} KeyOrderBreaks(y: nat)
    requires |Digits(y)| < |Digits(y + 1)|
    ensures var a, b := MonthStart(12 * y + 11), MonthStart(12 * (y + 1));
      && a < b && MonthIndex(a) == 12 * y + 11 && MonthIndex(b) == 12 * (y + 1)
      && GetUTCFullYear(a) == y && GetUTCFullYear(b) == y + 1 && !Less(MonthKeyUtc(a), MonthKeyUtc(b))
  {
    hide GetUTCFullYear, GetUTCMonth, MonthStart, Less, Digits;
    var a, b := MonthStart(12 * y + 11), MonthStart(12 * (y + 1));
    MonthIndexOfStart(12 * y + 11);
    MonthIndexOfStart(12 * (y + 1));
    FieldsOfIndex(a);
    FieldsOfIndex(b);
    MonthStartsAscend(12 * y + 11, 12 * (y + 1));
    NewDigit(y);
    FirstCharDecides(MonthKeyUtc(a), MonthKeyUtc(b));
  }

  predicate YearBetween(t: int, lo: int, hi: int) {
    lo <= GetUTCFullYear(t) <= hi
  }

  /** String order of keys is time order throughout a span of years exactly when all have equally many digits. */
  lemma {:induction false} KeysSortInYears(lo: nat, hi: nat)
    requires lo <= hi
    ensures (forall a, b :: YearBetween(a, lo, hi) && YearBetween(b, lo, hi) ==>
              (Less(MonthKeyUtc(a), MonthKeyUtc(b)) <==> MonthIndex(a) < MonthIndex(b)))
       <==> |Digits(lo)| == |Digits(hi)|
  {
    hide GetUTCFullYear, MonthIndex, MonthKeyUtc, MonthStart, Digits, Less;
    if |Digits(lo)| == |Digits(hi)| {
      forall a, b | YearBetween(a, lo, hi) && YearBetween(b, lo, hi)
        ensures Less(MonthKeyUtc(a), MonthKeyUtc(b)) <==> MonthIndex(a) < MonthIndex(b)
      {
        MoreDigits(lo, GetUTCFullYear(a));
        MoreDigits(GetUTCFullYear(a), hi);
        MoreDigits(lo, GetUTCFullYear(b));
        MoreDigits(GetUTCFullYear(b), hi);
        KeyOrderIsTimeOrder(a, b);
      }
    } else {
      var y := LastWithItsDigits(lo, hi);
      KeyOrderBreaks(y);
      assert YearBetween(MonthStart(12 * y + 11), lo, hi) && YearBetween(MonthStart(12 * (y + 1)), lo, hi);
    }
  }

  lemma FirstCharDecides(a: string, b: string)
    requires a != "" && b != "" && a[0] > b[0]
    ensures !Less(a, b)
  {
  }

  /** In a negative year a key does not parse back: the one of the year -1 is read as a month of 1900. */
  lemma {:induction false} NegativeYearDoesNotParse()
    ensures var t := MonthStart(-12);
      && GetUTCFullYear(t) == -1 && ParseMonthKey(MonthKeyUtc(t)) != Some(StartOfUtcMonth(t))
  {
    hide MonthKeyUtc, ParseMonthKey, StartOfUtcMonth;
    var t := MonthStart(-12);
    MonthIndexOfStart(-12);
    FieldsOfIndex(t);
    ParseMonthKeyInverts(t);
  }

  /** In the years 1000 to 9999 a key is the year in four digits, a hyphen, and the month from 01 to 12. */
  lemma {:induction false} KeyText(t: int)
    requires 1000 <= GetUTCFullYear(t) <= 9999
    ensures var k := MonthKeyUtc(t);
      && |k| == 7 && k[4] == '-'
      && (forall i :: 0 <= i < 7 && i != 4 ==> '0' <= k[i] <= '9')
      && 1000 * (k[0] as int - 48) + 100 * (k[1] as int - 48) + 10 * (k[2] as int - 48) + (k[3] as int - 48)
           == GetUTCFullYear(t)
      && 10 * (k[5] as int - 48) + (k[6] as int - 48) == GetUTCMonth(t) + 1
  {
    hide GetUTCFullYear, GetUTCMonth, Digits, PadTwo;
    var year, month := Digits(GetUTCFullYear(t)), PadTwo(GetUTCMonth(t) + 1);
    FourDigits(GetUTCFullYear(t));
    DigitsHaveValue(GetUTCFullYear(t));
    PadHasValue(GetUTCMonth(t) + 1);
    FourDigitValue(year);
    TwoDigitValue(month);
    assert MonthKeyUtc(t) == year + "-" + month;
  }

  lemma {:induction false} TwoDigitValue(s: string)
    requires |s| == 2
    ensures DecimalValue(s) == 10 * (s[0] as int - 48) + (s[1] as int - 48)
  {
    assert s[..1][..0] == "" && DecimalValue(s[..1]) == s[0] as int - 48;
  }

  lemma {:induction false} FourDigitValue(s: string)
    requires |s| == 4
    ensures DecimalValue(s)
         == 1000 * (s[0] as int - 48) + 100 * (s[1] as int - 48) + 10 * (s[2] as int - 48) + (s[3] as int - 48)
  {
    assert s[..3][..2] == s[..2];
    TwoDigitValue(s[..2]);
    assert DecimalValue(s[..3]) == 10 * DecimalValue(s[..2]) + (s[2] as int - 48);
  }
}
