/** Calendar dates as Python's `datetime.date` handles them: proleptic
    Gregorian, years 1..9999, `toordinal`, day steps with `timedelta`,
    `isoformat`, `strftime("%Y%m%d")` and `strptime(s, "%Y-%m-%d")`. */
module Dates {
  import opened Common

  datatype Date = Date(year: int, month: int, day: int)

  predicate IsLeap(y: int) {
    y % 4 == 0 && (y % 100 != 0 || y % 400 == 0)
  }

  function DaysInMonth(y: int, m: int): (n: int)
    requires 1 <= m <= 12
    ensures 28 <= n <= 31
  {
    if m == 2 then (if IsLeap(y) then 29 else 28)
    else if m == 4 || m == 6 || m == 9 || m == 11 then 30
    else 31
  }

  function DaysInYear(y: int): int {
    if IsLeap(y) then 366 else 365
  }

  /** What `date(year, month, day)` accepts without raising ValueError. */
  predicate Valid(d: Date) {
    1 <= d.year <= 9999 && 1 <= d.month <= 12 && 1 <= d.day <= DaysInMonth(d.year, d.month)
  }

  /** Days in the years before `y` (CPython's `_days_before_year`). */
  function DaysBeforeYear(y: int): int {
    var p := y - 1;
    p * 365 + p / 4 - p / 100 + p / 400
  }

  /** Days in the months before `m` of year `y` (CPython's `_days_before_month`). */
  function DaysBeforeMonth(y: int, m: int): int
    requires 1 <= m <= 12
  {
    [0, 31, 59, 90, 120, 151, 181, 212, 243, 273, 304, 334][m - 1]
      + (if m > 2 && IsLeap(y) then 1 else 0)
  }

  /** `date.toordinal()`: 1 for 0001-01-01, one more for each following day. */
  function Ordinal(d: Date): int
    requires 1 <= d.month <= 12
  {
    DaysBeforeYear(d.year) + DaysBeforeMonth(d.year, d.month) + d.day
  }

  /** The day after `d`; `None` is the OverflowError past 9999-12-31. */
  function NextDay(d: Date): (r: Option<Date>)
    requires Valid(d)
    ensures r.Some? ==> Valid(r.value)
  {
    if d.day < DaysInMonth(d.year, d.month) then Some(d.(day := d.day + 1))
    else if d.month < 12 then Some(Date(d.year, d.month + 1, 1))
    else if d.year < 9999 then Some(Date(d.year + 1, 1, 1))
    else None
  }

  /** The day before `d`; `None` is the OverflowError before 0001-01-01. */
  function PrevDay(d: Date): (r: Option<Date>)
    requires Valid(d)
    ensures r.Some? ==> Valid(r.value)
  {
    if d.day > 1 then Some(d.(day := d.day - 1))
    else if d.month > 1 then Some(Date(d.year, d.month - 1, DaysInMonth(d.year, d.month - 1)))
    else if d.year > 1 then Some(Date(d.year - 1, 12, 31))
    else None
  }

  lemma YearLength(y: int)
    requires y >= 1
    ensures DaysBeforeYear(y + 1) == DaysBeforeYear(y) + DaysInYear(y)
  {
    var p := y - 1;
    assert y / 4 == p / 4 + (if y % 4 == 0 then 1 else 0);
    assert y / 100 == p / 100 + (if y % 100 == 0 then 1 else 0);
    assert y / 400 == p / 400 + (if y % 400 == 0 then 1 else 0);
    assert y % 400 == 0 ==> y % 100 == 0 && y % 4 == 0;
    assert y % 100 == 0 ==> y % 4 == 0;
  }

  /** Consecutive days have consecutive ordinals. */
  lemma OrdinalNextDay(d: Date)
    requires Valid(d) && NextDay(d).Some?
    ensures Ordinal(NextDay(d).value) == Ordinal(d) + 1
  {
    if d.day == DaysInMonth(d.year, d.month) && d.month == 12 {
      YearLength(d.year);
    }
  }

  lemma OrdinalPrevDay(d: Date)
    requires Valid(d) && PrevDay(d).Some?
    ensures Ordinal(PrevDay(d).value) == Ordinal(d) - 1
  {
    if d.day == 1 && d.month == 1 {
      YearLength(d.year - 1);
    }
  }

  /** `d + timedelta(days=k)`; `None` is the OverflowError outside years 1..9999. */
  function AddDays(d: Date, k: int): (r: Option<Date>)
    requires Valid(d)
    ensures r.Some? ==> Valid(r.value) && Ordinal(r.value) == Ordinal(d) + k
    decreases if k < 0 then -k else k
  {
    if k == 0 then Some(d)
    else if k > 0 then
      match NextDay(d)
      case None => None
      case Some(e) => OrdinalNextDay(d); AddDays(e, k - 1)
    else
      match PrevDay(d)
      case None => None
      case Some(e) => OrdinalPrevDay(d); AddDays(e, k + 1)
  }

  // ---------------------------------------------------------------- text forms

  /** A number written with at least `w` digits, zero-filled (`%04d`). */
  function PadNat(n: nat, w: nat): (r: string)
    ensures AllDigits(r) && |r| >= w && DigitsValue(r) == n
  {
    var s := NatToString(n);
    NatToStringValue(n);
    if |s| >= w then s else ZerosValue(w - |s|, s); seq(w - |s|, _ => '0') + s
  }

  lemma {:induction false} ZerosValue(k: nat, s: string)
    requires AllDigits(s)
    ensures AllDigits(seq(k, _ => '0') + s) && DigitsValue(seq(k, _ => '0') + s) == DigitsValue(s)
  {
    var z := seq(k, _ => '0');
    if s == [] {
      ZerosOnly(k);
      assert z + s == z;
    } else {
      ZerosValue(k, s[..|s| - 1]);
      assert (z + s)[..|z + s| - 1] == z + s[..|s| - 1];
    }
  }

  lemma {:induction false} ZerosOnly(k: nat)
    ensures AllDigits(seq(k, _ => '0')) && DigitsValue(seq(k, _ => '0')) == 0
  {
    if k > 0 {
      ZerosOnly(k - 1);
      assert seq(k, _ => '0')[..k - 1] == seq(k - 1, _ => '0');
    }
  }

  /** `d.isoformat()`: `YYYY-MM-DD`. */
  function IsoFormat(d: Date): (r: string)
    requires Valid(d)
    ensures |r| == 10
  {
    PadNatLength(d.year, 4);
    PadNat(d.year, 4) + "-" + Format02(d.month) + "-" + Format02(d.day)
  }

  /** `d.strftime("%Y%m%d")`: `YYYYMMDD`. */
  function Compact(d: Date): (r: string)
    requires Valid(d)
    ensures |r| == 8 && AllDigits(r)
  {
    PadNatLength(d.year, 4);
    PadNat(d.year, 4) + Format02(d.month) + Format02(d.day)
  }

  /** The text `strptime`'s `%m` accepts before a following `-`. */
  predicate MonthText(m: string) {
    AllDigits(m) && ((|m| == 2 && 1 <= DigitsValue(m) <= 12) || (|m| == 1 && m[0] != '0'))
  }

  /** The text `strptime`'s final `%d` accepts: `01`..`31`, `1`..`9` or ` 1`..` 9`. */
  predicate DayText(t: string) {
    (AllDigits(t) && ((|t| == 2 && 1 <= DigitsValue(t) <= 31) || (|t| == 1 && t[0] != '0')))
    || (|t| == 2 && t[0] == ' ' && IsDigit(t[1]) && t[1] != '0')
  }

  function DayTextValue(t: string): int
    requires DayText(t)
  {
    if t[0] == ' ' then DigitValue(t[1]) else DigitsValue(t)
  }

  /** `datetime.strptime(s, "%Y-%m-%d").date()`: four year digits, a month,
      a day, nothing after; then the date must exist. */
  function StrptimeYmd(s: string): (r: Result<Date>)
    ensures r.Ok? ==> Valid(r.value)
    ensures r.Raised? ==> r.error == ValueError
  {
    if |s| < 7 || s[4] != '-' || !AllDigits(s[..4]) then Raised(ValueError)
    else
      var rest := s[5..];
      if '-' !in rest then Raised(ValueError)
      else
        var j := IndexOf(rest, '-');
        var m, t := rest[..j], rest[j + 1..];
        if !MonthText(m) || !DayText(t) then Raised(ValueError)
        else
          var d := Date(DigitsValue(s[..4]), DigitsValue(m), DayTextValue(t));
          if Valid(d) then Ok(d) else Raised(ValueError)
  }

  /** `strptime` reads back what `isoformat` writes. */
  lemma StrptimeIsoFormat(d: Date)
    requires Valid(d)
    ensures StrptimeYmd(IsoFormat(d)) == Ok(d)
  {
    var y, mo, da := PadNat(d.year, 4), Format02(d.month), Format02(d.day);
    PadNatLength(d.year, 4);
    var s := IsoFormat(d);
    assert s == y + "-" + mo + "-" + da;
    assert s[..4] == y && s[4] == '-';
    var rest := s[5..];
    assert rest == mo + "-" + da;
    IndexOfAfter(mo, da, '-');
    assert rest[..2] == mo && rest[3..] == da;
  }

  lemma PadNatLength(n: nat, w: nat)
    requires 1 <= w && n < Pow10(w)
    ensures |PadNat(n, w)| == w
  {
    NatToStringLength(n, w);
  }

  /** A number below 10^w needs at most w digits. */
  lemma {:induction false} NatToStringLength(n: nat, w: nat)
    requires 1 <= w && n < Pow10(w)
    ensures |NatToString(n)| <= w
  {
    if n >= 10 {
      NatToStringLength(n / 10, w - 1);
    }
  }
  // ---------------------------------------------------------------- order of compact dates

  /** The number a `YYYYMMDD` string spells. */
  lemma CompactValue(d: Date)
    requires Valid(d)
    ensures DigitsValue(Compact(d)) == d.year * 10000 + d.month * 100 + d.day
  {
    var y, m, dd := PadNat(d.year, 4), Format02(d.month), Format02(d.day);
    PadNatLength(d.year, 4);
    assert |m| == 2 && |dd| == 2 && Pow10(2) == 100;
    DigitsValueAppend(y, m);
    DigitsValueAppend(y + m, dd);
    assert DigitsValue(y + m) == d.year * 100 + d.month;
  }

  /** A date's ordinal lies within its year. */
  lemma OrdinalInYear(d: Date)
    requires Valid(d)
    ensures DaysBeforeYear(d.year) < Ordinal(d) <= DaysBeforeYear(d.year + 1)
  {
    YearLength(d.year);
  }

  lemma {:induction false} DaysBeforeYearMonotone(y: int, z: int)
    requires 1 <= y <= z
    ensures DaysBeforeYear(y) <= DaysBeforeYear(z)
    decreases z - y
  {
    if y < z {
      YearLength(y);
      DaysBeforeYearMonotone(y + 1, z);
    }
  }

  /** Within a year, a later month or day has a larger ordinal. */
  lemma OrdinalWithinYear(d: Date, e: Date)
    requires Valid(d) && Valid(e) && d.year == e.year
    requires d.month < e.month || (d.month == e.month && d.day < e.day)
    ensures Ordinal(d) < Ordinal(e)
  {
  }

  /** Ordinals follow the (year, month, day) order. */
  lemma OrdinalOrder(d: Date, e: Date)
    requires Valid(d) && Valid(e)
    requires d.year < e.year || (d.year == e.year && (d.month < e.month || (d.month == e.month && d.day < e.day)))
    ensures Ordinal(d) < Ordinal(e)
  {
    if d.year < e.year {
      OrdinalInYear(d);
      OrdinalInYear(e);
      DaysBeforeYearMonotone(d.year + 1, e.year);
    } else {
      OrdinalWithinYear(d, e);
    }
  }

  /** Comparing `strftime("%Y%m%d")` strings as text compares the dates. */
  lemma CompactOrder(d: Date, e: Date)
    requires Valid(d) && Valid(e)
    ensures LexLe(Compact(d), Compact(e)) <==> Ordinal(d) <= Ordinal(e)
  {
    var a, b := Compact(d), Compact(e);
    CompactValue(d);
    CompactValue(e);
    LexLessDigits(a, b);
    var ka, kb := d.year * 10000 + d.month * 100 + d.day, e.year * 10000 + e.month * 100 + e.day;
    if ka < kb {
      KeyOrder(d, e);
      OrdinalOrder(d, e);
    } else if kb < ka {
      KeyOrder(e, d);
      OrdinalOrder(e, d);
      LexLessDigits(b, a);
      LexLessAsymmetric(b, a);
      assert a != b;
    } else {
      KeyEqual(d, e);
    }
  }

  lemma KeyOrder(d: Date, e: Date)
    requires Valid(d) && Valid(e)
    requires d.year * 10000 + d.month * 100 + d.day < e.year * 10000 + e.month * 100 + e.day
    ensures d.year < e.year || (d.year == e.year && (d.month < e.month || (d.month == e.month && d.day < e.day)))
  {
  }

  lemma KeyEqual(d: Date, e: Date)
    requires Valid(d) && Valid(e)
    requires d.year * 10000 + d.month * 100 + d.day == e.year * 10000 + e.month * 100 + e.day
    ensures d == e
  {
  }
}
