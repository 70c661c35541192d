/** The pure helpers of the XML processing: quarter-hour rounding of
    `HH:MM` texts, `HH:MM[:SS]` to minutes, the clock fields of a file
    name, Python's `float()` on decimal text, and the unit conversions. */
module XmlHelpers {
  import opened Common

  /** The spreadsheet's "not available" marker. */
  const NA: string := "=NA()"

  // ---------------------------------------------------------------- minutes

  /** `h, m = map(int, s.split(":"))` then `h * 60 + m`: exactly two fields,
      each an integer; anything else raises ValueError. */
  function TimeToMinutes(s: string): (r: Result<int>)
    ensures r.Raised? ==> r.error == ValueError
  {
    var parts := Split(s, ':');
    if |parts| != 2 then Raised(ValueError)
    else
      var h, m := ParseInt(parts[0]), ParseInt(parts[1]);
      if h.Some? && m.Some? then Ok(h.value * 60 + m.value) else Raised(ValueError)
  }

  /** A minute of the day written `HH:MM`. */
  function ClockText(t: int): (r: string)
    requires 0 <= t < 1440
    ensures |r| == 5 && r[2] == ':'
  {
    Format02(t / 60) + ":" + Format02(t % 60)
  }

  /** `ClockText` is read back by `TimeToMinutes`. */
  lemma ClockTextMinutes(t: int)
    requires 0 <= t < 1440
    ensures TimeToMinutes(ClockText(t)) == Ok(t)
  {
    var h, m := t / 60, t % 60;
    assert h * 60 + m == t;
    var hh, mm := Format02(h), Format02(m);
    MinutesOfClock(ClockText(t), hh, mm, h, m);
  }

  /** The multiple of 15 nearest to `total`: a remainder of 7 or less
      rounds down, 8 or more rounds up (Python's `round(total / 15) * 15`,
      which never meets a tie on whole minutes). */
  function RoundTo15(total: int): (r: int)
    ensures r % 15 == 0
    ensures -7 <= r - total <= 7
  {
    var q := total / 15;
    if total % 15 <= 7 then q * 15 else (q + 1) * 15
  }

  /** There is only one multiple of 15 within 7 minutes. */
  lemma RoundTo15Unique(total: int, x: int)
    requires x % 15 == 0 && -7 <= x - total <= 7
    ensures x == RoundTo15(total)
  {
    var r := RoundTo15(total);
    assert (x - r) % 15 == 0 && -14 <= x - r <= 14;
  }

  /** `round_hhmm_to_15`: `=NA()` passes through; otherwise the minutes are
      rounded to the nearest quarter hour and wrapped past midnight. */
  function RoundHhmmTo15(s: string): (r: Result<string>)
    ensures s == NA ==> r == Ok(NA)
    ensures s != NA ==> (r.Raised? <==> TimeToMinutes(s).Raised?)
  {
    if s == NA then Ok(NA)
    else
      match TimeToMinutes(s)
      case Raised(e) => Raised(e)
      case Ok(total) => Ok(ClockText(RoundTo15(total) % 1440))
  }

  lemma RoundHhmmTo15Of(s: string, total: int)
    requires s != NA && TimeToMinutes(s) == Ok(total)
    ensures RoundHhmmTo15(s) == Ok(ClockText(RoundTo15(total) % 1440))
  {
  }

  /** `a % 1440` and `a / 1440` are the remainder and quotient of any
      decomposition with the remainder in range. */
  lemma DayMod(a: int, q: int, r: int)
    requires a == 1440 * q + r && 0 <= r < 1440
    ensures a % 1440 == r && a / 1440 == q
  {
  }

  /** `m` lies, up to whole days, within 7 minutes of `total`. */
  predicate NearOnClock(m: int, total: int) {
    (m - total) % 1440 <= 7 || (m - total) % 1440 >= 1433
  }

  lemma Mod15(v: int, k: int)
    requires v == 15 * k
    ensures v % 15 == 0
  {
  }

  /** Taking the rounded minutes modulo a day keeps them near and a multiple of 15. */
  lemma WrapKeepsNear(x: int, total: int)
    requires x % 15 == 0 && -7 <= x - total <= 7
    ensures (x % 1440) % 15 == 0 && NearOnClock(x % 1440, total)
  {
    var q := x / 1440;
    var m := x % 1440;
    DayMod(x, q, m);
    Mod15(x, x / 15);
    Mod15(m, x / 15 - 96 * q);
    var d := x - total;
    if d >= 0 {
      DayMod(m - total, -q, d);
    } else {
      DayMod(m - total, -q - 1, d + 1440);
    }
  }

  /** A quarter hour of the day near `total` is its rounded value, wrapped. */
  lemma NearIsWrappedRound(m: int, total: int)
    requires 0 <= m < 1440 && m % 15 == 0 && NearOnClock(m, total)
    ensures m == RoundTo15(total) % 1440
  {
    var e := (m - total) % 1440;
    var j := (m - total) / 1440;
    DayMod(m - total, j, e);
    var k := if e <= 7 then j else j + 1;
    var x := m - 1440 * k;
    Mod15(m, m / 15);
    Mod15(x, m / 15 - 96 * k);
    RoundTo15Unique(total, x);
    DayMod(x, -k, m);
  }

  /** The rounded text is a zero-padded `HH:MM` whose minute of the day is a
      multiple of 15 lying, up to whole days, within 7 minutes of the input. */
  lemma RoundHhmmTo15Nearest(s: string, total: int)
    requires s != NA && TimeToMinutes(s) == Ok(total)
    ensures RoundHhmmTo15(s).Ok?
    ensures var r := RoundHhmmTo15(s).value;
      |r| == 5 && r[2] == ':' && AllDigits(r[..2]) && AllDigits(r[3..]) &&
      TimeToMinutes(r).Ok? && 0 <= TimeToMinutes(r).value < 1440 &&
      TimeToMinutes(r).value % 15 == 0 && NearOnClock(TimeToMinutes(r).value, total)
  {
    RoundHhmmTo15Of(s, total);
    var x := RoundTo15(total);
    WrapKeepsNear(x, total);
    var m := x % 1440;
    ClockTextMinutes(m);
    var r := ClockText(m);
    assert r[..2] == Format02(m / 60) && r[3..] == Format02(m % 60);
  }

  /** The characterisation above pins the result down: the only such
      quarter hour is the one returned. */
  lemma RoundHhmmTo15Unique(s: string, total: int, m: int)
    requires s != NA && TimeToMinutes(s) == Ok(total)
    requires 0 <= m < 1440 && m % 15 == 0 && NearOnClock(m, total)
    ensures RoundHhmmTo15(s) == Ok(ClockText(m))
  {
    RoundHhmmTo15Of(s, total);
    NearIsWrappedRound(m, total);
  }

  /** Rounding a rounded time changes nothing. */
  lemma RoundHhmmTo15Idempotent(s: string)
    requires RoundHhmmTo15(s).Ok?
    ensures RoundHhmmTo15(RoundHhmmTo15(s).value) == RoundHhmmTo15(s)
  {
    if s != NA {
      var total := TimeToMinutes(s).value;
      RoundHhmmTo15Of(s, total);
      var x := RoundTo15(total);
      WrapKeepsNear(x, total);
      var m := x % 1440;
      var r := ClockText(m);
      ClockTextMinutes(m);
      assert r != NA by {
        assert r[2] != NA[2];
      }
      assert NearOnClock(m, m);
      RoundHhmmTo15Unique(r, m, m);
    }
  }

  /** The quarter-hour boundaries: a remainder of 7 rounds down ... */
  lemma RoundHhmmTo15RoundsDown(s: string)
    requires s == "06:07"
    ensures RoundHhmmTo15(s) == Ok("06:00")
  {
    RoundHhmmTo15OfClock(s, "06", "07", 6, 7, 360);
    assert ClockText(360) == "06:00";
  }

  /** ... a remainder of 8 rounds up ... */
  lemma RoundHhmmTo15RoundsUp(s: string)
    requires s == "06:08"
    ensures RoundHhmmTo15(s) == Ok("06:15")
  {
    RoundHhmmTo15OfClock(s, "06", "08", 6, 8, 375);
    assert ClockText(375) == "06:15";
  }

  /** ... and 23:53 wraps to midnight. */
  lemma RoundHhmmTo15WrapsAtMidnight(s: string)
    requires s == "23:53"
    ensures RoundHhmmTo15(s) == Ok("00:00")
  {
    RoundHhmmTo15OfClock(s, "23", "53", 23, 53, 0);
    assert ClockText(0) == "00:00";
  }

  lemma RoundHhmmTo15OfClock(s: string, hh: string, mm: string, h: nat, m: nat, q: int)
    requires s == hh + ":" + mm && s != NA
    requires |hh| == 2 && IsDigit(hh[0]) && IsDigit(hh[1]) && h == DigitValue(hh[0]) * 10 + DigitValue(hh[1])
    requires |mm| == 2 && IsDigit(mm[0]) && IsDigit(mm[1]) && m == DigitValue(mm[0]) * 10 + DigitValue(mm[1])
    requires 0 <= q < 1440 && q % 15 == 0 && NearOnClock(q, h * 60 + m)
    ensures RoundHhmmTo15(s) == Ok(ClockText(q))
  {
    TwoDigits(hh, h);
    TwoDigits(mm, m);
    MinutesOfClock(s, hh, mm, h, m);
    RoundHhmmTo15Unique(s, h * 60 + m, q);
  }

  lemma TwoDigits(s: string, v: nat)
    requires |s| == 2 && IsDigit(s[0]) && IsDigit(s[1]) && v == DigitValue(s[0]) * 10 + DigitValue(s[1])
    ensures AllDigits(s) && DigitsValue(s) == v
  {
    var a := s[..1];
    assert a[..0] == [] && a[0] == s[0];
    assert DigitsValue(a) == DigitValue(s[0]);
  }

  lemma MinutesOfClock(s: string, hh: string, mm: string, h: nat, m: nat)
    requires s == hh + ":" + mm
    requires AllDigits(hh) && AllDigits(mm) && |hh| == 2 && |mm| == 2
    requires DigitsValue(hh) == h && DigitsValue(mm) == m
    ensures TimeToMinutes(s) == Ok(h * 60 + m)
  {
    assert ':' !in hh && ':' !in mm by {
      assert IsDigit(hh[0]) && IsDigit(hh[1]) && IsDigit(mm[0]) && IsDigit(mm[1]);
    }
    SplitOneSeparator(hh, mm, ':');
    ParseIntOfDigits(hh);
    ParseIntOfDigits(mm);
    MinutesOfFields(s, hh, mm, h, m);
  }

  lemma MinutesOfFields(s: string, a: string, b: string, h: int, m: int)
    requires Split(s, ':') == [a, b] && ParseInt(a) == Some(h) && ParseInt(b) == Some(m)
    ensures TimeToMinutes(s) == Ok(h * 60 + m)
  {
  }

  /** `grab_hr_min_frm_var`: strip, split on `:`, read the first two fields
      as hours and minutes; later fields are ignored. A bad number raises
      ValueError, a missing minutes field IndexError. */
  function GrabHrMinFrmVar(timevar: string): (r: Result<int>)
    ensures r.Raised? ==> r.error in {ValueError, IndexError}
  {
    var parts := Split(Strip(timevar), ':');
    match ParseInt(parts[0])
    case None => Raised(ValueError)
    case Some(h) =>
      if |parts| < 2 then Raised(IndexError)
      else
        match ParseInt(parts[1])
        case None => Raised(ValueError)
        case Some(m) => Ok(h * 60 + m)
  }

  lemma GrabHrMinFrmVarOfFields(t: string, h: int, m: int)
    requires var parts := Split(Strip(t), ':');
      |parts| >= 2 && ParseInt(parts[0]) == Some(h) && ParseInt(parts[1]) == Some(m)
    ensures GrabHrMinFrmVar(t) == Ok(h * 60 + m)
  {
  }

  /** `HH:MM` and `HH:MM:SS` give the same minutes: the seconds are ignored. */
  lemma GrabHrMinFrmVarSeconds(long: string, short: string, hh: string, mm: string, ss: string)
    requires hh != [] && mm != [] && ss != [] && AllDigits(hh) && AllDigits(mm) && AllDigits(ss)
    requires long == hh + ":" + mm + ":" + ss && short == hh + ":" + mm
    ensures GrabHrMinFrmVar(long) == Ok(DigitsValue(hh) * 60 + DigitsValue(mm))
    ensures GrabHrMinFrmVar(short) == Ok(DigitsValue(hh) * 60 + DigitsValue(mm))
  {
    DigitFields(long, short, hh, mm, ss);
    GrabOfDigitParts(long, hh, mm);
    GrabOfDigitParts(short, hh, mm);
  }

  /** A time whose first two `:` fields are digit strings. */
  lemma GrabOfDigitParts(t: string, hh: string, mm: string)
    requires hh != [] && mm != [] && AllDigits(hh) && AllDigits(mm)
    requires var parts := Split(Strip(t), ':'); |parts| >= 2 && parts[0] == hh && parts[1] == mm
    ensures GrabHrMinFrmVar(t) == Ok(DigitsValue(hh) * 60 + DigitsValue(mm))
  {
    ParseIntOfDigits(hh);
    ParseIntOfDigits(mm);
    GrabHrMinFrmVarOfFields(t, DigitsValue(hh), DigitsValue(mm));
  }

  lemma DigitFields(long: string, short: string, hh: string, mm: string, ss: string)
    requires hh != [] && mm != [] && ss != [] && AllDigits(hh) && AllDigits(mm) && AllDigits(ss)
    requires long == hh + ":" + mm + ":" + ss && short == hh + ":" + mm
    ensures Split(Strip(long), ':') == [hh, mm, ss]
    ensures Split(Strip(short), ':') == [hh, mm]
  {
    assert ':' !in hh && ':' !in mm && ':' !in ss by {
      assert forall i :: 0 <= i < |hh| ==> IsDigit(hh[i]);
      assert forall i :: 0 <= i < |mm| ==> IsDigit(mm[i]);
      assert forall i :: 0 <= i < |ss| ==> IsDigit(ss[i]);
    }
    assert IsDigit(long[0]) && IsDigit(long[|long| - 1]);
    assert IsDigit(short[0]) && IsDigit(short[|short| - 1]);
    StripNoSpace(long);
    StripNoSpace(short);
    assert long == hh + [':'] + (mm + [':'] + ss);
    SplitCons(hh, mm + [':'] + ss, ':');
    SplitOneSeparator(mm, ss, ':');
    SplitOneSeparator(hh, mm, ':');
  }

  /** The configured cooler times: `06:00:00` is minute 360 of the day. */
  lemma GrabHrMinFrmVarExample(long: string, short: string)
    requires long == "06:00:00" && short == "06:00"
    ensures GrabHrMinFrmVar(long) == Ok(360) && GrabHrMinFrmVar(short) == Ok(360)
  {
    var hh, mm := "06", "00";
    assert DigitsValue(hh) == 6 by {
      assert hh[..1] == "0" && "0"[..0] == [];
    }
    assert DigitsValue(mm) == 0 by {
      assert mm[..1] == "0" && "0"[..0] == [];
    }
    GrabHrMinFrmVarSeconds(long, short, hh, mm, "00");
  }

  // ---------------------------------------------------------------- file names

  /** Python `s[i:j]` for `0 <= i <= j`: both ends clamp to the length. */
  function Slice(s: string, i: nat, j: nat): (r: string)
    requires i <= j
    ensures |r| <= j - i
  {
    if i >= |s| then [] else Take(s[i..], j - i)
  }

  /** `extract_hour_min_from_filename`: the text before the first `_`, its
      last six characters, of which the first two are the hour and the
      next two the minute. */
  function ExtractHourMinFromFilename(filename: string): (r: Result<(int, int)>)
    ensures r.Raised? ==> r.error == ValueError
  {
    var stamp := Split(filename, '_')[0];
    var timePart := if |stamp| >= 6 then stamp[|stamp| - 6..] else stamp;
    match (ParseInt(Slice(timePart, 0, 2)), ParseInt(Slice(timePart, 2, 4)))
    case (Some(h), Some(m)) => Ok((h, m))
    case _ => Raised(ValueError)
  }

  /** For a logger file name `YYYYMMDDhhmmss_<rest>` the hour and minute
      are the `hh` and `mm` digits. */
  lemma ExtractHourMinOfStamp(date: string, hh: string, mm: string, ss: string, rest: string)
    requires AllDigits(date) && AllDigits(hh) && AllDigits(mm) && AllDigits(ss)
    requires |hh| == 2 && |mm| == 2 && |ss| == 2
    ensures ExtractHourMinFromFilename(date + hh + mm + ss + "_" + rest)
         == Ok((DigitsValue(hh) as int, DigitsValue(mm) as int))
  {
    var stamp := date + hh + mm + ss;
    assert '_' !in stamp by {
      assert forall i :: 0 <= i < |stamp| ==> IsDigit(stamp[i]);
    }
    assert date + hh + mm + ss + "_" + rest == stamp + ['_'] + rest;
    SplitCons(stamp, rest, '_');
    var timePart := stamp[|stamp| - 6..];
    assert timePart == hh + mm + ss;
    assert Slice(timePart, 0, 2) == hh;
    assert Slice(timePart, 2, 4) == mm;
    ParseIntOfDigits(hh);
    ParseIntOfDigits(mm);
  }

  // ---------------------------------------------------------------- numbers

  /** Python `float()` on decimal text: surrounding white space, an
      optional sign, digits with at most one `.`, at least one digit.
      `None` stands for the ValueError. */
  function ParseFloat(s: string): Option<real>
  {
    var t := Strip(s);
    var neg := t != [] && t[0] == '-';
    var body := if t != [] && (t[0] == '-' || t[0] == '+') then t[1..] else t;
    var mag :=
      if '.' in body then
        var k := IndexOf(body, '.');
        var ip, fp := body[..k], body[k + 1..];
        if AllDigits(ip) && AllDigits(fp) && |ip| + |fp| >= 1
        then Some(DigitsValue(ip) as real + DigitsValue(fp) as real / Pow10(|fp|) as real)
        else None
      else if body != [] && AllDigits(body) then Some(DigitsValue(body) as real)
      else None;
    match mag
    case None => None
    case Some(v) => Some(if neg then -v else v)
  }

  /** `float()` agrees with `int()` on integer text. */
  lemma ParseFloatOfInt(s: string)
    requires ParseInt(s).Some?
    ensures ParseFloat(s) == Some(ParseInt(s).value as real)
  {
    var t := Strip(s);
    var body := if t != [] && (t[0] == '-' || t[0] == '+') then t[1..] else t;
    assert '.' !in body by {
      assert AllDigits(body);
      assert forall i :: 0 <= i < |body| ==> IsDigit(body[i]);
    }
  }

  lemma ParseFloatSentinel()
    ensures ParseFloat("-9999") == Some(-9999.0)
  {
    assert DigitsValue("9999") == 9999 by {
      assert "9999"[..3] == "999" && "999"[..2] == "99" && "99"[..1] == "9" && "9"[..0] == "";
    }
    assert "-9999" == "-" + "9999";
    ParseIntOfNegative("9999");
    ParseFloatOfInt("-9999");
  }

  /** A reading handed to `c_to_f`: a number or the `=NA()` marker. */
  datatype Reading = NotAvailable | Num(v: real)

  /** `c_to_f`: Celsius to Fahrenheit, `=NA()` passing through. */
  function CToF(c: Reading): (f: Reading)
    ensures f.NotAvailable? <==> c.NotAvailable?
    ensures f.Num? ==> (f.v - 32.0) * 5.0 == c.v * 9.0
  {
    match c
    case NotAvailable => NotAvailable
    case Num(x) => Num(x * 9.0 / 5.0 + 32.0)
  }

  /** The conversion is strictly increasing, so it keeps a low below a high. */
  lemma CToFMonotone(a: real, b: real)
    requires a <= b
    ensures CToF(Num(a)).v <= CToF(Num(b)).v
  {
  }

  /** `kg_to_lb`: there is no `=NA()` case, only numbers. */
  function KgToLb(kg: real): (lb: real)
    ensures kg >= 0.0 ==> lb >= kg
    ensures lb * 50000.0 == kg * 110231.0
  {
    kg * 2.20462
  }

  /** The conversion keeps order, so the heavier weight stays the heavier. */
  lemma KgToLbMonotone(a: real, b: real)
    requires a <= b
    ensures KgToLb(a) <= KgToLb(b)
  {
  }
}
