/** `unitas_coolerlog.py` without the browser: the row of cooler values
    `run_coolerlog_to_unitas` assembles from the day's logs, the fields
    `fill_coolerlog_values` fills from it, and the month stepping of its
    date picker. */
module UnitasCoolerlog {
  import opened Common
  import opened JsonValue
  import opened Dates
  import opened FormFill

  /** The values of a database row are SQLite scalars. */
  predicate ScalarRecord(d: Record) {
    forall k :: k in d ==> Scalar(d[k])
  }

  /** The row sent to the form:
      `[am_h, am_m, str(am_temp), pm_h, pm_m, str(pm_temp), str(eggs), comments]`. */
  datatype CoolerRow = CoolerRow(
    amHour: string, amMinute: string, amTemp: string,
    pmHour: string, pmMinute: string, pmTemp: string,
    eggs: string, comments: Json)

  /** The hour and minute of a cooler time: the first two colon fields of
      `str(time)`, not zero-padded, `''` for a falsy time or a missing
      field. */
  function TimeFields(v: Json, reprFloat: real -> string): (r: (string, string))
    requires Scalar(v)
    ensures !Truthy(v) ==> r == ("", "")
    ensures Truthy(v) ==> r.0 == Split(Str(v, reprFloat), ':')[0]
    ensures Truthy(v) && |Split(Str(v, reprFloat), ':')| == 1 ==> r.1 == ""
    ensures Truthy(v) && |Split(Str(v, reprFloat), ':')| > 1 ==> r.1 == Split(Str(v, reprFloat), ':')[1]
  {
    if !Truthy(v) then ("", "")
    else
      var parts := Split(Str(v, reprFloat), ':');
      (parts[0], if |parts| > 1 then parts[1] else "")
  }

  /** `"HH:MM:SS"` and `"HH:MM"` give their hours and minutes as written;
      text with no colon is all hour. */
  lemma TimeFieldsOf(hh: string, mm: string, ss: string, reprFloat: real -> string)
    requires ':' !in hh && ':' !in mm && hh != ""
    ensures TimeFields(JStr(hh + ":" + mm + ":" + ss), reprFloat) == (hh, mm)
    ensures TimeFields(JStr(hh + ":" + mm), reprFloat) == (hh, mm)
    ensures TimeFields(JStr(hh), reprFloat) == (hh, "")
  {
    assert hh + ":" + mm + ":" + ss == hh + [':'] + (mm + [':'] + ss);
    SplitCons(hh, mm + [':'] + ss, ':');
    SplitCons(mm, ss, ':');
    assert hh + ":" + mm == hh + [':'] + mm;
    SplitOneSeparator(hh, mm, ':');
    SplitNoSeparator(hh, ':');
  }

  /** The values `run_coolerlog_to_unitas` sends, from a bot log and the
      user log (`None` when there is none). */
  function CoolerValues(bot: Record, user: Option<Record>, reprFloat: real -> string): (row: CoolerRow)
    requires ScalarRecord(bot) && (user.Some? ==> ScalarRecord(user.value))
    ensures (row.amHour, row.amMinute) == TimeFields(Get(bot, "cooler_time_am", JStr("")), reprFloat)
    ensures (row.pmHour, row.pmMinute) == TimeFields(Get(bot, "cooler_time_pm", JStr("")), reprFloat)
    ensures row.amTemp == Str(Get(bot, "cooler_temp_am", JStr("")), reprFloat)
    ensures row.pmTemp == Str(Get(bot, "cooler_temp_pm", JStr("")), reprFloat)
    ensures user.None? || user.value == map[] ==> row.eggs == "" && row.comments == JStr("")
    ensures user.Some? && user.value != map[] ==>
      row.eggs == Str(Get(user.value, "eggs_picked_up", JStr("")), reprFloat) &&
      row.comments == Get(user.value, "coolerlog_comments", JStr(""))
  {
    var timeAm := Get(bot, "cooler_time_am", JStr(""));
    var tempAm := Get(bot, "cooler_temp_am", JStr(""));
    var timePm := Get(bot, "cooler_time_pm", JStr(""));
    var tempPm := Get(bot, "cooler_temp_pm", JStr(""));
    var (amHour, amMinute) := TimeFields(timeAm, reprFloat);
    var (pmHour, pmMinute) := TimeFields(timePm, reprFloat);
    var hasUser := user.Some? && user.value != map[];
    var eggs := if hasUser then Get(user.value, "eggs_picked_up", JStr("")) else JStr("");
    var comments := if hasUser then Get(user.value, "coolerlog_comments", JStr("")) else JStr("");
    CoolerRow(amHour, amMinute, Str(tempAm, reprFloat), pmHour, pmMinute, Str(tempPm, reprFloat),
              Str(eggs, reprFloat), comments)
  }

  /** `run_coolerlog_to_unitas()` up to the browser: nothing to send
      (`Ok(None)`) when the day is already logged or has no bot log;
      otherwise the row to send. Yesterday is computed first, and raises
      OverflowError on the first day of the calendar. */
  function RunCoolerlog(today: Date, alreadyLogged: bool, botLog: Option<Record>, userLog: Option<Record>,
                        reprFloat: real -> string): (r: Result<Option<CoolerRow>>)
    requires Valid(today)
    requires botLog.Some? ==> ScalarRecord(botLog.value)
    requires userLog.Some? ==> ScalarRecord(userLog.value)
    ensures r.Raised? <==> AddDays(today, -1).None?
    ensures r.Raised? ==> r.error == OverflowError
    ensures r.Ok? && (alreadyLogged || botLog.None? || botLog.value == map[]) ==> r.value.None?
    ensures r.Ok? && r.value.Some? ==>
      !alreadyLogged && botLog.Some? && r.value.value == CoolerValues(botLog.value, userLog, reprFloat)
  {
    if AddDays(today, -1).None? then Raised(OverflowError)
    else if alreadyLogged then Ok(None)
    else if botLog.None? || botLog.value == map[] then Ok(None)
    else Ok(Some(CoolerValues(botLog.value, userLog, reprFloat)))
  }

  /** The calls `fill_coolerlog_values` makes after picking the date, with
      the configured initials. */
  function CoolerSteps(row: CoolerRow, initials: Json): (steps: seq<Step>)
    ensures |steps| == 10
  {
    [ Clock("input-hour", "AMCheck-H1", JStr(row.amHour)),
      Clock("input-minute", "AMCheck-H1", JStr(row.amMinute)),
      Input("AMTemp-H1", JStr(row.amTemp)),
      Input("AMInitial-H1", initials),
      Clock("input-hour", "PMCheck-H1", JStr(row.pmHour)),
      Clock("input-minute", "PMCheck-H1", JStr(row.pmMinute)),
      Input("PMTemp-H1", JStr(row.pmTemp)),
      Input("PMInitial-H1", initials),
      Input("EggsPick-H1", JStr(row.eggs)),
      Input("Comments-H1", row.comments) ]
  }

  /** The fields `fill_coolerlog_values` fills, and the error it stops at. */
  function FillCoolerlogValues(row: CoolerRow, initials: Json): (r: (seq<Fill>, Option<PyError>))
    ensures |r.0| <= 10
  {
    RunSteps(CoolerSteps(row, initials))
  }

  /** The cooler clocks are the only steps that can raise, and only with
      ValueError: a fill of text hours and minutes never raises anything
      else. */
  lemma CoolerFillErrors(row: CoolerRow, initials: Json)
    ensures FillCoolerlogValues(row, initials).1 != Some(TypeError)
    ensures FillCoolerlogValues(row, initials).1 != Some(AttributeError)
  {
    var steps := CoolerSteps(row, initials);
    assert Avoids(steps, TypeError);
    assert Avoids(steps, AttributeError);
    RunStepsErrorFromStep(steps, TypeError);
    RunStepsErrorFromStep(steps, AttributeError);
  }

  /** The AM hour is sent zero-padded although the row holds it as
      written: a cooler time of `"7:05:00"` fills the hour selector with
      `"07"`. */
  lemma AmHourPadded(row: CoolerRow, initials: Json, h: int)
    requires ParseInt(row.amHour) == Some(h) && 0 <= h < 100
    ensures var fills := FillCoolerlogValues(row, initials).0;
      |fills| >= 1 && fills[0] == Selected("input-hour", "AMCheck-H1", Format02(h))
    ensures |Format02(h)| == 2 && DigitsValue(Format02(h)) == h
  {
    var steps := CoolerSteps(row, initials);
    ClockFilled("input-hour", "AMCheck-H1", row.amHour, h);
    assert steps == [steps[0]] + steps[1..];
    RunStepsAppend([steps[0]], steps[1..]);
  }

  /** A NULL temperature is sent as the text `"None"`: `str(None)` is not
      blank, so the temperature input is typed. */
  lemma NullTemperatureSent(bot: Record, user: Option<Record>, reprFloat: real -> string)
    requires ScalarRecord(bot) && (user.Some? ==> ScalarRecord(user.value))
    requires "cooler_temp_am" in bot && bot["cooler_temp_am"] == JNull
    ensures CoolerValues(bot, user, reprFloat).amTemp == "None"
    ensures !Skipped(JStr(CoolerValues(bot, user, reprFloat).amTemp))
  {
  }

  // ------------------------------------------------------------ date picker

  /** The month shown by the date picker, numbered from year 0. */
  function MonthIndex(year: int, month: int): int {
    year * 12 + month - 1
  }

  /** The month `(year, month)` is after `(y, m)`, as Python compares
      tuples, exactly when its index is larger. */
  lemma LaterMonth(year: int, month: int, y: int, m: int)
    requires 1 <= month <= 12 && 1 <= m <= 12
    ensures (year > y || (year == y && month > m)) <==> MonthIndex(year, month) > MonthIndex(y, m)
    ensures (year == y && month == m) <==> MonthIndex(year, month) == MonthIndex(y, m)
  {
  }

  /** The month header of the date picker and its two buttons. */
  class DatePicker {
    var year: int
    var month: int

    predicate Valid()
      reads this
    {
      1 <= month <= 12
    }

    function Shown(): int
      reads this
    {
      MonthIndex(year, month)
    }

    constructor (year: int, month: int)
      requires 1 <= month <= 12
      ensures this.year == year && this.month == month && Valid()
    {
      this.year := year;
      this.month := month;
    }

    /** The "previous month" button. */
    method Previous()
      requires Valid()
      modifies this
      ensures Valid() && Shown() == old(Shown()) - 1
    {
      if month == 1 {
        year, month := year - 1, 12;
      } else {
        month := month - 1;
      }
    }

    /** The "next month" button. */
    method Next()
      requires Valid()
      modifies this
      ensures Valid() && Shown() == old(Shown()) + 1
    {
      if month == 12 {
        year, month := year + 1, 1;
      } else {
        month := month + 1;
      }
    }

    /** `pick_date(target)`: steps back while the shown month is after the
        target's and forward while it is before, until it is the target's
        month, then names the day cell it clicks. It clicks only one of the
        buttons, as many times as the months between the two. */
    method PickDate(target: Date) returns (previousClicks: nat, nextClicks: nat, cell: string)
      requires Valid() && Dates.Valid(target)
      modifies this
      ensures Valid() && year == target.year && month == target.month
      ensures old(Shown()) > MonthIndex(target.year, target.month) ==>
        previousClicks == old(Shown()) - MonthIndex(target.year, target.month) && nextClicks == 0
      ensures old(Shown()) <= MonthIndex(target.year, target.month) ==>
        nextClicks == MonthIndex(target.year, target.month) - old(Shown()) && previousClicks == 0
      ensures cell == "date-" + IntToString(target.day)
    {
      var goal := MonthIndex(target.year, target.month);
      var start := Shown();
      previousClicks, nextClicks := 0, 0;
      while !(month == target.month && year == target.year)
        invariant Valid()
        invariant start > goal ==> nextClicks == 0 && Shown() == start - previousClicks && Shown() >= goal
        invariant start <= goal ==> previousClicks == 0 && Shown() == start + nextClicks && Shown() <= goal
        decreases if Shown() > goal then Shown() - goal else goal - Shown()
      {
        LaterMonth(year, month, target.year, target.month);
        if year > target.year || (year == target.year && month > target.month) {
          Previous();
          previousClicks := previousClicks + 1;
        } else {
          Next();
          nextClicks := nextClicks + 1;
        }
      }
      cell := "date-" + IntToString(target.day);
    }
  }
}
