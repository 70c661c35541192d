/** `jobs.py`: the clock-offset arithmetic of the scheduler and the
    once-a-day run flags of its two jobs. The jobs' own work (running the
    XML processing, writing and reading the spreadsheet, deleting old
    files, uploading to Unitas) is recorded as a trace of calls. */
module Jobs {
  import opened Common
  import opened Dates
  import opened XmlHelpers

  /** `schedule_offset(base_time, offset_minutes)` with `today` for the
      date of `datetime.today()`: midnight plus `h` hours and `m` minutes,
      plus the offset, as `HH:MM`. `h, m = map(int, ...)` needs exactly two
      integer fields (ValueError otherwise), and each addition raises
      OverflowError when it leaves years 1..9999. */
  function ScheduleOffset(today: Date, baseTime: string, offsetMinutes: int): (r: Result<string>)
    requires Valid(today)
    ensures r.Raised? ==> r.error in {ValueError, OverflowError}
    ensures r.Ok? ==> |r.value| == 5 && r.value[2] == ':'
  {
    match TimeToMinutes(baseTime)
    case Raised(e) => Raised(e)
    case Ok(hm) =>
      if AddDays(today, hm / 1440).None? then Raised(OverflowError)
      else
        var total := hm + offsetMinutes;
        if AddDays(today, total / 1440).None? then Raised(OverflowError)
        else Ok(ClockText(total % 1440))
  }

  /** The result is the minute of the day `h*60 + m + offset` falls on. */
  lemma ScheduleOffsetMinutes(today: Date, baseTime: string, offsetMinutes: int)
    requires Valid(today) && ScheduleOffset(today, baseTime, offsetMinutes).Ok?
    ensures TimeToMinutes(baseTime).Ok?
    ensures var r := ScheduleOffset(today, baseTime, offsetMinutes).value;
      TimeToMinutes(r) == Ok((TimeToMinutes(baseTime).value + offsetMinutes) % 1440)
  {
    ClockTextMinutes((TimeToMinutes(baseTime).value + offsetMinutes) % 1440);
  }

  /** Within the calendar the result is always there: only the fields can
      make it raise. */
  lemma ScheduleOffsetDefined(today: Date, baseTime: string, offsetMinutes: int)
    requires Valid(today) && TimeToMinutes(baseTime).Ok?
    requires AddDays(today, TimeToMinutes(baseTime).value / 1440).Some?
    requires AddDays(today, (TimeToMinutes(baseTime).value + offsetMinutes) / 1440).Some?
    ensures ScheduleOffset(today, baseTime, offsetMinutes).Ok?
  {
  }

  /** Fifteen minutes after 23:50 is 00:05 the next day. */
  lemma ScheduleOffsetWraps(today: Date, baseTime: string)
    requires Valid(today) && AddDays(today, 1).Some? && baseTime == "23:50"
    ensures ScheduleOffset(today, baseTime, 15) == Ok("00:05")
  {
    MinutesOf2350(baseTime);
    ScheduleOffsetFrom2350(today, baseTime);
    ClockTextOf5();
  }

  lemma MinutesOf2350(baseTime: string)
    requires baseTime == "23:50"
    ensures TimeToMinutes(baseTime) == Ok(1430)
  {
    TwoDigits("23", 23);
    TwoDigits("50", 50);
    MinutesOfClock(baseTime, "23", "50", 23, 50);
  }

  lemma ScheduleOffsetFrom2350(today: Date, baseTime: string)
    requires Valid(today) && AddDays(today, 1).Some? && TimeToMinutes(baseTime) == Ok(1430)
    ensures ScheduleOffset(today, baseTime, 15) == Ok(ClockText(5))
  {
    assert 1430 / 1440 == 0;
    assert (1430 + 15) / 1440 == 1;
    assert (1430 + 15) % 1440 == 5;
    assert AddDays(today, 0).Some?;
  }

  lemma ClockTextOf5()
    ensures ClockText(5) == "00:05"
  {
    assert Format02(0) == "00" && Format02(5) == "05";
  }

  /** A base time with a seconds field has three fields and cannot unpack
      into `h, m`. */
  lemma ScheduleOffsetSeconds(today: Date, baseTime: string, hh: string, mm: string, ss: string, offsetMinutes: int)
    requires Valid(today)
    requires ':' !in hh && ':' !in mm && ':' !in ss && baseTime == hh + ":" + mm + ":" + ss
    ensures ScheduleOffset(today, baseTime, offsetMinutes) == Raised(ValueError)
  {
    assert baseTime == hh + [':'] + (mm + [':'] + ss);
    SplitCons(hh, mm + [':'] + ss, ':');
    SplitOneSeparator(mm, ss, ':');
  }

  /** The function's own default base time, `"00:15:00"`, raises. */
  lemma ScheduleOffsetDefaultRaises(today: Date, baseTime: string)
    requires Valid(today) && baseTime == "00:15:00"
    ensures ScheduleOffset(today, baseTime, 15) == Raised(ValueError)
  {
    ScheduleOffsetSeconds(today, baseTime, "00", "15", "00", 15);
  }

  // ---------------------------------------------------------------- the run flags

  /** The calls the jobs make, in order; `Reset` marks a `reset_flags`,
      and `LoggedXml` and `LoggedUnitas` the messages each job prints once
      its work has returned and its flag is set. */
  datatype Call = Reset | RunXmlStuff | WriteToSheet | SaveRunState | DeleteOldFiles
                | ReadCheckbox | ReadUploadRow | RunUnitasStuff | RunCoolerlog
                | LoggedXml | LoggedUnitas

  /** How often `c` was called since the last reset. */
  function CallsSinceReset(trace: seq<Call>, c: Call): (n: nat)
    ensures n <= |trace|
  {
    if trace == [] || trace[|trace| - 1] == Reset then 0
    else CallsSinceReset(trace[..|trace| - 1], c) + (if trace[|trace| - 1] == c then 1 else 0)
  }

  lemma {:induction false} CallsSinceResetAppend(trace: seq<Call>, more: seq<Call>, c: Call)
    requires Reset !in more
    ensures CallsSinceReset(trace + more, c) == CallsSinceReset(trace, c) + Count(more, c)
    decreases |more|
  {
    if more == [] {
      assert trace + more == trace;
    } else {
      var init := more[..|more| - 1];
      assert (trace + more)[..|trace + more| - 1] == trace + init;
      assert more == init + [more[|more| - 1]];
      CountAppend(init, [more[|more| - 1]], c);
      CallsSinceResetAppend(trace, init, c);
    }
  }

  /** The calls one `xml_to_sheet_job` makes when it does its work. */
  function XmlJobCalls(noDelete: bool): (r: seq<Call>)
    ensures Reset !in r && RunUnitasStuff !in r && LoggedXml !in r && LoggedUnitas !in r
  {
    [RunXmlStuff, WriteToSheet, SaveRunState] + (if noDelete then [] else [DeleteOldFiles])
  }

  lemma XmlJobCallsCount(noDelete: bool)
    ensures Count(XmlJobCalls(noDelete), RunXmlStuff) == 1
  {
    var r := XmlJobCalls(noDelete);
    var a := [RunXmlStuff, WriteToSheet, SaveRunState];
    assert a[..2][..1] == [RunXmlStuff] && [RunXmlStuff][..0] == [];
    assert Count(a, RunXmlStuff) == 1;
    if !noDelete {
      assert r[..3] == a;
    } else {
      assert r == a;
    }
  }

  /** The calls one `check_and_run_unitas` makes on a ticked checkbox. */
  function UnitasJobCalls(): (r: seq<Call>)
    ensures Reset !in r && RunXmlStuff !in r && LoggedXml !in r && LoggedUnitas !in r
    ensures Count(r, RunUnitasStuff) == 1
  {
    assert [ReadCheckbox, ReadUploadRow, RunUnitasStuff][..2][..1][..0] == [];
    [ReadCheckbox, ReadUploadRow, RunUnitasStuff]
  }

  /** Whether one of `calls` raises: `raisesAt` is the position of the call
      that raises, if any. The exceptions the called jobs raise are inputs. */
  predicate RaisesIn(calls: seq<Call>, raisesAt: Option<nat>) {
    raisesAt.Some? && raisesAt.value < |calls|
  }

  /** The calls made before an exception leaves the job: those up to and
      including the one that raises, or all of them. */
  function CallsMade(calls: seq<Call>, raisesAt: Option<nat>): (r: seq<Call>)
    ensures r <= calls
    ensures |r| == (if RaisesIn(calls, raisesAt) then raisesAt.value + 1 else |calls|)
  {
    if RaisesIn(calls, raisesAt) then calls[..raisesAt.value + 1] else calls
  }

  /** `do_unitas_stuff[0][0].upper() == 'TRUE'` on the values read from the
      checkbox cell: an empty read raises IndexError. */
  function CheckboxTicked(cells: seq<seq<string>>): (r: Result<bool>)
    ensures r.Raised? <==> cells == [] || cells[0] == []
    ensures r.Raised? ==> r.error == IndexError
    ensures r.Ok? ==> (r.value <==> UpperString(cells[0][0]) == "TRUE")
  {
    if cells == [] || cells[0] == [] then Raised(IndexError)
    else Ok(UpperString(cells[0][0]) == "TRUE")
  }

  /** The module-level flags `xml_to_sheet_ran` and `sheet_to_unitas_ran`. */
  class Scheduler {
    var xmlToSheetRan: bool
    var sheetToUnitasRan: bool
    ghost var trace: seq<Call>

    /** Each flag is set exactly when its job has completed since the last
        reset, so each job completes at most once between resets, having
        called its work; and Unitas completes only after the XML job. */
    ghost predicate Valid()
      reads this
    {
      CallsSinceReset(trace, LoggedXml) == (if xmlToSheetRan then 1 else 0) &&
      CallsSinceReset(trace, LoggedUnitas) == (if sheetToUnitasRan then 1 else 0) &&
      (xmlToSheetRan ==> CallsSinceReset(trace, RunXmlStuff) >= 1) &&
      (sheetToUnitasRan ==> CallsSinceReset(trace, RunUnitasStuff) >= 1) &&
      (sheetToUnitasRan ==> xmlToSheetRan)
    }

    constructor ()
      ensures Valid() && !xmlToSheetRan && !sheetToUnitasRan && trace == []
    {
      xmlToSheetRan, sheetToUnitasRan := false, false;
      trace := [];
    }

    /** `reset_flags()`. */
    method ResetFlags()
      modifies this
      ensures Valid()
      ensures !xmlToSheetRan && !sheetToUnitasRan && trace == old(trace) + [Reset]
    {
      xmlToSheetRan, sheetToUnitasRan := false, false;
      trace := trace + [Reset];
    }

    /** Appending calls with no reset and no completion message keeps the
        flags' invariant. */
    ghost method AppendCalls(calls: seq<Call>)
      requires Valid()
      requires Reset !in calls && LoggedXml !in calls && LoggedUnitas !in calls
      modifies this
      ensures Valid()
      ensures trace == old(trace) + calls
      ensures xmlToSheetRan == old(xmlToSheetRan) && sheetToUnitasRan == old(sheetToUnitasRan)
    {
      CallsSinceResetAppend(trace, calls, LoggedXml);
      CallsSinceResetAppend(trace, calls, LoggedUnitas);
      CallsSinceResetAppend(trace, calls, RunXmlStuff);
      CallsSinceResetAppend(trace, calls, RunUnitasStuff);
      trace := trace + calls;
    }

    /** The end of a job whose calls all returned: the calls, then the
        message `done`, which the job prints after setting its flag. */
    ghost method AppendCompleted(calls: seq<Call>, done: Call)
      requires Valid()
      requires Reset !in calls && LoggedXml !in calls && LoggedUnitas !in calls
      requires done == LoggedXml || done == LoggedUnitas
      modifies this
      ensures trace == old(trace) + calls + [done]
      ensures xmlToSheetRan == old(xmlToSheetRan) && sheetToUnitasRan == old(sheetToUnitasRan)
      ensures forall c :: CallsSinceReset(trace, c) == CallsSinceReset(old(trace), c) + Count(calls + [done], c)
    {
      forall c ensures CallsSinceReset(old(trace) + calls + [done], c) == CallsSinceReset(old(trace), c) + Count(calls + [done], c) {
        assert old(trace) + calls + [done] == old(trace) + (calls + [done]);
        CallsSinceResetAppend(old(trace), calls + [done], c);
      }
      trace := trace + calls + [done];
    }

    /** Lines 18-23 once every call has returned: the XML job's calls, its
        flag set, its message. */
    method CompleteXmlJob(noDelete: bool)
      requires Valid() && !xmlToSheetRan
      modifies this
      ensures Valid()
      ensures xmlToSheetRan && sheetToUnitasRan == old(sheetToUnitasRan)
      ensures trace == old(trace) + XmlJobCalls(noDelete) + [LoggedXml]
    {
      var calls := XmlJobCalls(noDelete);
      XmlJobCallsCount(noDelete);
      CountAppend(calls, [LoggedXml], RunXmlStuff);
      CountAppend(calls, [LoggedXml], LoggedXml);
      CountAppend(calls, [LoggedXml], LoggedUnitas);
      CountAppend(calls, [LoggedXml], RunUnitasStuff);
      AppendCompleted(calls, LoggedXml);
      xmlToSheetRan := true;
    }

    /** `xml_to_sheet_job()` with `args.LogToUnitas` and `args.NoDelete`;
        `raisesAt` says which of its calls raises, if one does. The flag is
        set only when every call returns; an exception leaves it False, so
        the next run tries again. Once set, the job does nothing. */
    method XmlToSheetJob(logToUnitas: bool, noDelete: bool, raisesAt: Option<nat>) returns (raised: bool)
      requires Valid()
      modifies this
      ensures Valid()
      ensures sheetToUnitasRan == old(sheetToUnitasRan)
      ensures old(xmlToSheetRan) || logToUnitas ==>
        !raised && xmlToSheetRan == old(xmlToSheetRan) && trace == old(trace)
      ensures !old(xmlToSheetRan) && !logToUnitas && RaisesIn(XmlJobCalls(noDelete), raisesAt) ==>
        raised && !xmlToSheetRan && trace == old(trace) + CallsMade(XmlJobCalls(noDelete), raisesAt)
      ensures !old(xmlToSheetRan) && !logToUnitas && !RaisesIn(XmlJobCalls(noDelete), raisesAt) ==>
        !raised && xmlToSheetRan && trace == old(trace) + XmlJobCalls(noDelete) + [LoggedXml]
    {
      raised := false;
      if !xmlToSheetRan {
        if !logToUnitas {
          var calls := XmlJobCalls(noDelete);
          if RaisesIn(calls, raisesAt) {
            AppendCalls(CallsMade(calls, raisesAt));
            raised := true;
          } else {
            CompleteXmlJob(noDelete);
          }
        }
      }
    }

    /** `coolerlog_unitas()` with `logCoolerToUnitas` for the
        `LOG_COOLER_TO_UNITAS` setting; it runs whenever scheduled and leaves
        the daily flags alone. */
    method CoolerlogUnitas(logCoolerToUnitas: bool)
      requires Valid()
      modifies this
      ensures Valid()
      ensures xmlToSheetRan == old(xmlToSheetRan) && sheetToUnitasRan == old(sheetToUnitasRan)
      ensures trace == old(trace) + (if logCoolerToUnitas then [RunCoolerlog] else [])
    {
      if logCoolerToUnitas {
        AppendCalls([RunCoolerlog]);
      }
    }

    /** Lines 33-35 once every call has returned: the upload's calls,
        its flag set, its message. */
    method CompleteUnitasJob()
      requires Valid() && xmlToSheetRan && !sheetToUnitasRan
      modifies this
      ensures Valid()
      ensures sheetToUnitasRan && xmlToSheetRan
      ensures trace == old(trace) + UnitasJobCalls() + [LoggedUnitas]
    {
      var calls := UnitasJobCalls();
      CountAppend(calls, [LoggedUnitas], RunXmlStuff);
      CountAppend(calls, [LoggedUnitas], LoggedXml);
      CountAppend(calls, [LoggedUnitas], LoggedUnitas);
      CountAppend(calls, [LoggedUnitas], RunUnitasStuff);
      AppendCompleted(calls, LoggedUnitas);
      sheetToUnitasRan := true;
    }

    /** `check_and_run_unitas()` with `args.LogToSheet`, `checkbox` for the
        values read from the checkbox cell and `raisesAt` for the call that
        raises, if one does (position 0 is the read of the checkbox). The
        flag is set only when the checkbox is ticked and every call returns;
        an empty read or an exception leaves it False. */
    method CheckAndRunUnitas(logToSheet: bool, checkbox: seq<seq<string>>, raisesAt: Option<nat>)
      returns (raised: bool)
      requires Valid()
      modifies this
      ensures Valid()
      ensures xmlToSheetRan == old(xmlToSheetRan)
      ensures !(old(xmlToSheetRan) && !old(sheetToUnitasRan) && !logToSheet) ==>
        !raised && sheetToUnitasRan == old(sheetToUnitasRan) && trace == old(trace)
      ensures old(xmlToSheetRan) && !old(sheetToUnitasRan) && !logToSheet &&
              (raisesAt == Some(0) || CheckboxTicked(checkbox).Raised?) ==>
        raised && !sheetToUnitasRan && trace == old(trace) + [ReadCheckbox]
      ensures old(xmlToSheetRan) && !old(sheetToUnitasRan) && !logToSheet &&
              raisesAt != Some(0) && CheckboxTicked(checkbox) == Ok(false) ==>
        !raised && !sheetToUnitasRan && trace == old(trace) + [ReadCheckbox]
      ensures old(xmlToSheetRan) && !old(sheetToUnitasRan) && !logToSheet &&
              raisesAt != Some(0) && CheckboxTicked(checkbox) == Ok(true) && RaisesIn(UnitasJobCalls(), raisesAt) ==>
        raised && !sheetToUnitasRan && trace == old(trace) + CallsMade(UnitasJobCalls(), raisesAt)
      ensures old(xmlToSheetRan) && !old(sheetToUnitasRan) && !logToSheet &&
              raisesAt != Some(0) && CheckboxTicked(checkbox) == Ok(true) && !RaisesIn(UnitasJobCalls(), raisesAt) ==>
        !raised && sheetToUnitasRan && trace == old(trace) + UnitasJobCalls() + [LoggedUnitas]
    {
      raised := false;
      if xmlToSheetRan && !sheetToUnitasRan && !logToSheet {
        if raisesAt == Some(0) {
          AppendCalls([ReadCheckbox]);
          raised := true;
          return;
        }
        var ticked := CheckboxTicked(checkbox);
        if ticked.Raised? {
          AppendCalls([ReadCheckbox]);
          raised := true;
        } else if !ticked.value {
          AppendCalls([ReadCheckbox]);
        } else {
          var calls := UnitasJobCalls();
          if RaisesIn(calls, raisesAt) {
            AppendCalls(CallsMade(calls, raisesAt));
            raised := true;
          } else {
            CompleteUnitasJob();
          }
        }
      }
    }
  }
}
