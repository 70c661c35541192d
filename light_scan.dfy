/** The per-file work of `doProcessingOnAllFiles`: temperature readings
    collected with the `-9999` sentinel dropped, and the light on/off state
    machine driven by `lightFlag`, whose codes are 0 (no light data yet),
    99999 (the first file showed the light already on) and 100000 (an
    on/off cycle was seen). A file whose processing raises is quarantined
    and the loop goes on with the effects it had before raising. */
module LightScan {
  import opened Common
  import opened XmlHelpers
  import opened XmlDocs
  import opened TimeSort
  import opened Extremes

  const FirstFileLightOn: int := 99999
  const LightCycleDone: int := 100000

  /** The light locals of the loop. `active` is the Python local of that
      name, unbound (`None`) until an `Active` text has been read. */
  datatype Light = Light(status: bool, flag: int, onTime: string, offTime: string, active: Option<int>)

  /** All locals the loop updates. */
  datatype Scan = Scan(light: Light, outside: seq<real>, inside: seq<real>)

  function ScanStart(): Scan {
    Scan(Light(false, 0, NA, NA, None), [], [])
  }

  /** `grabTime()`: the document's UTC `Headers/TimeStamp` as local
      `HH:MM`; `None` when it raises. The parse and the time-zone
      conversion are the parameter `toLocal`. */
  function GrabTime(d: Doc, toLocal: string -> Option<string>): (r: Option<string>)
    ensures d.timeStamp.None? ==> r.None?
  {
    match d.timeStamp
    case None => None
    case Some(ts) => if ts == "" then None else toLocal(ts)
  }

  /** The value of `active` after the `Active` lookup: the parsed text,
      or the stale value when there is no `Active`; a text that does not
      parse raises ValueError and an unbound local UnboundLocalError. */
  function ActiveValue(activeText: Option<string>, stale: Option<int>): (r: Result<int>)
    ensures activeText.Some? ==> (r.Ok? <==> ParseInt(activeText.value).Some?)
    ensures activeText.Some? && r.Ok? ==> r.value == ParseInt(activeText.value).value
    ensures activeText.None? ==> (r.Ok? <==> stale.Some?) && (r.Ok? ==> r.value == stale.value)
    ensures activeText.None? && stale.None? ==> r == Raised(UnboundLocalError)
  {
    match activeText
    case Some(t) =>
      (match ParseInt(t)
       case Some(a) => Ok(a)
       case None => Raised(ValueError))
    case None =>
      (match stale
       case Some(a) => Ok(a)
       case None => Raised(UnboundLocalError))
  }

  /** The light part of one file, run while `lightFlag < 99999`. The
      boolean is false when the file raised; the light locals then keep
      what was assigned before the exception. */
  function LightStep(l: Light, d: Doc, toLocal: string -> Option<string>): (Light, bool)
  {
    match d.light
    case None => (l, true)
    case Some(activeText) =>
      match ActiveValue(activeText, l.active)
      case Raised(_) => (l, false)
      case Ok(a) =>
        var l1 := l.(active := Some(a));
        if l1.flag == 0 && a != 0 then (l1.(flag := FirstFileLightOn), true)
        else if a > 0 && !l1.status then
          var l2 := l1.(status := true);
          match GrabTime(d, toLocal)
          case None => (l2, false)
          case Some(t) => (l2.(onTime := t), true)
        else if a == 0 && l1.status then
          var l2 := l1.(status := false);
          match GrabTime(d, toLocal)
          case None => (l2, false)
          case Some(t) => (l2.(offTime := t, flag := LightCycleDone), true)
        else (l1.(flag := l1.flag + 1), true)
  }

  function Collected(o: Option<real>): seq<real> {
    match o
    case None => []
    case Some(v) => [v]
  }

  /** The body of the `try` for one parsed file: outside temperature,
      inside temperature, then the light while the flag is below 99999. */
  function DocStep(s: Scan, d: Doc, toLocal: string -> Option<string>): (Scan, bool)
  {
    match ReadTemp(d.outsideTemperature)
    case Raised(_) => (s, false)
    case Ok(o) =>
      var s1 := s.(outside := s.outside + Collected(o));
      match ReadTemp(d.averageTemperature)
      case Raised(_) => (s1, false)
      case Ok(i) =>
        var s2 := s1.(inside := s1.inside + Collected(i));
        if s2.light.flag < FirstFileLightOn then
          var step := LightStep(s2.light, d, toLocal);
          (s2.(light := step.0), step.1)
        else (s2, true)
  }

  /** The loop's state: its locals, the folders, and an exception that
      escaped the `except` clause, which ends the loop. */
  datatype Loop = Loop(scan: Scan, disk: Disk, escaped: Option<PyError>)

  /** One iteration. A missing file makes `ET.parse` raise, and then
      `shutil.move` of the missing file raises FileNotFoundError out of
      the `except` clause; an unparsable file or a raising step moves the
      file to the failed folder. */
  function ProcessFile(st: Loop, name: string, toLocal: string -> Option<string>): (r: Loop)
    requires st.escaped.None?
  {
    match Lookup(st.disk.files, name)
    case None => st.(escaped := Some(FileNotFoundError))
    case Some(Unparsable) => st.(disk := Quarantine(st.disk, name, Unparsable))
    case Some(Parsed(d)) =>
      var step := DocStep(st.scan, d, toLocal);
      if step.1 then st.(scan := step.0)
      else Loop(step.0, Quarantine(st.disk, name, Parsed(d)), None)
  }

  /** The loop over the time-sorted files, as a function of the files
      processed so far. */
  function ScanFiles(start: Loop, es: seq<Entry>, toLocal: string -> Option<string>): (r: Loop)
  {
    if es == [] then start
    else
      var st := ScanFiles(start, es[..|es| - 1], toLocal);
      if st.escaped.Some? then st else ProcessFile(st, es[|es| - 1].name, toLocal)
  }

  /** The first loop: each listed file whose time and growth day are read,
      with its time, in list order. */
  function TimedEntries(files: seq<XmlFile>, names: seq<string>): (r: seq<Entry>)
    ensures |r| <= |names|
  {
    if names == [] then []
    else
      var name := names[|names| - 1];
      TimedEntries(files, names[..|names| - 1]) +
        match ExtractTimeAndGrowthDay(Lookup(files, name))
        case None => []
        case Some(tg) => [Entry(name, tg.0)]
  }

  /** What the function returns. */
  datatype DayTemps = DayTemps(
    outsideHigh: real, outsideLow: real, insideHigh: real, insideLow: real,
    lightOnTime: string, lightOffTime: string)

  /** The return statement: `outsideHigh` and friends are unbound, so
      UnboundLocalError is raised, when a list stayed empty. */
  function Summarize(s: Scan): (r: Result<DayTemps>)
    ensures r.Raised? <==> s.outside == [] || s.inside == []
    ensures r.Raised? ==> r.error == UnboundLocalError
    ensures r.Ok? ==> r.value.lightOnTime == s.light.onTime && r.value.lightOffTime == s.light.offTime
    ensures r.Ok? ==> r.value.outsideLow in s.outside && r.value.outsideHigh in s.outside
    ensures r.Ok? ==> r.value.insideLow in s.inside && r.value.insideHigh in s.inside
    ensures r.Ok? ==> forall x :: x in s.outside ==> r.value.outsideLow <= x <= r.value.outsideHigh
    ensures r.Ok? ==> forall x :: x in s.inside ==> r.value.insideLow <= x <= r.value.insideHigh
  {
    if s.outside == [] || s.inside == [] then Raised(UnboundLocalError)
    else Ok(DayTemps(MaxOf(s.outside), MinOf(s.outside), MaxOf(s.inside), MinOf(s.inside),
                     s.light.onTime, s.light.offTime))
  }

  /** `doProcessingOnAllFiles(file_list)`: its result and the folders afterwards. */
  function DoProcessing(disk: Disk, fileList: seq<string>, toLocal: string -> Option<string>): (Result<DayTemps>, Disk)
  {
    var es := SortByTime(TimedEntries(disk.files, fileList));
    var st := ScanFiles(Loop(ScanStart(), disk, None), es, toLocal);
    if st.escaped.Some? then (Raised(st.escaped.value), st.disk)
    else (Summarize(st.scan), st.disk)
  }

  // ---------------------------------------------------------------- the light state machine

  /** While the flag is 0 the light has not been seen on, so both times
      are still `=NA()`. */
  predicate LightOk(l: Light) {
    l.flag >= 0 && (l.flag == 0 ==> !l.status && l.onTime == NA && l.offTime == NA)
  }

  lemma LightStepKeepsOk(l: Light, d: Doc, toLocal: string -> Option<string>)
    requires LightOk(l) && l.flag < FirstFileLightOn
    ensures LightOk(LightStep(l, d, toLocal).0)
    ensures LightStep(l, d, toLocal).0.flag >= l.flag
  {
  }

  /** While `lightFlag == 0`, a file whose Light is active sets the flag to
      99999 and leaves both times `=NA()`. */
  lemma FirstFileLightOnFails(l: Light, d: Doc, text: string, toLocal: string -> Option<string>)
    requires LightOk(l) && l.flag == 0
    requires d.light == Some(Some(text)) && ParseInt(text).Some? && ParseInt(text).value != 0
    ensures var (l', ok) := LightStep(l, d, toLocal);
      ok && l'.flag == FirstFileLightOn && l'.onTime == NA && l'.offTime == NA
  {
  }

  /** A transition off to on records the local time as the on time. */
  lemma LightTurnsOn(l: Light, d: Doc, text: string, toLocal: string -> Option<string>)
    requires 0 < l.flag && !l.status
    requires d.light == Some(Some(text)) && ParseInt(text).Some? && ParseInt(text).value > 0
    requires GrabTime(d, toLocal).Some?
    ensures var (l', ok) := LightStep(l, d, toLocal);
      ok && l'.status && l'.onTime == GrabTime(d, toLocal).value &&
      l'.offTime == l.offTime && l'.flag == l.flag
  {
  }

  /** A transition on to off records the off time and ends the cycle. */
  lemma LightTurnsOff(l: Light, d: Doc, text: string, toLocal: string -> Option<string>)
    requires l.status
    requires d.light == Some(Some(text)) && ParseInt(text) == Some(0)
    requires GrabTime(d, toLocal).Some?
    ensures var (l', ok) := LightStep(l, d, toLocal);
      ok && !l'.status && l'.offTime == GrabTime(d, toLocal).value &&
      l'.onTime == l.onTime && l'.flag == LightCycleDone
  {
  }

  /** A file with no steady change only advances the counter. */
  lemma LightCounterAdvances(l: Light, d: Doc, text: string, toLocal: string -> Option<string>)
    requires d.light == Some(Some(text)) && ParseInt(text).Some?
    requires var a := ParseInt(text).value;
      !(l.flag == 0 && a != 0) && !(a > 0 && !l.status) && !(a == 0 && l.status)
    ensures var (l', ok) := LightStep(l, d, toLocal);
      ok && l'.flag == l.flag + 1 && l'.status == l.status &&
      l'.onTime == l.onTime && l'.offTime == l.offTime
  {
  }

  /** A Light without `Active` before any `Active` was read raises
      UnboundLocalError: the file is treated as failed. */
  lemma MissingActiveUnbound(l: Light, d: Doc, toLocal: string -> Option<string>)
    requires l.active.None? && d.light == Some(None)
    ensures LightStep(l, d, toLocal) == (l, false)
  {
  }

  /** One iteration keeps the light invariant and never lowers the flag. */
  lemma ProcessFileKeepsLight(st: Loop, name: string, toLocal: string -> Option<string>)
    requires st.escaped.None? && LightOk(st.scan.light)
    ensures var r := ProcessFile(st, name, toLocal);
      LightOk(r.scan.light) && r.scan.light.flag >= st.scan.light.flag
    ensures st.scan.light.flag >= FirstFileLightOn ==> ProcessFile(st, name, toLocal).scan.light == st.scan.light
  {
    match Lookup(st.disk.files, name)
    case None =>
    case Some(Unparsable) =>
    case Some(Parsed(d)) =>
      var s := st.scan;
      match ReadTemp(d.outsideTemperature)
      case Raised(_) =>
      case Ok(o) =>
        match ReadTemp(d.averageTemperature)
        case Raised(_) =>
        case Ok(i) =>
          if s.light.flag < FirstFileLightOn {
            LightStepKeepsOk(s.light, d, toLocal);
          }
  }

  /** Over the whole loop the flag never decreases and the invariant holds. */
  lemma {:induction false} ScanKeepsLight(start: Loop, es: seq<Entry>, toLocal: string -> Option<string>)
    requires LightOk(start.scan.light)
    ensures LightOk(ScanFiles(start, es, toLocal).scan.light)
    ensures ScanFiles(start, es, toLocal).scan.light.flag >= start.scan.light.flag
  {
    if es != [] {
      var st := ScanFiles(start, es[..|es| - 1], toLocal);
      ScanKeepsLight(start, es[..|es| - 1], toLocal);
      if st.escaped.None? {
        ProcessFileKeepsLight(st, es[|es| - 1].name, toLocal);
      }
    }
  }

  /** Once the flag reaches 99999 the light locals, and so both times,
      never change again, whatever files follow. */
  lemma {:induction false} LightFrozen(start: Loop, es: seq<Entry>, k: nat, toLocal: string -> Option<string>)
    requires k <= |es|
    requires ScanFiles(start, es[..k], toLocal).scan.light.flag >= FirstFileLightOn
    ensures ScanFiles(start, es, toLocal).scan.light == ScanFiles(start, es[..k], toLocal).scan.light
    decreases |es| - k
  {
    if k == |es| {
      assert es[..k] == es;
    } else {
      var init := es[..|es| - 1];
      assert init[..k] == es[..k];
      LightFrozen(start, init, k, toLocal);
      var st := ScanFiles(start, init, toLocal);
      if st.escaped.None? {
        ProcessFileKeepsLight(st, es[|es| - 1].name, toLocal);
      }
    }
  }

  // ---------------------------------------------------------------- temperatures

  predicate NoSentinel(xs: seq<real>) {
    forall i :: 0 <= i < |xs| ==> xs[i] != -9999.0
  }

  /** Only readings other than -9999 are ever collected. */
  lemma {:induction false} ScanDropsSentinel(start: Loop, es: seq<Entry>, toLocal: string -> Option<string>)
    requires NoSentinel(start.scan.outside) && NoSentinel(start.scan.inside)
    ensures var r := ScanFiles(start, es, toLocal); NoSentinel(r.scan.outside) && NoSentinel(r.scan.inside)
  {
    if es != [] {
      ScanDropsSentinel(start, es[..|es| - 1], toLocal);
      var st := ScanFiles(start, es[..|es| - 1], toLocal);
      if st.escaped.None? {
        ProcessFileDropsSentinel(st, es[|es| - 1].name, toLocal);
      }
    }
  }

  lemma ProcessFileDropsSentinel(st: Loop, name: string, toLocal: string -> Option<string>)
    requires st.escaped.None? && NoSentinel(st.scan.outside) && NoSentinel(st.scan.inside)
    ensures var r := ProcessFile(st, name, toLocal); NoSentinel(r.scan.outside) && NoSentinel(r.scan.inside)
  {
    match Lookup(st.disk.files, name)
    case None =>
    case Some(Unparsable) =>
    case Some(Parsed(d)) =>
      var s := st.scan;
      match ReadTemp(d.outsideTemperature)
      case Raised(_) =>
      case Ok(o) =>
        var s1 := s.(outside := s.outside + Collected(o));
        assert NoSentinel(s1.outside);
        match ReadTemp(d.averageTemperature)
        case Raised(_) =>
        case Ok(i) =>
          assert NoSentinel(s1.inside + Collected(i));
  }

  /** A file that raises mid-processing is moved to the failed folder under
      its name and the loop goes on. */
  lemma FailedFileQuarantined(st: Loop, name: string, d: Doc, toLocal: string -> Option<string>)
    requires st.escaped.None? && Lookup(st.disk.files, name) == Some(Parsed(d))
    requires !DocStep(st.scan, d, toLocal).1
    ensures var r := ProcessFile(st, name, toLocal);
      r.escaped.None? && Lookup(r.disk.files, name).None? && r.disk.failed == st.disk.failed[name := Parsed(d)]
  {
  }

  /** The files are processed in ascending order of their time strings. */
  lemma ProcessedInTimeOrder(disk: Disk, fileList: seq<string>)
    ensures SortedByTime(SortByTime(TimedEntries(disk.files, fileList)))
  {
    SortSorted(TimedEntries(disk.files, fileList));
  }

  /** The result's temperatures bound every kept reading, and an empty
      list of readings makes the function raise. */
  lemma DoProcessingBounds(disk: Disk, fileList: seq<string>, toLocal: string -> Option<string>)
    ensures var (r, _) := DoProcessing(disk, fileList, toLocal);
      var st := ScanFiles(Loop(ScanStart(), disk, None), SortByTime(TimedEntries(disk.files, fileList)), toLocal);
      r.Ok? ==>
        st.escaped.None? && NoSentinel(st.scan.outside) && NoSentinel(st.scan.inside) &&
        (forall x :: x in st.scan.outside ==> r.value.outsideLow <= x <= r.value.outsideHigh) &&
        (forall x :: x in st.scan.inside ==> r.value.insideLow <= x <= r.value.insideHigh)
  {
    var es := SortByTime(TimedEntries(disk.files, fileList));
    ScanDropsSentinel(Loop(ScanStart(), disk, None), es, toLocal);
  }
}
