/** The logger folder as the functions of `xml_processing.py` change it:
    the per-day processing loop, the cooler lookup, the retention sweep and
    `run_xml_stuff` itself, each proved to compute what the corresponding
    specification function says. */
module XmlRun {
  import opened Common
  import opened Dates
  import opened XmlHelpers
  import opened XmlDocs
  import opened TimeSort
  import opened LightScan
  import opened LastFile
  import opened Cooler
  import opened Retention
  import opened DayResolution
  import opened DailyRecords

  /** An exception that ended the loop early ends it for good. */
  lemma {:induction false} ScanEscapedStays(start: Loop, es: seq<Entry>, k: nat, toLocal: string -> Option<string>)
    requires k <= |es| && ScanFiles(start, es[..k], toLocal).escaped.Some?
    ensures ScanFiles(start, es, toLocal) == ScanFiles(start, es[..k], toLocal)
    decreases |es| - k
  {
    if k == |es| {
      assert es[..k] == es;
    } else {
      var init := es[..|es| - 1];
      assert init[..k] == es[..k];
      ScanEscapedStays(start, init, k, toLocal);
    }
  }

  /** The processing loop one file further. */
  lemma ScanFilesStep(start: Loop, es: seq<Entry>, k: nat, toLocal: string -> Option<string>)
    requires k < |es|
    ensures var st := ScanFiles(start, es[..k], toLocal);
      ScanFiles(start, es[..k + 1], toLocal) == if st.escaped.Some? then st else ProcessFile(st, es[k].name, toLocal)
  {
    assert es[..k + 1][..k] == es[..k];
  }

  /** The candidate loop one file further: a file without a time is skipped. */
  lemma CandidatesSkipUntimed(files: seq<XmlFile>, names: seq<string>, i: nat, target: int, tol: int)
    requires i < |names| && Candidates(files, names[..i], target, tol).Ok? && TimeOf(files, names[i]).None?
    ensures Candidates(files, names[..i + 1], target, tol) == Candidates(files, names[..i], target, tol)
  {
    var next := names[..i + 1];
    assert next[..|next| - 1] == names[..i] && next[|next| - 1] == names[i];
  }

  /** The candidate loop one file further: a time that does not convert raises. */
  lemma CandidatesRaiseAt(files: seq<XmlFile>, names: seq<string>, i: nat, target: int, tol: int)
    requires i < |names| && Candidates(files, names[..i], target, tol).Ok?
    requires TimeOf(files, names[i]).Some? && TimeToMinutes(TimeOf(files, names[i]).value).Raised?
    ensures Candidates(files, names[..i + 1], target, tol).Raised?
  {
    var next := names[..i + 1];
    assert next[..|next| - 1] == names[..i] && next[|next| - 1] == names[i];
  }

  /** The candidate loop one file further: a file whose time converts is
      appended exactly when it lies within the tolerance. */
  lemma CandidatesTimedStep(files: seq<XmlFile>, names: seq<string>, i: nat, target: int, tol: int)
    requires i < |names| && Candidates(files, names[..i], target, tol).Ok?
    requires TimeOf(files, names[i]).Some? && TimeToMinutes(TimeOf(files, names[i]).value).Ok?
    ensures Candidates(files, names[..i + 1], target, tol).Ok?
    ensures var cs, r := Candidates(files, names[..i], target, tol).value, Candidates(files, names[..i + 1], target, tol).value;
      var t := TimeOf(files, names[i]).value; var d := Abs(TimeToMinutes(t).value - target);
      (d <= tol ==> r == cs + [Candidate(names[i], t, d)]) && (d > tol ==> r == cs)
  {
    var next := names[..i + 1];
    assert next[..|next| - 1] == names[..i] && next[|next| - 1] == names[i];
    assert Candidates(files, next, target, tol).Ok?;
    CandidatesStep(files, next, target, tol);
  }

  /** A time that does not convert ends the candidate loop for good. */
  lemma {:induction false} CandidatesRaisedStays(files: seq<XmlFile>, names: seq<string>, k: nat, target: int, tol: int)
    requires k <= |names| && Candidates(files, names[..k], target, tol).Raised?
    ensures Candidates(files, names, target, tol) == Candidates(files, names[..k], target, tol)
    decreases |names| - k
  {
    if k == |names| {
      assert names[..k] == names;
    } else {
      var init := names[..|names| - 1];
      assert init[..k] == names[..k];
      CandidatesRaisedStays(files, init, k, target, tol);
    }
  }

  /** The body of the candidate loop for the file `names[i]`: skip it
      without a time, raise when its time does not convert, append it when
      it lies within the tolerance. */
  method CandidateStep(files: seq<XmlFile>, names: seq<string>, i: nat, target: int, tol: int, candidates: seq<Candidate>)
    returns (r: Result<seq<Candidate>>)
    requires i < |names| && Candidates(files, names[..i], target, tol) == Ok(candidates)
    ensures r == Candidates(files, names[..i + 1], target, tol)
  {
    var f := names[i];
    var t := TimeOf(files, f);
    if t.None? {
      CandidatesSkipUntimed(files, names, i, target, tol);
      return Ok(candidates);
    }
    var m := TimeToMinutes(t.value);
    if m.Raised? {
      CandidatesRaiseAt(files, names, i, target, tol);
      return Raised(m.error);
    }
    CandidatesTimedStep(files, names, i, target, tol);
    var diff := Abs(m.value - target);
    if diff <= tol {
      return Ok(candidates + [Candidate(f, t.value, diff)]);
    }
    return Ok(candidates);
  }

  /** The loop of `getCoolerTemp` that lists each file within the
      tolerance with its time and distance. */
  method CollectCandidates(files: seq<XmlFile>, names: seq<string>, target: int, tol: int) returns (r: Result<seq<Candidate>>)
    ensures r == Candidates(files, names, target, tol)
  {
    var candidates: seq<Candidate> := [];
    var i := 0;
    while i < |names|
      invariant 0 <= i <= |names|
      invariant Candidates(files, names[..i], target, tol) == Ok(candidates)
    {
      var next := CandidateStep(files, names, i, target, tol, candidates);
      if next.Raised? {
        CandidatesRaisedStays(files, names, i + 1, target, tol);
        return next;
      }
      candidates := next.value;
      i := i + 1;
    }
    assert names[..i] == names;
    r := Ok(candidates);
  }

  /** One file of the retention sweep. */
  lemma SweepStep(listing: seq<XmlFile>, i: nat, cutoff: string)
    requires i < |listing|
    ensures Kept(listing[..i + 1], cutoff) ==
      Kept(listing[..i], cutoff) + (if Doomed(listing[i].name, cutoff) then [] else [listing[i]])
    ensures DeletedCount(listing[..i + 1], cutoff) ==
      DeletedCount(listing[..i], cutoff) + (if Doomed(listing[i].name, cutoff) then 1 else 0)
  {
    assert listing[..i + 1][..i] == listing[..i];
  }

  /** Removing, or stepping over, the entry right after `kept`. */
  lemma DropAt(kept: seq<XmlFile>, rest: seq<XmlFile>)
    requires rest != []
    ensures (kept + rest)[|kept|] == rest[0]
    ensures (kept + rest)[..|kept|] + (kept + rest)[|kept| + 1..] == kept + rest[1..]
    ensures kept + rest == (kept + [rest[0]]) + rest[1..]
  {
    assert (kept + rest)[..|kept|] == kept;
    assert (kept + rest)[|kept| + 1..] == rest[1..];
  }

  /** The sweep's state one entry further: a doomed entry is dropped from
      the folder and counted, any other one joins the kept prefix. */
  lemma SweepState(listing: seq<XmlFile>, i: nat, cutoff: string, kept: seq<XmlFile>, n: nat, files: seq<XmlFile>)
    requires i < |listing|
    requires kept == Kept(listing[..i], cutoff) && n == DeletedCount(listing[..i], cutoff) && files == kept + listing[i..]
    ensures Doomed(listing[i].name, cutoff) ==>
      Kept(listing[..i + 1], cutoff) == kept && DeletedCount(listing[..i + 1], cutoff) == n + 1 &&
      files[..|kept|] + files[|kept| + 1..] == kept + listing[i + 1..]
    ensures !Doomed(listing[i].name, cutoff) ==>
      Kept(listing[..i + 1], cutoff) == kept + [listing[i]] && DeletedCount(listing[..i + 1], cutoff) == n &&
      files == (kept + [listing[i]]) + listing[i + 1..]
  {
    SweepStep(listing, i, cutoff);
    DropAt(kept, listing[i..]);
    assert listing[i..][1..] == listing[i + 1..];
  }

  /** The light part of the loop body, the `if`/`elif` chain on `active`.
      `ok` is false when the body raised; the locals then hold what was
      assigned before. */
  method UpdateLight(l: Light, d: Doc, toLocal: string -> Option<string>) returns (l': Light, ok: bool)
    ensures (l', ok) == LightStep(l, d, toLocal)
    ensures LightOk(l) && l.flag < FirstFileLightOn ==> LightOk(l') && l'.flag >= l.flag
  {
    l', ok := l, true;
    if d.light.None? {
      return;
    }
    var active := ActiveValue(d.light.value, l.active);
    if active.Raised? {
      return l, false;
    }
    var a := active.value;
    l' := l'.(active := Some(a));
    if l'.flag == 0 && a != 0 {
      l' := l'.(flag := FirstFileLightOn);
    } else if a > 0 && !l'.status {
      l' := l'.(status := true);
      var t := GrabTime(d, toLocal);
      if t.None? {
        return l', false;
      }
      l' := l'.(onTime := t.value);
    } else if a == 0 && l'.status {
      l' := l'.(status := false);
      var t := GrabTime(d, toLocal);
      if t.None? {
        return l', false;
      }
      l' := l'.(offTime := t.value, flag := LightCycleDone);
    } else {
      l' := l'.(flag := l'.flag + 1);
    }
  }

  /** The `try` body on one parsed file. */
  method ReadDoc(s: Scan, d: Doc, toLocal: string -> Option<string>) returns (s': Scan, ok: bool)
    ensures (s', ok) == DocStep(s, d, toLocal)
    ensures NoSentinel(s.outside) && NoSentinel(s.inside) ==> NoSentinel(s'.outside) && NoSentinel(s'.inside)
  {
    s' := s;
    var outside := ReadTemp(d.outsideTemperature);
    if outside.Raised? {
      return s', false;
    }
    s' := s'.(outside := s'.outside + Collected(outside.value));
    var inside := ReadTemp(d.averageTemperature);
    if inside.Raised? {
      return s', false;
    }
    s' := s'.(inside := s'.inside + Collected(inside.value));
    if s'.light.flag < FirstFileLightOn {
      var l;
      l, ok := UpdateLight(s'.light, d, toLocal);
      s' := s'.(light := l);
    } else {
      ok := true;
    }
  }

  /** The logger folder and the folder of failed files. */
  class XmlFolder {
    var files: seq<XmlFile>
    var failed: map<string, Content>

    function State(): Disk
      reads this
    {
      Disk(files, failed)
    }

    constructor (files: seq<XmlFile>, failed: map<string, Content>)
      ensures State() == Disk(files, failed)
    {
      this.files := files;
      this.failed := failed;
    }

    /** `shutil.move(filename, dst)` into the failed folder. */
    method MoveToFailed(name: string, c: Content)
      modifies this
      ensures State() == Quarantine(old(State()), name, c)
      ensures Lookup(files, name).None? && failed[name] == c
    {
      files := Remove(files, name);
      failed := failed[name := c];
    }

    /** One pass of the processing loop on the file `name`: the locals
        afterwards, and the exception that escapes the `except` clause. */
    method ProcessOne(scan: Scan, name: string, toLocal: string -> Option<string>) returns (scan': Scan, escaped: Option<PyError>)
      modifies this
      ensures Loop(scan', State(), escaped) == ProcessFile(Loop(scan, old(State()), None), name, toLocal)
    {
      scan', escaped := scan, None;
      var c := Lookup(files, name);
      if c.None? {
        return scan, Some(FileNotFoundError);
      }
      match c.value {
        case Unparsable =>
          MoveToFailed(name, Unparsable);
        case Parsed(d) =>
          var ok;
          scan', ok := ReadDoc(scan, d, toLocal);
          if !ok {
            MoveToFailed(name, Parsed(d));
          }
      }
    }

    /** `doProcessingOnAllFiles(file_list)`: the returned tuple, or the
        exception that escapes, and the folders afterwards. */
    method DoProcessingOnAllFiles(fileList: seq<string>, toLocal: string -> Option<string>) returns (r: Result<DayTemps>)
      modifies this
      ensures (r, State()) == DoProcessing(old(State()), fileList, toLocal)
    {
      var withTime := FilesWithTime(fileList);
      var es := SortByTime(withTime);
      ghost var start := Loop(ScanStart(), State(), None);
      var scan := ScanStart();
      var k := 0;
      while k < |es|
        invariant 0 <= k <= |es|
        invariant ScanFiles(start, es[..k], toLocal) == Loop(scan, State(), None)
      {
        ScanFilesStep(start, es, k, toLocal);
        var escaped;
        scan, escaped := ProcessOne(scan, es[k].name, toLocal);
        if escaped.Some? {
          ScanEscapedStays(start, es, k + 1, toLocal);
          return Raised(escaped.value);
        }
        k := k + 1;
      }
      assert es[..k] == es;
      r := Summarize(scan);
    }

    /** `getCoolerTemp(theTime, theTolerance, theName)`. */
    method GetCoolerTemp(theTime: string, theTolerance: string, theName: seq<string>) returns (r: Result<CoolerReading>)
      ensures r == Cooler.GetCoolerTemp(files, theTime, theTolerance, theName)
    {
      var target := GrabHrMinFrmVar(theTime);
      if target.Raised? {
        return Raised(target.error);
      }
      var tol := GrabHrMinFrmVar(theTolerance);
      if tol.Raised? {
        return Raised(tol.error);
      }
      var found := CollectCandidates(files, theName, target.value, tol.value);
      if found.Raised? {
        return Raised(found.error);
      }
      var candidates := found.value;
      if candidates == [] {
        return Ok(NotAvailablePair);
      }
      var closest := candidates[Closest(candidates)].name;
      r := Ok(ReadCooler(Lookup(files, closest)));
    }

    /** The loop of `deleteOldFiles()` over the folder's listing: each
        `.xml` file whose first eight characters compare `<=` the cutoff is
        removed as the listing is walked. */
    method SweepBefore(cutoff: string) returns (howManyDeleted: nat)
      modifies this
      ensures files == Kept(old(files), cutoff) && howManyDeleted == DeletedCount(old(files), cutoff)
      ensures failed == old(failed)
    {
      var listing := files;
      howManyDeleted := 0;
      ghost var kept: seq<XmlFile> := [];
      var i, j := 0, 0;
      while i < |listing|
        invariant 0 <= i <= |listing|
        invariant kept == Kept(listing[..i], cutoff) && howManyDeleted == DeletedCount(listing[..i], cutoff)
        invariant files == kept + listing[i..] && j == |kept|
        invariant failed == old(failed)
      {
        SweepState(listing, i, cutoff, kept, howManyDeleted, files);
        if Doomed(listing[i].name, cutoff) {
          howManyDeleted := howManyDeleted + 1;
          files := files[..j] + files[j + 1..];
        } else {
          kept := kept + [listing[i]];
          j := j + 1;
        }
        i := i + 1;
      }
      assert listing[..i] == listing;
    }

    /** `deleteOldFiles()` with `today` for `date.today()` and `days` for
        `howLongToSaveOldFiles`: the number of files deleted, or the
        exception raised. Each doomed file of the listing is removed as
        the listing is walked. */
    method DeleteOldFiles(today: Date, days: int) returns (r: Result<nat>)
      requires Valid(today)
      modifies this
      ensures var s := Retention.DeleteOldFiles(old(files), today, days);
        (s.Raised? ==> r == Raised(s.error) && files == old(files)) &&
        (s.Ok? ==> r == Ok(s.value.deleted) && files == s.value.files)
      ensures failed == old(failed)
    {
      if days == 0 {
        return Ok(0);
      }
      var day2Delete := Cutoff(today, days);
      if day2Delete.None? {
        return Raised(OverflowError);
      }
      var howManyDeleted := SweepBefore(day2Delete.value);
      r := Ok(howManyDeleted);
    }

    /** Everything after `doProcessingOnAllFiles` in `run_xml_stuff`. */
    method AssembleRecord(settings: Settings, day: Day, res: Resolution, temps: DayTemps) returns (r: Result<DailyRecord>)
      requires res.Resolved?
      ensures r == Assemble(files, settings, day, res, temps)
    {
      var lightsOn := RoundHhmmTo15(temps.lightOnTime);
      if lightsOn.Raised? {
        return Raised(lightsOn.error);
      }
      var lightsOff := RoundHhmmTo15(temps.lightOffTime);
      if lightsOff.Raised? {
        return Raised(lightsOff.error);
      }
      var databack := EverythingFromLastFile(files, res.last);
      if databack.Raised? {
        return Raised(databack.error);
      }
      if databack.value.None? {
        return Raised(TypeError);
      }
      var vs := databack.value.value;
      if |vs| < 4 {
        return Raised(IndexError);
      }
      var am := GetCoolerTemp(settings.coolerTimeAM, settings.tolerance, res.names);
      if am.Raised? {
        return Raised(am.error);
      }
      var amFields := CoolerFields(am.value);
      if amFields.Raised? {
        return Raised(amFields.error);
      }
      var pm := GetCoolerTemp(settings.coolerTimePM, settings.tolerance, res.names);
      if pm.Raised? {
        return Raised(pm.error);
      }
      var pmFields := CoolerFields(pm.value);
      if pmFields.Raised? {
        return Raised(pmFields.error);
      }
      r := Ok(Row(day, temps, (lightsOn.value, lightsOff.value), vs, amFields.value, pmFields.value));
    }

    /** The `files_with_time` loop: each file whose time and growth day
        are read, with its time, in list order. */
    method FilesWithTime(names: seq<string>) returns (withTime: seq<Entry>)
      ensures withTime == TimedEntries(files, names)
    {
      withTime := [];
      var i := 0;
      while i < |names|
        invariant 0 <= i <= |names|
        invariant withTime == TimedEntries(files, names[..i])
      {
        var tg := ExtractTimeAndGrowthDay(Lookup(files, names[i]));
        if tg.Some? {
          withTime := withTime + [Entry(names[i], tg.value.0)];
        }
        assert names[..i + 1][..i] == names[..i];
        i := i + 1;
      }
      assert names[..i] == names;
    }

    /** The `growthdays` loop over the candidate files. */
    method CollectGrowthDays(names: seq<string>) returns (growthdays: seq<int>)
      ensures growthdays == GrowthDays(files, names)
    {
      growthdays := [];
      var i := 0;
      while i < |names|
        invariant 0 <= i <= |names|
        invariant growthdays == GrowthDays(files, names[..i])
      {
        var g := GrowthDayOf(files, names[i]);
        if g.Some? {
          growthdays := growthdays + [g.value];
        }
        assert names[..i + 1][..i] == names[..i];
        i := i + 1;
      }
      assert names[..i] == names;
    }

    /** The `xmlNameOnly` loop: the files whose growth day is `target`. */
    method FilesWithGrowthDay(names: seq<string>, target: int) returns (xmlNameOnly: seq<string>)
      ensures xmlNameOnly == WithGrowthDay(files, names, target)
    {
      xmlNameOnly := [];
      var i := 0;
      while i < |names|
        invariant 0 <= i <= |names|
        invariant xmlNameOnly == WithGrowthDay(files, names[..i], target)
      {
        if GrowthDayOf(files, names[i]) == Some(target) {
          xmlNameOnly := xmlNameOnly + [names[i]];
        }
        assert names[..i + 1][..i] == names[..i];
        i := i + 1;
      }
      assert names[..i] == names;
    }

    /** Steps 2 to 5 of `run_xml_stuff`: the candidate, growth-day,
        same-growth-day and time loops. */
    method ResolveDay(prefix: string) returns (res: Resolution)
      ensures res == Resolve(files, prefix)
    {
      var candidateFiles := GlobNames(files, prefix);
      if candidateFiles == [] {
        return NoData;
      }
      var growthdays := CollectGrowthDays(candidateFiles);
      if growthdays == [] {
        return NoData;
      }
      var target := Mode(growthdays);
      var xmlNameOnly := FilesWithGrowthDay(GlobNames(files, ""), target);
      if xmlNameOnly == [] {
        return NoData;
      }
      var withTime := FilesWithTime(xmlNameOnly);
      if withTime == [] {
        return NoData;
      }
      var sorted := SortByTime(withTime);
      res := Resolved(target, xmlNameOnly, sorted[|sorted| - 1].name);
    }

    /** `run_xml_stuff(db_file, target_date)` up to the database insert:
        `Ok(None)` for the early `return None`, or the row computed. */
    method RunXmlStuff(settings: Settings, today: Date, targetDate: Option<string>,
                       toLocal: string -> Option<string>) returns (r: Result<Option<DailyRecord>>)
      requires Valid(today)
      modifies this
      ensures (r, State()) == DailyRecords.RunXmlStuff(old(State()), settings, today, targetDate, toLocal)
    {
      var day := ProcessDate(today, targetDate);
      if day.Raised? {
        return Raised(day.error);
      }
      var res := ResolveDay(day.value.prefix);
      if res.NoData? {
        return Ok(None);
      }
      if AddDays(today, -1).None? {
        return Raised(OverflowError);
      }
      var temps := DoProcessingOnAllFiles(res.names, toLocal);
      if temps.Raised? {
        return Raised(temps.error);
      }
      var row := AssembleRecord(settings, day.value, res, temps.value);
      if row.Raised? {
        return Raised(row.error);
      }
      r := Ok(Some(row.value));
    }
  }
}
