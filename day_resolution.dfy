/** Steps 1 to 5 of `run_xml_stuff`: which files make up the day. The
    filename prefix only nominates candidates; the day is the growth day
    most of them carry, and every `.xml` file of the folder with that
    growth day is processed, whatever its name. */
module DayResolution {
  import opened Common
  import opened Dates
  import opened XmlDocs
  import opened TimeSort
  import opened LightScan
  import opened Extremes

  /** `glob(xmlFolder + "/" + prefix + "*.xml")`, in listing order. */
  function GlobNames(files: seq<XmlFile>, prefix: string): (r: seq<string>)
    ensures |r| <= |files|
    ensures forall n :: n in r <==> n in Names(files) && GlobMatch(n, prefix)
  {
    if files == [] then []
    else
      var f := files[|files| - 1];
      assert Names(files) == Names(files[..|files| - 1]) + [f.name] by {
        assert forall i :: 0 <= i < |files| - 1 ==> files[..|files| - 1][i] == files[i];
      }
      GlobNames(files[..|files| - 1], prefix) + (if GlobMatch(f.name, prefix) then [f.name] else [])
  }

  function GrowthDayOf(files: seq<XmlFile>, name: string): Option<int> {
    match ExtractTimeAndGrowthDay(Lookup(files, name))
    case None => None
    case Some(tg) => Some(tg.1)
  }

  /** The `growthdays` loop: the growth days read, in candidate order. */
  function GrowthDays(files: seq<XmlFile>, names: seq<string>): (r: seq<int>)
    ensures |r| <= |names|
  {
    if names == [] then []
    else
      var init, name := names[..|names| - 1], names[|names| - 1];
      GrowthDays(files, init) + match GrowthDayOf(files, name) case None => [] case Some(g) => [g]
  }

  function Counts(xs: seq<int>): (r: seq<int>)
    ensures |r| == |xs| && forall i :: 0 <= i < |xs| ==> r[i] == Count(xs, xs[i])
  {
    seq(|xs|, i requires 0 <= i < |xs| => Count(xs, xs[i]))
  }

  /** `Counter(xs).most_common(1)[0][0]`. `most_common(1)` is `max` over
      the counter's items, which are in first-occurrence order, so on a tie
      the value met first wins. Here: the value at the first position
      whose value's count is largest. */
  function Mode(xs: seq<int>): (m: int)
    requires xs != []
    ensures m in xs
  {
    xs[ArgMaxFirst(Counts(xs))]
  }

  /** No value occurs more often than the mode. */
  lemma ModeMostCommon(xs: seq<int>, y: int)
    requires xs != []
    ensures Count(xs, y) <= Count(xs, Mode(xs))
  {
    if y in xs {
      var j :| 0 <= j < |xs| && xs[j] == y;
      assert Counts(xs)[j] == Count(xs, y);
    }
  }

  /** A value as common as the mode first occurs after the mode's first
      occurrence. */
  lemma ModeFirstOnTies(xs: seq<int>, j: nat)
    requires j < |xs| && xs[j] != Mode(xs) && Count(xs, xs[j]) == Count(xs, Mode(xs))
    ensures exists k :: 0 <= k < j && xs[k] == Mode(xs)
  {
    var c := Counts(xs);
    var i := ArgMaxFirst(c);
    ArgMaxFirstTie(c, j);
    assert i != j;
    assert 0 <= i < j && xs[i] == Mode(xs);
  }

  /** The `xmlNameOnly` loop: the files whose growth day is `g`, in order. */
  function WithGrowthDay(files: seq<XmlFile>, names: seq<string>, g: int): (r: seq<string>)
    ensures |r| <= |names|
    ensures forall n :: n in r <==> n in names && GrowthDayOf(files, n) == Some(g)
  {
    if names == [] then []
    else
      var init, name := names[..|names| - 1], names[|names| - 1];
      assert names == init + [name];
      WithGrowthDay(files, init, g) + (if GrowthDayOf(files, name) == Some(g) then [name] else [])
  }

  /** Steps 1: the filename prefix and the date text of the day. */
  datatype Day = Day(prefix: string, readable: string)

  /** `target_date` in `YYYY-MM-DD` (`strptime` raises ValueError on
      anything else), or yesterday when it is absent or empty. */
  function ProcessDate(today: Date, targetDate: Option<string>): (r: Result<Day>)
    requires Valid(today)
    ensures r.Ok? ==> |r.value.prefix| == 8 && AllDigits(r.value.prefix)
    ensures targetDate.Some? && targetDate.value != "" && r.Ok? ==> r.value.readable == targetDate.value
  {
    if targetDate.Some? && targetDate.value != "" then
      match StrptimeYmd(targetDate.value)
      case Raised(e) => Raised(e)
      case Ok(d) => Ok(Day(Compact(d), targetDate.value))
    else
      match AddDays(today, -1)
      case None => Raised(OverflowError)
      case Some(y) => Ok(Day(Compact(y), IsoFormat(y)))
  }

  /** An explicit date picks the files named after it. */
  lemma ProcessDateExplicit(today: Date, d: Date)
    requires Valid(today) && Valid(d)
    ensures ProcessDate(today, Some(IsoFormat(d))) == Ok(Day(Compact(d), IsoFormat(d)))
  {
    StrptimeIsoFormat(d);
  }

  /** Steps 2 to 5: no data (the function returns `None`), or the growth
      day, the files to process and the last of them by internal time. */
  datatype Resolution = NoData | Resolved(growthDay: int, names: seq<string>, last: string)

  function Resolve(files: seq<XmlFile>, prefix: string): (r: Resolution)
  {
    var candidates := GlobNames(files, prefix);
    if candidates == [] then NoData
    else
      var gds := GrowthDays(files, candidates);
      if gds == [] then NoData
      else
        var g := Mode(gds);
        var names := WithGrowthDay(files, GlobNames(files, ""), g);
        if names == [] then NoData
        else
          var timed := TimedEntries(files, names);
          if timed == [] then NoData
          else
            var s := SortByTime(timed);
            Resolved(g, names, s[|s| - 1].name)
  }

  /** A file with a growth day also has a time, so every file with the
      target growth day takes part in the time sort. */
  lemma {:induction false} TimedEntriesOfGrowthDay(files: seq<XmlFile>, names: seq<string>)
    requires forall n :: n in names ==> GrowthDayOf(files, n).Some?
    ensures |TimedEntries(files, names)| == |names|
  {
    if names != [] {
      TimedEntriesOfGrowthDay(files, names[..|names| - 1]);
      assert names[|names| - 1] in names;
    }
  }

  /** There is no data exactly when no file matches the prefix, none of
      those has a growth day, or no file has the target growth day; the
      "no valid Time" exit cannot be taken. */
  lemma ResolveNoData(files: seq<XmlFile>, prefix: string)
    ensures var candidates := GlobNames(files, prefix);
      var gds := GrowthDays(files, candidates);
      Resolve(files, prefix).NoData? <==>
        candidates == [] || gds == [] || WithGrowthDay(files, GlobNames(files, ""), Mode(gds)) == []
  {
    var candidates := GlobNames(files, prefix);
    if candidates != [] {
      var gds := GrowthDays(files, candidates);
      if gds != [] {
        var names := WithGrowthDay(files, GlobNames(files, ""), Mode(gds));
        TimedEntriesOfGrowthDay(files, names);
      }
    }
  }

  /** What a resolved day consists of. */
  lemma ResolveParts(files: seq<XmlFile>, prefix: string)
    requires Resolve(files, prefix).Resolved?
    ensures var r := Resolve(files, prefix); var gds := GrowthDays(files, GlobNames(files, prefix));
      var timed := TimedEntries(files, r.names); var s := SortByTime(timed);
      gds != [] && r.growthDay == Mode(gds) &&
      r.names == WithGrowthDay(files, GlobNames(files, ""), r.growthDay) &&
      timed != [] && |s| == |timed| && r.last == s[|s| - 1].name
  {
    var r := Resolve(files, prefix);
    LastIsLatest(TimedEntries(files, r.names));
  }

  /** The target growth day is carried by a candidate, and by at least as
      many candidates as any other growth day. */
  lemma ResolvedGrowthDay(files: seq<XmlFile>, prefix: string, g: int)
    requires Resolve(files, prefix).Resolved?
    ensures var gds := GrowthDays(files, GlobNames(files, prefix));
      Resolve(files, prefix).growthDay in gds && Count(gds, g) <= Count(gds, Resolve(files, prefix).growthDay)
  {
    ResolveParts(files, prefix);
    ModeMostCommon(GrowthDays(files, GlobNames(files, prefix)), g);
  }

  /** The processed files are exactly the folder's `.xml` files with the
      target growth day, whatever their names. */
  lemma ResolvedFiles(files: seq<XmlFile>, prefix: string)
    requires Resolve(files, prefix).Resolved?
    ensures var r := Resolve(files, prefix);
      forall n :: n in r.names <==> n in Names(files) && GlobMatch(n, "") && GrowthDayOf(files, n) == Some(r.growthDay)
  {
    ResolveParts(files, prefix);
  }

  /** The last file has the latest time string of the processed files. */
  lemma ResolvedLast(files: seq<XmlFile>, prefix: string)
    requires Resolve(files, prefix).Resolved?
    ensures var r := Resolve(files, prefix); var timed := TimedEntries(files, r.names);
      exists k :: 0 <= k < |timed| && timed[k].name == r.last &&
        forall i :: 0 <= i < |timed| ==> LexLe(timed[i].time, timed[k].time)
  {
    ResolveParts(files, prefix);
    var r := Resolve(files, prefix);
    LatestNamed(TimedEntries(files, r.names));
  }

  lemma LatestNamed(es: seq<Entry>)
    requires es != []
    ensures var s := SortByTime(es);
      |s| == |es| &&
      exists k :: 0 <= k < |es| && es[k].name == s[|s| - 1].name &&
        forall i :: 0 <= i < |es| ==> LexLe(es[i].time, es[k].time)
  {
    LastIsLatest(es);
    var s := SortByTime(es);
    var k :| 0 <= k < |es| && es[k] == s[|s| - 1];
  }
}
