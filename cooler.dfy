/** `getCoolerTemp(theTime, theTolerance, theName)`: the egg-room
    temperature of the file whose internal time is closest to a target
    time, among the files within a tolerance of it. */
module Cooler {
  import opened Common
  import opened XmlHelpers
  import opened XmlDocs
  import opened Extremes

  /** A `(file, time_str)` candidate with its `diff_minutes`. */
  datatype Candidate = Candidate(name: string, time: string, diff: int)

  function Abs(x: int): (r: nat)
    ensures r == x || r == -x
  {
    if x < 0 then -x else x
  }

  /** The time a file is listed with, when `extract_time_and_growthday` reads one. */
  function TimeOf(files: seq<XmlFile>, name: string): Option<string> {
    match ExtractTimeAndGrowthDay(Lookup(files, name))
    case None => None
    case Some(tg) => Some(tg.0)
  }

  /** The file has a time, the time converts to minutes, and it lies within
      `tol` minutes of `target`, bounds included. */
  predicate WithinTolerance(files: seq<XmlFile>, name: string, target: int, tol: int) {
    var t := TimeOf(files, name);
    t.Some? && TimeToMinutes(t.value).Ok? && Abs(TimeToMinutes(t.value).value - target) <= tol
  }

  /** `c` is the candidate entry the loop makes for the file `c.name`. */
  predicate IsCandidate(files: seq<XmlFile>, c: Candidate, target: int, tol: int) {
    WithinTolerance(files, c.name, target, tol) &&
    c.time == TimeOf(files, c.name).value &&
    c.diff == Abs(TimeToMinutes(c.time).value - target)
  }

  function NamesOf(cs: seq<Candidate>): (r: seq<string>)
    ensures |r| == |cs| && forall i :: 0 <= i < |cs| ==> r[i] == cs[i].name
  {
    seq(|cs|, i requires 0 <= i < |cs| => cs[i].name)
  }

  function Diffs(cs: seq<Candidate>): (r: seq<int>)
    ensures |r| == |cs| && forall i :: 0 <= i < |cs| ==> r[i] == cs[i].diff
  {
    seq(|cs|, i requires 0 <= i < |cs| => cs[i].diff)
  }

  /** The candidate loop over `theName`, as a function of the files seen
      so far. A time that `time_to_minutes` cannot convert raises
      ValueError out of the function. */
  function Candidates(files: seq<XmlFile>, names: seq<string>, target: int, tol: int): (r: Result<seq<Candidate>>)
    ensures r.Raised? ==> r.error == ValueError
    ensures r.Ok? ==> |r.value| <= |names|
  {
    if names == [] then Ok([])
    else
      var init, name := names[..|names| - 1], names[|names| - 1];
      match Candidates(files, init, target, tol)
      case Raised(e) => Raised(e)
      case Ok(cs) =>
        match TimeOf(files, name)
        case None => Ok(cs)
        case Some(t) =>
          match TimeToMinutes(t)
          case Raised(e) => Raised(e)
          case Ok(m) =>
            var d := Abs(m - target);
            if d <= tol then Ok(cs + [Candidate(name, t, d)]) else Ok(cs)
  }

  /** The candidate loop one file further, when it does not raise. */
  lemma CandidatesStep(files: seq<XmlFile>, names: seq<string>, target: int, tol: int)
    requires names != [] && Candidates(files, names, target, tol).Ok?
    ensures var init, name := names[..|names| - 1], names[|names| - 1];
      Candidates(files, init, target, tol).Ok? &&
      var cs, r := Candidates(files, init, target, tol).value, Candidates(files, names, target, tol).value;
      (WithinTolerance(files, name, target, tol) ==>
         r == cs + [Candidate(name, TimeOf(files, name).value, Abs(TimeToMinutes(TimeOf(files, name).value).value - target))]) &&
      (!WithinTolerance(files, name, target, tol) ==> r == cs)
  {
  }

  /** Each candidate is a listed file within the tolerance, with that
      file's time and distance. */
  lemma {:induction false} CandidatesAreCandidates(files: seq<XmlFile>, names: seq<string>, target: int, tol: int)
    requires Candidates(files, names, target, tol).Ok?
    ensures var cs := Candidates(files, names, target, tol).value;
      forall c :: c in cs ==> c.name in names && IsCandidate(files, c, target, tol)
  {
    if names != [] {
      var init, name := names[..|names| - 1], names[|names| - 1];
      CandidatesStep(files, names, target, tol);
      CandidatesAreCandidates(files, init, target, tol);
      var cs := Candidates(files, init, target, tol).value;
      var r := Candidates(files, names, target, tol).value;
      forall c | c in r
        ensures c.name in names && IsCandidate(files, c, target, tol)
      {
        if c in cs {
          assert c.name in init;
        }
      }
    }
  }

  lemma NamesOfSnoc(cs: seq<Candidate>, c: Candidate)
    ensures NamesOf(cs + [c]) == NamesOf(cs) + [c.name]
  {
  }

  /** Coverage of a list by a list of names, carried one name further. */
  lemma CoverSnoc(names: seq<string>, p: string -> bool, before: seq<string>, after: seq<string>)
    requires names != []
    requires forall k :: 0 <= k < |names| - 1 && p(names[k]) ==> names[k] in before
    requires forall x :: x in before ==> x in after
    requires p(names[|names| - 1]) ==> names[|names| - 1] in after
    ensures forall j :: 0 <= j < |names| && p(names[j]) ==> names[j] in after
  {
  }

  /** Every listed file within the tolerance is among the candidates. */
  lemma {:induction false} CandidatesCover(files: seq<XmlFile>, names: seq<string>, target: int, tol: int)
    requires Candidates(files, names, target, tol).Ok?
    ensures var cs := Candidates(files, names, target, tol).value;
      forall j :: 0 <= j < |names| && WithinTolerance(files, names[j], target, tol) ==> names[j] in NamesOf(cs)
  {
    if names != [] {
      var init, name := names[..|names| - 1], names[|names| - 1];
      CandidatesStep(files, names, target, tol);
      CandidatesCover(files, init, target, tol);
      var cs := Candidates(files, init, target, tol).value;
      var r := Candidates(files, names, target, tol).value;
      if WithinTolerance(files, name, target, tol) {
        NamesOfSnoc(cs, r[|r| - 1]);
        assert r == cs + [r[|r| - 1]];
        assert NamesOf(r)[|r| - 1] == name;
      }
      assert forall x :: x in NamesOf(cs) ==> x in NamesOf(r);
      var within := x => WithinTolerance(files, x, target, tol);
      assert forall k :: 0 <= k < |init| ==> init[k] == names[k];
      CoverSnoc(names, within, NamesOf(cs), NamesOf(r));
    }
  }

  /** A listed file is among the candidates exactly when it has a time
      within the tolerance, bounds included. */
  lemma CandidatesSpec(files: seq<XmlFile>, names: seq<string>, target: int, tol: int)
    requires Candidates(files, names, target, tol).Ok?
    ensures var cs := Candidates(files, names, target, tol).value;
      forall j :: 0 <= j < |names| ==> (names[j] in NamesOf(cs) <==> WithinTolerance(files, names[j], target, tol))
  {
    var cs := Candidates(files, names, target, tol).value;
    CandidatesAreCandidates(files, names, target, tol);
    CandidatesCover(files, names, target, tol);
    forall j, k | 0 <= j < |names| && 0 <= k < |cs| && NamesOf(cs)[k] == names[j]
      ensures WithinTolerance(files, names[j], target, tol)
    {
      assert cs[k] in cs;
    }
  }

  /** What `getCoolerTemp` returns: the `('=NA()', '=NA()')` pair, the
      `(time_temp, room_temp)` pair, whose time is `None` for a Time element
      without text, or `None` when reading the chosen file raised. */
  datatype CoolerReading = NotAvailablePair | Reading(time: Option<string>, temp: real) | NoneReturned

  /** The `try` block on the chosen file. */
  function ReadCooler(c: Option<Content>): (r: CoolerReading)
    ensures r.Reading? ==>
      c.Some? && c.value.Parsed? && c.value.doc.eggRoom.Some? && ParseFloat(c.value.doc.eggRoom.value) == Some(r.temp)
    ensures c.Some? && c.value.Parsed? && (c.value.doc.eggRoom.None? || c.value.doc.anyTime.None?) ==>
      r == NotAvailablePair
  {
    match c
    case Some(Parsed(d)) =>
      if d.eggRoom.Some? && d.anyTime.Some? then
        if d.eggRoom.value == "" then NoneReturned
        else
          match ParseFloat(d.eggRoom.value)
          case None => NoneReturned
          case Some(v) => Reading(if d.anyTime.value == "" then None else d.anyTime, v)
      else NotAvailablePair
    case _ => NoneReturned
  }

  /** `getCoolerTemp(theTime, theTolerance, theName)`. Target and tolerance
      are read by `grab_hr_min_frm_var`, whose exceptions propagate. */
  function GetCoolerTemp(files: seq<XmlFile>, theTime: string, theTolerance: string, theName: seq<string>): (r: Result<CoolerReading>)
  {
    match GrabHrMinFrmVar(theTime)
    case Raised(e) => Raised(e)
    case Ok(target) =>
      match GrabHrMinFrmVar(theTolerance)
      case Raised(e) => Raised(e)
      case Ok(tol) =>
        match Candidates(files, theName, target, tol)
        case Raised(e) => Raised(e)
        case Ok(cs) =>
          if cs == [] then Ok(NotAvailablePair)
          else Ok(ReadCooler(Lookup(files, cs[Closest(cs)].name)))
  }

  /** `min(candidates, key=...)`: a candidate with the smallest distance,
      the first one listed on ties. */
  function Closest(cs: seq<Candidate>): (i: nat)
    requires cs != []
    ensures i < |cs|
    ensures forall j :: 0 <= j < |cs| ==> cs[i].diff <= cs[j].diff
    ensures forall j :: 0 <= j < i ==> cs[i].diff < cs[j].diff
  {
    ArgMinFirst(Diffs(cs))
  }

  /** With no file within the tolerance the result is the `=NA()` pair. */
  lemma {:induction false} NoCandidates(files: seq<XmlFile>, names: seq<string>, target: int, tol: int)
    requires forall j :: 0 <= j < |names| ==> !WithinTolerance(files, names[j], target, tol)
    requires forall j :: 0 <= j < |names| ==>
      TimeOf(files, names[j]).Some? ==> TimeToMinutes(TimeOf(files, names[j]).value).Ok?
    ensures Candidates(files, names, target, tol) == Ok([])
  {
    if names != [] {
      NoCandidates(files, names[..|names| - 1], target, tol);
    }
  }

  /** The chosen file is a candidate of the list. */
  lemma ClosestIsCandidate(files: seq<XmlFile>, names: seq<string>, target: int, tol: int)
    requires Candidates(files, names, target, tol).Ok? && Candidates(files, names, target, tol).value != []
    ensures var cs := Candidates(files, names, target, tol).value;
      cs[Closest(cs)].name in names && IsCandidate(files, cs[Closest(cs)], target, tol)
  {
    var cs := Candidates(files, names, target, tol).value;
    CandidatesAreCandidates(files, names, target, tol);
    assert cs[Closest(cs)] in cs;
  }
}
