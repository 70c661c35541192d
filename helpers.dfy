/** `helpers.py`: the flock's hatch date from `settings.json` and its age
    as `week.day` on the day before today. */
module Helpers {
  import opened Common
  import opened Dates
  import opened JsonValue

  /** What reading `settings.json` yields: no file, text `json.load`
      rejects (ValueError), or a document. */
  datatype SettingsFile = Missing | Malformed | Loaded(doc: Json)

  /** `get_hatch_date()`: the `hatch_date` entry, which must be present and
      truthy. `.get` exists only on an object, so any other document raises
      AttributeError. */
  function GetHatchDate(file: SettingsFile): (r: Result<Json>)
    ensures r.Ok? <==> file.Loaded? && file.doc.JObj? && "hatch_date" in file.doc.fields &&
                       Truthy(file.doc.fields["hatch_date"])
    ensures r.Ok? ==> r.value == file.doc.fields["hatch_date"]
    ensures file.Missing? ==> r == Raised(FileNotFoundError)
    ensures file.Malformed? ==> r == Raised(ValueError)
    ensures file.Loaded? && !file.doc.JObj? ==> r == Raised(AttributeError)
    ensures file.Loaded? && file.doc.JObj? && r.Raised? ==> r.error == ValueError
  {
    match file
    case Missing => Raised(FileNotFoundError)
    case Malformed => Raised(ValueError)
    case Loaded(doc) =>
      if !doc.JObj? then Raised(AttributeError)
      else if "hatch_date" in doc.fields && Truthy(doc.fields["hatch_date"]) then Ok(doc.fields["hatch_date"])
      else Raised(ValueError)
  }

  /** `f"{week}.{day}"` with Python's floor `//` and `%` by 7. */
  function BirdAge(daysDiff: int): (r: string)
  {
    IntToString(daysDiff / 7) + "." + IntToString(daysDiff % 7)
  }

  /** `days_diff` of `get_bird_age()` with `today` for `date.today()`: the
      days from the hatch date to yesterday. `strptime` needs a string
      (TypeError) in `%Y-%m-%d` form (ValueError). */
  function DaysDiff(today: Date, file: SettingsFile): (r: Result<int>)
    requires Valid(today)
    ensures AddDays(today, -1).None? ==> r == Raised(OverflowError)
    ensures r.Ok? <==> AddDays(today, -1).Some? && GetHatchDate(file).Ok? && GetHatchDate(file).value.JStr? &&
                       StrptimeYmd(GetHatchDate(file).value.s).Ok?
    ensures r.Ok? ==> r.value == Ordinal(today) - 1 - Ordinal(StrptimeYmd(GetHatchDate(file).value.s).value)
  {
    match AddDays(today, -1)
    case None => Raised(OverflowError)
    case Some(yesterday) =>
      match GetHatchDate(file)
      case Raised(e) => Raised(e)
      case Ok(h) =>
        if !h.JStr? then Raised(TypeError)
        else
          match StrptimeYmd(h.s)
          case Raised(e) => Raised(e)
          case Ok(hatch) =>
            // `target_date` passes through `isoformat` and `strptime`, which
            // give back `yesterday` (Dates.StrptimeIsoFormat).
            Ok(Ordinal(yesterday) - Ordinal(hatch))
  }

  /** `get_bird_age()`: yesterday's age counted from the hatch date. */
  function GetBirdAge(today: Date, file: SettingsFile): (r: Result<string>)
    requires Valid(today)
    ensures AddDays(today, -1).None? ==> r == Raised(OverflowError)
    ensures r.Ok? ==> GetHatchDate(file).Ok? && GetHatchDate(file).value.JStr?
  {
    match DaysDiff(today, file)
    case Raised(e) => Raised(e)
    case Ok(d) => Ok(BirdAge(d))
  }

  /** The age is read back as two integers: whole weeks and the day of the
      week, `0 <= day < 7`, that together make up the day count, even for
      a hatch date after yesterday. */
  lemma BirdAgeRoundTrip(daysDiff: int)
    ensures var parts := Split(BirdAge(daysDiff), '.');
      |parts| == 2 && ParseInt(parts[0]).Some? && ParseInt(parts[1]).Some? &&
      var week, day := ParseInt(parts[0]).value, ParseInt(parts[1]).value;
      0 <= day < 7 && 7 * week + day == daysDiff
  {
    var w, d := IntToString(daysDiff / 7), IntToString(daysDiff % 7);
    NoDotInInt(daysDiff / 7);
    NoDotInInt(daysDiff % 7);
    SplitOneSeparator(w, d, '.');
    assert BirdAge(daysDiff) == w + ['.'] + d;
    ParseIntOfIntToString(daysDiff / 7);
    ParseIntOfIntToString(daysDiff % 7);
  }

  lemma NoDotInInt(i: int)
    ensures '.' !in IntToString(i)
  {
    var r := IntToString(i);
    var ds := NatToString(if i < 0 then -i else i);
    assert forall k :: 0 <= k < |ds| ==> IsDigit(ds[k]);
    if i < 0 {
      assert r == "-" + ds;
    }
  }

  /** A flock hatched the day before yesterday is `0.1`; one hatched
      tomorrow is `-1.5`, as floor division makes it. */
  lemma BirdAgeExamples()
    ensures BirdAge(1) == "0.1"
    ensures BirdAge(-2) == "-1.5"
    ensures BirdAge(14) == "2.0"
  {
    assert NatToString(1) == "1" && NatToString(0) == "0" && NatToString(5) == "5" && NatToString(2) == "2";
  }

  /** Reading the age back gives whole weeks and the day of the week
      that together make up the days from the hatch date to yesterday. */
  lemma GetBirdAgeReadBack(today: Date, file: SettingsFile)
    requires Valid(today) && GetBirdAge(today, file).Ok?
    ensures StrptimeYmd(GetHatchDate(file).value.s).Ok?
    ensures var hatch := StrptimeYmd(GetHatchDate(file).value.s).value;
      var parts := Split(GetBirdAge(today, file).value, '.');
      |parts| == 2 && ParseInt(parts[0]).Some? && ParseInt(parts[1]).Some? &&
      var week, day := ParseInt(parts[0]).value, ParseInt(parts[1]).value;
      0 <= day < 7 && 7 * week + day == Ordinal(today) - 1 - Ordinal(hatch)
  {
    BirdAgeRoundTrip(DaysDiff(today, file).value);
  }
}
