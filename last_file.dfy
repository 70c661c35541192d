/** `everythingfromlastfile(path)`: mortality, feed, water and weight of
    the day's last file, in that order, for the elements present. */
module LastFile {
  import opened Common
  import opened XmlHelpers
  import opened XmlDocs

  /** A value appended to `datawesendback`: `int(text)` or `float(text)`. */
  datatype Number = IntNum(i: int) | FloatNum(f: real)

  /** One conditional append: nothing for a missing element, the
      converted text otherwise, `None` when the conversion raises. */
  function IntField(t: Option<string>): (r: Option<seq<Number>>)
    ensures t.None? ==> r == Some([])
    ensures t.Some? ==> (r.Some? <==> ParseInt(t.value).Some?)
    ensures t.Some? && r.Some? ==> r.value == [IntNum(ParseInt(t.value).value)]
  {
    match t
    case None => Some([])
    case Some(x) =>
      match ParseInt(x)
      case None => None
      case Some(v) => Some([IntNum(v)])
  }

  function FloatField(t: Option<string>): (r: Option<seq<Number>>)
    ensures t.None? ==> r == Some([])
    ensures t.Some? ==> (r.Some? <==> t.value != "" && ParseFloat(t.value).Some?)
    ensures t.Some? && r.Some? ==> r.value == [FloatNum(ParseFloat(t.value).value)]
  {
    match t
    case None => Some([])
    case Some(x) =>
      if x == "" then None
      else
        match ParseFloat(x)
        case None => None
        case Some(v) => Some([FloatNum(v)])
  }

  /** The body of the `try` on a parsed document; `None` when a conversion raised. */
  function LastValues(d: Doc): Option<seq<Number>> {
    match IntField(d.mortality)
    case None => None
    case Some(a) =>
      match IntField(d.dailyFeed)
      case None => None
      case Some(b) =>
        match IntField(d.dailyWater)
        case None => None
        case Some(c) =>
          match FloatField(d.averageWeight)
          case None => None
          case Some(e) => Some(a + b + c + e)
  }

  /** `everythingfromlastfile(path)`. Parsing failures are caught and the
      file is moved to `failed_dir` joined with its (absolute) path, which
      is the path itself, so the file stays and the function returns
      `None` (`Ok(None)`). A missing file makes that move raise
      FileNotFoundError out of the function. */
  function EverythingFromLastFile(files: seq<XmlFile>, name: string): (r: Result<Option<seq<Number>>>)
    ensures r.Raised? <==> Lookup(files, name).None?
    ensures r.Raised? ==> r.error == FileNotFoundError
  {
    match Lookup(files, name)
    case None => Raised(FileNotFoundError)
    case Some(Unparsable) => Ok(None)
    case Some(Parsed(d)) => Ok(LastValues(d))
  }

  function Present(t: Option<string>): nat {
    if t.Some? then 1 else 0
  }

  /** One value per element present, so between none and four. */
  lemma LastValuesLength(d: Doc)
    requires LastValues(d).Some?
    ensures |LastValues(d).value| ==
      Present(d.mortality) + Present(d.dailyFeed) + Present(d.dailyWater) + Present(d.averageWeight)
    ensures |LastValues(d).value| <= 4
  {
  }

  /** All four elements present: the values are mortality, feed, water and
      weight, in that order, the first three integers. */
  lemma LastValuesOrder(d: Doc)
    requires LastValues(d).Some?
    requires d.mortality.Some? && d.dailyFeed.Some? && d.dailyWater.Some? && d.averageWeight.Some?
    ensures LastValues(d).value == [
      IntNum(ParseInt(d.mortality.value).value), IntNum(ParseInt(d.dailyFeed.value).value),
      IntNum(ParseInt(d.dailyWater.value).value), FloatNum(ParseFloat(d.averageWeight.value).value)]
  {
  }

  /** Four values mean all four elements were present, so the caller's
      indices 0..3 are mortality, feed, water and weight. */
  lemma FourValuesAllPresent(d: Doc)
    requires LastValues(d).Some? && |LastValues(d).value| == 4
    ensures d.mortality.Some? && d.dailyFeed.Some? && d.dailyWater.Some? && d.averageWeight.Some?
  {
    LastValuesLength(d);
  }
}
