/** The logger's XML documents as the processing sees them: for each
    ElementTree path the code looks up, the text of the first element on
    that path. A folder is a sequence of named files in listing order. */
module XmlDocs {
  import opened Common
  import opened XmlHelpers

  /** One parsed document. Each field is `None` when the path finds no
      element, `Some(text)` otherwise; an element without text (for which
      ElementTree gives `None`, never an empty string) is `Some("")`. */
  datatype Doc = Doc(
    generalTime: Option<string>,        // .//General/Time
    growthDay: Option<string>,          // .//General/GrowthDay
    outsideTemperature: Option<string>, // .//OutsideTemperature
    averageTemperature: Option<string>, // .//AverageTemperature
    light: Option<Option<string>>,      // .//Light, then its findtext("Active")
    timeStamp: Option<string>,          // .//Headers/TimeStamp
    mortality: Option<string>,          // .//TotalDailyFemaleMortality
    dailyFeed: Option<string>,          // .//DailyFeed
    dailyWater: Option<string>,         // .//DailyWater
    averageWeight: Option<string>,      // .//AverageWeight
    eggRoom: Option<string>,            // .//EggRoom
    anyTime: Option<string>)            // .//Time: the first Time element anywhere

  /** What `ET.parse` makes of a file. */
  datatype Content = Unparsable | Parsed(doc: Doc)

  datatype XmlFile = XmlFile(name: string, content: Content)

  /** The file a path names in the folder; `None` when there is none
      (`ET.parse` then raises FileNotFoundError). */
  function Lookup(files: seq<XmlFile>, name: string): (r: Option<Content>)
    ensures r.None? <==> forall i :: 0 <= i < |files| ==> files[i].name != name
    ensures r.Some? ==> XmlFile(name, r.value) in files
  {
    if files == [] then None
    else if files[0].name == name then Some(files[0].content)
    else Lookup(files[1..], name)
  }

  function Names(files: seq<XmlFile>): (r: seq<string>)
    ensures |r| == |files| && forall i :: 0 <= i < |files| ==> r[i] == files[i].name
  {
    if files == [] then [] else [files[0].name] + Names(files[1..])
  }

  /** The logger folder and the folder of quarantined files, keyed by
      base name. */
  datatype Disk = Disk(files: seq<XmlFile>, failed: map<string, Content>)

  /** The folder after the file `name` is moved out of it. */
  function Remove(files: seq<XmlFile>, name: string): (r: seq<XmlFile>)
    ensures forall i :: 0 <= i < |r| ==> r[i].name != name
    ensures forall f :: f in files && f.name != name ==> f in r
    ensures forall f :: f in r ==> f in files
  {
    if files == [] then []
    else (if files[0].name == name then [] else [files[0]]) + Remove(files[1..], name)
  }

  /** `shutil.move(path, failed_dir/basename(path))`: a file already there
      under that name is replaced. */
  function Quarantine(disk: Disk, name: string, c: Content): (r: Disk)
    ensures Lookup(r.files, name).None? && r.failed == disk.failed[name := c]
  {
    Disk(Remove(disk.files, name), disk.failed[name := c])
  }

  /** What `glob(folder + "/" + prefix + "*.xml")` matches: the prefix, then
      anything, then `.xml`; a name starting with `.` only when the
      pattern does. */
  predicate GlobMatch(name: string, prefix: string) {
    |prefix| + 4 <= |name| && StartsWith(name, prefix) && EndsWith(name, ".xml")
    && (name[0] == '.' ==> prefix != [] && prefix[0] == '.')
  }

  /** `extract_time_and_growthday` on a parsed document: the stripped
      Time text and the integer GrowthDay, or `None` (the `(None, None)`
      pair) when either element is missing, its text is exactly `-9999`,
      or reading it raises. */
  function TimeAndGrowthDay(d: Doc): (r: Option<(string, int)>)
    ensures r.Some? <==>
      d.generalTime.Some? && d.generalTime.value !in {"-9999", ""} &&
      d.growthDay.Some? && d.growthDay.value != "-9999" && ParseInt(d.growthDay.value).Some?
    ensures r.Some? ==> r.value == (Strip(d.generalTime.value), ParseInt(d.growthDay.value).value)
  {
    if d.generalTime.None? || d.generalTime.value == "-9999" then None
    // a Time element without text: `None.strip()` raises AttributeError
    else if d.generalTime.value == "" then None
    else if d.growthDay.None? || d.growthDay.value == "-9999" then None
    else
      // `int(None)` raises TypeError and `ParseInt("")` is `None` alike
      match ParseInt(d.growthDay.value)
      case None => None
      case Some(g) => Some((Strip(d.generalTime.value), g))
  }

  /** `extract_time_and_growthday(path)`: a missing or unparsable file
      raises inside the `try` and gives `(None, None)` too. */
  function ExtractTimeAndGrowthDay(c: Option<Content>): (r: Option<(string, int)>)
    ensures r.Some? ==> c.Some? && c.value.Parsed? && r == TimeAndGrowthDay(c.value.doc)
    ensures c.Some? && c.value.Parsed? ==> r == TimeAndGrowthDay(c.value.doc)
  {
    match c
    case Some(Parsed(d)) => TimeAndGrowthDay(d)
    case _ => None
  }

  /** A temperature element of one document: `float(text)`, kept unless
      it is the `-9999` sentinel. `Ok(None)` is "nothing appended". */
  function ReadTemp(t: Option<string>): (r: Result<Option<real>>)
    ensures t.None? ==> r == Ok(None)
    ensures r.Ok? && r.value.Some? ==> t.Some? && ParseFloat(t.value) == Some(r.value.value) && r.value.value != -9999.0
    ensures t.Some? && t.value != "" && ParseFloat(t.value).Some? && ParseFloat(t.value).value != -9999.0 ==>
      r == Ok(ParseFloat(t.value))
  {
    match t
    case None => Ok(None)
    case Some(x) =>
      if x == "" then Raised(TypeError)
      else
        match ParseFloat(x)
        case None => Raised(ValueError)
        case Some(v) => if v == -9999.0 then Ok(None) else Ok(Some(v))
  }

  /** The sentinel reading is dropped. */
  lemma ReadTempDropsSentinel(t: string)
    requires t == "-9999"
    ensures ReadTemp(Some(t)) == Ok(None)
  {
    ParseFloatSentinel();
  }
}
