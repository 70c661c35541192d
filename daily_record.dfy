/** `run_xml_stuff(db_file, target_date)` up to the row it hands to the
    database: the day's files are resolved, processed, and reduced to one
    daily record. */
module DailyRecords {
  import opened Common
  import opened Dates
  import opened XmlHelpers
  import opened XmlDocs
  import opened LightScan
  import opened LastFile
  import opened Cooler
  import opened DayResolution

  /** `secrets` values the run reads. */
  datatype Settings = Settings(coolerTimeAM: string, coolerTimePM: string, tolerance: string)

  /** The row `run_xml_stuff` passes to `insert_daily_bot_log`, with the
      mortality it also computes. */
  datatype DailyRecord = DailyRecord(
    date: string,
    mortality: Number,
    feedConsumption: real,
    lightsOn: string,
    lightsOff: string,
    waterConsumption: Number,
    bodyWeight: real,
    insideLow: Reading,
    insideHigh: Reading,
    outsideLow: Reading,
    outsideHigh: Reading,
    coolerTimeAM: string,
    coolerTempAM: Reading,
    coolerTimePM: string,
    coolerTempPM: Reading)

  function NumberValue(n: Number): real {
    match n
    case IntNum(i) => i as real
    case FloatNum(f) => f
  }

  /** `round_hhmm_to_15(t[0])` and `c_to_f(t[1])` on a `getCoolerTemp`
      result: `t[0]` of the `None` it returns on failure raises TypeError,
      and a Time element without text gives `None.split`, AttributeError. */
  function CoolerFields(c: CoolerReading): (r: Result<(string, Reading)>)
    ensures c.NotAvailablePair? ==> r == Ok((NA, NotAvailable))
    ensures c.NoneReturned? ==> r == Raised(TypeError)
  {
    match c
    case NotAvailablePair => Ok((NA, NotAvailable))
    case NoneReturned => Raised(TypeError)
    case Reading(time, temp) =>
      match time
      case None => Raised(AttributeError)
      case Some(t) =>
        match RoundHhmmTo15(t)
        case Raised(e) => Raised(e)
        case Ok(rt) => Ok((rt, CToF(Num(temp))))
  }

  /** `round_hhmm_to_15` of the light on and off times. */
  function Lights(temps: DayTemps): (r: Result<(string, string)>)
    ensures r.Ok? <==> RoundHhmmTo15(temps.lightOnTime).Ok? && RoundHhmmTo15(temps.lightOffTime).Ok?
    ensures r.Ok? ==> r.value == (RoundHhmmTo15(temps.lightOnTime).value, RoundHhmmTo15(temps.lightOffTime).value)
  {
    match RoundHhmmTo15(temps.lightOnTime)
    case Raised(e) => Raised(e)
    case Ok(lightsOn) =>
      match RoundHhmmTo15(temps.lightOffTime)
      case Raised(e) => Raised(e)
      case Ok(lightsOff) => Ok((lightsOn, lightsOff))
  }

  /** `databack = everythingfromlastfile(...)` and the indexing
      `databack[0]` to `databack[3]`: `None` raises TypeError, fewer than
      four values IndexError. */
  function LastFour(files: seq<XmlFile>, last: string): (r: Result<seq<Number>>)
    ensures r.Ok? ==> |r.value| >= 4 && EverythingFromLastFile(files, last) == Ok(Some(r.value))
  {
    match EverythingFromLastFile(files, last)
    case Raised(e) => Raised(e)
    case Ok(None) => Raised(TypeError)
    case Ok(Some(vs)) => if |vs| < 4 then Raised(IndexError) else Ok(vs)
  }

  /** One cooler reading, `getCoolerTemp` then its two fields. */
  function CoolerPair(files: seq<XmlFile>, time: string, tolerance: string, names: seq<string>): Result<(string, Reading)> {
    match GetCoolerTemp(files, time, tolerance, names)
    case Raised(e) => Raised(e)
    case Ok(c) => CoolerFields(c)
  }

  /** The row built from the computed parts. */
  function Row(day: Day, temps: DayTemps, lights: (string, string), vs: seq<Number>,
               am: (string, Reading), pm: (string, Reading)): DailyRecord
    requires |vs| >= 4
  {
    DailyRecord(
      day.readable, vs[0], KgToLb(NumberValue(vs[1])), lights.0, lights.1, vs[2],
      KgToLb(NumberValue(vs[3])),
      CToF(Num(temps.insideLow)), CToF(Num(temps.insideHigh)),
      CToF(Num(temps.outsideLow)), CToF(Num(temps.outsideHigh)),
      am.0, am.1, pm.0, pm.1)
  }

  /** Everything after `doProcessingOnAllFiles`: the conversions, the
      last file's values and the two cooler readings, in the order the
      source computes them. */
  function Assemble(files: seq<XmlFile>, settings: Settings, day: Day, res: Resolution, temps: DayTemps): (r: Result<DailyRecord>)
    requires res.Resolved?
  {
    match Lights(temps)
    case Raised(e) => Raised(e)
    case Ok(lights) =>
      match LastFour(files, res.last)
      case Raised(e) => Raised(e)
      case Ok(vs) =>
        match CoolerPair(files, settings.coolerTimeAM, settings.tolerance, res.names)
        case Raised(e) => Raised(e)
        case Ok(am) =>
          match CoolerPair(files, settings.coolerTimePM, settings.tolerance, res.names)
          case Raised(e) => Raised(e)
          case Ok(pm) => Ok(Row(day, temps, lights, vs, am, pm))
  }

  /** A row comes from parts that were all computed. */
  lemma AssembleParts(files: seq<XmlFile>, settings: Settings, day: Day, res: Resolution, temps: DayTemps)
    requires res.Resolved? && Assemble(files, settings, day, res, temps).Ok?
    ensures Lights(temps).Ok? && LastFour(files, res.last).Ok?
    ensures CoolerPair(files, settings.coolerTimeAM, settings.tolerance, res.names).Ok?
    ensures CoolerPair(files, settings.coolerTimePM, settings.tolerance, res.names).Ok?
    ensures Assemble(files, settings, day, res, temps).value ==
      Row(day, temps, Lights(temps).value, LastFour(files, res.last).value,
          CoolerPair(files, settings.coolerTimeAM, settings.tolerance, res.names).value,
          CoolerPair(files, settings.coolerTimePM, settings.tolerance, res.names).value)
  {
  }

  /** `run_xml_stuff` with `today` for `date.today()`: `Ok(None)` is the
      early `return None`, `Ok(Some(row))` the row handed to the database.
      The folders afterwards come with it: files that failed processing
      have been quarantined. */
  function RunXmlStuff(disk: Disk, settings: Settings, today: Date, targetDate: Option<string>,
                       toLocal: string -> Option<string>): (Result<Option<DailyRecord>>, Disk)
    requires Valid(today)
  {
    match ProcessDate(today, targetDate)
    case Raised(e) => (Raised(e), disk)
    case Ok(day) =>
      match Resolve(disk.files, day.prefix)
      case NoData => (Ok(None), disk)
      case Resolved(g, names, last) =>
        // `yesterdayDate = date.today() - timedelta(days=1)` is computed on every run
        if AddDays(today, -1).None? then (Raised(OverflowError), disk)
        else
          var (temps, disk') := DoProcessing(disk, names, toLocal);
          match temps
          case Raised(e) => (Raised(e), disk')
          case Ok(t) =>
            match Assemble(disk'.files, settings, day, Resolved(g, names, last), t)
            case Raised(e) => (Raised(e), disk')
            case Ok(row) => (Ok(Some(row)), disk')
  }

  /** No file named after the day: nothing is processed and nothing moves. */
  lemma NoCandidatesNoRun(disk: Disk, settings: Settings, today: Date, targetDate: Option<string>,
                          toLocal: string -> Option<string>)
    requires Valid(today) && ProcessDate(today, targetDate).Ok?
    requires GlobNames(disk.files, ProcessDate(today, targetDate).value.prefix) == []
    ensures RunXmlStuff(disk, settings, today, targetDate, toLocal) == (Ok(None), disk)
  {
  }

  /** The row stores mortality and water as read, and feed and weight
      converted from kilograms to pounds; the date is the day's text. */
  lemma RecordUnits(files: seq<XmlFile>, settings: Settings, day: Day, res: Resolution, temps: DayTemps, d: Doc)
    requires res.Resolved? && Lookup(files, res.last) == Some(Parsed(d))
    requires Assemble(files, settings, day, res, temps).Ok?
    ensures d.mortality.Some? && d.dailyFeed.Some? && d.dailyWater.Some? && d.averageWeight.Some?
    ensures ParseInt(d.mortality.value).Some? && ParseInt(d.dailyFeed.value).Some? &&
      ParseInt(d.dailyWater.value).Some? && ParseFloat(d.averageWeight.value).Some?
    ensures var row := Assemble(files, settings, day, res, temps).value;
      row.date == day.readable &&
      row.mortality == IntNum(ParseInt(d.mortality.value).value) &&
      row.feedConsumption == KgToLb(ParseInt(d.dailyFeed.value).value as real) &&
      row.waterConsumption == IntNum(ParseInt(d.dailyWater.value).value) &&
      row.bodyWeight == KgToLb(ParseFloat(d.averageWeight.value).value)
  {
    AssembleParts(files, settings, day, res, temps);
    assert LastValues(d) == Some(LastFour(files, res.last).value);
    LastValuesLength(d);
    FourValuesAllPresent(d);
    LastValuesOrder(d);
  }

  /** The cooler and temperature readings are Fahrenheit conversions of
      the Celsius values, and the light times are rounded to a quarter hour. */
  lemma RecordConversions(files: seq<XmlFile>, settings: Settings, day: Day, res: Resolution, temps: DayTemps)
    requires res.Resolved? && Assemble(files, settings, day, res, temps).Ok?
    ensures var row := Assemble(files, settings, day, res, temps).value;
      row.lightsOn == RoundHhmmTo15(temps.lightOnTime).value &&
      row.lightsOff == RoundHhmmTo15(temps.lightOffTime).value &&
      (row.insideLow.v - 32.0) * 5.0 == temps.insideLow * 9.0 &&
      (row.outsideHigh.v - 32.0) * 5.0 == temps.outsideHigh * 9.0
  {
    AssembleParts(files, settings, day, res, temps);
  }
}
