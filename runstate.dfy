/** `runstate.py`: `.runstate.json`, a map from job keys to the ISO date
    on which each job last ran. */
module RunStates {
  import opened Common
  import opened Dates
  import opened JsonValue

  /** The contents of the file: text `json.load` rejects, or a document. */
  datatype RunFile = Unparsable | Doc(doc: Json)

  /** `RUNSTATE_FILE`; `None` while it does not exist. */
  class RunState {
    var file: Option<RunFile>

    constructor (file: Option<RunFile>)
      ensures this.file == file
    {
      this.file := file;
    }

    /** `make_sure_exists()`: an empty object is written only when there is
        no file; existing content is never overwritten. */
    method MakeSureExists()
      modifies this
      ensures old(file).None? ==> file == Some(Doc(JObj(map[])))
      ensures old(file).Some? ==> file == old(file)
    {
      if file.None? {
        file := Some(Doc(JObj(map[])));
      }
    }

    /** `load_data(key)` with `today` for `date.today()`: whether `key` is
        stamped with today's ISO date. Opening a missing file raises
        FileNotFoundError, bad JSON ValueError, and `.get` on anything but
        an object AttributeError. */
    function LoadData(key: string, today: Date): (r: Result<bool>)
      requires Valid(today)
      reads this
      ensures file.None? ==> r == Raised(FileNotFoundError)
      ensures file == Some(Unparsable) ==> r == Raised(ValueError)
      ensures file.Some? && file.value.Doc? && !file.value.doc.JObj? ==> r == Raised(AttributeError)
      ensures r == Ok(true) <==>
        file.Some? && file.value.Doc? && file.value.doc.JObj? &&
        key in file.value.doc.fields && file.value.doc.fields[key] == JStr(IsoFormat(today))
    {
      match file
      case None => Raised(FileNotFoundError)
      case Some(Unparsable) => Raised(ValueError)
      case Some(Doc(data)) =>
        if !data.JObj? then Raised(AttributeError)
        else Ok(key in data.fields && data.fields[key] == JStr(IsoFormat(today)))
    }

    /** `save_data(key)`: stamps `key` with today's ISO date and keeps every
        other entry. Only an object accepts the assignment (TypeError). */
    method SaveData(key: string, today: Date) returns (err: Option<PyError>)
      requires Valid(today)
      modifies this
      ensures old(file).None? ==> err == Some(FileNotFoundError) && file == old(file)
      ensures old(file) == Some(Unparsable) ==> err == Some(ValueError) && file == old(file)
      ensures old(file).Some? && old(file).value.Doc? && !old(file).value.doc.JObj? ==>
        err == Some(TypeError) && file == old(file)
      ensures old(file).Some? && old(file).value.Doc? && old(file).value.doc.JObj? ==>
        err.None? && file == Some(Doc(JObj(old(file).value.doc.fields[key := JStr(IsoFormat(today))])))
    {
      var todayStr := IsoFormat(today);
      match file {
        case None =>
          return Some(FileNotFoundError);
        case Some(Unparsable) =>
          return Some(ValueError);
        case Some(Doc(data)) =>
          if !data.JObj? {
            return Some(TypeError);
          }
          file := Some(Doc(JObj(data.fields[key := JStr(todayStr)])));
          return None;
      }
    }
  }

  /** The ISO text names one date. */
  lemma IsoFormatInjective(d: Date, e: Date)
    requires Valid(d) && Valid(e) && IsoFormat(d) == IsoFormat(e)
    ensures d == e
  {
    StrptimeIsoFormat(d);
    StrptimeIsoFormat(e);
  }

  /** A key stamped on another day does not count as run today. */
  lemma LoadDataOtherDay(s: RunState, key: string, today: Date, day: Date)
    requires Valid(today) && Valid(day) && day != today
    requires s.file.Some? && s.file.value.Doc? && s.file.value.doc.JObj?
    requires key in s.file.value.doc.fields && s.file.value.doc.fields[key] == JStr(IsoFormat(day))
    ensures s.LoadData(key, today) == Ok(false)
  {
    if IsoFormat(day) == IsoFormat(today) {
      IsoFormatInjective(day, today);
    }
  }

  /** Saving a key and loading it the same day answers true; every other
      key answers as before. */
  method SaveThenLoad(s: RunState, key: string, other: string, today: Date)
    requires Valid(today) && other != key
    requires s.file.Some? && s.file.value.Doc? && s.file.value.doc.JObj?
    modifies s
    ensures s.LoadData(key, today) == Ok(true)
    ensures s.LoadData(other, today) == old(s.LoadData(other, today))
  {
    var err := s.SaveData(key, today);
  }
}
