/** `config.py`: the sectioned configuration file, its one-level
    default-filling migration, and the flat legacy view of it. */
module Config {
  import opened Common
  import opened JsonValue

  /** One dict-valued section of `DEFAULT_CONFIG`, its keys in order. */
  datatype Section = Section(name: string, items: seq<(string, Json)>)

  /** `DEFAULT_CONFIG`, sections and keys in their written order. */
  function DefaultSections(): (r: seq<Section>)
    ensures |r| == 8
  {
    [ Section("farm", [("hatch_date", JStr("2025-03-05")), ("birds_arrived_date", JStr("2025-06-01")),
                       ("nws_station_id", JStr("KMPR"))]),
      Section("unitas", [("username", JStr("")), ("password", JStr("")), ("farm_id", JStr("")),
                         ("house_id", JStr("")), ("cooler_log_enabled", JBool(true)),
                         ("cooler_log_initials", JStr(""))]),
      Section("xml", [("path", JStr("/srv/ftp/upload/")), ("retention_days", JInt(2)),
                      ("retrieve_time", JStr("00:15"))]),
      Section("cooler", [("am_time", JStr("06:00:00")), ("pm_time", JStr("18:00:00")),
                         ("time_tolerance", JStr("00:30"))]),
      Section("system", [("time_zone", JStr("America/Chicago")), ("timeout", JInt(30))]),
      Section("telegram", [("bot_token", JStr("")), ("chat_id", JStr(""))]),
      Section("legacy", [("spreadsheet_id", JStr("")),
                         ("xml_to_sheet_range_name", JStr("Nightly_Bot_Responses!A3")),
                         ("sheet_to_unitas_range_name", JStr("Send_To_Bot!D3:AU3"))]),
      Section("form_defaults", [("air_sensory", JInt(1)), ("added_supplements", JStr("")),
                                ("door_open", JStr("08:45")), ("door_closed", JStr("20:50")),
                                ("birds_restricted_reason", JStr("")), ("drinkers_clean", JStr("Yes")),
                                ("safe_indoors", JStr("Yes")), ("safe_outdoors", JStr("Yes")),
                                ("equipment_functioning", JStr("Yes"))]) ]
  }

  /** A list of pairs as a dict: later pairs win. */
  function ItemsMap(items: seq<(string, Json)>): (m: map<string, Json>)
    ensures m.Keys == set i | 0 <= i < |items| :: items[i].0
  {
    if items == [] then map[]
    else
      var init := items[..|items| - 1];
      var m0 := ItemsMap(init);
      assert forall i :: 0 <= i < |init| ==> init[i] == items[i];
      m0[items[|items| - 1].0 := items[|items| - 1].1]
  }

  function SectionsMap(secs: seq<Section>): (m: map<string, Json>)
    ensures m.Keys == set i | 0 <= i < |secs| :: secs[i].name
  {
    if secs == [] then map[]
    else
      var init := secs[..|secs| - 1];
      assert forall i :: 0 <= i < |init| ==> init[i] == secs[i];
      SectionsMap(init)[secs[|secs| - 1].name := JObj(ItemsMap(secs[|secs| - 1].items))]
  }

  /** The document `ensure_config_exists` writes. */
  function DefaultDoc(): Json {
    JObj(SectionsMap(DefaultSections()))
  }

  /** `t` occurs in `s` as a substring. */
  predicate Contains(s: string, t: string)
    decreases |s|
  {
    StartsWith(s, t) || (s != [] && Contains(s[1..], t))
  }

  /** Python's `key in v`: a dict's keys, a list's elements, a string's
      substrings; any other value raises TypeError. */
  function PyIn(key: string, v: Json): (r: Result<bool>)
    ensures r.Raised? <==> !(v.JObj? || v.JList? || v.JStr?)
    ensures r.Raised? ==> r.error == TypeError
    ensures v.JObj? ==> r == Ok(key in v.fields)
  {
    match v
    case JObj(fields) => Ok(key in fields)
    case JList(items) => Ok(JStr(key) in items)
    case JStr(s) => Ok(Contains(s, key))
    case _ => Raised(TypeError)
  }

  // ---------------------------------------------------------------- migration

  /** The inner loop over one section's defaults: a missing key is added
      with its default value (only a dict accepts it: TypeError for a list
      or string); the flag says whether anything was added. */
  function FillKeys(sec: Json, items: seq<(string, Json)>): (r: Result<(Json, bool)>)
    ensures r.Raised? ==> r.error == TypeError
  {
    if items == [] then Ok((sec, false))
    else
      match FillKeys(sec, items[..|items| - 1])
      case Raised(e) => Raised(e)
      case Ok((s, changed)) =>
        var (key, value) := items[|items| - 1];
        match PyIn(key, s)
        case Raised(e) => Raised(e)
        case Ok(true) => Ok((s, changed))
        case Ok(false) =>
          if s.JObj? then Ok((JObj(s.fields[key := value]), true)) else Raised(TypeError)
  }

  /** The outer loop of `load_config`'s migration over `secs`: a missing
      section is added whole, a present one has its missing keys filled.
      Every `DEFAULT_CONFIG` value is a dict, so the `isinstance` test
      always passes. A top level that is not an object raises TypeError
      on its first section: either `config[section] = …` or
      `config[section][key]` fails on a list, string or scalar. */
  function Migrate(config: Json, secs: seq<Section>): (r: Result<(Json, bool)>)
    ensures r.Ok? ==> r.value.0.JObj?
    ensures r.Raised? ==> r.error == TypeError
  {
    if !config.JObj? then Raised(TypeError)
    else if secs == [] then Ok((config, false))
    else
      match Migrate(config, secs[..|secs| - 1])
      case Raised(e) => Raised(e)
      case Ok((c, changed)) =>
        var sec := secs[|secs| - 1];
        if sec.name !in c.fields then
          Ok((JObj(c.fields[sec.name := JObj(ItemsMap(sec.items))]), true))
        else
          match FillKeys(c.fields[sec.name], sec.items)
          case Raised(e) => Raised(e)
          case Ok((s, changedHere)) => Ok((JObj(c.fields[sec.name := s]), changed || changedHere))
  }

  /** Every default section is present in `c`, and every default key of it
      answers `in`. */
  ghost predicate Complete(c: Json, secs: seq<Section>) {
    c.JObj? &&
    forall i :: 0 <= i < |secs| ==> secs[i].name in c.fields && SectionComplete(c.fields[secs[i].name], secs[i].items)
  }

  ghost predicate SectionComplete(s: Json, items: seq<(string, Json)>) {
    forall j :: 0 <= j < |items| ==> PyIn(items[j].0, s) == Ok(true)
  }

  /** `s2` is `s` with perhaps some keys added: no existing value changes. */
  ghost predicate Grows(s: Json, s2: Json) {
    s == s2 ||
    (s.JObj? && s2.JObj? && s.fields.Keys <= s2.fields.Keys &&
     forall k :: k in s.fields ==> s2.fields[k] == s.fields[k])
  }

  /** `c2` keeps every section of `c`, each grown by at most some keys. */
  ghost predicate ConfigGrows(c: Json, c2: Json) {
    c.JObj? && c2.JObj? && c.fields.Keys <= c2.fields.Keys &&
    forall k :: k in c.fields ==> Grows(c.fields[k], c2.fields[k])
  }

  lemma GrowsKeepsIn(s: Json, s2: Json, key: string)
    requires Grows(s, s2) && PyIn(key, s) == Ok(true)
    ensures PyIn(key, s2) == Ok(true)
  {
  }

  lemma GrowsTransitive(a: Json, b: Json, c: Json)
    requires Grows(a, b) && Grows(b, c)
    ensures Grows(a, c)
  {
  }

  /** The inner loop only adds keys, completes the section, and reports a
      change exactly when the section lacked one of the keys. */
  lemma {:induction false} FillKeysSpec(sec: Json, items: seq<(string, Json)>)
    requires FillKeys(sec, items).Ok?
    ensures var (s, changed) := FillKeys(sec, items).value;
      Grows(sec, s) && SectionComplete(s, items) &&
      (!changed ==> s == sec) && (changed ==> !SectionComplete(sec, items))
  {
    if items != [] {
      var init := items[..|items| - 1];
      FillKeysSpec(sec, init);
      var (s0, ch0) := FillKeys(sec, init).value;
      var (key, value) := items[|items| - 1];
      var (s, changed) := FillKeys(sec, items).value;
      forall j | 0 <= j < |init|
        ensures PyIn(items[j].0, s) == Ok(true)
      {
        assert items[j] == init[j];
        GrowsKeepsIn(s0, s, items[j].0);
      }
      if PyIn(key, s0) == Ok(false) {
        if !ch0 {
          assert !SectionComplete(sec, items) by {
            assert PyIn(items[|items| - 1].0, sec) == Ok(false);
          }
        } else {
          assert !SectionComplete(sec, items) by {
            var j :| 0 <= j < |init| && PyIn(init[j].0, sec) != Ok(true);
            assert items[j] == init[j];
          }
        }
      } else if ch0 {
        assert !SectionComplete(sec, items) by {
          var j :| 0 <= j < |init| && PyIn(init[j].0, sec) != Ok(true);
          assert items[j] == init[j];
        }
      }
      GrowsTransitive(sec, s0, s);
    }
  }

  /** The inner loop leaves a complete section alone. */
  lemma {:induction false} FillKeysComplete(sec: Json, items: seq<(string, Json)>)
    requires SectionComplete(sec, items)
    ensures FillKeys(sec, items) == Ok((sec, false))
  {
    if items != [] {
      var init := items[..|items| - 1];
      assert SectionComplete(sec, init) by {
        forall j | 0 <= j < |init| ensures PyIn(init[j].0, sec) == Ok(true) {
          assert init[j] == items[j];
        }
      }
      FillKeysComplete(sec, init);
      assert PyIn(items[|items| - 1].0, sec) == Ok(true);
    }
  }

  /** The migration only fills in: every section and key already there
      keeps its value (sections and keys outside the defaults included),
      and it adds exactly the missing default sections. */
  lemma {:induction false} MigrateGrows(config: Json, secs: seq<Section>)
    requires Migrate(config, secs).Ok?
    ensures var c := Migrate(config, secs).value.0;
      ConfigGrows(config, c) &&
      c.fields.Keys == config.fields.Keys + (set i | 0 <= i < |secs| :: secs[i].name)
  {
    if secs != [] {
      var init := secs[..|secs| - 1];
      MigrateGrows(config, init);
      assert forall i :: 0 <= i < |init| ==> init[i] == secs[i];
      var c0 := Migrate(config, init).value.0;
      var sec := secs[|secs| - 1];
      var c := Migrate(config, secs).value.0;
      if sec.name in c0.fields {
        FillKeysSpec(c0.fields[sec.name], sec.items);
        forall k | k in config.fields ensures Grows(config.fields[k], c.fields[k]) {
          if k == sec.name {
            GrowsTransitive(config.fields[k], c0.fields[k], c.fields[k]);
          }
        }
      }
    }
  }

  /** After the migration every default section and key is there. */
  lemma {:induction false} MigrateCompletes(config: Json, secs: seq<Section>)
    requires Migrate(config, secs).Ok?
    ensures Complete(Migrate(config, secs).value.0, secs)
  {
    if secs != [] {
      var init := secs[..|secs| - 1];
      MigrateCompletes(config, init);
      var c0 := Migrate(config, init).value.0;
      var sec := secs[|secs| - 1];
      var c := Migrate(config, secs).value.0;
      var s := c.fields[sec.name];
      if sec.name !in c0.fields {
        assert s == JObj(ItemsMap(sec.items));
        forall j | 0 <= j < |sec.items| ensures PyIn(sec.items[j].0, s) == Ok(true) {
          assert sec.items[j].0 in ItemsMap(sec.items).Keys;
        }
      } else {
        FillKeysSpec(c0.fields[sec.name], sec.items);
      }
      forall i | 0 <= i < |secs|
        ensures secs[i].name in c.fields && SectionComplete(c.fields[secs[i].name], secs[i].items)
      {
        if i < |init| {
          assert init[i] == secs[i];
          if secs[i].name == sec.name && sec.name in c0.fields {
            forall j | 0 <= j < |secs[i].items|
              ensures PyIn(secs[i].items[j].0, s) == Ok(true)
            {
              GrowsKeepsIn(c0.fields[sec.name], s, secs[i].items[j].0);
            }
          }
        }
      }
    }
  }

  /** The flag `needs_save` is set exactly when something was added, that
      is exactly when the input lacked a default section or key. */
  lemma {:induction false} MigrateFlag(config: Json, secs: seq<Section>)
    requires Migrate(config, secs).Ok?
    ensures var (c, changed) := Migrate(config, secs).value;
      (!changed ==> c == config) && (changed ==> !Complete(config, secs))
  {
    if secs != [] {
      var init := secs[..|secs| - 1];
      MigrateFlag(config, init);
      var (c0, ch0) := Migrate(config, init).value;
      var sec := secs[|secs| - 1];
      var (c, changed) := Migrate(config, secs).value;
      if ch0 {
        assert !Complete(config, secs) by {
          var i :| 0 <= i < |init| && !(init[i].name in config.fields &&
                   SectionComplete(config.fields[init[i].name], init[i].items));
          assert init[i] == secs[i];
        }
      } else if sec.name !in c0.fields {
        assert !Complete(config, secs);
      } else {
        FillKeysSpec(c0.fields[sec.name], sec.items);
        if !changed {
          assert c.fields == c0.fields;
        }
      }
    }
  }

  /** A complete config migrates to itself with nothing to save. */
  lemma {:induction false} MigrateComplete(config: Json, secs: seq<Section>)
    requires Complete(config, secs)
    ensures Migrate(config, secs) == Ok((config, false))
  {
    if secs != [] {
      var init := secs[..|secs| - 1];
      assert Complete(config, init) by {
        assert forall i :: 0 <= i < |init| ==> init[i] == secs[i];
      }
      MigrateComplete(config, init);
      var sec := secs[|secs| - 1];
      FillKeysComplete(config.fields[sec.name], sec.items);
      assert config.fields[sec.name := config.fields[sec.name]] == config.fields;
    }
  }

  /** Migrating a migrated config adds nothing and saves nothing, and the
      flag of the first migration says exactly whether it changed anything. */
  lemma MigrateIdempotent(config: Json, secs: seq<Section>)
    requires Migrate(config, secs).Ok?
    ensures var (c, changed) := Migrate(config, secs).value;
      Migrate(c, secs) == Ok((c, false)) && (changed <==> c != config)
  {
    MigrateCompletes(config, secs);
    MigrateFlag(config, secs);
    var (c, changed) := Migrate(config, secs).value;
    MigrateComplete(c, secs);
  }

  /** The loops of `load_config` over `DEFAULT_CONFIG`. */
  method MigrateConfig(config: Json) returns (r: Result<(Json, bool)>)
    ensures r == Migrate(config, DefaultSections())
  {
    var secs := DefaultSections();
    if !config.JObj? {
      return Raised(TypeError);
    }
    var fields := config.fields;
    var needsSave := false;
    var i := 0;
    while i < |secs|
      invariant 0 <= i <= |secs|
      invariant Migrate(config, secs[..i]) == Ok((JObj(fields), needsSave))
    {
      var sec := secs[i];
      assert secs[..i + 1][..i] == secs[..i];
      if sec.name !in fields {
        fields := fields[sec.name := JObj(ItemsMap(sec.items))];
        needsSave := true;
      } else {
        var filled := FillSection(fields[sec.name], sec.items);
        match filled {
          case Raised(e) =>
            MigrateRaisedStays(config, secs, i + 1);
            return Raised(e);
          case Ok((s, added)) =>
            fields := fields[sec.name := s];
            needsSave := needsSave || added;
        }
      }
      i := i + 1;
    }
    assert secs[..i] == secs;
    return Ok((JObj(fields), needsSave));
  }

  /** The inner loop over one section's defaults. */
  method FillSection(sec: Json, items: seq<(string, Json)>) returns (r: Result<(Json, bool)>)
    ensures r == FillKeys(sec, items)
  {
    var s := sec;
    var added := false;
    var j := 0;
    while j < |items|
      invariant 0 <= j <= |items|
      invariant FillKeys(sec, items[..j]) == Ok((s, added))
    {
      assert items[..j + 1][..j] == items[..j];
      var (key, value) := items[j];
      var present := PyIn(key, s);
      if present.Raised? {
        FillKeysRaisedStays(sec, items, j + 1);
        return Raised(present.error);
      }
      if !present.value {
        if !s.JObj? {
          FillKeysRaisedStays(sec, items, j + 1);
          return Raised(TypeError);
        }
        s := JObj(s.fields[key := value]);
        added := true;
      }
      j := j + 1;
    }
    assert items[..j] == items;
    return Ok((s, added));
  }

  lemma {:induction false} FillKeysRaisedStays(sec: Json, items: seq<(string, Json)>, n: nat)
    requires n <= |items| && FillKeys(sec, items[..n]).Raised?
    ensures FillKeys(sec, items) == FillKeys(sec, items[..n])
    decreases |items| - n
  {
    if n < |items| {
      assert items[..n + 1][..n] == items[..n];
      FillKeysRaisedStays(sec, items, n + 1);
    } else {
      assert items[..n] == items;
    }
  }

  lemma {:induction false} MigrateRaisedStays(config: Json, secs: seq<Section>, n: nat)
    requires n <= |secs| && Migrate(config, secs[..n]).Raised?
    ensures Migrate(config, secs) == Migrate(config, secs[..n])
    decreases |secs| - n
  {
    if n < |secs| {
      assert secs[..n + 1][..n] == secs[..n];
      MigrateRaisedStays(config, secs, n + 1);
    } else {
      assert secs[..n] == secs;
    }
  }

  // ---------------------------------------------------------------- the flat view

  /** A value of the flat config: copied unchanged, or `str()` of it
      (which `Str` spells out for scalars). */
  datatype FlatValue = Copied(v: Json) | StrOf(v: Json)

  /** The legacy flat keys and where `get_flat_config` finds each, in order. */
  function FlatKeys(): (r: seq<(string, string, string)>)
    ensures |r| == 20
  {
    [ ("hatch_date", "farm", "hatch_date"), ("birds_arrived_date", "farm", "birds_arrived_date"),
      ("nws_station_id", "farm", "nws_station_id"),
      ("Unitas_Username", "unitas", "username"), ("Unitas_Password", "unitas", "password"),
      ("Farm_ID", "unitas", "farm_id"), ("House_ID", "unitas", "house_id"),
      ("Cooler_Log_To_Unitas", "unitas", "cooler_log_enabled"),
      ("Cooler_Log_Initials", "unitas", "cooler_log_initials"),
      ("path_to_xmls", "xml", "path"), ("how_long_to_save_old_files", "xml", "retention_days"),
      ("retrieve_from_xml_time", "xml", "retrieve_time"),
      ("get_cooler_temp_AM", "cooler", "am_time"), ("get_cooler_temp_PM", "cooler", "pm_time"),
      ("cooler_temp_time_tolerance", "cooler", "time_tolerance"),
      ("time_zone", "system", "time_zone"), ("Timeout", "system", "timeout"),
      ("spreadsheet_id", "legacy", "spreadsheet_id"),
      ("xml_to_sheet_range_name", "legacy", "xml_to_sheet_range_name"),
      ("sheet_to_unitas_range_name", "legacy", "sheet_to_unitas_range_name") ]
  }

  /** `config[section][key]`: a missing section or key raises KeyError;
      a section that is a list or string (or scalar) cannot be indexed by a
      string and raises TypeError. */
  function Get2(config: Json, section: string, key: string): (r: Result<Json>)
    requires config.JObj?
    ensures r.Ok? <==> section in config.fields && config.fields[section].JObj? &&
                       key in config.fields[section].fields
    ensures r.Ok? ==> r.value == config.fields[section].fields[key]
  {
    if section !in config.fields then Raised(KeyError)
    else
      var s := config.fields[section];
      if !s.JObj? then Raised(TypeError)
      else if key !in s.fields then Raised(KeyError)
      else Ok(s.fields[key])
  }

  /** The assignments of `get_flat_config` in order; the first failing
      lookup raises. */
  function Flatten(config: Json, keys: seq<(string, string, string)>): (r: Result<map<string, FlatValue>>)
    requires config.JObj?
    ensures r.Raised? ==> r.error in {KeyError, TypeError}
  {
    if keys == [] then Ok(map[])
    else
      match Flatten(config, keys[..|keys| - 1])
      case Raised(e) => Raised(e)
      case Ok(flat) =>
        var (flatKey, section, key) := keys[|keys| - 1];
        match Get2(config, section, key)
        case Raised(e) => Raised(e)
        case Ok(v) => Ok(flat[flatKey := if flatKey == "Timeout" then StrOf(v) else Copied(v)])
  }

  /** Each flat key holds its section's value unchanged, `Timeout` as its
      `str()`; the flat config has exactly the listed keys. */
  lemma FlattenSpec(config: Json, keys: seq<(string, string, string)>)
    requires config.JObj? && Flatten(config, keys).Ok?
    requires forall i, j :: 0 <= i < j < |keys| ==> keys[i].0 != keys[j].0
    ensures var flat := Flatten(config, keys).value;
      flat.Keys == (set i | 0 <= i < |keys| :: keys[i].0) &&
      forall i :: 0 <= i < |keys| ==>
        Get2(config, keys[i].1, keys[i].2).Ok? &&
        flat[keys[i].0] == (if keys[i].0 == "Timeout" then StrOf(Get2(config, keys[i].1, keys[i].2).value)
                            else Copied(Get2(config, keys[i].1, keys[i].2).value))
  {
    FlattenKeys(config, keys);
    forall i | 0 <= i < |keys|
      ensures Get2(config, keys[i].1, keys[i].2).Ok?
      ensures Flatten(config, keys).value[keys[i].0] ==
        (if keys[i].0 == "Timeout" then StrOf(Get2(config, keys[i].1, keys[i].2).value)
         else Copied(Get2(config, keys[i].1, keys[i].2).value))
    {
      FlattenAt(config, keys, i);
    }
  }

  /** The flat config has exactly the listed keys. */
  lemma {:induction false} FlattenKeys(config: Json, keys: seq<(string, string, string)>)
    requires config.JObj? && Flatten(config, keys).Ok?
    ensures Flatten(config, keys).value.Keys == (set i | 0 <= i < |keys| :: keys[i].0)
  {
    if keys != [] {
      var n := |keys| - 1;
      var init := keys[..n];
      FlattenKeys(config, init);
      var prev, flat := Flatten(config, init).value, Flatten(config, keys).value;
      assert flat.Keys == prev.Keys + {keys[n].0};
      assert prev.Keys == (set i | 0 <= i < n :: keys[i].0) by {
        assert forall i :: 0 <= i < n ==> init[i] == keys[i];
      }
      forall k | k in (set i | 0 <= i < |keys| :: keys[i].0) ensures k in flat.Keys {
        var i :| 0 <= i < |keys| && keys[i].0 == k;
        if i < n { assert k in prev.Keys; }
      }
    }
  }

  /** The `i`th flat key holds the value of its section and key; a later
      flat key of another name does not overwrite it. */
  lemma {:induction false} FlattenAt(config: Json, keys: seq<(string, string, string)>, i: nat)
    requires config.JObj? && Flatten(config, keys).Ok? && i < |keys|
    requires forall j :: i < j < |keys| ==> keys[i].0 != keys[j].0
    ensures Get2(config, keys[i].1, keys[i].2).Ok? && keys[i].0 in Flatten(config, keys).value
    ensures Flatten(config, keys).value[keys[i].0] ==
      (if keys[i].0 == "Timeout" then StrOf(Get2(config, keys[i].1, keys[i].2).value)
       else Copied(Get2(config, keys[i].1, keys[i].2).value))
  {
    var n := |keys| - 1;
    var init := keys[..n];
    if i < n {
      assert init[i] == keys[i];
      FlattenAt(config, init, i);
      assert keys[i].0 != keys[n].0;
    }
  }

  /** On a config whose default sections are all objects, as a migrated
      one whose sections are dicts, every flat lookup succeeds. */
  lemma {:induction false} FlattenDefined(config: Json, keys: seq<(string, string, string)>)
    requires config.JObj?
    requires forall i :: 0 <= i < |keys| ==> Get2(config, keys[i].1, keys[i].2).Ok?
    ensures Flatten(config, keys).Ok?
  {
    if keys != [] {
      var init := keys[..|keys| - 1];
      assert forall i :: 0 <= i < |init| ==> init[i] == keys[i];
      FlattenDefined(config, init);
    }
  }

  /** Where each flat key's section and key sit in `DEFAULT_CONFIG`. */
  lemma FlatKeysAreDefaults(i: nat)
    requires i < |FlatKeys()|
    ensures exists a, b :: (0 <= a < |DefaultSections()| && 0 <= b < |DefaultSections()[a].items| &&
                            DefaultSections()[a].name == FlatKeys()[i].1 &&
                            DefaultSections()[a].items[b].0 == FlatKeys()[i].2)
  {
    var at := [(0, 0), (0, 1), (0, 2), (1, 0), (1, 1), (1, 2), (1, 3), (1, 4), (1, 5),
               (2, 0), (2, 1), (2, 2), (3, 0), (3, 1), (3, 2), (4, 0), (4, 1), (6, 0), (6, 1), (6, 2)];
    var (a, b) := at[i];
    assert DefaultSections()[a].name == FlatKeys()[i].1 && DefaultSections()[a].items[b].0 == FlatKeys()[i].2;
  }

  /** A migrated config whose default sections are all objects yields
      the whole flat config: no lookup raises KeyError. */
  lemma MigratedFlattens(config: Json)
    requires Migrate(config, DefaultSections()).Ok?
    requires var c := Migrate(config, DefaultSections()).value.0;
      forall i :: 0 <= i < |DefaultSections()| ==>
        DefaultSections()[i].name in c.fields && c.fields[DefaultSections()[i].name].JObj?
    ensures Flatten(Migrate(config, DefaultSections()).value.0, FlatKeys()).Ok?
  {
    var c := Migrate(config, DefaultSections()).value.0;
    var secs := DefaultSections();
    MigrateCompletes(config, secs);
    forall i | 0 <= i < |FlatKeys()| ensures Get2(c, FlatKeys()[i].1, FlatKeys()[i].2).Ok? {
      FlatKeysAreDefaults(i);
      var a, b :| 0 <= a < |secs| && 0 <= b < |secs[a].items| &&
        secs[a].name == FlatKeys()[i].1 && secs[a].items[b].0 == FlatKeys()[i].2;
      assert PyIn(secs[a].items[b].0, c.fields[secs[a].name]) == Ok(true);
    }
    FlattenDefined(c, FlatKeys());
  }

  /** `str(30)` of the default timeout is `"30"`. */
  lemma DefaultTimeoutText(reprFloat: real -> string)
    ensures Str(JInt(30), reprFloat) == "30"
  {
    assert DigitChar(3) == '3' && DigitChar(0) == '0';
    assert NatToString(3) == ['3'];
    assert NatToString(30) == NatToString(3) + [DigitChar(0)];
    assert IntToString(30) == "30";
  }

  // ---------------------------------------------------------------- the file

  /** The contents of `config.json`: text `json.loads` rejects, or a document. */
  datatype ConfigFile = Malformed | Doc(doc: Json)

  /** `~/.datalogger/config.json`; `None` while it does not exist. */
  class ConfigStore {
    var file: Option<ConfigFile>

    constructor (file: Option<ConfigFile>)
      ensures this.file == file
    {
      this.file := file;
    }

    /** `ensure_config_exists()`: writes the defaults when there is no file. */
    method EnsureConfigExists() returns (existed: bool)
      modifies this
      ensures existed == old(file).Some?
      ensures file == if existed then old(file) else Some(Doc(DefaultDoc()))
    {
      if file.None? {
        file := Some(Doc(DefaultDoc()));
        return false;
      }
      return true;
    }

    /** `save_config(config)`. */
    method SaveConfig(config: Json)
      modifies this
      ensures file == Some(Doc(config))
    {
      file := Some(Doc(config));
    }

    /** `load_config()`: RuntimeError on the first run and on text that is
        not JSON; otherwise the migrated config, written back only when
        the migration added something. */
    method LoadConfig() returns (r: Result<Json>)
      modifies this
      ensures old(file).None? ==> r == Raised(RuntimeError) && file == Some(Doc(DefaultDoc()))
      ensures old(file) == Some(Malformed) ==> r == Raised(RuntimeError) && file == old(file)
      ensures old(file).Some? && old(file).value.Doc? ==>
        var m := Migrate(old(file).value.doc, DefaultSections());
        (m.Raised? ==> r == Raised(m.error) && file == old(file)) &&
        (m.Ok? ==> r == Ok(m.value.0) && file == (if m.value.1 then Some(Doc(m.value.0)) else old(file)))
    {
      var existed := EnsureConfigExists();
      if !existed {
        return Raised(RuntimeError);
      }
      match file.value {
        case Malformed =>
          return Raised(RuntimeError);
        case Doc(doc) =>
          var m := MigrateConfig(doc);
          match m {
            case Raised(e) =>
              return Raised(e);
            case Ok((config, needsSave)) =>
              if needsSave {
                SaveConfig(config);
              }
              return Ok(config);
          }
      }
    }

    /** `get_flat_config()`. */
    method GetFlatConfig() returns (r: Result<map<string, FlatValue>>)
      modifies this
      ensures old(file).None? || old(file) == Some(Malformed) ==> r == Raised(RuntimeError)
      ensures old(file).Some? && old(file).value.Doc? ==>
        var m := Migrate(old(file).value.doc, DefaultSections());
        (m.Raised? ==> r == Raised(m.error)) &&
        (m.Ok? ==> r == Flatten(m.value.0, FlatKeys()))
    {
      var config := LoadConfig();
      match config {
        case Raised(e) =>
          return Raised(e);
        case Ok(c) =>
          r := Flatten(c, FlatKeys());
      }
    }
  }
}
