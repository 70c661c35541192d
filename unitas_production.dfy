/** `unitas_production.py` without the browser: the keyword arguments
    `trigger_fill_production_form` derives from the day's two log rows,
    the fields `fill_production_form` fills from them, and the
    success/failure bookkeeping of `run_unitas_stuff`. */
module UnitasProduction {
  import opened Common
  import opened JsonValue
  import opened FormFill
  import opened Database

  /** `dict(row)` of a row of a table with the given columns besides `id`:
      every column, NULL where the row has no value. */
  function RowDict(row: Option<Row>, columns: seq<string>): (d: Record)
    ensures row.None? ==> d == map[]
    ensures row.Some? ==> d.Keys == (set c | c in columns) + {"id"} && d["id"] == JInt(row.value.id)
    ensures row.Some? ==> forall c :: c in columns && c != "id" ==> d[c] == Cell(row.value, c)
  {
    if row.None? then map[]
    else (map c | c in columns :: Cell(row.value, c))["id" := JInt(row.value.id)]
  }

  /** `{**bot_data, **user_data}`: every key of either, the user's value
      where both have one. */
  function Merge(bot: Record, user: Record): (m: Record)
    ensures m.Keys == bot.Keys + user.Keys
    ensures forall k :: k in user ==> m[k] == user[k]
    ensures forall k :: k in bot && k !in user ==> m[k] == bot[k]
  {
    bot + user
  }

  lemma SplitHasTwoFields(s: string, sep: char)
    requires sep in s
    ensures |Split(s, sep)| >= 2
  {
    FindSepSpec(s, sep);
    assert s[..|s|] == s;
  }

  /** `split_hh_mm(timestr)`: the first two colon fields, each zero-filled
      to two characters; `('', '')` for a falsy value, a non-string, or
      text without a colon. */
  function SplitHhMm(v: Json): (r: (string, string))
    ensures !v.JStr? || ':' !in v.s ==> r == ("", "")
  {
    if !Truthy(v) || !v.JStr? || ':' !in v.s then ("", "")
    else
      var parts := Split(v.s, ':');
      SplitHasTwoFields(v.s, ':');
      (Zfill(parts[0], 2), Zfill(parts[1], 2))
  }

  /** `"HH:MM"` and `"HH:MM:SS"` both give their hours and minutes, each
      zero-filled to two characters. */
  lemma SplitHhMmOf(hh: string, mm: string, rest: string)
    requires ':' !in hh && ':' !in mm
    ensures SplitHhMm(JStr(hh + ":" + mm)) == (Zfill(hh, 2), Zfill(mm, 2))
    ensures SplitHhMm(JStr(hh + ":" + mm + ":" + rest)) == (Zfill(hh, 2), Zfill(mm, 2))
  {
    var s := hh + ":" + mm;
    assert s == hh + [':'] + mm;
    assert s[|hh|] == ':';
    SplitOneSeparator(hh, mm, ':');
    var t := hh + ":" + mm + ":" + rest;
    assert t == hh + [':'] + (mm + [':'] + rest);
    assert t[|hh|] == ':';
    SplitCons(hh, mm + [':'] + rest, ':');
    SplitCons(mm, rest, ':');
  }

  /** `'Yes'` when the door-open or door-closed time is missing or falsy. */
  function BirdsRestricted(merged: Record): (r: string)
    ensures r == "Yes" <==> !(("door_open" in merged && Truthy(merged["door_open"])) &&
                              ("door_closed" in merged && Truthy(merged["door_closed"])))
    ensures r == "Yes" || r == "No"
  {
    var doorOpen := Get(merged, "door_open", JStr(""));
    var doorClose := Get(merged, "door_closed", JStr(""));
    if !Truthy(doorOpen) || !Truthy(doorClose) then "Yes" else "No"
  }

  /** The parameters of `fill_production_form`, in order. The clock fields
      are always text: they come from `split_hh_mm`. */
  datatype ProductionForm = ProductionForm(
    mortalityIndoor: Json, mortalityOutdoor: Json, euthanizedIndoor: Json, euthanizedOutdoor: Json,
    depopNumber: Json, cullReason: Json, mortalityReason: Json, mortalityComments: Json,
    totalEggs: Json, floorEggs: Json, nutritionist: Json, rationUsed: Json,
    feedConsumption: Json, rationDelivered: Json, amountDelivered: Json,
    lightsOnHh: string, lightsOnMm: string, lightsOffHh: string, lightsOffMm: string,
    addedSupplements: Json, waterConsumption: Json, bodyWeight: Json, caseWeight: Json, yolkColor: Json,
    doorOpenHh: string, doorOpenMm: string, doorCloseHh: string, doorCloseMm: string,
    birdsRestricted: Json, birdsRestrictedReason: Json,
    insideHigh: Json, insideLow: Json, outsideHigh: Json, outsideLow: Json,
    airSensory: Json, weatherConditions: Json, outsideDrinkersClean: Json, birdsFoundUnderSlats: Json,
    safeEnvironmentIndoors: Json, safeEnvironmentOutdoors: Json, equipmentFunctioning: Json,
    predatorActivity: Json, comment: Json)

  /** The arguments `trigger_fill_production_form` passes, with
      `reasonDefault` standing for the default of the cull and mortality
      reasons when neither row has them. */
  function ProductionArgs(bot: Record, user: Record, reasonDefault: Json): ProductionForm {
    var merged := Merge(bot, user);
    var (lightsOnHh, lightsOnMm) := SplitHhMm(Get(bot, "lights_on", JStr("")));
    var (lightsOffHh, lightsOffMm) := SplitHhMm(Get(bot, "lights_off", JStr("")));
    var (doorOpenHh, doorOpenMm) := SplitHhMm(Get(merged, "door_open", JStr("")));
    var (doorCloseHh, doorCloseMm) := SplitHhMm(Get(merged, "door_closed", JStr("")));
    ProductionForm(
      Get(merged, "mortality_indoor", JStr("0")), Get(merged, "mortality_outdoor", JStr("0")),
      Get(merged, "euthanized_indoor", JStr("0")), Get(merged, "euthanized_outdoor", JStr("0")),
      Get(merged, "depop", JStr("")), Get(merged, "cull_reasons", reasonDefault),
      Get(merged, "mortality_reasons", reasonDefault), Get(merged, "mortality_comments", JStr("")),
      Get(merged, "total_eggs", JStr("")), Get(merged, "floor_eggs", JStr("")), JStr(""),
      Get(merged, "ration", JStr("")),
      Get(bot, "feed_consumption", JStr("")), Get(bot, "ration_delivered", JStr("")),
      Get(merged, "amount_delivered", JStr("")),
      lightsOnHh, lightsOnMm, lightsOffHh, lightsOffMm,
      Get(merged, "added_supplements", JStr("")), Get(bot, "water_consumption", JStr("")),
      Get(bot, "body_weight", JStr("")), JStr(""), JStr(""),
      doorOpenHh, doorOpenMm, doorCloseHh, doorCloseMm,
      JStr(BirdsRestricted(merged)), Get(merged, "birds_restricted_reason", JStr("")),
      Get(bot, "inside_high_temp", JStr("")), Get(bot, "inside_low_temp", JStr("")),
      Get(bot, "outside_high_temp", JStr("")), Get(bot, "outside_low_temp", JStr("")),
      Get(merged, "air_sensory", JStr("")), Get(merged, "weather", JStr("")),
      Get(merged, "drinkers_clean", JStr("")), Get(merged, "birds_under_slats", JStr("")),
      Get(merged, "safe_indoors", JStr("")), Get(merged, "safe_outdoors", JStr("")),
      Get(merged, "equipment_functioning", JStr("")), Get(merged, "predator_activity", JStr("")),
      Get(merged, "comments", JStr("")))
  }

  /** `trigger_fill_production_form`: the fill's arguments from the day's
      bot and user logs. As written, the reasons default to `None`. */
  function TriggerFillProductionForm(bot: Record, user: Record): (a: ProductionForm)
    ensures a.cullReason == Get(Merge(bot, user), "cull_reasons", JNull)
    ensures a.mortalityReason == Get(Merge(bot, user), "mortality_reasons", JNull)
  {
    ProductionArgs(bot, user, JNull)
  }

  /** `trigger_fill_production_form` corrected: the reasons default to
      `""`, the value `fill_production_form` and the multiselect helper
      treat as "nothing to select". */
  function TriggerFillProductionFormCorrected(bot: Record, user: Record): (a: ProductionForm)
    ensures a.cullReason == Get(Merge(bot, user), "cull_reasons", JStr(""))
    ensures a.mortalityReason == Get(Merge(bot, user), "mortality_reasons", JStr(""))
  {
    ProductionArgs(bot, user, JStr(""))
  }

  /** Lights, feed, water, body weight and the temperatures come from the
      bot row alone: no user row changes them, even one with the same
      columns. */
  lemma BotValuesOnly(bot: Record, user: Record, user2: Record)
    ensures var a, b := TriggerFillProductionForm(bot, user), TriggerFillProductionForm(bot, user2);
      a.lightsOnHh == b.lightsOnHh && a.lightsOnMm == b.lightsOnMm &&
      a.lightsOffHh == b.lightsOffHh && a.lightsOffMm == b.lightsOffMm &&
      a.feedConsumption == b.feedConsumption && a.rationDelivered == b.rationDelivered &&
      a.waterConsumption == b.waterConsumption && a.bodyWeight == b.bodyWeight &&
      a.insideHigh == b.insideHigh && a.insideLow == b.insideLow &&
      a.outsideHigh == b.outsideHigh && a.outsideLow == b.outsideLow
    ensures var a := TriggerFillProductionForm(bot, user);
      a.feedConsumption == Get(bot, "feed_consumption", JStr("")) &&
      a.insideHigh == Get(bot, "inside_high_temp", JStr("")) &&
      (a.lightsOnHh, a.lightsOnMm) == SplitHhMm(Get(bot, "lights_on", JStr("")))
  {
  }

  /** A column of the user row wins over the bot row's, even when it is
      NULL: a user row with no door-open time restricts the birds whatever
      the bot recorded. */
  lemma UserValuesWin(bot: Record, user: Record)
    requires "door_open" in user && "mortality_indoor" in user
    ensures var a := TriggerFillProductionForm(bot, user);
      a.mortalityIndoor == user["mortality_indoor"] &&
      (a.doorOpenHh, a.doorOpenMm) == SplitHhMm(user["door_open"])
    ensures user["door_open"] == JNull ==>
      TriggerFillProductionForm(bot, user).birdsRestricted == JStr("Yes") &&
      TriggerFillProductionForm(bot, user).doorOpenHh == ""
  {
  }

  /** Mortality and euthanized counts absent from both rows are `'0'`. */
  lemma MortalityDefaults(bot: Record, user: Record)
    requires "mortality_indoor" !in bot && "mortality_indoor" !in user
    requires "euthanized_outdoor" !in bot && "euthanized_outdoor" !in user
    ensures TriggerFillProductionForm(bot, user).mortalityIndoor == JStr("0")
    ensures TriggerFillProductionForm(bot, user).euthanizedOutdoor == JStr("0")
  {
  }

  // ---------------------------------------------------------------- the form

  /** `v or "0"`. */
  function OrZero(v: Json): (r: Json)
    ensures Truthy(v) ==> r == v
    ensures !Truthy(v) ==> r == JStr("0")
  {
    if Truthy(v) then v else JStr("0")
  }

  /** The calls `fill_production_form` makes, in order, in groups: the
      counts, the depopulation number and the reasons, feed, the light
      clocks, supplements and weights, the door clocks, and the
      observations. */
  function ProductionSteps(a: ProductionForm): (steps: seq<Step>)
    ensures |steps| == 43
  {
    MortalitySteps(a) + Rest(a)
  }

  /** The form after the mortality counts. */
  function Rest(a: ProductionForm): (steps: seq<Step>)
    ensures |steps| == 39
  {
    ReasonSteps(a) + FeedSteps(a) + LightSteps(a) + SupplementSteps(a) + DoorSteps(a) + ObservationSteps(a)
  }

  function MortalitySteps(a: ProductionForm): (steps: seq<Step>)
    ensures |steps| == 4
  {
    [ Input("V33-H1", OrZero(a.mortalityIndoor)),
      Input("V35-H1", OrZero(a.mortalityOutdoor)),
      Input("V34-H1", OrZero(a.euthanizedIndoor)),
      Input("V36-H1", OrZero(a.euthanizedOutdoor)) ]
  }

  function ReasonSteps(a: ProductionForm): (steps: seq<Step>)
    ensures |steps| == 3
  {
    [ Input("V101-H1", a.depopNumber),
      Multiselect("V60-H1", a.cullReason),
      Multiselect("V50-H1", a.mortalityReason) ]
  }

  function FeedSteps(a: ProductionForm): (steps: seq<Step>)
    ensures |steps| == 8
  {
    [ Input("V81-H1", a.mortalityComments),
      Input("V4-H1", a.totalEggs),
      Input("V1-H1", a.floorEggs),
      Input("V32-H1", a.nutritionist),
      Input("V31-H1", a.rationUsed),
      Input("V39-H1", a.feedConsumption),
      Input("V70-H1", a.rationDelivered),
      Input("V23-H1", a.amountDelivered) ]
  }

  function LightSteps(a: ProductionForm): (steps: seq<Step>)
    ensures |steps| == 4
  {
    [ Clock("input-hour", "V99-H1", JStr(a.lightsOnHh)),
      Clock("input-minute", "V99-H1", JStr(a.lightsOnMm)),
      Clock("input-hour", "V100-H1", JStr(a.lightsOffHh)),
      Clock("input-minute", "V100-H1", JStr(a.lightsOffMm)) ]
  }

  function SupplementSteps(a: ProductionForm): (steps: seq<Step>)
    ensures |steps| == 5
  {
    [ Input("V25-H1", a.addedSupplements),
      Input("V27-H1", a.waterConsumption),
      Input("V37-H1", a.bodyWeight),
      Input("V11-H1", a.caseWeight),
      Input("V98-H1", a.yolkColor) ]
  }

  function DoorSteps(a: ProductionForm): (steps: seq<Step>)
    ensures |steps| == 4
  {
    [ Clock("input-hour", "V78-H1", JStr(a.doorOpenHh)),
      Clock("input-minute", "V78-H1", JStr(a.doorOpenMm)),
      Clock("input-hour", "V79-H1", JStr(a.doorCloseHh)),
      Clock("input-minute", "V79-H1", JStr(a.doorCloseMm)) ]
  }

  function ObservationSteps(a: ProductionForm): (steps: seq<Step>)
    ensures |steps| == 15
  {
    [ Input("V92-H1", a.birdsRestricted),
      Input("V97-H1", a.birdsRestrictedReason),
      Input("V28-H1", a.insideHigh),
      Input("V29-H1", a.insideLow),
      Input("V72-H1", a.outsideHigh),
      Input("V71-H1", a.outsideLow),
      Input("V89-H1", a.airSensory),
      Input("V90-H1", a.weatherConditions),
      Input("V95-H1", a.outsideDrinkersClean),
      Input("V77-H1", a.birdsFoundUnderSlats),
      Input("V93-H1", a.safeEnvironmentIndoors),
      Input("V94-H1", a.safeEnvironmentOutdoors),
      Input("V91-H1", a.equipmentFunctioning),
      Input("V88-H1", a.predatorActivity),
      Input("Comment-H1", a.comment) ]
  }

  /** Steps that only type into inputs never raise. */
  lemma InputsAvoid(steps: seq<Step>, e: PyError)
    requires forall i :: 0 <= i < |steps| ==> steps[i].Input?
    ensures Avoids(steps, e)
  {
  }

  /** Clock steps on text raise only ValueError. */
  lemma ClocksAvoidTypeError(steps: seq<Step>)
    requires forall i :: 0 <= i < |steps| ==> steps[i].Clock? && steps[i].time.JStr?
    ensures Avoids(steps, TypeError)
  {
  }

  /** The fields `fill_production_form` fills, and the error it stops at. */
  function FillProductionForm(a: ProductionForm): (r: (seq<Fill>, Option<PyError>))
    ensures |r.0| <= 43
  {
    RunSteps(ProductionSteps(a))
  }

  /** The four mortality and euthanized counts are filled first, never
      blank: a falsy count is sent as `"0"`. */
  lemma MortalityFilledFirst(a: ProductionForm)
    ensures var fills := FillProductionForm(a).0;
      |fills| >= 4 &&
      fills[..4] == [Typed("V33-H1", OrZero(a.mortalityIndoor)), Typed("V35-H1", OrZero(a.mortalityOutdoor)),
                     Typed("V34-H1", OrZero(a.euthanizedIndoor)), Typed("V36-H1", OrZero(a.euthanizedOutdoor))]
  {
    var steps := MortalitySteps(a);
    var fills := [Typed("V33-H1", OrZero(a.mortalityIndoor)), Typed("V35-H1", OrZero(a.mortalityOutdoor)),
                  Typed("V34-H1", OrZero(a.euthanizedIndoor)), Typed("V36-H1", OrZero(a.euthanizedOutdoor))];
    RunStepsAllFill(steps, fills);
    RunStepsAppend(steps, Rest(a));
    assert (fills + RunSteps(Rest(a)).0)[..4] == fills;
  }

  /** A door-open hour that is not a number stops the fill with
      ValueError, unless an earlier field has already stopped it. */
  lemma BadClockStops(a: ProductionForm)
    requires ParseInt(a.doorOpenHh).None? && Strip(a.doorOpenHh) != ""
    ensures FillProductionForm(a).1.Some?
  {
    var steps := ProductionSteps(a);
    assert steps[24] == Clock("input-hour", "V78-H1", JStr(a.doorOpenHh));
    RunStepsPrefixSnoc(steps, 24);
    RunStepsPrefixRaised(steps, 25);
  }

  /** A cull reason of `None` stops the fill at the cull-reason box with
      TypeError (`for item in None`): nothing after it is filled. */
  lemma NullReasonRaises(a: ProductionForm)
    requires a.cullReason == JNull
    ensures FillProductionForm(a).1 == Some(TypeError) && |FillProductionForm(a).0| <= 5
  {
    var steps := ProductionSteps(a);
    assert steps[5] == Multiselect("V60-H1", JNull);
    RunStepsCompletes(steps[..5]);
    RunStepsPrefixSnoc(steps, 5);
    RunStepsPrefixRaised(steps, 6);
  }

  /** As written, a day with no user row and no reasons in the bot row
      raises TypeError in the form fill, so its upload fails. */
  lemma MissingReasonsRaiseAsWritten(bot: Record)
    requires "cull_reasons" !in bot
    ensures var r := FillProductionForm(TriggerFillProductionForm(bot, map[]));
      r.1 == Some(TypeError) && |r.0| <= 5
  {
    NullReasonRaises(TriggerFillProductionForm(bot, map[]));
  }

  /** When both reasons are text, a fill never raises TypeError. */
  lemma TextReasonsNoTypeError(a: ProductionForm)
    requires a.cullReason.JStr? && a.mortalityReason.JStr?
    ensures FillProductionForm(a).1 != Some(TypeError)
  {
    var s1 := MortalitySteps(a);
    var s2 := ReasonSteps(a);
    var s3 := FeedSteps(a);
    var s4 := LightSteps(a);
    var s5 := SupplementSteps(a);
    var s6 := DoorSteps(a);
    var s7 := ObservationSteps(a);
    InputsAvoid(s1, TypeError);
    assert StepFill(s2[1]).Ok? && StepFill(s2[2]).Ok?;
    assert Avoids(s2, TypeError);
    InputsAvoid(s3, TypeError);
    ClocksAvoidTypeError(s4);
    InputsAvoid(s5, TypeError);
    ClocksAvoidTypeError(s6);
    InputsAvoid(s7, TypeError);
    AvoidsAppend(s2, s3, TypeError);
    AvoidsAppend(s2 + s3, s4, TypeError);
    AvoidsAppend(s2 + s3 + s4, s5, TypeError);
    AvoidsAppend(s2 + s3 + s4 + s5, s6, TypeError);
    AvoidsAppend(s2 + s3 + s4 + s5 + s6, s7, TypeError);
    AvoidsAppend(s1, Rest(a), TypeError);
    RunStepsErrorFromStep(ProductionSteps(a), TypeError);
  }

  /** With the reasons defaulting to `""`, the day of the as-written
      failure fills without TypeError. */
  lemma MissingReasonsSkipped(bot: Record)
    requires "cull_reasons" !in bot && "mortality_reasons" !in bot
    ensures FillProductionForm(TriggerFillProductionFormCorrected(bot, map[])).1 != Some(TypeError)
  {
    TextReasonsNoTypeError(TriggerFillProductionFormCorrected(bot, map[]));
  }

  /** As written, every date whose bot row exists but whose user row does
      not fails its upload: the bot table has no reasons column. */
  lemma NoUserRowFailsAsWritten(botRow: Row)
    ensures var r := FillProductionForm(TriggerFillProductionForm(RowDict(Some(botRow), BotLogParams()), RowDict(None, UserLogParams())));
      r.1 == Some(TypeError)
  {
    var bot := RowDict(Some(botRow), BotLogParams());
    BotLogHasNoReasons();
    assert "cull_reasons" !in bot;
    assert RowDict(None, UserLogParams()) == map[];
    MissingReasonsRaiseAsWritten(bot);
  }

  lemma BotLogHasNoReasons()
    ensures "cull_reasons" !in BotLogParams()
  {
  }

  // ---------------------------------------------------------------- uploads

  /** The dates `run_unitas_stuff` works through: the given one, or the
      pending ones. */
  function DatesToUpload(targetDate: Option<string>, pending: seq<string>): (dates: seq<string>)
    ensures targetDate.Some? ==> dates == [targetDate.value]
    ensures targetDate.None? ==> dates == pending
  {
    if targetDate.Some? then [targetDate.value] else pending
  }

  /** Whether the upload of the `i`th date completes: the browser steps
      around the fill (`browserOk`) succeed and the fill of the date's bot
      and user logs (`{}` when missing) raises nothing. */
  function Completed(dates: seq<string>, botLog: string -> Record, userLog: string -> Record,
                     browserOk: nat -> bool): nat -> bool {
    (i: nat) => i < |dates| && browserOk(i) && FillSucceeds(botLog(dates[i]), userLog(dates[i]))
  }

  /** The dates whose upload completed and those whose upload raised, each
      in input order. */
  function Partition(dates: seq<string>, completed: nat -> bool): (r: (seq<string>, seq<string>))
    ensures |r.0| + |r.1| == |dates|
  {
    if dates == [] then ([], [])
    else
      var n := |dates| - 1;
      var (ok, failed) := Partition(dates[..n], completed);
      if completed(n) then (ok + [dates[n]], failed) else (ok, failed + [dates[n]])
  }

  /** Every date is reported, as successful exactly when its upload
      completed. */
  lemma {:induction false} PartitionPlaces(dates: seq<string>, completed: nat -> bool, i: nat)
    requires i < |dates|
    ensures completed(i) ==> dates[i] in Partition(dates, completed).0
    ensures !completed(i) ==> dates[i] in Partition(dates, completed).1
  {
    var n := |dates| - 1;
    if i < n {
      PartitionPlaces(dates[..n], completed, i);
      assert dates[..n][i] == dates[i];
    }
  }

  /** The two lists together hold each date as often as the input does. */
  lemma {:induction false} PartitionMultiset(dates: seq<string>, completed: nat -> bool)
    ensures multiset(Partition(dates, completed).0) + multiset(Partition(dates, completed).1) == multiset(dates)
  {
    if dates != [] {
      var n := |dates| - 1;
      PartitionMultiset(dates[..n], completed);
      assert dates == dates[..n] + [dates[n]];
    }
  }

  /** The bookkeeping one date further. */
  lemma PartitionStep(dates: seq<string>, completed: nat -> bool, i: nat)
    requires i < |dates|
    ensures var (ok, failed) := Partition(dates[..i], completed);
      Partition(dates[..i + 1], completed) ==
        if completed(i) then (ok + [dates[i]], failed) else (ok, failed + [dates[i]])
  {
    assert dates[..i + 1][..i] == dates[..i];
  }

  /** Whether the fill of one date's logs raises nothing. */
  function FillSucceeds(bot: Record, user: Record): bool {
    FillProductionForm(TriggerFillProductionForm(bot, user)).1.None?
  }

  /** `run_unitas_stuff(target_date)`: `None` when there is nothing to
      upload (no browser is started); otherwise the successful and the
      failed dates. */
  method RunUnitasStuff(targetDate: Option<string>, pending: seq<string>,
                        botLog: string -> Record, userLog: string -> Record, browserOk: nat -> bool)
    returns (r: Option<(seq<string>, seq<string>)>)
    ensures r.None? <==> targetDate.None? && pending == []
    ensures r.Some? ==> r.value == Partition(DatesToUpload(targetDate, pending),
                                             Completed(DatesToUpload(targetDate, pending), botLog, userLog, browserOk))
  {
    var datesToUpload := DatesToUpload(targetDate, pending);
    if targetDate.None? && datesToUpload == [] {
      return None;
    }
    var successfulUploads, failedUploads := UploadDates(datesToUpload, Completed(datesToUpload, botLog, userLog, browserOk));
    return Some((successfulUploads, failedUploads));
  }

  /** As written, a date whose bot row exists but whose user row does not
      is reported among the failed uploads, whatever the browser does. */
  lemma NoUserRowReportedFailed(dates: seq<string>, i: nat, botRow: Row,
                                botLog: string -> Record, userLog: string -> Record, browserOk: nat -> bool)
    requires i < |dates|
    requires botLog(dates[i]) == RowDict(Some(botRow), BotLogParams()) && userLog(dates[i]) == RowDict(None, UserLogParams())
    ensures dates[i] in Partition(dates, Completed(dates, botLog, userLog, browserOk)).1
  {
    NoUserRowFailsAsWritten(botRow);
    assert !Completed(dates, botLog, userLog, browserOk)(i);
    PartitionPlaces(dates, Completed(dates, botLog, userLog, browserOk), i);
  }

  /** The loop of `run_unitas_stuff`: each date is appended to the
      successful or the failed list, as its upload completes or raises. */
  method UploadDates(datesToUpload: seq<string>, completed: nat -> bool)
    returns (successfulUploads: seq<string>, failedUploads: seq<string>)
    ensures (successfulUploads, failedUploads) == Partition(datesToUpload, completed)
  {
    successfulUploads, failedUploads := [], [];
    for i := 0 to |datesToUpload|
      invariant (successfulUploads, failedUploads) == Partition(datesToUpload[..i], completed)
    {
      PartitionStep(datesToUpload, completed, i);
      if completed(i) {
        successfulUploads := successfulUploads + [datesToUpload[i]];
      } else {
        failedUploads := failedUploads + [datesToUpload[i]];
      }
    }
    assert datesToUpload[..|datesToUpload|] == datesToUpload;
  }
}
