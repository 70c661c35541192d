# New_Data_Logger core, modelled in Dafny

The logger turns a farm-day of poultry-house controller XML dumps into a single
daily summary row: outside and inside temperature extremes, the light on/off
times, cooler readings, mortality, feed, water and weight. The row goes into a
SQLite database. Around that derivation sit several pieces:

- the scheduler's once-per-day flags and its clock-offset arithmetic;
- the bird-age formatting;
- the configuration file's default-merging migration and its flat view;
- a date-stamped run-state file;
- a deduplicating upload queue file;
- the insert payloads and day lookups of the database helper;
- the spreadsheet column numbering;
- the browser automation that fills the Unitas production and cooler-log forms.

Most source files map to one Dafny module each; the two largest are split by concern:

- `server/xml_processing.py` is eleven modules:
  - `XmlHelpers`: rounding, time fields, `float()` and the unit conversions.
  - `XmlDocs`: the documents and the folder.
  - `TimeSort`: the stable sort by time.
  - `LightScan`: the per-file temperature and light scan.
  - `LastFile`: `everythingfromlastfile`.
  - `Extremes`: `max` and `min`.
  - `Cooler`: `getCoolerTemp`.
  - `Retention`: `deleteOldFiles`.
  - `DayResolution`: which files make up the day.
  - `DailyRecords`: the assembled daily row.
  - `XmlRun`: the folder-changing loops and `run_xml_stuff`.
- `server/unitas_manager/unitas_helper.py` is two modules:
  - `UnitasHelper`: column numbering and ranges.
  - `FormFill`: the fill helpers.
- One module each:
  - `server/jobs.py` is `Jobs`.
  - `server/helpers.py` is `Helpers`.
  - `server/config.py` is `Config`.
  - `server/runstate.py` is `RunStates`.
  - `server/upload_queue.py` is `UploadQueues`.
  - `server/database_helper.py` is `Database`.
  - `server/unitas_manager/unitas_production.py` is `UnitasProduction`.
  - `server/unitas_manager/unitas_coolerlog.py` is `UnitasCoolerlog`.
- Shared modules:
  - `Common`: Python's `strip`, `int()`, `split`, `zfill`, `%02d` and string order.
  - `JsonValue`: JSON/Python values with Python truthiness and `str()`, and database rows as dicts with `.get`.
  - `Dates`: the proleptic Gregorian ordinal, `timedelta` arithmetic and `isoformat`/`strftime`.

How each part of the source is modelled:

- **Files and I/O.** The XML folder is a sequence of named files, each either unparsable or a document of optional element texts. Moves to the corrupt-files folder and deletions update that state.
- **Step-by-step code.** Code that works step by step is kept imperative. `XmlFolder`, `Scheduler`, `ConfigStore`, `RunState`, `UploadQueue`, `Table` and `DatePicker` are classes whose methods change their fields. Their loops are proved against specification functions, and the properties are proved about those functions.
- **The browser.** It is replaced by the sequence of fields the fill helpers type, select or click. An error stops a run of fills.

## Model

| member | source | states |
|---|---|---|
| XmlHelpers.TimeToMinutes | server/xml_processing.py:281-284 | `h, m = map(int, s.split(':'))` raises ValueError unless there are exactly two integer fields |
| XmlHelpers.ClockTextMinutes | server/xml_processing.py:30 | the `HH:MM` text of a minute of the day reads back as that minute |
| XmlHelpers.RoundTo15 | server/xml_processing.py:28 | `round(total / 15) * 15` is a multiple of 15 within 7 minutes of `total` |
| XmlHelpers.RoundTo15Unique | server/xml_processing.py:28 | it is the only multiple of 15 within 7 minutes, so no tie ever needs banker's rounding |
| XmlHelpers.RoundHhmmTo15 | server/xml_processing.py:22-30 | `=NA()` passes through; other text raises exactly when it is not `h:m` |
| XmlHelpers.RoundHhmmTo15Of | server/xml_processing.py:26-30 | the result is the rounded minute count taken mod 1440, as `HH:MM` |
| XmlHelpers.RoundHhmmTo15Nearest | server/xml_processing.py:26-30 | the result is a quarter-hour of the clock that is at most 7 minutes from the input, going around midnight |
| XmlHelpers.RoundHhmmTo15Unique | server/xml_processing.py:26-30 | any quarter-hour within 7 clock minutes is the result |
| XmlHelpers.RoundHhmmTo15Idempotent | server/xml_processing.py:22-30 | rounding a rounded time changes nothing |
| XmlHelpers.RoundHhmmTo15RoundsDown | server/xml_processing.py:26-30 | `06:07` rounds to `06:00` |
| XmlHelpers.RoundHhmmTo15RoundsUp | server/xml_processing.py:26-30 | `06:08` rounds to `06:15` |
| XmlHelpers.RoundHhmmTo15WrapsAtMidnight | server/xml_processing.py:29 | `23:53` wraps to `00:00` |
| XmlHelpers.RoundHhmmTo15OfClock | server/xml_processing.py:26-30 | a two-digit `hh:mm` rounds to the quarter-hour near `h*60+m` |
| XmlHelpers.MinutesOfClock | server/xml_processing.py:283-284 | two-digit fields `hh:mm` read as `h*60+m` |
| XmlHelpers.MinutesOfFields | server/xml_processing.py:283-284 | any two integer fields read as `h*60+m` |
| XmlHelpers.GrabHrMinFrmVar | server/xml_processing.py:34-39 | raises only ValueError or IndexError |
| XmlHelpers.GrabHrMinFrmVarOfFields | server/xml_processing.py:34-39 | with at least two integer fields the result is `h*60+m`, whatever follows |
| XmlHelpers.GrabHrMinFrmVarSeconds | server/xml_processing.py:35-38 | a seconds field is ignored: `hh:mm:ss` and `hh:mm` give the same minutes |
| XmlHelpers.GrabHrMinFrmVarExample | server/xml_processing.py:34-39 | `06:00:00` and `06:00` both give 360 |
| XmlHelpers.ExtractHourMinFromFilename | server/xml_processing.py:41-46 | raises only ValueError |
| XmlHelpers.ExtractHourMinOfStamp | server/xml_processing.py:41-46 | a `YYYYMMDDhhmmss_...` name gives its hour and minute |
| XmlHelpers.ParseFloatOfInt | server/xml_processing.py:119 | `float()` of integer text is that integer |
| XmlHelpers.ParseFloatSentinel | server/xml_processing.py:119-121 | `float("-9999")` equals the sentinel -9999 |
| XmlHelpers.CToF | server/xml_processing.py:80-83 | `=NA()` passes through; otherwise `(f - 32) * 5 = c * 9` |
| XmlHelpers.CToFMonotone | server/xml_processing.py:83 | the conversion keeps order |
| XmlHelpers.KgToLb | server/xml_processing.py:85-86 | `lb = kg * 2.20462` exactly, and it is at least `kg` for a non-negative weight |
| XmlHelpers.KgToLbMonotone | server/xml_processing.py:86 | the conversion keeps order |
| XmlDocs.Lookup | server/xml_processing.py:59 | a name is found exactly when some file has it |
| XmlDocs.Remove | server/xml_processing.py:193 | removing a file keeps exactly the other files |
| XmlDocs.Quarantine | server/xml_processing.py:187-193 | the moved file leaves the folder and is stored under its name in the corrupt-files folder |
| XmlDocs.TimeAndGrowthDay | server/xml_processing.py:62-74 | `(None, None)` exactly when Time or GrowthDay is missing, `-9999`, without text or not an integer; otherwise the stripped time and the integer day |
| XmlDocs.ExtractTimeAndGrowthDay | server/xml_processing.py:48-78 | an unreadable or unparsable file gives `(None, None)`; a parsed one gives the document's pair |
| XmlDocs.ReadTemp | server/xml_processing.py:117-130 | a missing element adds nothing; the `-9999` sentinel adds nothing; a number is added; unparsable text raises |
| XmlDocs.ReadTempDropsSentinel | server/xml_processing.py:121 | a reading of `-9999` is dropped |
| TimeSort.InsertByTime | server/xml_processing.py:109 | insertion adds exactly the element |
| TimeSort.SortByTime | server/xml_processing.py:109 | `sort(key=time)` is a permutation |
| TimeSort.InsertSorted | server/xml_processing.py:109 | insertion keeps a list sorted |
| TimeSort.SortSorted | server/xml_processing.py:109 | the result is sorted by time |
| TimeSort.InsertStable | server/xml_processing.py:109 | insertion goes after the entries with the same time |
| TimeSort.SortStable | server/xml_processing.py:109 | the sort is stable: entries with equal times keep their order |
| TimeSort.WithTimeAppend | server/xml_processing.py:109 | the entries with one time distribute over concatenation |
| TimeSort.LastIsLatest | server/xml_processing.py:412-413 | the last entry after sorting has the greatest time |
| TimeSort.LastOfLatestTime | server/xml_processing.py:412-413 | it is the last-listed of the entries with that time |
| LightScan.GrabTime | server/xml_processing.py:140-148 | a document without a header time stamp gives no time |
| LightScan.ActiveValue | server/xml_processing.py:150-157 | `Active` text is read with `int()`; a missing `Active` reuses the previous value, or raises when there is none |
| LightScan.LightStepKeepsOk | server/xml_processing.py:135-178 | each light step keeps the flag and times consistent and never lowers the flag |
| LightScan.FirstFileLightOnFails | server/xml_processing.py:161-163 | a first file with the light on sets the flag to 99999 and records no time |
| LightScan.LightTurnsOn | server/xml_processing.py:166-168 | an off-to-on change records the on-time |
| LightScan.LightTurnsOff | server/xml_processing.py:171-174 | an on-to-off change records the off-time and sets the flag to 100000 |
| LightScan.LightCounterAdvances | server/xml_processing.py:177-178 | any other reading only advances the counter |
| LightScan.MissingActiveUnbound | server/xml_processing.py:155-157 | a Light without `Active` and no earlier value raises, so the file is quarantined |
| LightScan.ProcessFileKeepsLight | server/xml_processing.py:135 | once the flag is at least 99999 a file leaves the light state alone |
| LightScan.ScanKeepsLight | server/xml_processing.py:111-193 | over the whole scan the flag never decreases |
| LightScan.LightFrozen | server/xml_processing.py:135 | once the flag reaches 99999 neither time changes for the rest of the day |
| LightScan.ScanDropsSentinel | server/xml_processing.py:121-130 | no collected temperature is the sentinel |
| LightScan.ProcessFileDropsSentinel | server/xml_processing.py:117-130 | one file adds no sentinel reading |
| LightScan.FailedFileQuarantined | server/xml_processing.py:187-193 | a file whose processing raises is moved to the corrupt-files folder and the loop continues |
| LightScan.ProcessedInTimeOrder | server/xml_processing.py:102-109 | the files are processed in ascending internal time |
| LightScan.Summarize | server/xml_processing.py:195-219 | raises exactly when either temperature list is empty; otherwise high and low bound every reading and are readings; the light times are returned unchanged |
| LightScan.DoProcessingBounds | server/xml_processing.py:88-219 | the returned extremes bound every non-sentinel reading of the processed files |
| LastFile.IntField | server/xml_processing.py:228-243 | a missing element adds nothing; present text must parse with `int()` |
| LastFile.FloatField | server/xml_processing.py:246-249 | a missing element adds nothing; present text must parse with `float()` |
| LastFile.EverythingFromLastFile | server/xml_processing.py:221-257 | raises exactly when the file is not in the folder |
| LastFile.LastValuesLength | server/xml_processing.py:227-251 | one value per element present, so 0 to 4 values |
| LastFile.LastValuesOrder | server/xml_processing.py:227-251 | the order is mortality, feed, water, weight |
| LastFile.FourValuesAllPresent | server/xml_processing.py:227-251 | four values mean all four elements were present |
| Extremes.MaxOf | server/xml_processing.py:206 | `max` is a member and bounds every element |
| Extremes.MinOf | server/xml_processing.py:207 | `min` is a member and is bounded by every element |
| Extremes.ArgMinFirst | server/xml_processing.py:307 | `min` with a key picks a smallest key, the first on ties |
| Extremes.ArgMinFirstUnique | server/xml_processing.py:307 | only one position has both properties |
| Extremes.ArgMaxFirst | server/xml_processing.py:383 | the first largest key |
| Cooler.Candidates | server/xml_processing.py:296-301 | raises only ValueError, for a file time that is not `h:m`; keeps at most the given files |
| Cooler.CandidatesStep | server/xml_processing.py:298-301 | one more file is appended as a candidate exactly when its time is within the tolerance |
| Cooler.CandidatesAreCandidates | server/xml_processing.py:297-301 | every candidate is a listed file within the tolerance, with its own time and distance |
| Cooler.CandidatesCover | server/xml_processing.py:297-301 | every listed file within the tolerance is among the candidates |
| Cooler.CandidatesSpec | server/xml_processing.py:297-301 | a listed file is a candidate exactly when it has a time within the inclusive tolerance |
| Cooler.Closest | server/xml_processing.py:307 | the chosen candidate has the smallest distance, the first listed on ties |
| Cooler.NoCandidates | server/xml_processing.py:303-304 | with no file in tolerance there are no candidates, so the `=NA()` pair is returned |
| Cooler.ClosestIsCandidate | server/xml_processing.py:307 | the chosen file is a candidate from the list |
| Cooler.ReadCooler | server/xml_processing.py:309-326 | the reading comes from the chosen file's EggRoom; a missing EggRoom or Time gives the `=NA()` pair |
| Retention.Kept | server/xml_processing.py:267-272 | the sweep keeps at most the listed files |
| Retention.KeptMembers | server/xml_processing.py:268 | a file is kept exactly when it is not an `.xml` whose first 8 characters are at most the cutoff |
| Retention.DeletedCount | server/xml_processing.py:269 | deleted plus kept equals the files listed |
| Retention.Cutoff | server/xml_processing.py:265 | the cutoff is an 8-digit `YYYYMMDD` text |
| Retention.DeleteOldFiles | server/xml_processing.py:259-274 | a retention of 0 deletes nothing; deleted and kept add up to the listing; only date overflow raises |
| Retention.KeptAppend | server/xml_processing.py:267-272 | the sweep works file by file |
| Retention.DoomedByDate | server/xml_processing.py:265-268 | a file named by a date is deleted exactly when that date is on or before the cutoff day |
| DayResolution.GlobNames | server/xml_processing.py:362-363 | the candidates are the folder's names matching `prefix*.xml` |
| DayResolution.Counts | server/xml_processing.py:382 | each entry counts its value's occurrences |
| DayResolution.Mode | server/xml_processing.py:382-383 | the target growth day is one of the days found |
| DayResolution.ModeMostCommon | server/xml_processing.py:382-383 | no day is more common than the target |
| DayResolution.ModeFirstOnTies | server/xml_processing.py:382-383 | on a tie the first-encountered day wins |
| DayResolution.WithGrowthDay | server/xml_processing.py:387-392 | exactly the files with the target growth day, whatever their names |
| DayResolution.ProcessDate | server/xml_processing.py:349-357 | the prefix is 8 digits; an explicit date is kept as the readable date |
| DayResolution.ProcessDateExplicit | server/xml_processing.py:349-353 | `YYYY-MM-DD` becomes the `YYYYMMDD` prefix |
| DayResolution.TimedEntriesOfGrowthDay | server/xml_processing.py:401-405 | every file with a growth day has a time |
| DayResolution.ResolveNoData | server/xml_processing.py:365-409 | no candidates, no growth day, or no file of that day gives no result |
| DayResolution.ResolveParts | server/xml_processing.py:369-413 | a resolved day has a growth day, files and a last file |
| DayResolution.ResolvedGrowthDay | server/xml_processing.py:381-383 | the resolved growth day is the most frequent among the candidates |
| DayResolution.ResolvedFiles | server/xml_processing.py:386-392 | the processed files are all the files with that growth day |
| DayResolution.ResolvedLast | server/xml_processing.py:400-413 | the last file has the greatest internal time |
| DailyRecords.CoolerFields | server/xml_processing.py:445-451 | the `=NA()` pair stays `=NA()`; a `None` result raises TypeError |
| DailyRecords.NoCandidatesNoRun | server/xml_processing.py:365-367 | with no candidate file nothing is inserted and the folder is unchanged |
| DailyRecords.Lights | server/xml_processing.py:434-435 | both light times are rounded to a quarter hour, and either one raising stops the run |
| DailyRecords.LastFour | server/xml_processing.py:438-443 | the four values indexed are those `everythingfromlastfile` returned, at least four of them |
| DailyRecords.AssembleParts | server/xml_processing.py:430-451 | a row is built from the rounded light times, the last file's values and both cooler readings |
| DailyRecords.RecordUnits | server/xml_processing.py:437-443 | a row needs all four last-file elements present and parsed; mortality and water are stored unconverted, feed and weight in pounds |
| DailyRecords.RecordConversions | server/xml_processing.py:430-451 | feed and weight go through `kg_to_lb`; temperatures through `c_to_f`; times through quarter-hour rounding |
| XmlRun.UpdateLight | server/xml_processing.py:135-178 | the in-place light update equals the light step and keeps it consistent |
| XmlRun.ReadDoc | server/xml_processing.py:113-185 | the in-place document read equals the document step and collects no sentinel |
| XmlRun.XmlFolder.MoveToFailed | server/xml_processing.py:187-193 | the folder becomes the quarantined folder |
| XmlRun.XmlFolder.ProcessOne | server/xml_processing.py:111-193 | processing one file changes the folder and scan as the specification says |
| XmlRun.XmlFolder.DoProcessingOnAllFiles | server/xml_processing.py:88-219 | the result and the new folder are those of the specification |
| XmlRun.CollectCandidates | server/xml_processing.py:296-301 | the loop over the file names computes the candidate list, or the ValueError of the first time that does not convert |
| XmlRun.CandidateStep | server/xml_processing.py:286-301 | one pass of the body: a file without a time is skipped, a time that is not `h:m` raises ValueError, a file within the tolerance is appended with its time and distance, as the candidate list of one more file says |
| XmlRun.CandidatesTimedStep | server/xml_processing.py:298-301 | a file whose time converts is appended exactly when its distance is within the inclusive tolerance |
| XmlRun.XmlFolder.GetCoolerTemp | server/xml_processing.py:276-326 | the loop gives the specified cooler reading |
| XmlRun.XmlFolder.SweepBefore | server/xml_processing.py:264-274 | the files left are the kept ones; the count is the number removed |
| XmlRun.XmlFolder.DeleteOldFiles | server/xml_processing.py:259-274 | the folder changes exactly as the retention sweep says |
| XmlRun.XmlFolder.AssembleRecord | server/xml_processing.py:428-451 | the record is the specified assembly |
| XmlRun.XmlFolder.FilesWithTime | server/xml_processing.py:401-405 | the loop collects the timed entries |
| XmlRun.XmlFolder.CollectGrowthDays | server/xml_processing.py:371-375 | the loop collects the growth days |
| XmlRun.XmlFolder.FilesWithGrowthDay | server/xml_processing.py:388-392 | the loop collects the files with the target day |
| XmlRun.XmlFolder.ResolveDay | server/xml_processing.py:361-413 | the day resolution of the specification |
| XmlRun.XmlFolder.RunXmlStuff | server/xml_processing.py:340-451 | the result and the new folder are those of the specification |
| UnitasHelper.ColToNum | server/unitas_manager/unitas_helper.py:16-20 | the loop computes `26*num + letter` over the text |
| UnitasHelper.ColValueExamples | server/unitas_manager/unitas_helper.py:16-20 | `A` is 1, `Z` is 26, `AA` is 27 |
| UnitasHelper.ColValueUpper | server/unitas_manager/unitas_helper.py:19 | lower case gives the same number as upper case |
| UnitasHelper.ColValuePositive | server/unitas_manager/unitas_helper.py:16-20 | the empty text is 0; a non-empty one is at least 1 |
| UnitasHelper.NumToColValue | server/unitas_manager/unitas_helper.py:16-20 | every number is some column's value |
| UnitasHelper.ColValueNumToCol | server/unitas_manager/unitas_helper.py:16-20 | every column is the inverse of its value |
| UnitasHelper.ColValueInjective | server/unitas_manager/unitas_helper.py:16-20 | distinct columns have distinct numbers |
| UnitasHelper.CountColumnsInRange | server/unitas_manager/unitas_helper.py:22-27 | raises ValueError exactly when there is no `!COLrow:COLrow` match |
| UnitasHelper.NoBangNoRange | server/unitas_manager/unitas_helper.py:24-25 | text without `!` raises ValueError |
| UnitasHelper.MatchOfParts | server/unitas_manager/unitas_helper.py:23 | `!COLrow:COLrow` matches with the two column letter runs |
| UnitasHelper.SearchSkips | server/unitas_manager/unitas_helper.py:23 | the sheet name before the `!` is skipped by the search |
| UnitasHelper.RangeOfParts | server/unitas_manager/unitas_helper.py:22-27 | a range gives `end - start + 1` columns |
| UnitasHelper.CountOfMatch | server/unitas_manager/unitas_helper.py:26-27 | the count follows the first match |
| UnitasHelper.SendToBotRange | server/unitas_manager/unitas_helper.py:22-27 | `Send_To_Bot!D3:AU3` gives 44 |
| Jobs.ScheduleOffset | server/jobs.py:39-44 | raises only ValueError or OverflowError; otherwise five characters `HH:MM` |
| Jobs.ScheduleOffsetMinutes | server/jobs.py:39-44 | the result's minute of the day is `(h*60+m+offset) mod 1440` |
| Jobs.ScheduleOffsetDefined | server/jobs.py:39-44 | a valid time within the calendar always gives a result |
| Jobs.ScheduleOffsetWraps | server/jobs.py:41-44 | `23:50` plus 15 is `00:05` |
| Jobs.ScheduleOffsetSeconds | server/jobs.py:39-40 | a base time with seconds raises ValueError |
| Jobs.ScheduleOffsetDefaultRaises | server/jobs.py:39-40 | the default `00:15:00` raises |
| Jobs.CallsSinceResetAppend | server/jobs.py:6-24 | calls after the last reset add up |
| Jobs.XmlJobCalls | server/jobs.py:13-24 | the XML job neither resets nor uploads |
| Jobs.XmlJobCallsCount | server/jobs.py:18 | it runs the XML processing once |
| Jobs.Scheduler.ResetFlags | server/jobs.py:6-11 | both flags become False |
| Jobs.CheckboxTicked | server/jobs.py:30-31 | the first cell read, upper-cased, is `TRUE`; an empty read raises IndexError |
| Jobs.Scheduler.XmlToSheetJob | server/jobs.py:13-24 | works only when not yet completed and LogToUnitas is unset; a raising call stops it with its flag still False, so it tries again; otherwise the flag is set, so it completes at most once between resets |
| Jobs.Scheduler.CoolerlogUnitas | server/jobs.py:1-3 | runs the cooler log when enabled and leaves the flags alone |
| Jobs.Scheduler.CheckAndRunUnitas | server/jobs.py:26-36 | polls only after the XML job completed and before the upload, without LogToSheet; a failed read, an empty checkbox read or a raising upload leaves its flag False; sets it only on a TRUE checkbox whose upload returns |
| Helpers.GetHatchDate | server/helpers.py:5-16 | FileNotFoundError, ValueError or AttributeError for a missing, malformed or non-object file; ValueError for a missing or empty date; otherwise the date |
| Helpers.DaysDiff | server/helpers.py:18-25 | a count is returned exactly when yesterday exists and the hatch date is text that parses; it is yesterday's ordinal minus the hatch date's; the day before the calendar's first day raises OverflowError |
| Helpers.GetBirdAge | server/helpers.py:18-28 | a result needs a text hatch date; the day before the calendar's first day raises OverflowError |
| Helpers.BirdAgeRoundTrip | server/helpers.py:25-28 | `week.day` splits back into week and day with `0 <= day < 7` and `7*week + day` the day difference |
| Helpers.BirdAgeExamples | server/helpers.py:25-28 | 1 day is `0.1`; -2 days is `-1.5`; 14 days is `2.0` |
| Helpers.GetBirdAgeReadBack | server/helpers.py:18-28 | the returned `week.day` reads back as two integers, `0 <= day < 7`, with `7*week + day` the days from the hatch date to the day before today |
| Config.DefaultSections | server/config.py:12-60 | there are eight default sections |
| Config.PyIn | server/config.py:95-96 | `key in value` for dicts, lists and text; TypeError otherwise |
| Config.FillKeys | server/config.py:94-99 | raises only TypeError |
| Config.Migrate | server/config.py:86-104 | a non-object config raises TypeError; every error is a TypeError |
| Config.FillKeysSpec | server/config.py:94-99 | missing keys are added with their defaults; present ones are kept |
| Config.FillKeysComplete | server/config.py:94-99 | a section that already has every default key is left as it is and reports no change |
| Config.MigrateGrows | server/config.py:88-99 | nothing is overwritten; the sections are the old ones plus the defaults |
| Config.MigrateCompletes | server/config.py:88-99 | after migration every default section and key is present |
| Config.MigrateFlag | server/config.py:87-104 | `needs_save` is false only when nothing changed, and true only when something was missing |
| Config.MigrateComplete | server/config.py:86-104 | a complete config migrates to itself |
| Config.MigrateIdempotent | server/config.py:86-104 | migrating twice changes nothing the second time and does not save |
| Config.FillKeysRaisedStays | server/config.py:94-99 | once a key check raises, the rest of the section is not filled |
| Config.MigrateRaisedStays | server/config.py:86-104 | once a section raises, the rest of the migration is not done |
| Config.MigrateConfig | server/config.py:86-104 | the nested loop computes the migration |
| Config.FillSection | server/config.py:94-99 | the inner loop fills the keys |
| Config.Get2 | server/config.py:124-158 | `config[a][b]` raises KeyError or TypeError when missing |
| Config.Flatten | server/config.py:117-158 | a missing section or key raises only KeyError or TypeError |
| Config.FlattenSpec | server/config.py:124-158 | each flat key holds its value unchanged, except `Timeout`, which is `str()` of it |
| Config.FlattenKeys | server/config.py:124-158 | the flat config has exactly the listed flat keys |
| Config.FlattenAt | server/config.py:124-158 | each flat key holds the value of its section and key; a later key does not overwrite it |
| Config.FlattenDefined | server/config.py:117-158 | a migrated config flattens without error |
| Config.FlatKeysAreDefaults | server/config.py:124-158 | every flat key names a default section and key |
| Config.MigratedFlattens | server/config.py:117-158 | a migrated config always flattens |
| Config.DefaultTimeoutText | server/config.py:140 | the default timeout 30 becomes `"30"` |
| Config.ConfigStore.EnsureConfigExists | server/config.py:63-72 | on first run the defaults are written and False is returned |
| Config.ConfigStore.SaveConfig | server/config.py:111-114 | the file holds the config |
| Config.ConfigStore.LoadConfig | server/config.py:75-108 | RuntimeError on first run or a malformed file; otherwise the migrated config, saved only if changed |
| Config.ConfigStore.GetFlatConfig | server/config.py:117-158 | the flat view of the loaded config |
| RunStates.RunState.MakeSureExists | server/runstate.py:13-15 | writes `{}` only when the file is absent |
| RunStates.RunState.LoadData | server/runstate.py:17-26 | True exactly when the key holds today's ISO date; a missing or bad file raises |
| RunStates.RunState.SaveData | server/runstate.py:28-38 | stamps the key with today and keeps every other key |
| RunStates.IsoFormatInjective | server/runstate.py:21-23 | different dates have different ISO texts |
| RunStates.LoadDataOtherDay | server/runstate.py:23-26 | a key stamped on another day loads as False |
| RunStates.SaveThenLoad | server/runstate.py:17-38 | after saving, the key loads as True and other keys are unchanged |
| UploadQueues.QueuedMembers | server/upload_queue.py:62-73 | the queued dates are the stripped non-blank lines |
| UploadQueues.QueuedAppend | server/upload_queue.py:62-73 | reading distributes over appended lines |
| UploadQueues.QueuedOfQueued | server/upload_queue.py:62-73 | queued dates read back unchanged |
| UploadQueues.QueuedStripped | server/upload_queue.py:66-70 | every queued date is stripped and non-blank |
| UploadQueues.WithoutMembers | server/upload_queue.py:85-100 | removal deletes every occurrence and keeps the others |
| UploadQueues.WithoutStripped | server/upload_queue.py:85-100 | removal keeps dates stripped |
| UploadQueues.RemainingDates | server/upload_queue.py:85-96 | the loop keeps the other dates in order |
| UploadQueues.UploadQueue.GetQueuedDates | server/upload_queue.py:53-73 | a missing or unreadable file gives `[]` |
| UploadQueues.UploadQueue.AddToQueue | server/upload_queue.py:13-50 | a queued date returns True with no write; otherwise the date is appended and the result says whether the write happened |
| UploadQueues.UploadQueue.RemoveFromQueue | server/upload_queue.py:76-104 | rewrites the file without the date; a missing file is left alone |
| UploadQueues.UploadQueue.ClearQueue | server/upload_queue.py:107-116 | deletes the file |
| UploadQueues.AddQueuesLast | server/upload_queue.py:37-43 | an added date is queued last |
| UploadQueues.AddKeepsNoDuplicates | server/upload_queue.py:37-43 | a duplicate-free queue stays duplicate-free |
| UploadQueues.RemoveReadsBack | server/upload_queue.py:76-104 | after removal the date is gone and every other date keeps its count |
| UploadQueues.ClearEmpties | server/upload_queue.py:107-116 | after clearing, nothing is queued |
| Database.Payload | server/database_helper.py:123 | the payload is never longer than the arguments |
| Database.PayloadKeeps | server/database_helper.py:123 | exactly the non-`None` arguments, one entry each; empty exactly when all are `None` |
| Database.Args | server/database_helper.py:103-171 | the arguments pair each parameter with its value |
| Database.InsertStatement | server/database_helper.py:89-94 | as many columns and placeholders as payload entries; values bound in column order |
| Database.Cells | server/database_helper.py:89-94 | the new row has the defaults and the inserted columns |
| Database.CellsOfStatement | server/database_helper.py:89-94 | each inserted column holds its value |
| Database.DefaultsAt | server/database_helper.py:49-51 | a row inserted at `now` has `now` in its `CURRENT_TIMESTAMP` columns and the constant defaults elsewhere |
| Database.CellsDefault | server/database_helper.py:89-94 | a column the insert leaves out keeps its default |
| Database.StampedWhenLeftOut | server/database_helper.py:49-51 | a user log inserted without `date_entered` is stamped with, and filed under the day of, its own insertion time |
| Database.Table.InsertIntoTable | server/database_helper.py:86-98 | an empty payload raises ValueError and adds nothing; otherwise one row with the next id, stamped at the moment of insertion, is added and the id is returned |
| Database.InsertLog | server/database_helper.py:103-171 | an all-`None` insert fails; otherwise the payload is inserted |
| Database.Latest | server/database_helper.py:181-184 | `ORDER BY ... DESC LIMIT 1` picks a row from the table |
| Database.LatestIsLatest | server/database_helper.py:181-184 | no row sorts above the one picked |
| Database.SortsAboveTransitive | server/database_helper.py:181-184 | the SQLite order used is transitive |
| Database.Where | server/database_helper.py:176-199 | a `WHERE` keeps exactly the matching rows |
| Database.GetDailyBotLog | server/database_helper.py:190-199 | a row stamped with the date, or `None` exactly when there is none |
| Database.GetDailyUserLog | server/database_helper.py:176-186 | a row entered on the date, or `None` exactly when there is none |
| Database.UserLogIsLatest | server/database_helper.py:180-186 | the row is the latest entered that day |
| FormFill.CommaItems | server/unitas_manager/unitas_helper.py:91-92 | one item per comma field, each stripped |
| FormFill.Multiselected | server/unitas_manager/unitas_helper.py:71-106 | `""` is skipped; text is split on commas and stripped; a list is used as is; `None` or a number raises TypeError |
| FormFill.StepFill | server/unitas_manager/unitas_helper.py:32-69 | inputs skip `None` and `""`; a clock skips blank text, raises on non-text or non-numbers, and sends `%02d` |
| FormFill.RunSteps | server/unitas_manager/unitas_production.py:255-313 | a run fills at most one field per step |
| FormFill.RunStepsAppend | server/unitas_manager/unitas_production.py:255-313 | runs compose step after step |
| FormFill.RunStepsSnoc | server/unitas_manager/unitas_production.py:255-313 | a further step is skipped after an error, stops the run when it raises, and otherwise adds its fill |
| FormFill.RunStepsCompletes | server/unitas_manager/unitas_production.py:255-313 | when every step succeeds the run ends without error |
| FormFill.RunStepsRaisedStays | server/unitas_manager/unitas_production.py:255-313 | once a step raises, nothing after it is filled |
| FormFill.RunStepsErrorFromStep | server/unitas_manager/unitas_production.py:255-313 | a run raises only an error some step raises |
| FormFill.ClockFilled | server/unitas_manager/unitas_production.py:270-273 | a number in 0..99 is sent as two digits of that value |
| FormFill.ClockBlank | server/unitas_manager/unitas_production.py:270-273 | a blank clock value is not filled |
| UnitasProduction.RowDict | server/unitas_manager/unitas_production.py:43-44 | a missing row is `{}`; a row gives every column, NULL as `None`, plus its id |
| UnitasProduction.Merge | server/unitas_manager/unitas_production.py:47 | the keys of both; the user's value wins on overlap |
| UnitasProduction.SplitHhMm | server/unitas_manager/unitas_production.py:49-53 | `('', '')` for a non-string or text without a colon |
| UnitasProduction.SplitHhMmOf | server/unitas_manager/unitas_production.py:52-53 | the first two colon fields zero-filled to two; a seconds field is ignored |
| UnitasProduction.BirdsRestricted | server/unitas_manager/unitas_production.py:60-63 | `Yes` exactly when either door time is missing or falsy |
| UnitasProduction.BotValuesOnly | server/unitas_manager/unitas_production.py:55-56 | lights, feed, water, body weight and the four temperatures come from the bot row alone |
| UnitasProduction.UserValuesWin | server/unitas_manager/unitas_production.py:47-63 | a user column, even NULL, overrides the bot's; a NULL door time restricts the birds |
| UnitasProduction.MortalityDefaults | server/unitas_manager/unitas_production.py:67-70 | absent counts default to `'0'` |
| UnitasProduction.TriggerFillProductionForm | server/unitas_manager/unitas_production.py:65-110 | the reasons come from the merged rows; as written, missing ones default to `None` |
| UnitasProduction.TriggerFillProductionFormCorrected | server/unitas_manager/unitas_production.py:72-73 | corrected: missing reasons default to `""` |
| UnitasProduction.OrZero | server/unitas_manager/unitas_production.py:255-258 | a falsy count is sent as `"0"`; a truthy one as it is |
| UnitasProduction.FillProductionForm | server/unitas_manager/unitas_production.py:208-313 | at most 43 fields are filled |
| UnitasProduction.ProductionSteps | server/unitas_manager/unitas_production.py:255-313 | 43 fills in the form's order |
| UnitasProduction.InputsAvoid | server/unitas_manager/unitas_helper.py:55-69 | typing into inputs never raises |
| UnitasProduction.ClocksAvoidTypeError | server/unitas_manager/unitas_production.py:270-298 | clocks on text raise only ValueError |
| UnitasProduction.MortalityFilledFirst | server/unitas_manager/unitas_production.py:255-258 | the four counts are filled first and never blank; a falsy count is `"0"` |
| UnitasProduction.BadClockStops | server/unitas_manager/unitas_production.py:286-288 | a non-numeric door hour stops the fill |
| UnitasProduction.NullReasonRaises | server/unitas_manager/unitas_production.py:260 | a `None` cull reason stops the fill with TypeError after at most five fields |
| UnitasProduction.MissingReasonsRaiseAsWritten | server/unitas_manager/unitas_production.py:72 | as written, no user row and no reasons raises TypeError |
| UnitasProduction.NoUserRowFailsAsWritten | server/unitas_manager/unitas_production.py:43-73 | as written, any bot row without a user row raises TypeError |
| UnitasProduction.TextReasonsNoTypeError | server/unitas_manager/unitas_production.py:255-313 | text reasons never raise TypeError |
| UnitasProduction.MissingReasonsSkipped | server/unitas_manager/unitas_production.py:72-73 | with `""` as the default, that day fills without TypeError |
| UnitasProduction.DatesToUpload | server/unitas_manager/unitas_production.py:334-347 | the given date alone, or the pending dates |
| UnitasProduction.Partition | server/unitas_manager/unitas_production.py:358-398 | each date lands in exactly one of the two lists |
| UnitasProduction.PartitionPlaces | server/unitas_manager/unitas_production.py:358-398 | a date is successful exactly when its upload completed; the two lists together are the dates |
| UnitasProduction.UploadDates | server/unitas_manager/unitas_production.py:358-398 | the loop appends each date to the successful or the failed list, giving the partition |
| UnitasProduction.RunUnitasStuff | server/unitas_manager/unitas_production.py:315-421 | `None` exactly when in multi-date mode with nothing pending; otherwise the loop's lists are the partition by whether the as-written fill of each date completes |
| UnitasProduction.NoUserRowReportedFailed | server/unitas_manager/unitas_production.py:358-398 | as written, a date with a bot row and no user row is listed among the failed uploads |
| UnitasCoolerlog.TimeFields | server/unitas_manager/unitas_coolerlog.py:170-180 | the first two colon fields of `str(time)`, not padded, `''` when falsy or missing |
| UnitasCoolerlog.TimeFieldsOf | server/unitas_manager/unitas_coolerlog.py:170-180 | `hh:mm:ss` and `hh:mm` give `(hh, mm)`; text without a colon is all hour |
| UnitasCoolerlog.CoolerValues | server/unitas_manager/unitas_coolerlog.py:164-185 | the eight fields in order; eggs and comments `''` without a user log |
| UnitasCoolerlog.RunCoolerlog | server/unitas_manager/unitas_coolerlog.py:140-185 | nothing is sent when already logged or without a bot log; otherwise the row of the logs |
| UnitasCoolerlog.CoolerSteps | server/unitas_manager/unitas_coolerlog.py:93-129 | ten fills in the form's order |
| UnitasCoolerlog.FillCoolerlogValues | server/unitas_manager/unitas_coolerlog.py:43-137 | at most ten fields are filled |
| UnitasCoolerlog.CoolerFillErrors | server/unitas_manager/unitas_coolerlog.py:93-129 | the fill raises neither TypeError nor AttributeError |
| UnitasCoolerlog.AmHourPadded | server/unitas_manager/unitas_coolerlog.py:94-96 | the unpadded hour is sent zero-padded to two digits |
| UnitasCoolerlog.NullTemperatureSent | server/unitas_manager/unitas_coolerlog.py:164-185 | a NULL temperature is typed as `None` |
| UnitasCoolerlog.LaterMonth | server/unitas_manager/unitas_coolerlog.py:61-64 | tuple order of `(year, month)` is the order of month indices |
| UnitasCoolerlog.DatePicker.Previous | server/unitas_manager/unitas_coolerlog.py:64-67 | one month back, across the year |
| UnitasCoolerlog.DatePicker.Next | server/unitas_manager/unitas_coolerlog.py:68-71 | one month forward, across the year |
| UnitasCoolerlog.DatePicker.PickDate | server/unitas_manager/unitas_coolerlog.py:45-77 | ends on the target month; clicks only one button, once per month between; then clicks the day cell |

## Left out

- LastFile.EverythingFromLastFile: the XML folder is taken to be absolute, as the configured default `/srv/ftp/upload/` is, so joining `failed_dir` with the file's path gives that path back and a file that does not parse stays where it is. A relative `path_to_xmls`, which would move the file under `failed_dir` or raise, is not modelled.
- Reading and writing files, XML parsing, `glob`, `os.listdir`, `shutil.move`, `os.makedirs`, `fcntl` locking: the folder, the settings, run-state, config and queue files are state fields or inputs. Listing and glob order is an input sequence.
- The time-zone conversion in `grabTime` is a function parameter `toLocal`. `date.today()` and `datetime.now()` are parameters.
- Floats are reals. `str()` of a float is a parameter `reprFloat`. `c_to_f` and `kg_to_lb` are exact. `float()` reads decimal text only: no exponents, `inf` or `nan`. `int()` reads ASCII digits only: no underscores or other Unicode digits. `upper()` is ASCII only. `strip()` removes ASCII white space, U+0085 and U+00A0 only, not the other Unicode spaces (U+1680, U+2000 to U+200A, U+2028, U+2029, U+202F, U+205F, U+3000). The range pattern's `\d` matches ASCII digits only, where Python's `re` also matches other Unicode decimal digits.
- Calls that as written pass the wrong arguments are not composed:
  - `run_xml_stuff` passes `db_file` to `insert_daily_bot_log` and an argument to `get_bird_age`. `RunXmlStuff` ends at the assembled record.
  - The Unitas modules pass `db_file` to the one-argument `get_daily_*`. Their day logs are inputs.
- `server/jobs.py` uses names it never imports. The called jobs are recorded as a trace of calls; the jobs themselves are not run. Whether one of them raises, and which, is the input `raisesAt`; the raised exception's type is not modelled, only that it leaves the job.
- Selenium: logins, page loads, waits, `get_form_by_date`, scrolling, saving and the per-item click failures swallowed inside `fill_multiselect_box` are left out. `browserOk` in `RunUnitasStuff` stands for their outcome.
- `FormFill.Multiselected`: the keys a dict would iterate are not modelled; a database value is never a dict.
- `get_dates_pending_unitas_upload`, `update_daily_user_log`, `update_daily_bot_log` and `has_cooler_been_logged_today` are not part of this model. Their results are inputs and their writes are left out.
- The SQLite engine: only the rows and the order used by `ORDER BY ... DESC` are modelled. The order among NULLs and numbers is coarser than SQLite's. `date(x)` takes the first ten characters.
- `pick_date` reads the month header through `calendar.month_name`. The model starts from the shown year and month.
- `UnitasCoolerlog.RunCoolerlog` requires the log values to be scalars, as SQLite returns.
- `UploadQueues.UploadQueue.AddToQueue`: a file whose last line lacks a newline, and a date holding a newline, are not modelled.
- Python dicts keep insertion order; the model's maps do not.
- Each `DEFAULT_CONFIG` section added by migration is a copy, not the shared dict the source aliases.

## Findings

| source | as written | input that shows it | evidently intended | confidence | as-written member | corrected member |
|---|---|---|---|---|---|---|
| server/unitas_manager/unitas_production.py:72-73 | missing cull and mortality reasons default to `None`, and `fill_multiselect_box` skips only `""`, so `for item in None` raises TypeError | a date with a bot row but no user row: the fill stops at the cull-reason box and the date is reported failed | default to `""`, the value `fill_production_form` uses as its own default and the helper skips (a stored NULL reason would still be `None`) | medium, not executed | UnitasProduction.MissingReasonsRaiseAsWritten | UnitasProduction.MissingReasonsSkipped |
