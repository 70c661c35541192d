/** `database_helper.py`: the insert payloads of the three log tables and
    the per-day lookups, over tables held as sequences of rows. */
module Database {
  import opened Common
  import opened JsonValue

  /** A keyword argument: its parameter name and its value, `JNull` (the
      program's `None`) when the caller left it out or passed `None`. */
  type Arg = (string, Json)

  /** `{k: v for k, v in locals().items() if v is not None}`: the given
      arguments, in parameter order. */
  function Payload(args: seq<Arg>): (p: seq<(string, Json)>)
    ensures |p| <= |args|
  {
    if args == [] then []
    else
      var (k, v) := args[|args| - 1];
      Payload(args[..|args| - 1]) + (if !v.JNull? then [(k, v)] else [])
  }

  /** The payload keeps exactly the arguments that are not `None`, in
      parameter order: it is the subsequence of them, and it is empty
      exactly when every argument is `None`. */
  lemma {:induction false} PayloadKeeps(args: seq<Arg>)
    ensures forall k, v :: (k, v) in Payload(args) <==> (k, v) in args && !v.JNull?
    ensures Payload(args) == [] <==> forall i :: 0 <= i < |args| ==> args[i].1.JNull?
    ensures |Payload(args)| == CountGiven(args)
  {
    if args != [] {
      var init := args[..|args| - 1];
      PayloadKeeps(init);
      assert args == init + [args[|args| - 1]];
      if args[|args| - 1].1.JNull? && Payload(init) != [] {
        var i :| 0 <= i < |init| && !init[i].1.JNull?;
        assert args[i] == init[i];
      }
    }
  }

  function CountGiven(args: seq<Arg>): nat {
    if args == [] then 0 else CountGiven(args[..|args| - 1]) + (if !args[|args| - 1].1.JNull? then 1 else 0)
  }

  /** Parameter order of `insert_daily_bot_log`, `insert_pallet_log` and
      `insert_daily_user_log`. */
  function BotLogParams(): seq<string> {
    ["date", "bird_age", "feed_consumption", "lights_on", "lights_off", "water_consumption",
     "body_weight", "door_open", "door_closed", "birds_restricted", "inside_low_temp",
     "inside_high_temp", "outside_low_temp", "outside_high_temp", "cooler_time_am",
     "cooler_temp_am", "cooler_time_pm", "cooler_temp_pm"]
  }

  function PalletLogParams(): seq<string> {
    ["thedate", "pallet_id", "house_id", "total_pallet_weight", "case_weight", "flock_age", "yolk_color"]
  }

  function UserLogParams(): seq<string> {
    ["date_entered", "belt_eggs", "floor_eggs", "mortality_indoor", "mortality_outdoor",
     "euthanized_indoor", "euthanized_outdoor", "depop", "amount_delivered", "mortality_reasons",
     "cull_reasons", "mortality_comments", "coolerlog_comments", "added_supplements",
     "birds_restricted_reason", "comments", "weather", "air_sensory", "ration", "drinkers_clean",
     "birds_under_slats", "safe_indoors", "safe_outdoors", "equipment_functioning",
     "predator_activity", "eggs_picked_up", "door_open", "door_closed"]
  }

  /** The keyword arguments of a call: each parameter with its value. */
  function Args(params: seq<string>, values: seq<Json>): (args: seq<Arg>)
    requires |values| == |params|
    ensures |args| == |params| && forall i :: 0 <= i < |params| ==> args[i] == (params[i], values[i])
  {
    seq(|params|, i requires 0 <= i < |params| => (params[i], values[i]))
  }

  /** `INSERT INTO table (cols) VALUES (placeholders)` with its bound values. */
  datatype Statement = Insert(table: string, columns: seq<string>, placeholders: nat, values: seq<Json>)

  /** The statement `_insert_into_table` prepares for a payload. */
  function InsertStatement(table: string, payload: seq<(string, Json)>): (st: Statement)
    ensures |st.columns| == st.placeholders == |st.values| == |payload|
    ensures forall i :: 0 <= i < |payload| ==> st.columns[i] == payload[i].0 && st.values[i] == payload[i].1
  {
    Insert(table, seq(|payload|, i requires 0 <= i < |payload| => payload[i].0), |payload|,
           seq(|payload|, i requires 0 <= i < |payload| => payload[i].1))
  }

  /** A stored row: its id and its cells. */
  datatype Row = Row(id: int, cells: map<string, Json>)

  /** A column's value in a row; a column the insert left out is NULL
      unless the table gives it a default. */
  function Cell(row: Row, column: string): Json {
    if column in row.cells then row.cells[column] else JNull
  }

  /** The cells of a newly inserted row: the table's defaults, overridden
      by the bound values column by column. */
  function Cells(defaults: map<string, Json>, st: Statement): (m: map<string, Json>)
    requires |st.columns| == |st.values|
    ensures m.Keys == defaults.Keys + set c | c in st.columns
    decreases |st.columns|
  {
    if st.columns == [] then defaults
    else
      var n := |st.columns| - 1;
      Cells(defaults, st.(columns := st.columns[..n], values := st.values[..n]))[st.columns[n] := st.values[n]]
  }

  /** A column a row leaves out and the table gives no default is NULL. */
  lemma {:induction false} CellsDefault(defaults: map<string, Json>, st: Statement, column: string)
    requires |st.columns| == |st.values| && column !in st.columns
    ensures Cells(defaults, st).Keys == defaults.Keys + set c | c in st.columns
    ensures column in defaults ==> Cells(defaults, st)[column] == defaults[column]
    decreases |st.columns|
  {
    if st.columns != [] {
      var n := |st.columns| - 1;
      assert column !in st.columns[..n];
      CellsDefault(defaults, st.(columns := st.columns[..n], values := st.values[..n]), column);
    }
  }

  /** The defaults of a row inserted at the moment `now` (SQLite's
      `CURRENT_TIMESTAMP` text): the constant defaults, and `now` in every
      `DEFAULT CURRENT_TIMESTAMP` column. */
  function DefaultsAt(defaults: map<string, Json>, stamped: set<string>, now: string): (m: map<string, Json>)
    ensures m.Keys == defaults.Keys + stamped
    ensures forall c :: c in stamped ==> m[c] == JStr(now)
    ensures forall c :: c in defaults && c !in stamped ==> m[c] == defaults[c]
  {
    defaults + map c | c in stamped :: JStr(now)
  }

  /** One SQLite table with an `AUTOINCREMENT` id. */
  class Table {
    const name: string
    /** The constant column defaults, `DEFAULT 0`. */
    const defaults: map<string, Json>
    /** The `DEFAULT CURRENT_TIMESTAMP` columns. */
    const stamped: set<string>
    var rows: seq<Row>
    var lastId: int

    /** Row ids are distinct and no greater than the last id handed out. */
    ghost predicate Valid()
      reads this
    {
      forall i :: 0 <= i < |rows| ==>
        rows[i].id <= lastId && forall j :: 0 <= j < i ==> rows[j].id < rows[i].id
    }

    constructor (name: string, defaults: map<string, Json>, stamped: set<string>)
      ensures this.name == name && this.defaults == defaults && this.stamped == stamped
      ensures rows == [] && lastId == 0 && Valid()
    {
      this.name := name;
      this.defaults := defaults;
      this.stamped := stamped;
      rows := [];
      lastId := 0;
    }

    /** `_insert_into_table(table, data_dict)` at the moment `now`: an
        empty payload raises ValueError and adds nothing; otherwise one row
        is appended and its new id returned, greater than every id before
        it. */
    method InsertIntoTable(payload: seq<(string, Json)>, now: string) returns (r: Result<int>)
      requires Valid()
      modifies this
      ensures Valid()
      ensures payload == [] ==> r == Raised(ValueError) && rows == old(rows) && lastId == old(lastId)
      ensures payload != [] ==>
        r == Ok(old(lastId) + 1) && lastId == old(lastId) + 1 &&
        rows == old(rows) + [Row(old(lastId) + 1, Cells(DefaultsAt(defaults, stamped, now), InsertStatement(name, payload)))]
    {
      if payload == [] {
        return Raised(ValueError);
      }
      var st := InsertStatement(name, payload);
      lastId := lastId + 1;
      rows := rows + [Row(lastId, Cells(DefaultsAt(defaults, stamped, now), st))];
      return Ok(lastId);
    }
  }

  /** Each bound value lands in its column; a column given twice (which a
      keyword payload cannot do) would keep the later value. */
  lemma {:induction false} CellsOfStatement(defaults: map<string, Json>, st: Statement, i: nat)
    requires |st.columns| == |st.values| && i < |st.columns|
    requires forall j :: i < j < |st.columns| ==> st.columns[j] != st.columns[i]
    ensures Cells(defaults, st)[st.columns[i]] == st.values[i]
    decreases |st.columns|
  {
    var n := |st.columns| - 1;
    if i < n {
      CellsOfStatement(defaults, st.(columns := st.columns[..n], values := st.values[..n]), i);
    }
  }

  /** `insert_*(**kwargs)` at the moment `now`: the payload of the given
      arguments, inserted. */
  method InsertLog(table: Table, args: seq<Arg>, now: string) returns (r: Result<int>)
    requires table.Valid()
    modifies table
    ensures table.Valid()
    ensures (forall i :: 0 <= i < |args| ==> args[i].1.JNull?) <==> r == Raised(ValueError)
    ensures r.Raised? ==> table.rows == old(table.rows)
    ensures r.Ok? ==>
      table.rows == old(table.rows) + [Row(r.value, Cells(DefaultsAt(table.defaults, table.stamped, now), InsertStatement(table.name, Payload(args))))]
  {
    PayloadKeeps(args);
    r := table.InsertIntoTable(Payload(args), now);
  }

  /** A row inserted at `now` without a value for a `CURRENT_TIMESTAMP`
      column carries `now` there, so user logs inserted on different days
      without `date_entered` are filed under their own days. */
  lemma StampedWhenLeftOut(defaults: map<string, Json>, stamped: set<string>, now: string,
                           table: string, payload: seq<(string, Json)>, column: string, id: int)
    requires column in stamped
    requires forall i :: 0 <= i < |payload| ==> payload[i].0 != column
    ensures var row := Row(id, Cells(DefaultsAt(defaults, stamped, now), InsertStatement(table, payload)));
      Cell(row, column) == JStr(now) && (|now| >= 10 ==> DatePart(Cell(row, column)) == Some(now[..10]))
  {
    var st := InsertStatement(table, payload);
    assert column !in st.columns;
    CellsDefault(DefaultsAt(defaults, stamped, now), st, column);
  }

  // ---------------------------------------------------------------- lookups

  /** SQLite's descending order on a column: text sorts above every number
      and NULL; two texts compare code point by code point. */
  predicate SortsAbove(a: Json, b: Json) {
    (a.JStr? && !b.JStr?) || (a.JStr? && b.JStr? && LexLess(b.s, a.s))
  }

  /** The row `ORDER BY column DESC LIMIT 1` returns: the first of the rows
      nothing sorts above. */
  function Latest(rows: seq<Row>, column: string): (r: Option<Row>)
    ensures r.None? <==> rows == []
    ensures r.Some? ==> r.value in rows
  {
    if rows == [] then None
    else
      var best := Latest(rows[..|rows| - 1], column);
      var last := rows[|rows| - 1];
      if best.None? || SortsAbove(Cell(last, column), Cell(best.value, column)) then Some(last) else best
  }

  lemma {:induction false} LatestIsLatest(rows: seq<Row>, column: string)
    requires rows != []
    ensures forall row :: row in rows ==> !SortsAbove(Cell(row, column), Cell(Latest(rows, column).value, column))
  {
    var init := rows[..|rows| - 1];
    var last := rows[|rows| - 1];
    assert rows == init + [last];
    if init != [] {
      LatestIsLatest(init, column);
      var best := Latest(init, column).value;
      if SortsAbove(Cell(last, column), Cell(best, column)) {
        forall row | row in init ensures !SortsAbove(Cell(row, column), Cell(last, column)) {
          if SortsAbove(Cell(row, column), Cell(last, column)) {
            SortsAboveTransitive(Cell(row, column), Cell(last, column), Cell(best, column));
          }
        }
        SortsAboveIrreflexive(Cell(last, column));
      } else {
        SortsAboveIrreflexive(Cell(best, column));
      }
    } else {
      SortsAboveIrreflexive(Cell(last, column));
    }
  }

  lemma SortsAboveIrreflexive(a: Json)
    ensures !SortsAbove(a, a)
  {
    if a.JStr? {
      LexLessIrreflexive(a.s);
    }
  }

  lemma SortsAboveTransitive(a: Json, b: Json, c: Json)
    requires SortsAbove(a, b) && SortsAbove(b, c)
    ensures SortsAbove(a, c)
  {
    if c.JStr? {
      LexLessTransitive(c.s, b.s, a.s);
    }
  }

  /** The rows a `WHERE` clause keeps, in table order. */
  function Where(rows: seq<Row>, keep: Row -> bool): (r: seq<Row>)
    ensures forall row :: row in r <==> row in rows && keep(row)
  {
    if rows == [] then []
    else
      var init := rows[..|rows| - 1];
      assert rows == init + [rows[|rows| - 1]];
      Where(init, keep) + (if keep(rows[|rows| - 1]) then [rows[|rows| - 1]] else [])
  }

  /** SQLite's `date(x)` on a timestamp text, `YYYY-MM-DD` followed by the
      time: its first ten characters. */
  function DatePart(v: Json): Option<string> {
    if v.JStr? && |v.s| >= 10 then Some(v.s[..10]) else None
  }

  /** `get_daily_bot_log(date_str)`: with a date, a row stamped with it;
      with none (`None` or empty), the row latest by `date`. */
  function GetDailyBotLog(rows: seq<Row>, dateStr: Option<string>): (r: Option<Row>)
    ensures dateStr.Some? && dateStr.value != "" ==>
      (r.Some? ==> r.value in rows && Cell(r.value, "date") == JStr(dateStr.value)) &&
      (r.None? <==> forall row :: row in rows ==> Cell(row, "date") != JStr(dateStr.value))
    ensures !(dateStr.Some? && dateStr.value != "") ==> (r.None? <==> rows == [])
  {
    if dateStr.Some? && dateStr.value != "" then
      Latest(Where(rows, row => Cell(row, "date") == JStr(dateStr.value)), "date")
    else Latest(rows, "date")
  }

  /** `get_daily_user_log(date_str)`: with a date, the row latest by
      `date_entered` among those entered on that day; with none, the latest
      row overall. */
  function GetDailyUserLog(rows: seq<Row>, dateStr: Option<string>): (r: Option<Row>)
    ensures dateStr.Some? && dateStr.value != "" ==>
      (r.Some? ==> r.value in rows && DatePart(Cell(r.value, "date_entered")) == dateStr) &&
      (r.None? <==> forall row :: row in rows ==> DatePart(Cell(row, "date_entered")) != dateStr)
    ensures !(dateStr.Some? && dateStr.value != "") ==> (r.None? <==> rows == [])
  {
    if dateStr.Some? && dateStr.value != "" then
      Latest(Where(rows, row => DatePart(Cell(row, "date_entered")) == dateStr), "date_entered")
    else Latest(rows, "date_entered")
  }

  /** No row entered on the same day was entered after the one returned. */
  lemma UserLogIsLatest(rows: seq<Row>, dateStr: string)
    requires dateStr != "" && GetDailyUserLog(rows, Some(dateStr)).Some?
    ensures var r := GetDailyUserLog(rows, Some(dateStr)).value;
      forall row :: row in rows && DatePart(Cell(row, "date_entered")) == Some(dateStr) ==>
        LexLe(Cell(row, "date_entered").s, Cell(r, "date_entered").s)
  {
    var day := Where(rows, row => DatePart(Cell(row, "date_entered")) == Some(dateStr));
    LatestIsLatest(day, "date_entered");
    var r := GetDailyUserLog(rows, Some(dateStr)).value;
    forall row | row in rows && DatePart(Cell(row, "date_entered")) == Some(dateStr)
      ensures LexLe(Cell(row, "date_entered").s, Cell(r, "date_entered").s)
    {
      assert row in day;
      LexLessTotal(Cell(row, "date_entered").s, Cell(r, "date_entered").s);
    }
  }
}
