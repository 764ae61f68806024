/** The per-row enrichment of the batch runner: choosing the address by work
    mode, the year and pay-period overrides, the sorted unique holiday dates
    with the first name seen for each, one enriched record per input row,
    and the union of the output columns. Reading and writing the CSV files,
    the clock that gives the default year and the report generation are not
    part of this model. */
module Batch {
  import opened Wrappers
  import opened Text
  import opened AssocLists
  import opened Seqs
  import opened Calendar
  import opened HolidaysAu
  import RegionalRules
  import Service

  // ---------------------------------------------------------------------
  // Work mode and address
  // ---------------------------------------------------------------------

  /** `str(row.get("work_mode", ""))`: a missing column reads as "", a
      short row's `None` as "None". */
  function RawWorkMode(row: RegionalRules.CsvRow): string {
    if "work_mode" !in row then ""
    else if row["work_mode"].None? then "None"
    else row["work_mode"].value
  }

  /** `str(work_mode_raw).upper().strip()` */
  function WorkMode(row: RegionalRules.CsvRow): (m: string)
    ensures Trimmed(m) && IsUpper(m)
  {
    var m := Strip(Upper(RawWorkMode(row)));
    StripIsTrimmed(Upper(RawWorkMode(row)));
    StripUpperIsUpper(RawWorkMode(row));
    m
  }

  lemma StripUpperIsUpper(s: string)
    ensures IsUpper(Strip(Upper(s)))
  {
    StripUpper(s);
    UpperIsUpper(Strip(s));
  }

  datatype Mode = Office | Home | Invalid

  /** Which branch of the work-mode test a normalised mode takes. */
  function ModeOf(mode: string): (r: Mode)
    ensures r == Office <==> mode == "OFFICE"
    ensures r == Home <==> mode == "HOME"
  {
    if mode == "OFFICE" then Office else if mode == "HOME" then Home else Invalid
  }

  /** `row.get(column, "")`, where `None` stands for a value that is not a
      string (a short row). */
  function AddressCell(row: RegionalRules.CsvRow, column: string): Option<string> {
    if column in row then row[column] else Some("")
  }

  /** The address the work mode selects. */
  function SelectedAddress(row: RegionalRules.CsvRow, mode: Mode): Option<string>
    requires mode != Invalid
  {
    if mode == Office then AddressCell(row, "office_address") else AddressCell(row, "home_address")
  }

  /** `not isinstance(address, str) or not address.strip()` */
  predicate MissingAddress(address: Option<string>) {
    address.None? || Strip(address.value) == ""
  }

  // ---------------------------------------------------------------------
  // Overrides
  // ---------------------------------------------------------------------

  /** The batch-wide settings and what the runner calls: `int(...)` and
      `datetime.fromisoformat(...).date()`, each `None` where Python raises
      `ValueError`, and `lookup_address_info(address, year, start, end)`
      with the upstream services the batch sees (`OrchestratorLookup` below
      ties it to the orchestrator's model). */
  datatype Env = Env(
    year: int,
    periodStart: Option<CivilDate>,
    periodEnd: Option<CivilDate>,
    parseInt: string -> Option<int>,
    fromIso: string -> Option<CivilDate>,
    lookup: (string, int, Option<CivilDate>, Option<CivilDate>) -> Service.LookupResult)

  /** The row's `year` override: the batch year when the cell is missing,
      blank or not an integer. The function is this small case split, so its
      contract lists the three cases outright. */
  function EffectiveYear(row: RegionalRules.CsvRow, env: Env): (y: int)
    ensures var cell := RegionalRules.Cell(row, "year");
      (cell.None? || Strip(cell.value) == "" ==> y == env.year)
      && (cell.Some? && Strip(cell.value) != "" && env.parseInt(cell.value).None? ==> y == env.year)
      && (cell.Some? && Strip(cell.value) != "" && env.parseInt(cell.value).Some? ==> y == env.parseInt(cell.value).value)
  {
    var cell := RegionalRules.Cell(row, "year");
    if cell.None? || Strip(cell.value) == "" then env.year
    else
      var parsed := env.parseInt(cell.value);
      if parsed.Some? then parsed.value else env.year
  }

  /** `_parse_iso_date(value)`. The contract lists its cases outright: no
      cell and a blank cell give no date, anything else is parsed stripped. */
  function ParseIsoDate(value: Option<string>, fromIso: string -> Option<CivilDate>): (r: Option<CivilDate>)
    ensures value.None? ==> r.None?
    ensures value.Some? && Strip(value.value) == "" ==> r.None?
    ensures value.Some? && Strip(value.value) != "" ==> r == fromIso(Strip(value.value))
  {
    if value.None? || value.value == "" then None
    else
      var s := Strip(value.value);
      if s == "" then None else fromIso(s)
  }

  /** `_parse_iso_date(raw) or default`: a date object is always truthy. The
      contract states the two cases outright. */
  function Override(raw: Option<string>, fromIso: string -> Option<CivilDate>, default: Option<CivilDate>): (r: Option<CivilDate>)
    ensures ParseIsoDate(raw, fromIso).Some? ==> r == ParseIsoDate(raw, fromIso)
    ensures ParseIsoDate(raw, fromIso).None? ==> r == default
  {
    var parsed := ParseIsoDate(raw, fromIso);
    if parsed.Some? then parsed else default
  }

  // ---------------------------------------------------------------------
  // Holiday dates and names
  // ---------------------------------------------------------------------

  /** `h.get("name") or h.get("localName", "") or ""` */
  function HolidayName(h: Holiday): string {
    if h.name != "" then h.name else if Truthy(h.localName) then h.localName.value else ""
  }

  predicate StrictlySorted(s: seq<string>) {
    forall i, j :: 0 <= i < j < |s| ==> StrLt(s[i], s[j])
  }

  /** Adds `x` to a strictly sorted list unless it is already there. */
  function InsertUnique(x: string, s: seq<string>): seq<string>
    decreases |s|
  {
    if s == [] then [x]
    else if x == s[0] then s
    else if StrLt(x, s[0]) then [x] + s
    else [s[0]] + InsertUnique(x, s[1..])
  }

  lemma {:induction false} InsertUniqueMembers(x: string, s: seq<string>, y: string)
    ensures y in InsertUnique(x, s) <==> y == x || y in s
    decreases |s|
  {
    if s != [] && x != s[0] && !StrLt(x, s[0]) {
      InsertUniqueMembers(x, s[1..], y);
      assert s == [s[0]] + s[1..];
    }
  }

  lemma {:induction false} InsertUniqueSorted(x: string, s: seq<string>)
    requires StrictlySorted(s)
    ensures StrictlySorted(InsertUnique(x, s))
    decreases |s|
  {
    if s != [] && x != s[0] && !StrLt(x, s[0]) {
      var tail := s[1..];
      var r := InsertUnique(x, s);
      InsertUniqueSorted(x, tail);
      assert StrictlySorted(tail);
      StrLtTrichotomy(x, s[0]);
      forall j | 1 <= j < |r|
        ensures StrLt(r[0], r[j])
      {
        var y := r[j];
        assert y in InsertUnique(x, tail);
        InsertUniqueMembers(x, tail, y);
        if y != x {
          var k :| 0 <= k < |tail| && tail[k] == y;
          assert s[k + 1] == y;
        }
      }
      forall i, j | 0 <= i < j < |r|
        ensures StrLt(r[i], r[j])
      {
        if i > 0 {
          assert r[i] == InsertUnique(x, tail)[i - 1] && r[j] == InsertUnique(x, tail)[j - 1];
        }
      }
    } else if s != [] && x != s[0] {
      var r := InsertUnique(x, s);
      forall i, j | 0 <= i < j < |r|
        ensures StrLt(r[i], r[j])
      {
        if i == 0 && j > 1 {
          StrLtTransitive(x, s[0], s[j - 1]);
        }
      }
    }
  }

  /** `sorted({h.get("date") for h in holidays if h.get("date")})` */
  function SortedDates(hs: seq<Holiday>): seq<string> {
    if hs == [] then []
    else
      var rest := SortedDates(hs[..|hs| - 1]);
      var d := hs[|hs| - 1].date;
      if d != "" then InsertUnique(d, rest) else rest
  }

  /** The dates are strictly increasing, so free of duplicates, and they are
      exactly the non-empty dates of the holidays. */
  lemma {:induction false} SortedDatesAreTheDateSet(hs: seq<Holiday>)
    ensures StrictlySorted(SortedDates(hs))
    ensures forall d :: d in SortedDates(hs) <==> d != "" && exists k :: 0 <= k < |hs| && hs[k].date == d
    decreases |hs|
  {
    if hs != [] {
      var init := hs[..|hs| - 1];
      var last := hs[|hs| - 1];
      SortedDatesAreTheDateSet(init);
      if last.date != "" {
        InsertUniqueSorted(last.date, SortedDates(init));
      }
      forall d
        ensures d in SortedDates(hs) <==> d != "" && exists k :: 0 <= k < |hs| && hs[k].date == d
      {
        if last.date != "" {
          InsertUniqueMembers(last.date, SortedDates(init), d);
        }
        if exists k :: 0 <= k < |hs| && hs[k].date == d {
          var k :| 0 <= k < |hs| && hs[k].date == d;
          if k < |init| {
            assert init[k].date == d;
          }
        }
        if exists k :: 0 <= k < |init| && init[k].date == d {
          var k :| 0 <= k < |init| && init[k].date == d;
          assert hs[k].date == d;
        }
      }
    }
  }

  /** Lists with the same elements are empty together. */
  lemma SameMembersBothEmpty<T>(a: seq<T>, b: seq<T>)
    requires forall x :: x in a <==> x in b
    ensures a == [] <==> b == []
  {
    if a != [] {
      assert a[0] in b;
    }
    if b != [] {
      assert b[0] in a;
    }
  }

  /** Two strictly increasing lists with the same elements are equal: there
      is only one way to list a set of dates in sorted order. */
  lemma {:induction false} StrictlySortedUnique(a: seq<string>, b: seq<string>)
    requires StrictlySorted(a) && StrictlySorted(b)
    requires forall x :: x in a <==> x in b
    ensures a == b
    decreases |a|
  {
    SameMembersBothEmpty(a, b);
    if a != [] && b != [] {
      assert a[0] in a && b[0] in b;
      var i :| 0 <= i < |b| && b[i] == a[0];
      var j :| 0 <= j < |a| && a[j] == b[0];
      assert a[0] == b[0] by {
        if i > 0 && j > 0 {
          StrLtAsymmetric(a[0], b[0]);
        }
      }
      forall x | x in a[1..]
        ensures x in b[1..]
      {
        var k :| 0 <= k < |a| - 1 && a[1..][k] == x;
        assert StrLt(a[0], a[k + 1]);
        StrLtIrreflexive(x);
        assert x in b;
        var m :| 0 <= m < |b| && b[m] == x;
        assert b[1..][m - 1] == x;
      }
      forall x | x in b[1..]
        ensures x in a[1..]
      {
        var k :| 0 <= k < |b| - 1 && b[1..][k] == x;
        assert StrLt(b[0], b[k + 1]);
        StrLtIrreflexive(x);
        assert x in a;
        var m :| 0 <= m < |a| && a[m] == x;
        assert a[1..][m - 1] == x;
      }
      StrictlySortedUnique(a[1..], b[1..]);
      assert a == [a[0]] + a[1..] && b == [b[0]] + b[1..];
    }
  }

  /** `names_by_date` after the loop: `setdefault` for every holiday with a
      date. */
  function NamesByDate(hs: seq<Holiday>): Dict<string, string> {
    if hs == [] then []
    else
      var d := NamesByDate(hs[..|hs| - 1]);
      var h := hs[|hs| - 1];
      if h.date == "" then d else SetDefault(d, h.date, HolidayName(h))
  }

  /** The name of the first holiday on date `d`, if any. */
  function FirstName(hs: seq<Holiday>, d: string): Option<string> {
    if hs == [] then None
    else if hs[0].date == d then Some(HolidayName(hs[0]))
    else FirstName(hs[1..], d)
  }

  lemma {:induction false} FirstNameSnoc(hs: seq<Holiday>, h: Holiday, d: string)
    ensures FirstName(hs + [h], d) ==
      if FirstName(hs, d).Some? then FirstName(hs, d)
      else if h.date == d then Some(HolidayName(h)) else None
    decreases |hs|
  {
    if hs != [] {
      FirstNameSnoc(hs[1..], h, d);
      assert (hs + [h])[1..] == hs[1..] + [h];
    }
  }

  /** The loop keeps, for every date, the name of the first holiday on that
      date; the empty date never becomes a key. */
  lemma {:induction false} NamesByDateFirstWins(hs: seq<Holiday>, d: string)
    ensures Get(NamesByDate(hs), d) == if d == "" then None else FirstName(hs, d)
    decreases |hs|
  {
    if hs != [] {
      var init := hs[..|hs| - 1];
      var h := hs[|hs| - 1];
      NamesByDateFirstWins(init, d);
      FirstNameSnoc(init, h, d);
      assert init + [h] == hs;
      if h.date != "" {
        SetDefaultGet(NamesByDate(init), h.date, HolidayName(h), d);
        assert h.date in Keys(NamesByDate(init)) <==> Get(NamesByDate(init), h.date).Some?;
        if h.date == d {
          assert Get(NamesByDate(init), d).Some? <==> FirstName(init, d).Some?;
        }
      }
    }
  }

  /** The `names_by_date` loop. */
  method CollectNames(hs: seq<Holiday>) returns (names: Dict<string, string>)
    ensures names == NamesByDate(hs)
  {
    names := [];
    for i := 0 to |hs|
      invariant names == NamesByDate(hs[..i])
    {
      assert hs[..i + 1][..i] == hs[..i];
      var d := hs[i].date;
      if d == "" {
        continue;
      }
      names := SetDefault(names, d, HolidayName(hs[i]));
    }
    assert hs[..|hs|] == hs;
  }

  /** `[names_by_date.get(d, "") for d in dates]` */
  function AlignedNames(dates: seq<string>, names: Dict<string, string>): (r: seq<string>)
    ensures |r| == |dates| && forall i :: 0 <= i < |dates| ==> r[i] == Get(names, dates[i]).GetOr("")
  {
    if dates == [] then [] else [Get(names, dates[0]).GetOr("")] + AlignedNames(dates[1..], names)
  }

  /** Each listed date is paired with the name of the first holiday on it. */
  lemma NamesFollowDates(hs: seq<Holiday>)
    ensures var dates := SortedDates(hs);
      var names := AlignedNames(dates, NamesByDate(hs));
      |names| == |dates|
      && forall i :: 0 <= i < |dates| ==> FirstName(hs, dates[i]) == Some(names[i])
  {
    var dates := SortedDates(hs);
    SortedDatesAreTheDateSet(hs);
    forall i | 0 <= i < |dates|
      ensures FirstName(hs, dates[i]) == Some(AlignedNames(dates, NamesByDate(hs))[i])
    {
      var d := dates[i];
      assert d in dates;
      var k :| 0 <= k < |hs| && hs[k].date == d;
      FirstNameFound(hs, k);
      NamesByDateFirstWins(hs, d);
    }
  }

  lemma {:induction false} FirstNameFound(hs: seq<Holiday>, k: nat)
    requires k < |hs|
    ensures FirstName(hs, hs[k].date).Some?
    decreases k
  {
    if k > 0 && hs[0].date != hs[k].date {
      FirstNameFound(hs[1..], k - 1);
    }
  }

  // ---------------------------------------------------------------------
  // The enriched record
  // ---------------------------------------------------------------------

  /** The columns an enriched record can have. */
  datatype Column =
    | RowIndex | EmployeeId | ErrorText | WorkModeCol | InputAddress
    | FormattedAddress | State | Postcode | Locality | Lga
    | PayPeriodStart | PayPeriodEnd | HolidayCountInPeriod | HolidayDatesInPeriod
    | HolidayNamesInPeriod | Status | ManualReview | Confidence | AuditMessage
    | GeocodeQuality | LgaResolutionMethod | RulesApplied | ReplacementApplied

  /** The cells taken from the lookup result. */
  datatype Details = Details(
    formattedAddress: Option<string>,
    state: Option<string>,
    postcode: Option<string>,
    locality: Option<string>,
    lga: Option<string>,
    payPeriodStart: string,
    payPeriodEnd: string,
    holidayCountInPeriod: nat,
    holidayDatesInPeriod: string,
    holidayNamesInPeriod: string,
    status: string,
    manualReview: bool,
    confidence: real,
    auditMessage: string,
    geocodeQuality: Option<string>,
    lgaResolutionMethod: Option<string>,
    rulesApplied: string,
    replacementApplied: Option<string>)

  /** One record of `enriched_rows`. */
  datatype Enriched =
    | BadWorkMode(row: nat, employeeId: Option<string>)
    | NoAddress(row: nat, employeeId: Option<string>, workMode: string)
    | Looked(row: nat, employeeId: Option<string>, workMode: string, inputAddress: string, details: Details)

  /** The keys of the record's dictionary. */
  function ColumnsOf(e: Enriched): set<Column> {
    match e
    case BadWorkMode(_, _) => {RowIndex, EmployeeId, ErrorText}
    case NoAddress(_, _, _) => {RowIndex, EmployeeId, WorkModeCol, ErrorText}
    case Looked(_, _, _, _, _) =>
      {RowIndex, EmployeeId, WorkModeCol, InputAddress, FormattedAddress, State, Postcode,
       Locality, Lga, PayPeriodStart, PayPeriodEnd, HolidayCountInPeriod, HolidayDatesInPeriod,
       HolidayNamesInPeriod, Status, ManualReview, Confidence, AuditMessage, GeocodeQuality,
       LgaResolutionMethod, RulesApplied, ReplacementApplied}
  }

  /** Every record has its row number and employee id; the rejected ones
      have an error instead of the lookup cells. */
  lemma ColumnsOfCases(e: Enriched)
    ensures RowIndex in ColumnsOf(e) && EmployeeId in ColumnsOf(e)
    ensures ErrorText in ColumnsOf(e) <==> !e.Looked?
    ensures Status in ColumnsOf(e) <==> e.Looked?
  {
  }

  /** `x or ""` for an optional string. */
  function OrEmpty(x: Option<string>): string {
    if x.Some? then x.value else ""
  }

  /** The record built from `r = lookup_address_info(...)`. */
  function DetailsOf(r: Service.LookupResult): Details {
    var hs := r.holidaysInPeriod;
    var dates := SortedDates(hs);
    Details(r.formattedAddress, r.state, r.postcode, r.locality, r.lga,
            OrEmpty(r.payPeriodStart), OrEmpty(r.payPeriodEnd), r.holidayCountInPeriod,
            Join(dates, "; "), Join(AlignedNames(dates, NamesByDate(hs)), "; "),
            r.audit.status, r.audit.manualReview, r.audit.confidence, r.audit.auditMessage,
            OrElse(r.audit.geocodeQuality, None), r.audit.lgaResolutionMethod,
            Join(r.audit.rulesApplied, "; "), r.audit.replacementApplied)
  }

  /** The body of the row loop for row `idx`. */
  function Enrich(idx: nat, row: RegionalRules.CsvRow, env: Env): (e: Enriched)
    ensures e.row == idx && e.employeeId == RegionalRules.Cell(row, "employee_id")
  {
    var employeeId := RegionalRules.Cell(row, "employee_id");
    var mode := WorkMode(row);
    var choice := ModeOf(mode);
    if choice == Invalid then BadWorkMode(idx, employeeId)
    else
      var address := SelectedAddress(row, choice);
      if MissingAddress(address) then NoAddress(idx, employeeId, mode)
      else
        var a := Strip(address.value);
        var year := EffectiveYear(row, env);
        var start := Override(RegionalRules.Cell(row, "start_date"), env.fromIso, env.periodStart);
        var end := Override(RegionalRules.Cell(row, "end_date"), env.fromIso, env.periodEnd);
        Looked(idx, employeeId, mode, a, DetailsOf(env.lookup(a, year, start, end)))
  }

  /** What happens to a row: an invalid work mode gives an error record, a
      missing address for a valid one gives another, and otherwise the
      stripped selected address is looked up for the effective year and
      pay period. */
  lemma EnrichCases(idx: nat, row: RegionalRules.CsvRow, env: Env)
    ensures var e := Enrich(idx, row, env);
      var mode := WorkMode(row);
      (e.BadWorkMode? <==> mode != "OFFICE" && mode != "HOME")
      && (e.NoAddress? <==>
            (mode == "OFFICE" && MissingAddress(AddressCell(row, "office_address")))
            || (mode == "HOME" && MissingAddress(AddressCell(row, "home_address"))))
      && (e.Looked? ==>
            var address := if mode == "OFFICE" then AddressCell(row, "office_address") else AddressCell(row, "home_address");
            var start := Override(RegionalRules.Cell(row, "start_date"), env.fromIso, env.periodStart);
            var end := Override(RegionalRules.Cell(row, "end_date"), env.fromIso, env.periodEnd);
            address.Some? && e.inputAddress == Strip(address.value) && e.inputAddress != ""
            && e.workMode == mode
            && e.details == DetailsOf(env.lookup(e.inputAddress, EffectiveYear(row, env), start, end)))
  {
  }

  /** Whichever way the lookup returns, its in-period count is the length
      of its in-period list and its pay period echoes the dates it was
      given. */
  lemma RenderShape(address: string, o: Service.Outcome, start: Option<CivilDate>, end: Option<CivilDate>)
    ensures var r := Service.Render(address, o, start, end);
      r.holidayCountInPeriod == |r.holidaysInPeriod|
      && r.payPeriodStart == Service.IsoOrNone(start) && r.payPeriodEnd == Service.IsoOrNone(end)
  {
  }

  /** The cells of a looked-up record: the review flag is set exactly when
      the status is not OK, the confidence lies in [0, 1], the count is the
      number of holidays in the period, and the period cells hold the ISO
      dates the lookup was given, or "" when there was none. */
  lemma LookedCells(address: string, up: Service.Upstream, start: Option<CivilDate>, end: Option<CivilDate>)
    ensures var r := Service.Lookup(address, up, start, end);
      var d := DetailsOf(r);
      (d.manualReview <==> d.status != Service.StatusOk)
      && 0.0 <= d.confidence <= 1.0
      && d.holidayCountInPeriod == |r.holidaysInPeriod|
      && d.payPeriodStart == (if start.Some? then IsoFormat(start.value) else "")
      && d.payPeriodEnd == (if end.Some? then IsoFormat(end.value) else "")
  {
    Service.ResultIsFinal(address, up, start, end);
    RenderShape(address, Service.Run(address, up, start, end), start, end);
  }

  /** The body of the row loop, step by step. */
  method EnrichRow(idx: nat, row: RegionalRules.CsvRow, env: Env) returns (e: Enriched)
    ensures e == Enrich(idx, row, env)
  {
    var employeeId := RegionalRules.Cell(row, "employee_id");
    var mode := WorkMode(row);
    var address: Option<string>;
    if mode == "OFFICE" {
      address := AddressCell(row, "office_address");
    } else if mode == "HOME" {
      address := AddressCell(row, "home_address");
    } else {
      return BadWorkMode(idx, employeeId);
    }
    if address.None? || Strip(address.value) == "" {
      return NoAddress(idx, employeeId, mode);
    }
    var year := EffectiveYear(row, env);
    var start := Override(RegionalRules.Cell(row, "start_date"), env.fromIso, env.periodStart);
    var end := Override(RegionalRules.Cell(row, "end_date"), env.fromIso, env.periodEnd);
    var a := Strip(address.value);
    var r := env.lookup(a, year, start, end);
    var hs := r.holidaysInPeriod;
    var dates := SortedDates(hs);
    var namesByDate := CollectNames(hs);
    var names := AlignedNames(dates, namesByDate);
    e := Looked(idx, employeeId, mode, a,
                Details(r.formattedAddress, r.state, r.postcode, r.locality, r.lga,
                        OrEmpty(r.payPeriodStart), OrEmpty(r.payPeriodEnd), r.holidayCountInPeriod,
                        Join(dates, "; "), Join(names, "; "),
                        r.audit.status, r.audit.manualReview, r.audit.confidence, r.audit.auditMessage,
                        OrElse(r.audit.geocodeQuality, None), r.audit.lgaResolutionMethod,
                        Join(r.audit.rulesApplied, "; "), r.audit.replacementApplied));
  }

  // ---------------------------------------------------------------------
  // The batch
  // ---------------------------------------------------------------------

  /** `enriched_rows` after the row loop. */
  function EnrichAll(rows: seq<RegionalRules.CsvRow>, env: Env): (r: seq<Enriched>)
    ensures |r| == |rows|
  {
    MapIndexed(rows, (i: nat, row: RegionalRules.CsvRow) => Enrich(i, row, env))
  }

  /** Exactly one record per input row, in input order, each numbered by
      its index. */
  lemma OneRecordPerRow(rows: seq<RegionalRules.CsvRow>, env: Env)
    ensures var out := EnrichAll(rows, env);
      |out| == |rows|
      && forall i :: 0 <= i < |rows| ==> out[i] == Enrich(i, rows[i], env) && out[i].row == i
  {
    MapIndexedAt(rows, (i: nat, row: RegionalRules.CsvRow) => Enrich(i, row, env));
  }

  /** With the orchestrator as the runner's lookup (`up` gives the upstream
      answers for an address and a year), every looked-up record flags manual
      review exactly when its status is not OK, has a confidence in [0, 1],
      counts the dates it lists, and echoes the row's effective pay period. */
  lemma OrchestratorLookup(rows: seq<RegionalRules.CsvRow>, env: Env, up: (string, int) -> Service.Upstream, i: nat)
    requires i < |rows|
    requires forall a, y, s, t :: env.lookup(a, y, s, t) == Service.Lookup(a, up(a, y), s, t)
    ensures var e := EnrichAll(rows, env)[i];
      var start := Override(RegionalRules.Cell(rows[i], "start_date"), env.fromIso, env.periodStart);
      var end := Override(RegionalRules.Cell(rows[i], "end_date"), env.fromIso, env.periodEnd);
      e.Looked? ==>
        (e.details.manualReview <==> e.details.status != Service.StatusOk)
        && 0.0 <= e.details.confidence <= 1.0
        && e.details.payPeriodStart == (if start.Some? then IsoFormat(start.value) else "")
        && e.details.payPeriodEnd == (if end.Some? then IsoFormat(end.value) else "")
  {
    OneRecordPerRow(rows, env);
    var e := EnrichAll(rows, env)[i];
    EnrichCases(i, rows[i], env);
    if e.Looked? {
      var start := Override(RegionalRules.Cell(rows[i], "start_date"), env.fromIso, env.periodStart);
      var end := Override(RegionalRules.Cell(rows[i], "end_date"), env.fromIso, env.periodEnd);
      var y := EffectiveYear(rows[i], env);
      LookedCells(e.inputAddress, up(e.inputAddress, y), start, end);
    }
  }

  /** The union of the keys of the records. */
  function AllColumns(es: seq<Enriched>): set<Column> {
    if es == [] then {} else AllColumns(es[..|es| - 1]) + ColumnsOf(es[|es| - 1])
  }

  /** A column is in the header exactly when some record has it. */
  lemma {:induction false} AllColumnsIsUnion(es: seq<Enriched>, c: Column)
    ensures c in AllColumns(es) <==> exists i :: 0 <= i < |es| && c in ColumnsOf(es[i])
    decreases |es|
  {
    if es != [] {
      var init := es[..|es| - 1];
      AllColumnsIsUnion(init, c);
      if exists i :: 0 <= i < |es| && c in ColumnsOf(es[i]) {
        var i :| 0 <= i < |es| && c in ColumnsOf(es[i]);
        if i < |init| {
          assert c in ColumnsOf(init[i]);
        }
      }
      if exists i :: 0 <= i < |init| && c in ColumnsOf(init[i]) {
        var i :| 0 <= i < |init| && c in ColumnsOf(init[i]);
        assert es[i] == init[i];
      }
    }
  }

  /** The `fieldname_set.update` loop. */
  method CollectColumns(es: seq<Enriched>) returns (columns: set<Column>)
    ensures columns == AllColumns(es)
  {
    columns := {};
    for i := 0 to |es|
      invariant columns == AllColumns(es[..i])
    {
      assert es[..i + 1][..i] == es[..i];
      columns := columns + ColumnsOf(es[i]);
    }
    assert es[..|es|] == es;
  }

  /** The header the output file gets: the input's own header for an empty
      input, otherwise the union of the record keys (in the arbitrary order
      of a Python set). */
  datatype Header = InputHeader(names: seq<string>) | Union(columns: set<Column>)

  datatype Output = Output(header: Header, records: seq<Enriched>)

  function RunBatch(rows: seq<RegionalRules.CsvRow>, inputHeader: seq<string>, env: Env): Output {
    if rows == [] then Output(InputHeader(inputHeader), [])
    else
      var es := EnrichAll(rows, env);
      Output(Union(AllColumns(es)), es)
  }

  /** Every non-empty batch has a "row" and an "employee_id" column; it has
      an "error" column exactly when some row was rejected, and the lookup
      columns exactly when some row was looked up. */
  lemma HeaderColumns(rows: seq<RegionalRules.CsvRow>, inputHeader: seq<string>, env: Env)
    requires rows != []
    ensures var out := RunBatch(rows, inputHeader, env);
      out.header.Union?
      && RowIndex in out.header.columns && EmployeeId in out.header.columns
      && (ErrorText in out.header.columns <==> exists i :: 0 <= i < |out.records| && !out.records[i].Looked?)
      && (Status in out.header.columns <==> exists i :: 0 <= i < |out.records| && out.records[i].Looked?)
  {
    var es := EnrichAll(rows, env);
    AllColumnsIsUnion(es, RowIndex);
    AllColumnsIsUnion(es, EmployeeId);
    AllColumnsIsUnion(es, ErrorText);
    AllColumnsIsUnion(es, Status);
    ColumnsOfCases(es[0]);
    forall i | 0 <= i < |es|
      ensures ErrorText in ColumnsOf(es[i]) <==> !es[i].Looked?
      ensures Status in ColumnsOf(es[i]) <==> es[i].Looked?
    {
      ColumnsOfCases(es[i]);
    }
  }

  /** `run_public_holiday_batch`, from the rows read to the header and
      records written. */
  method RunPublicHolidayBatch(rows: seq<RegionalRules.CsvRow>, inputHeader: seq<string>, env: Env)
    returns (out: Output)
    ensures out == RunBatch(rows, inputHeader, env)
  {
    if rows == [] {
      return Output(InputHeader(inputHeader), []);
    }
    var enriched: seq<Enriched> := [];
    for idx := 0 to |rows|
      invariant enriched == EnrichAll(rows[..idx], env)
    {
      assert rows[..idx + 1][..idx] == rows[..idx];
      var e := EnrichRow(idx, rows[idx], env);
      enriched := enriched + [e];
    }
    assert rows[..|rows|] == rows;
    var columns := CollectColumns(enriched);
    out := Output(Union(columns), enriched);
  }
}
