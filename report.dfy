/** The deterministic part of the Markdown compliance report: reading the
    normalised findings rows, the status order and the status-to-severity
    mapping, the counters of `summarise`, the Markdown table helper, and the
    holiday-date frequencies of the applicability overview. Reading and
    writing files, date and float formatting and the prose of the report are
    not part of this model. */
module Report {
  import opened Wrappers
  import opened Text
  import opened Seqs
  import opened AssocLists
  import RegionalRules
  import Service
  import Calendar

  // ---------------------------------------------------------------------
  // Cell values
  // ---------------------------------------------------------------------

  /** The spellings `_as_bool` accepts, after strip and lower. */
  const TrueSpellings: set<string> := {"true", "1", "yes", "y", "t"}

  /** `_as_bool(value)` for a CSV cell (`None` when the column is missing). */
  predicate AsBool(value: Option<string>) {
    value.Some? && Lower(Strip(value.value)) in TrueSpellings
  }

  /** `str(b)` of a Python bool, which is what `csv.DictWriter` writes. */
  function PyBool(b: bool): string {
    if b then "True" else "False"
  }

  /** The review flag the batch writes is read back unchanged. */
  lemma AsBoolReadsPyBool(b: bool)
    ensures AsBool(Some(PyBool(b))) == b
  {
    assert AsciiWord(PyBool(b));
    AsciiWordIsTrimmed(PyBool(b));
    StripTrimmed(PyBool(b));
    if b {
      assert Lower("True") == "true";
    } else {
      assert Lower("False") == "false";
      assert "false" !in TrueSpellings;
    }
  }

  /** Neither case nor surrounding whitespace changes the verdict. */
  lemma AsBoolIgnoresCaseAndPadding(s: string)
    ensures AsBool(Some(Upper(s))) == AsBool(Some(s))
    ensures AsBool(Some(Strip(s))) == AsBool(Some(s))
  {
    StripUpper(s);
    LowerOfUpper(Strip(s));
    StripIdempotent(s);
  }

  /** `_clean(value)` */
  function Clean(value: Option<string>): (r: string)
    ensures Trimmed(r)
    ensures value.None? ==> r == ""
  {
    if value.None? then "" else StripIsTrimmed(value.value); Strip(value.value)
  }

  lemma CleanIdempotent(value: Option<string>)
    ensures Clean(Some(Clean(value))) == Clean(value)
  {
    StripTrimmed(Clean(value));
  }

  // ---------------------------------------------------------------------
  // Status order and severity
  // ---------------------------------------------------------------------

  /** `STATUS_ORDER` */
  const StatusOrder: seq<string> :=
    ["NOT_FOUND", "LOW_CONFIDENCE", "REVIEW_REQUIRED", "MISMATCH", "OK", "INFO"]

  /** Index of the first `x` in `xs`, or `|xs|`. */
  function Position(xs: seq<string>, x: string): (i: nat)
    ensures i <= |xs|
    ensures i < |xs| <==> x in xs
    ensures i < |xs| ==> xs[i] == x
    ensures forall j :: 0 <= j < i ==> xs[j] != x
  {
    if xs == [] then 0 else if xs[0] == x then 0 else 1 + Position(xs[1..], x)
  }

  /** `_status_sort_key(status)`: the position in `STATUS_ORDER` of the
      stripped status, or 999 for a status not listed, then the status. */
  function StatusSortKey(status: string): (k: (int, string))
    ensures k.1 == Strip(status)
    ensures k.1 in StatusOrder ==> 0 <= k.0 < |StatusOrder| && StatusOrder[k.0] == k.1
    ensures k.1 !in StatusOrder ==> k.0 == 999
  {
    var s := Strip(status);
    if s in StatusOrder then (Position(StatusOrder, s), s) else (999, s)
  }

  /** Python's order on `(int, str)` tuples. */
  predicate KeyLe(a: (int, string), b: (int, string)) {
    a.0 < b.0 || (a.0 == b.0 && StrLe(a.1, b.1))
  }

  /** The order of `sorted(by_status.items(), key=lambda kv: _status_sort_key(kv[0]))`. */
  function ByStatusLe(): ((string, nat), (string, nat)) -> bool {
    (a: (string, nat), b: (string, nat)) => KeyLe(StatusSortKey(a.0), StatusSortKey(b.0))
  }

  lemma ByStatusLeIsTotalPreorder()
    ensures TotalPreorder(ByStatusLe())
  {
    var le := ByStatusLe();
    forall a: (string, nat), b: (string, nat)
      ensures le(a, b) || le(b, a)
    {
      StrLeTotal(StatusSortKey(a.0).1, StatusSortKey(b.0).1);
    }
    forall a: (string, nat), b: (string, nat), c: (string, nat) | le(a, b) && le(b, c)
      ensures le(a, c)
    {
      var ka, kb, kc := StatusSortKey(a.0), StatusSortKey(b.0), StatusSortKey(c.0);
      if ka.0 == kb.0 && kb.0 == kc.0 {
        StrLeTransitive(ka.1, kb.1, kc.1);
      }
    }
  }

  /** The four severities, in the order of the `by_sev` dictionary. */
  const SeverityNames: seq<string> := ["HIGH", "MED", "LOW", "INFO"]

  /** `_status_to_severity(status, manual_review)` */
  function StatusToSeverity(status: string, manualReview: bool): (sev: string)
    ensures sev in SeverityNames
  {
    SeverityOf(Upper(Strip(status)), manualReview)
  }

  /** The severity of a status already stripped and upper-cased. */
  function SeverityOf(s: string, manualReview: bool): string {
    if s == "NOT_FOUND" then "HIGH"
    else if s == "LOW_CONFIDENCE" then "MED"
    else if s == "REVIEW_REQUIRED" || s == "MISMATCH" then "MED"
    else if manualReview && (s == "OK" || s == "INFO" || s == "") then "LOW"
    else "INFO"
  }

  /** The mapping looks at the stripped, upper-cased status only. */
  lemma SeverityIgnoresCaseAndPadding(status: string, manualReview: bool)
    ensures StatusToSeverity(Upper(Strip(status)), manualReview) == StatusToSeverity(status, manualReview)
  {
    var t := Strip(status);
    StripIsTrimmed(status);
    UpperOfTrimmed(t);
    StripTrimmed(Upper(t));
    UpperIdempotent(t);
  }

  /** Every status the orchestrator emits is already stripped and upper-case. */
  lemma EngineStatusIsCanonical(s: string)
    requires Service.EngineStatus(s)
    ensures Trimmed(s) && IsUpper(s)
  {
    assert UpperWord(s);
    UpperWordIsCanonical(s);
  }

  /** A trimmed, upper-case status is its own canonical form, so the mapping
      sees it unchanged. */
  lemma CanonicalSeverity(s: string, manualReview: bool)
    requires Trimmed(s) && IsUpper(s)
    ensures StatusToSeverity(s, manualReview) == SeverityOf(s, manualReview)
  {
    StripTrimmed(s);
    UpperOfUpper(s);
  }

  /** The mapping on the statuses the orchestrator emits, spelled as they
      are emitted. */
  lemma EngineSeverityOf(s: string, manualReview: bool)
    requires Service.EngineStatus(s)
    ensures SeverityOf(s, manualReview) ==
      if s == Service.StatusNotFound then "HIGH"
      else if s == Service.StatusLowConfidence then "MED"
      else if s == Service.StatusOk && manualReview then "LOW"
      else "INFO"
  {
  }

  /** The severities of the statuses the orchestrator emits: an unresolved
      address is HIGH, a low-confidence one MED, an OK one LOW exactly when it
      is flagged for review, and every other status INFO, however it is
      flagged. */
  lemma SeverityOfEngineStatuses(s: string, manualReview: bool)
    requires Service.EngineStatus(s)
    ensures StatusToSeverity(s, manualReview) ==
      if s == Service.StatusNotFound then "HIGH"
      else if s == Service.StatusLowConfidence then "MED"
      else if s == Service.StatusOk && manualReview then "LOW"
      else "INFO"
  {
    EngineStatusIsCanonical(s);
    CanonicalSeverity(s, manualReview);
    EngineSeverityOf(s, manualReview);
  }

  /** The orchestrator flags a record for review exactly when its status is
      not OK, so no record it produces is ever of LOW severity. */
  lemma LookupIsNeverLow(address: string, up: Service.Upstream,
                         start: Option<Calendar.CivilDate>, end: Option<Calendar.CivilDate>)
    ensures var a := Service.Lookup(address, up, start, end).audit;
      StatusToSeverity(a.status, a.manualReview) != "LOW"
  {
    var a := Service.Lookup(address, up, start, end).audit;
    Service.ResultIsFinal(address, up, start, end);
    Service.LookupStatusIsEngine(address, up, start, end);
    SeverityOfEngineStatuses(a.status, a.manualReview);
  }

  // ---------------------------------------------------------------------
  // Findings rows
  // ---------------------------------------------------------------------

  /** A findings row after `load_findings`: the review flag parsed by
      `_as_bool`, the holiday count by `_safe_int`, other cells as read. */
  datatype Finding = Finding(
    status: Option<string>,
    manualReview: bool,
    holidayCount: int,
    payPeriodStart: Option<string>,
    payPeriodEnd: Option<string>,
    holidayDates: Option<string>)

  /** The normalisation `load_findings` applies to one CSV row; `safeInt`
      stands for `_safe_int`, which goes through `float`. */
  function LoadFinding(row: RegionalRules.CsvRow, safeInt: Option<string> -> int): (f: Finding)
    ensures f.manualReview == AsBool(RegionalRules.Cell(row, "manual_review"))
    ensures f.status == RegionalRules.Cell(row, "status")
    ensures f.holidayDates == RegionalRules.Cell(row, "holiday_dates_in_period")
    ensures f.holidayCount == safeInt(RegionalRules.Cell(row, "holiday_count_in_period"))
    ensures f.payPeriodStart == RegionalRules.Cell(row, "pay_period_start")
    ensures f.payPeriodEnd == RegionalRules.Cell(row, "pay_period_end")
  {
    Finding(RegionalRules.Cell(row, "status"), AsBool(RegionalRules.Cell(row, "manual_review")),
            safeInt(RegionalRules.Cell(row, "holiday_count_in_period")),
            RegionalRules.Cell(row, "pay_period_start"), RegionalRules.Cell(row, "pay_period_end"),
            RegionalRules.Cell(row, "holiday_dates_in_period"))
  }

  /** `_clean(r.get("status")) or "UNKNOWN"` */
  function StatusLabel(f: Finding): (s: string)
    ensures s != "" && Trimmed(s)
  {
    var s := Clean(f.status);
    if s == "" then "UNKNOWN" else s
  }

  function Severity(f: Finding): string {
    StatusToSeverity(StatusLabel(f), f.manualReview)
  }

  function HasLabel(status: string): Finding -> bool {
    (f: Finding) => StatusLabel(f) == status
  }

  function HasSeverity(sev: string): Finding -> bool {
    (f: Finding) => Severity(f) == sev
  }

  function UpperLabelIs(s: string): Finding -> bool {
    (f: Finding) => Upper(StatusLabel(f)) == s
  }

  function IsManual(): Finding -> bool {
    (f: Finding) => f.manualReview
  }

  function CountIs(n: int): Finding -> bool {
    (f: Finding) => f.holidayCount == n
  }

  // ---------------------------------------------------------------------
  // summarise: the status and severity counters
  // ---------------------------------------------------------------------

  /** The state of the first loop of `summarise`. */
  datatype Tally = Tally(byStatus: Dict<string, nat>, bySeverity: Dict<string, nat>,
                         notFound: nat, lowConfidence: nat)

  const NoSeverities: Dict<string, nat> := [("HIGH", 0), ("MED", 0), ("LOW", 0), ("INFO", 0)]

  /** One iteration of the first loop. */
  function Count(t: Tally, f: Finding): Tally {
    var status := StatusLabel(f);
    Tally(Inc(t.byStatus, status), Inc(t.bySeverity, Severity(f)),
          t.notFound + (if Upper(status) == "NOT_FOUND" then 1 else 0),
          t.lowConfidence + (if Upper(status) == "LOW_CONFIDENCE" then 1 else 0))
  }

  function TallyOf(fs: seq<Finding>): Tally {
    if fs == [] then Tally([], NoSeverities, 0, 0) else Count(TallyOf(fs[..|fs| - 1]), fs[|fs| - 1])
  }

  /** `by_status[status]` is the number of records with that status label. */
  lemma {:induction false} StatusCounts(fs: seq<Finding>, status: string)
    ensures CountOf(TallyOf(fs).byStatus, status) == |Filter(fs, HasLabel(status))|
    decreases |fs|
  {
    if fs != [] {
      var init := fs[..|fs| - 1];
      StatusCounts(init, status);
      IncGet(TallyOf(init).byStatus, StatusLabel(fs[|fs| - 1]), status);
      FilterLast(fs, HasLabel(status));
    }
  }

  /** A label is a key of `by_status` exactly when some record has it. */
  lemma {:induction false} StatusKeys(fs: seq<Finding>, status: string)
    ensures status in Keys(TallyOf(fs).byStatus) <==> |Filter(fs, HasLabel(status))| > 0
    decreases |fs|
  {
    if fs != [] {
      var init := fs[..|fs| - 1];
      StatusKeys(init, status);
      IncKeys(TallyOf(init).byStatus, StatusLabel(fs[|fs| - 1]));
      FilterLast(fs, HasLabel(status));
    }
  }

  /** The status counts add up to the number of records. */
  lemma {:induction false} StatusTotal(fs: seq<Finding>)
    ensures Sum(TallyOf(fs).byStatus) == |fs|
    decreases |fs|
  {
    if fs != [] {
      var init := fs[..|fs| - 1];
      StatusTotal(init);
      IncSum(TallyOf(init).byStatus, StatusLabel(fs[|fs| - 1]));
    }
  }

  /** `by_severity` keeps exactly the keys HIGH, MED, LOW, INFO in that order,
      each counting the records of that severity, and they add up to the
      number of records. */
  lemma {:induction false} SeverityCounts(fs: seq<Finding>, sev: string)
    ensures var d := TallyOf(fs).bySeverity;
      Keys(d) == SeverityNames
      && CountOf(d, sev) == |Filter(fs, HasSeverity(sev))|
      && Sum(d) == |fs|
    decreases |fs|
  {
    if fs == [] {
      assert Keys(NoSeverities) == SeverityNames;
    } else {
      var init := fs[..|fs| - 1];
      var d := TallyOf(init).bySeverity;
      var s := Severity(fs[|fs| - 1]);
      SeverityCounts(init, sev);
      IncGet(d, s, sev);
      IncKeys(d, s);
      IncSum(d, s);
      FilterLast(fs, HasSeverity(sev));
    }
  }

  /** The NOT_FOUND and LOW_CONFIDENCE counters count the records whose
      label upper-cases to those statuses. */
  lemma {:induction false} FlagCounts(fs: seq<Finding>)
    ensures TallyOf(fs).notFound == |Filter(fs, UpperLabelIs("NOT_FOUND"))|
    ensures TallyOf(fs).lowConfidence == |Filter(fs, UpperLabelIs("LOW_CONFIDENCE"))|
    decreases |fs|
  {
    if fs != [] {
      FlagCounts(fs[..|fs| - 1]);
      FilterLast(fs, UpperLabelIs("NOT_FOUND"));
      FilterLast(fs, UpperLabelIs("LOW_CONFIDENCE"));
    }
  }

  // ---------------------------------------------------------------------
  // summarise: holiday-count buckets
  // ---------------------------------------------------------------------

  datatype Buckets = Buckets(zero: nat, one: nat, twoPlus: nat)

  /** One iteration of the second loop: any count other than 0 or 1,
      negative ones included, lands in the last bucket. */
  function Bucket(b: Buckets, f: Finding): Buckets {
    if f.holidayCount == 0 then b.(zero := b.zero + 1)
    else if f.holidayCount == 1 then b.(one := b.one + 1)
    else b.(twoPlus := b.twoPlus + 1)
  }

  function BucketsOf(fs: seq<Finding>): Buckets {
    if fs == [] then Buckets(0, 0, 0) else Bucket(BucketsOf(fs[..|fs| - 1]), fs[|fs| - 1])
  }

  /** The three buckets partition the records. */
  lemma {:induction false} BucketsPartition(fs: seq<Finding>)
    ensures var b := BucketsOf(fs);
      b.zero + b.one + b.twoPlus == |fs|
      && b.zero == |Filter(fs, CountIs(0))| && b.one == |Filter(fs, CountIs(1))|
    decreases |fs|
  {
    if fs != [] {
      BucketsPartition(fs[..|fs| - 1]);
      FilterLast(fs, CountIs(0));
      FilterLast(fs, CountIs(1));
    }
  }

  // ---------------------------------------------------------------------
  // summarise: the review period
  // ---------------------------------------------------------------------

  /** The cleaned start dates, one per record. */
  function Starts(fs: seq<Finding>): (r: seq<string>)
    ensures |r| == |fs| && forall i :: 0 <= i < |fs| ==> r[i] == Clean(fs[i].payPeriodStart)
  {
    if fs == [] then [] else Starts(fs[..|fs| - 1]) + [Clean(fs[|fs| - 1].payPeriodStart)]
  }

  /** The cleaned end dates, one per record. */
  function Ends(fs: seq<Finding>): (r: seq<string>)
    ensures |r| == |fs| && forall i :: 0 <= i < |fs| ==> r[i] == Clean(fs[i].payPeriodEnd)
  {
    if fs == [] then [] else Ends(fs[..|fs| - 1]) + [Clean(fs[|fs| - 1].payPeriodEnd)]
  }

  /** `sorted({x for x in xs if x})[0]`, or "" when every `x` is empty. */
  function Least(xs: seq<string>): string {
    if xs == [] then ""
    else
      var m := Least(xs[..|xs| - 1]);
      var x := xs[|xs| - 1];
      if x == "" then m else if m == "" || StrLt(x, m) then x else m
  }

  /** `sorted({x for x in xs if x})[-1]`, or "" when every `x` is empty. */
  function Greatest(xs: seq<string>): string {
    if xs == [] then ""
    else
      var m := Greatest(xs[..|xs| - 1]);
      var x := xs[|xs| - 1];
      if x == "" then m else if m == "" || StrLt(m, x) then x else m
  }

  lemma {:induction false} LeastIsLeast(xs: seq<string>)
    ensures Least(xs) == "" <==> forall i :: 0 <= i < |xs| ==> xs[i] == ""
    ensures Least(xs) != "" ==> Least(xs) in xs
    ensures forall i :: 0 <= i < |xs| && xs[i] != "" ==> StrLe(Least(xs), xs[i])
    decreases |xs|
  {
    if xs != [] {
      var init := xs[..|xs| - 1];
      var m := Least(init);
      var x := xs[|xs| - 1];
      LeastIsLeast(init);
      if x != "" && m != "" {
        StrLtTrichotomy(x, m);
        forall i | 0 <= i < |init| && init[i] != ""
          ensures StrLe(Least(xs), init[i])
        {
          if StrLt(x, m) {
            StrLeTransitive(x, m, init[i]);
          }
        }
      }
      assert forall i :: 0 <= i < |init| ==> xs[i] == init[i];
    }
  }

  lemma {:induction false} GreatestIsGreatest(xs: seq<string>)
    ensures Greatest(xs) == "" <==> forall i :: 0 <= i < |xs| ==> xs[i] == ""
    ensures Greatest(xs) != "" ==> Greatest(xs) in xs
    ensures forall i :: 0 <= i < |xs| && xs[i] != "" ==> StrLe(xs[i], Greatest(xs))
    decreases |xs|
  {
    if xs != [] {
      var init := xs[..|xs| - 1];
      var m := Greatest(init);
      var x := xs[|xs| - 1];
      GreatestIsGreatest(init);
      if x != "" && m != "" {
        StrLtTrichotomy(x, m);
        forall i | 0 <= i < |init| && init[i] != ""
          ensures StrLe(init[i], Greatest(xs))
        {
          if StrLt(m, x) {
            StrLeTransitive(init[i], m, x);
          }
        }
      }
      assert forall i :: 0 <= i < |init| ==> xs[i] == init[i];
    }
  }

  // ---------------------------------------------------------------------
  // summarise: key messages
  // ---------------------------------------------------------------------

  /** One entry of `key_messages`; `Sentence` renders it. */
  datatype KeyMessage =
    | Opening
    | Outcomes(buckets: Buckets)
    | ManualCount(manual: nat)
    | NotFoundCount(notFound: nat)
    | LowConfidenceCount(lowConfidence: nat)
    | Closing

  /** The sentence `summarise` writes for each key message. */
  function Sentence(m: KeyMessage): string {
    match m
    case Opening =>
      "This review analysed public holiday applicability for employees during the review period "
      + "based on their recorded work location. Applicable national, state, and regional public "
      + "holidays were identified for each record."
    case Outcomes(b) =>
      "Public holiday outcomes in the review period: **" + NatToString(b.zero)
      + "** record(s) with **no public holidays**, **" + NatToString(b.one)
      + "** with **one public holiday**, and **" + NatToString(b.twoPlus)
      + "** with **two or more public holidays** in the applicable pay period."
    case ManualCount(n) =>
      "In **" + NatToString(n) + "** record(s), public holiday entitlement outcomes "
      + "**cannot yet be confidently confirmed** without further validation due to uncertainty "
      + "in the employee\U{2019}s applicable location."
    case NotFoundCount(n) =>
      "**" + NatToString(n) + "** record(s) could not be resolved to a valid location "
      + "(status **NOT_FOUND**) and require address correction before public holiday "
      + "entitlements can be validated."
    case LowConfidenceCount(n) =>
      "**" + NatToString(n) + "** record(s) were resolved with **low location certainty** "
      + "(status **LOW_CONFIDENCE**); manual validation of the applicable work location "
      + "is recommended before confirming entitlements."
    case Closing =>
      "Records flagged for manual review do not indicate an error, but highlight cases "
      + "where public holiday entitlement depends on confirmation of the employee\U{2019}s applicable work location."
  }

  /** The `key_messages` list. */
  function KeyMessages(total: nat, b: Buckets, manual: nat, notFound: nat, lowConfidence: nat): seq<KeyMessage> {
    (if total > 0 then [Opening, Outcomes(b)] else [])
    + (if manual > 0 then [ManualCount(manual)] else [])
    + (if notFound > 0 then [NotFoundCount(notFound)] else [])
    + (if lowConfidence > 0 then [LowConfidenceCount(lowConfidence)] else [])
    + [Closing]
  }

  /** The closing statement always comes last and only there; the two
      opening messages lead the list exactly when there are records; each
      count message is there exactly when its count is positive. */
  lemma KeyMessagesShape(total: nat, b: Buckets, manual: nat, notFound: nat, lowConfidence: nat)
    ensures var km := KeyMessages(total, b, manual, notFound, lowConfidence);
      |km| == 1 + (if total > 0 then 2 else 0) + (if manual > 0 then 1 else 0)
               + (if notFound > 0 then 1 else 0) + (if lowConfidence > 0 then 1 else 0)
      && km[|km| - 1] == Closing
      && (forall i :: 0 <= i < |km| - 1 ==> km[i] != Closing)
      && ((|km| >= 2 && km[0] == Opening && km[1] == Outcomes(b)) <==> total > 0)
      && (ManualCount(manual) in km <==> manual > 0)
      && (NotFoundCount(notFound) in km <==> notFound > 0)
      && (LowConfidenceCount(lowConfidence) in km <==> lowConfidence > 0)
  {
  }

  // ---------------------------------------------------------------------
  // summarise
  // ---------------------------------------------------------------------

  /** The dictionary `summarise` returns. */
  datatype Summary = Summary(
    periodStart: string,
    periodEnd: string,
    total: nat,
    manualReviewCount: nat,
    byStatus: Dict<string, nat>,
    bySeverity: Dict<string, nat>,
    keyMessages: seq<KeyMessage>)

  function SummaryOf(fs: seq<Finding>): Summary {
    var t := TallyOf(fs);
    var manual := |Filter(fs, IsManual())|;
    Summary(Least(Starts(fs)), Greatest(Ends(fs)), |fs|, manual,
            Sort(t.byStatus, ByStatusLe()), t.bySeverity,
            KeyMessages(|fs|, BucketsOf(fs), manual, t.notFound, t.lowConfidence))
  }

  /** The first loop of `summarise`: the status and severity counters and
      the NOT_FOUND and LOW_CONFIDENCE tallies. */
  method CountFindings(fs: seq<Finding>) returns (t: Tally)
    ensures t == TallyOf(fs)
  {
    t := Tally([], NoSeverities, 0, 0);
    for i := 0 to |fs|
      invariant t == TallyOf(fs[..i])
    {
      assert fs[..i + 1][..i] == fs[..i];
      t := CountFinding(t, fs[i]);
    }
    assert fs[..|fs|] == fs;
  }

  /** The body of the first loop: the four counters updated for one record. */
  method CountFinding(t: Tally, f: Finding) returns (t': Tally)
    ensures t' == Count(t, f)
  {
    var byStatus, bySeverity, notFound, lowConfidence := t.byStatus, t.bySeverity, t.notFound, t.lowConfidence;
    var status := StatusLabel(f);
    byStatus := Inc(byStatus, status);
    bySeverity := Inc(bySeverity, StatusToSeverity(status, f.manualReview));
    if Upper(status) == "NOT_FOUND" {
      notFound := notFound + 1;
    }
    if Upper(status) == "LOW_CONFIDENCE" {
      lowConfidence := lowConfidence + 1;
    }
    t' := Tally(byStatus, bySeverity, notFound, lowConfidence);
  }

  /** The second loop of `summarise`: the holiday-count buckets. */
  method BucketFindings(fs: seq<Finding>) returns (buckets: Buckets)
    ensures buckets == BucketsOf(fs)
  {
    buckets := Buckets(0, 0, 0);
    for i := 0 to |fs|
      invariant buckets == BucketsOf(fs[..i])
    {
      assert fs[..i + 1][..i] == fs[..i];
      if fs[i].holidayCount == 0 {
        buckets := buckets.(zero := buckets.zero + 1);
      } else if fs[i].holidayCount == 1 {
        buckets := buckets.(one := buckets.one + 1);
      } else {
        buckets := buckets.(twoPlus := buckets.twoPlus + 1);
      }
    }
    assert fs[..|fs|] == fs;
  }

  /** `summarise(findings)` */
  method Summarise(fs: seq<Finding>) returns (s: Summary)
    ensures s == SummaryOf(fs)
  {
    var t := CountFindings(fs);
    var buckets := BucketFindings(fs);
    var manual := |Filter(fs, IsManual())|;
    s := Summary(Least(Starts(fs)), Greatest(Ends(fs)), |fs|, manual,
                 Sort(t.byStatus, ByStatusLe()), t.bySeverity,
                 KeyMessages(|fs|, buckets, manual, t.notFound, t.lowConfidence));
  }

  lemma {:induction false} SumInsert(x: (string, nat), d: Dict<string, nat>, le: ((string, nat), (string, nat)) -> bool)
    ensures Sum(Insert(x, d, le)) == x.1 + Sum(d)
    decreases |d|
  {
    if d != [] && le(d[0], x) {
      SumInsert(x, d[1..], le);
      assert Insert(x, d, le)[1..] == Insert(x, d[1..], le);
    }
  }

  lemma {:induction false} SumSort(d: Dict<string, nat>, le: ((string, nat), (string, nat)) -> bool)
    ensures Sum(Sort(d, le)) == Sum(d)
    decreases |d|
  {
    if d != [] {
      var init := d[..|d| - 1];
      SumSort(init, le);
      SumInsert(d[|d| - 1], Sort(init, le), le);
      SumSnoc(init, d[|d| - 1]);
      assert d == init + [d[|d| - 1]];
    }
  }

  lemma {:induction false} SumSnoc(d: Dict<string, nat>, x: (string, nat))
    ensures Sum(d + [x]) == Sum(d) + x.1
    decreases |d|
  {
    if d != [] {
      SumSnoc(d[1..], x);
      assert (d + [x])[1..] == d[1..] + [x];
    }
  }

  /** The status table of the summary is the status counter in
      `STATUS_ORDER` order, statuses with the same sort key staying in the
      order they were first counted, and it still adds up to the number of
      records. */
  lemma SummaryByStatus(fs: seq<Finding>)
    ensures var s := SummaryOf(fs);
      multiset(s.byStatus) == multiset(TallyOf(fs).byStatus)
      && SortedBy(s.byStatus, ByStatusLe())
      && Sum(s.byStatus) == s.total
    ensures forall e :: Filter(SummaryOf(fs).byStatus, Tied(ByStatusLe(), e))
                     == Filter(TallyOf(fs).byStatus, Tied(ByStatusLe(), e))
  {
    var d := TallyOf(fs).byStatus;
    SortPermutes(d, ByStatusLe());
    ByStatusLeIsTotalPreorder();
    SortSorted(d, ByStatusLe());
    forall e {
      SortStable(d, ByStatusLe(), e);
    }
    SumSort(d, ByStatusLe());
    StatusTotal(fs);
  }

  /** The review period of the summary: the least non-empty start and the
      greatest non-empty end, each "" when no record has one. */
  lemma SummaryPeriod(fs: seq<Finding>)
    ensures var s := SummaryOf(fs);
      (s.periodStart == "" <==> forall i :: 0 <= i < |fs| ==> Clean(fs[i].payPeriodStart) == "")
      && (s.periodStart != "" ==> exists i :: 0 <= i < |fs| && Clean(fs[i].payPeriodStart) == s.periodStart)
      && (forall i :: 0 <= i < |fs| && Clean(fs[i].payPeriodStart) != "" ==> StrLe(s.periodStart, Clean(fs[i].payPeriodStart)))
      && (s.periodEnd == "" <==> forall i :: 0 <= i < |fs| ==> Clean(fs[i].payPeriodEnd) == "")
      && (s.periodEnd != "" ==> exists i :: 0 <= i < |fs| && Clean(fs[i].payPeriodEnd) == s.periodEnd)
      && (forall i :: 0 <= i < |fs| && Clean(fs[i].payPeriodEnd) != "" ==> StrLe(Clean(fs[i].payPeriodEnd), s.periodEnd))
  {
    LeastIsLeast(Starts(fs));
    GreatestIsGreatest(Ends(fs));
  }

  /** The key messages of the summary: closing statement last, the opening
      pair exactly when there are records, the outcome counts of the
      buckets, which partition the records. */
  lemma SummaryMessages(fs: seq<Finding>)
    ensures var s := SummaryOf(fs);
      var km := s.keyMessages;
      km[|km| - 1] == Closing
      && ((|km| >= 2 && km[0] == Opening && km[1] == Outcomes(BucketsOf(fs))) <==> |fs| > 0)
      && (NotFoundCount(|Filter(fs, UpperLabelIs("NOT_FOUND"))|) in km <==> |Filter(fs, UpperLabelIs("NOT_FOUND"))| > 0)
      && (LowConfidenceCount(|Filter(fs, UpperLabelIs("LOW_CONFIDENCE"))|) in km
          <==> |Filter(fs, UpperLabelIs("LOW_CONFIDENCE"))| > 0)
      && BucketsOf(fs).zero + BucketsOf(fs).one + BucketsOf(fs).twoPlus == s.total
  {
    var t := TallyOf(fs);
    KeyMessagesShape(|fs|, BucketsOf(fs), |Filter(fs, IsManual())|, t.notFound, t.lowConfidence);
    BucketsPartition(fs);
    FlagCounts(fs);
  }

  // ---------------------------------------------------------------------
  // _md_table
  // ---------------------------------------------------------------------

  /** `"| " + " | ".join(cells) + " |"` */
  function TableRow(cells: seq<string>): string {
    "| " + Join(cells, " | ") + " |"
  }

  /** `["---"] * n` */
  function Dashes(n: nat): (r: seq<string>)
    ensures |r| == n && forall i :: 0 <= i < n ==> r[i] == "---"
  {
    if n == 0 then [] else Dashes(n - 1) + ["---"]
  }

  function RowLines(rows: seq<seq<string>>): (r: seq<string>)
    ensures |r| == |rows| && forall k :: 0 <= k < |rows| ==> r[k] == TableRow(rows[k])
  {
    if rows == [] then [] else RowLines(rows[..|rows| - 1]) + [TableRow(rows[|rows| - 1])]
  }

  /** The lines of the table: header, separator, one line per row. */
  function TableLines(headers: seq<string>, rows: seq<seq<string>>): seq<string> {
    [TableRow(headers), TableRow(Dashes(|headers|))] + RowLines(rows)
  }

  /** `_md_table(headers, rows)` */
  method MdTable(headers: seq<string>, rows: seq<seq<string>>) returns (md: string)
    ensures md == Join(TableLines(headers, rows), "\n")
  {
    var out := [TableRow(headers), TableRow(Dashes(|headers|))];
    for i := 0 to |rows|
      invariant out == [TableRow(headers), TableRow(Dashes(|headers|))] + RowLines(rows[..i])
    {
      assert rows[..i + 1][..i] == rows[..i];
      out := out + [TableRow(rows[i])];
    }
    assert rows[..|rows|] == rows;
    md := Join(out, "\n");
  }

  lemma {:induction false} JoinExcludes(ws: seq<string>, sep: string, c: char)
    requires Excludes(sep, c)
    requires forall k :: 0 <= k < |ws| ==> Excludes(ws[k], c)
    ensures Excludes(Join(ws, sep), c)
    decreases |ws|
  {
    if |ws| > 1 {
      JoinExcludes(ws[1..], sep, c);
      var rest := Join(ws[1..], sep);
      assert Join(ws, sep) == ws[0] + sep + rest;
      forall i | 0 <= i < |Join(ws, sep)|
        ensures Join(ws, sep)[i] != c
      {
        if i < |ws[0]| {
        } else if i < |ws[0]| + |sep| {
          assert Join(ws, sep)[i] == sep[i - |ws[0]|];
        } else {
          assert Join(ws, sep)[i] == rest[i - |ws[0]| - |sep|];
        }
      }
    }
  }

  predicate NoNewline(cells: seq<string>) {
    forall k :: 0 <= k < |cells| ==> Excludes(cells[k], '\n')
  }

  lemma TableRowExcludes(cells: seq<string>)
    requires NoNewline(cells)
    ensures Excludes(TableRow(cells), '\n')
  {
    JoinExcludes(cells, " | ", '\n');
  }

  /** Split at its line breaks, a table whose cells hold no line break gives
      back `2 + |rows|` lines: the header, a separator of `|headers|` "---"
      cells, and the rows in order. */
  lemma MdTableLines(headers: seq<string>, rows: seq<seq<string>>)
    requires NoNewline(headers)
    requires forall k :: 0 <= k < |rows| ==> NoNewline(rows[k])
    ensures var lines := SplitOn(Join(TableLines(headers, rows), "\n"), '\n');
      |lines| == 2 + |rows|
      && lines[0] == TableRow(headers)
      && lines[1] == TableRow(Dashes(|headers|))
      && forall k :: 0 <= k < |rows| ==> lines[k + 2] == TableRow(rows[k])
  {
    TableLinesExclude(headers, rows);
    assert "\n" == ['\n'];
    SplitOnJoin(TableLines(headers, rows), '\n');
  }

  lemma TableLinesExclude(headers: seq<string>, rows: seq<seq<string>>)
    requires NoNewline(headers)
    requires forall k :: 0 <= k < |rows| ==> NoNewline(rows[k])
    ensures forall k :: 0 <= k < |TableLines(headers, rows)| ==> Excludes(TableLines(headers, rows)[k], '\n')
  {
    var ls := TableLines(headers, rows);
    TableRowExcludes(headers);
    TableRowExcludes(Dashes(|headers|));
    forall k | 0 <= k < |ls|
      ensures Excludes(ls[k], '\n')
    {
      if k >= 2 {
        assert ls[k] == TableRow(rows[k - 2]);
        TableRowExcludes(rows[k - 2]);
      }
    }
  }

  // ---------------------------------------------------------------------
  // build_holiday_applicability_overview: date frequencies
  // ---------------------------------------------------------------------

  /** `[x.strip() for x in parts if x.strip()]` */
  function Tokens(parts: seq<string>): (r: seq<string>)
    ensures forall k :: 0 <= k < |r| ==> r[k] != "" && Trimmed(r[k])
  {
    if parts == [] then []
    else
      var t := Strip(parts[|parts| - 1]);
      StripIsTrimmed(parts[|parts| - 1]);
      Tokens(parts[..|parts| - 1]) + (if t != "" then [t] else [])
  }

  /** The dates a record lists, read as the inner loop of the overview
      reads them. */
  function DateTokens(f: Finding): seq<string> {
    var s := Strip(f.holidayDates.GetOr(""));
    if s == "" then [] else Tokens(SplitOn(s, ';'))
  }

  /** Every date token of every record, in order. */
  function AllTokens(fs: seq<Finding>): seq<string> {
    if fs == [] then [] else AllTokens(fs[..|fs| - 1]) + DateTokens(fs[|fs| - 1])
  }

  /** `freq[dt] = freq.get(dt, 0) + 1` for each token in turn. */
  function IncAll<K(==)>(d: Dict<K, nat>, ts: seq<K>): Dict<K, nat> {
    if ts == [] then d else Inc(IncAll(d, ts[..|ts| - 1]), ts[|ts| - 1])
  }

  /** The `freq` dictionary. */
  function Frequencies(fs: seq<Finding>): Dict<string, nat> {
    IncAll([], AllTokens(fs))
  }

  lemma {:induction false} IncAllAppend<K>(d: Dict<K, nat>, a: seq<K>, b: seq<K>)
    ensures IncAll(d, a + b) == IncAll(IncAll(d, a), b)
    decreases |b|
  {
    if b == [] {
      assert a + b == a;
    } else {
      var init := b[..|b| - 1];
      IncAllAppend(d, a, init);
      assert (a + b)[..|a + b| - 1] == a + init;
    }
  }

  /** The inner loop of the `freq` count: one increment per token. */
  method CountTokens(freq0: Dict<string, nat>, toks: seq<string>) returns (freq: Dict<string, nat>)
    ensures freq == IncAll(freq0, toks)
  {
    freq := freq0;
    for j := 0 to |toks|
      invariant freq == IncAll(freq0, toks[..j])
    {
      assert toks[..j + 1][..j] == toks[..j];
      freq := Inc(freq, toks[j]);
    }
    assert toks[..|toks|] == toks;
  }

  /** The `freq` loop of `build_holiday_applicability_overview`. */
  method CountHolidayDates(fs: seq<Finding>) returns (freq: Dict<string, nat>)
    ensures freq == Frequencies(fs)
  {
    freq := [];
    for i := 0 to |fs|
      invariant freq == IncAll([], AllTokens(fs[..i]))
    {
      assert fs[..i + 1][..i] == fs[..i];
      ghost var before := AllTokens(fs[..i]);
      assert AllTokens(fs[..i + 1]) == before + DateTokens(fs[i]);
      var s := Strip(fs[i].holidayDates.GetOr(""));
      if s == "" {
        assert before + DateTokens(fs[i]) == before;
        continue;
      }
      var toks := Tokens(SplitOn(s, ';'));
      IncAllAppend([], before, toks);
      freq := CountTokens(freq, toks);
    }
    assert fs[..|fs|] == fs;
  }

  function IsToken<K(==)>(t: K): K -> bool {
    (x: K) => x == t
  }

  /** After counting the tokens `ts`, the count of `t` has grown by the
      number of times `t` occurs in `ts`. */
  lemma {:induction false} IncAllGet<K>(d: Dict<K, nat>, ts: seq<K>, t: K)
    ensures CountOf(IncAll(d, ts), t) == CountOf(d, t) + |Filter(ts, IsToken(t))|
    decreases |ts|
  {
    if ts != [] {
      var init := ts[..|ts| - 1];
      IncAllGet(d, init, t);
      IncGet(IncAll(d, init), ts[|ts| - 1], t);
      FilterLast(ts, IsToken(t));
    }
  }

  /** Counting the tokens `ts` adds exactly the tokens as keys. */
  lemma {:induction false} IncAllKeys<K>(d: Dict<K, nat>, ts: seq<K>, t: K)
    ensures t in Keys(IncAll(d, ts)) <==> t in Keys(d) || t in ts
    decreases |ts|
  {
    if ts != [] {
      var init, last := ts[..|ts| - 1], ts[|ts| - 1];
      var e := IncAll(d, init);
      IncAllKeys(d, init, t);
      assert t in Keys(IncAll(d, ts)) <==> t in Keys(e) || t == last by {
        IncKeys(e, last);
      }
      assert t in ts <==> t in init || t == last by {
        assert ts == init + [last];
      }
    }
  }

  /** Counting never duplicates a key. */
  lemma {:induction false} IncAllDistinct<K>(d: Dict<K, nat>, ts: seq<K>)
    requires DistinctKeys(d)
    ensures DistinctKeys(IncAll(d, ts))
    decreases |ts|
  {
    if ts != [] {
      var init := ts[..|ts| - 1];
      var e := IncAll(d, init);
      IncAllDistinct(d, init);
      PutKeepsDistinct<K, nat>(e, ts[|ts| - 1], CountOf(e, ts[|ts| - 1]) + 1);
    }
  }

  /** `freq[t]` counts the occurrences of `t` among the tokens of all
      records, a date is a key exactly when some record lists it, and keys
      are distinct. */
  lemma FrequenciesCount(fs: seq<Finding>, t: string)
    ensures var freq := Frequencies(fs);
      CountOf(freq, t) == |Filter(AllTokens(fs), IsToken(t))|
      && (t in Keys(freq) <==> t in AllTokens(fs))
      && DistinctKeys(freq)
  {
    IncAllGet([], AllTokens(fs), t);
    IncAllKeys([], AllTokens(fs), t);
    IncAllDistinct([], AllTokens(fs));
  }

  /** `key=lambda x: (-x[1], x[0])`: more records first, then by date. */
  function TopLe(): ((string, nat), (string, nat)) -> bool {
    (a: (string, nat), b: (string, nat)) => a.1 > b.1 || (a.1 == b.1 && StrLe(a.0, b.0))
  }

  lemma TopLeIsTotalPreorder()
    ensures TotalPreorder(TopLe())
  {
    var le := TopLe();
    forall a: (string, nat), b: (string, nat)
      ensures le(a, b) || le(b, a)
    {
      StrLeTotal(a.0, b.0);
    }
    forall a: (string, nat), b: (string, nat), c: (string, nat) | le(a, b) && le(b, c)
      ensures le(a, c)
    {
      if a.1 == b.1 && b.1 == c.1 {
        StrLeTransitive(a.0, b.0, c.0);
      }
    }
  }

  /** `sorted(freq.items(), key=...)[:10]` */
  function TopDates(freq: Dict<string, nat>): seq<(string, nat)> {
    Take(Sort(freq, TopLe()), 10)
  }

  /** The top list has at most ten entries, all from `freq`, in order of
      count descending then date ascending, and no entry left out ranks
      above any entry kept. */
  lemma TopDatesAreTop(freq: Dict<string, nat>)
    ensures var top := TopDates(freq);
      |top| == (if |freq| <= 10 then |freq| else 10)
      && SortedBy(top, TopLe())
      && (forall e :: e in top ==> e in freq)
      && (forall e :: e in freq && e !in top ==> forall i :: 0 <= i < |top| ==> TopLe()(top[i], e))
  {
    var s := Sort(freq, TopLe());
    var top := TopDates(freq);
    SortPermutes(freq, TopLe());
    TopLeIsTotalPreorder();
    SortSorted(freq, TopLe());
    assert top == s[..|top|];
    forall e | e in top
      ensures e in freq
    {
      assert e in multiset(s);
    }
    forall e | e in freq && e !in top
      ensures forall i :: 0 <= i < |top| ==> TopLe()(top[i], e)
    {
      assert e in multiset(s);
      var j :| 0 <= j < |s| && s[j] == e;
      assert forall k :: 0 <= k < |top| ==> s[k] != e;
    }
  }

  // ---------------------------------------------------------------------
  // build_holiday_applicability_overview: the metrics
  // ---------------------------------------------------------------------

  function CountAtLeast(n: int): Finding -> bool {
    (f: Finding) => f.holidayCount >= n
  }

  /** What the overview reports: nothing when there are no records,
      otherwise the metric table and the ten most common dates. */
  datatype Overview =
    | NoRecords
    | Metrics(total: nat, zero: nat, one: nat, twoPlus: nat, top: seq<(string, nat)>)

  function OverviewOf(fs: seq<Finding>): Overview {
    if fs == [] then NoRecords
    else Metrics(|fs|, |Filter(fs, CountIs(0))|, |Filter(fs, CountIs(1))|,
                 |Filter(fs, CountAtLeast(2))|, TopDates(Frequencies(fs)))
  }

  /** `build_holiday_applicability_overview(findings)`, without its text. */
  method BuildOverview(fs: seq<Finding>) returns (o: Overview)
    ensures o == OverviewOf(fs)
  {
    if fs == [] {
      return NoRecords;
    }
    var freq := CountHolidayDates(fs);
    o := Metrics(|fs|, |Filter(fs, CountIs(0))|, |Filter(fs, CountIs(1))|,
                 |Filter(fs, CountAtLeast(2))|, TopDates(freq));
  }

  function CountBelow(n: int): Finding -> bool {
    (f: Finding) => f.holidayCount < n
  }

  /** Counts of 0, of 1, of 2 or more and negative counts partition the
      records. */
  lemma {:induction false} CountsPartition(fs: seq<Finding>)
    ensures |Filter(fs, CountIs(0))| + |Filter(fs, CountIs(1))| + |Filter(fs, CountAtLeast(2))|
            + |Filter(fs, CountBelow(0))| == |fs|
    decreases |fs|
  {
    if fs != [] {
      CountsPartition(fs[..|fs| - 1]);
      FilterLast(fs, CountIs(0));
      FilterLast(fs, CountIs(1));
      FilterLast(fs, CountAtLeast(2));
      FilterLast(fs, CountBelow(0));
    }
  }

  /** The overview agrees with the summary's buckets on zero and one; its
      "2+" row counts only counts of two or more, so the summary's "two or
      more" bucket exceeds it by exactly the records with a negative count. */
  lemma OverviewAgreesWithSummary(fs: seq<Finding>)
    requires fs != []
    ensures var o := OverviewOf(fs);
      var b := BucketsOf(fs);
      o.zero == b.zero && o.one == b.one
      && b.twoPlus == o.twoPlus + |Filter(fs, CountBelow(0))|
      && o.zero + o.one + o.twoPlus + |Filter(fs, CountBelow(0))| == o.total
  {
    BucketsPartition(fs);
    CountsPartition(fs);
  }
}
