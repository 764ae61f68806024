/** The lookup orchestrator: from an address to its resolved location, the
    public holidays that apply there and an audit trail whose status is one
    of OK, LOW_CONFIDENCE, AMBIGUOUS_LGA, NOT_FOUND, RULES_MISSING,
    UPSTREAM_UNAVAILABLE or ERROR.

    Every collaborator the orchestrator calls is an input (`Upstream`): the
    geocode outcome, the LGA point-in-polygon oracle, the holiday provider's
    reply for the year, the rows of the year's regional rules file, and the
    date parsers. The holiday filter, the rule loader, the rule matcher and
    the merge are the modelled ones. */
module Service {
  import opened Wrappers
  import opened Text
  import opened Seqs
  import opened Calendar
  import opened GeoDicts
  import opened HolidaysAu
  import opened RegionalRules
  import GeocodeCache
  import GeocodeGoogle

  const StatusOk := "OK"
  const StatusLowConfidence := "LOW_CONFIDENCE"
  const StatusAmbiguousLga := "AMBIGUOUS_LGA"
  const StatusNotFound := "NOT_FOUND"
  const StatusRulesMissing := "RULES_MISSING"
  const StatusUpstreamUnavailable := "UPSTREAM_UNAVAILABLE"
  const StatusError := "ERROR"

  /** The seven statuses above. */
  predicate EngineStatus(s: string) {
    s == StatusOk || s == StatusLowConfidence || s == StatusAmbiguousLga
    || s == StatusNotFound || s == StatusRulesMissing
    || s == StatusUpstreamUnavailable || s == StatusError
  }

  /** The confidence under which a result is downgraded, and LGA failures
      are reported as coming from a low-confidence geocode. */
  const Threshold: real := 0.7

  // ---------------------------------------------------------------------
  // Geocode quality and confidence
  // ---------------------------------------------------------------------

  /** `_confidence_from_geocode_quality(q)` */
  function ConfidenceFromQuality(q: Option<string>): (c: real)
    ensures c == 1.0 || c == 0.8 || c == 0.6 || c == 0.5 || c == 0.4
    ensures !Truthy(q) ==> c == 0.5
  {
    if !Truthy(q) then 0.5
    else
      var u := Upper(q.value);
      if u == "ROOFTOP" then 1.0
      else if u == "RANGE_INTERPOLATED" then 0.8
      else if u == "GEOMETRIC_CENTER" || u == "GEOMETRIC_CENTRE" then 0.6
      else if u == "APPROXIMATE" then 0.4
      else 0.5
  }

  /** The table does not depend on the letter case of the quality. */
  lemma ConfidenceIgnoresCase(q: string)
    ensures ConfidenceFromQuality(Some(Lower(q))) == ConfidenceFromQuality(Some(q))
    ensures ConfidenceFromQuality(Some(Upper(q))) == ConfidenceFromQuality(Some(q))
  {
    UpperOfLower(q);
    UpperIdempotent(q);
  }

  /** A rooftop geocode is fully trusted. */
  lemma RooftopConfidence()
    ensures ConfidenceFromQuality(Some("ROOFTOP")) == 1.0
  {
    assert Upper("ROOFTOP") == "ROOFTOP";
  }

  /** Only a rooftop or an interpolated geocode reaches the threshold. */
  lemma ConfidenceReachesThreshold(q: Option<string>)
    ensures ConfidenceFromQuality(q) >= Threshold <==>
      Truthy(q) && (Upper(q.value) == "ROOFTOP" || Upper(q.value) == "RANGE_INTERPOLATED")
  {
  }

  /** `geo.get("location_type") or geo.get("geocode_quality") or geo.get("quality") or None` */
  function Quality(g: GeoDict): (r: Option<string>)
    ensures r.None? || Truthy(r)
    ensures r.None? <==> !Truthy(g.locationType) && !Truthy(g.geocodeQuality) && !Truthy(g.quality)
    ensures Truthy(g.locationType) ==> r == g.locationType
    ensures r.Some? ==> r == g.locationType || r == g.geocodeQuality || r == g.quality
  {
    if Truthy(g.locationType) then g.locationType
    else if Truthy(g.geocodeQuality) then g.geocodeQuality
    else if Truthy(g.quality) then g.quality
    else None
  }

  // ---------------------------------------------------------------------
  // The audit record
  // ---------------------------------------------------------------------

  /** The `audit` dictionary. */
  datatype Audit = Audit(
    status: string,
    manualReview: bool,
    confidence: real,
    auditMessage: string,
    geocodeProvider: string,
    geocodeQuality: Option<string>,
    lgaResolutionMethod: Option<string>,
    rulesApplied: seq<string>,
    replacementApplied: Option<string>,
    inputAddress: string,
    error: Option<string>)

  /** `_init_audit(address)` */
  function InitAudit(address: string): (a: Audit)
    ensures a.status == StatusOk && a.confidence == 1.0 && a.inputAddress == address
    ensures a.rulesApplied == [] && a.error.None? && a.geocodeQuality.None?
  {
    Audit(StatusOk, false, 1.0, "", "google", None, None, [], None, address, None)
  }

  /** `max(0.0, min(1.0, float(raw)))`, where `None` stands for a value
      `float()` refuses, which the `except` branch turns into 0.0. */
  function Clamp01(raw: Option<real>): (c: real)
    ensures 0.0 <= c <= 1.0
    ensures raw.None? ==> c == 0.0
    ensures raw.Some? && 0.0 <= raw.value <= 1.0 ==> c == raw.value
    ensures raw.Some? && raw.value > 1.0 ==> c == 1.0
    ensures raw.Some? && raw.value < 0.0 ==> c == 0.0
  {
    if raw.None? then 0.0
    else if raw.value > 1.0 then 1.0
    else if raw.value < 0.0 then 0.0
    else raw.value
  }

  /** `_finalise_audit(audit)`: the review flag follows the status, the
      confidence is clamped to [0, 1], and nothing else changes. */
  function Finalised(a: Audit): (r: Audit)
    ensures r.manualReview <==> r.status != StatusOk
    ensures 0.0 <= r.confidence <= 1.0
    ensures 0.0 <= a.confidence <= 1.0 ==> r.confidence == a.confidence
    ensures r.(manualReview := a.manualReview, confidence := a.confidence) == a
  {
    a.(manualReview := a.status != StatusOk, confidence := Clamp01(Some(a.confidence)))
  }

  lemma FinaliseIdempotent(a: Audit)
    ensures Finalised(Finalised(a)) == Finalised(a)
  {
  }

  /** A fresh audit is already final: OK, not for review, confidence 1.0. */
  lemma InitAuditIsFinal(address: string)
    ensures Finalised(InitAudit(address)) == InitAudit(address)
  {
  }

  // ---------------------------------------------------------------------
  // Base holidays: default keys
  // ---------------------------------------------------------------------

  /** `h.setdefault(...)` of the four keys. */
  function WithDefaults(h: Holiday): (r: Holiday)
    ensures r.scope.Some? && r.isRegional.Some? && r.source.Some? && r.appliesTo.Some?
    ensures h.scope.Some? ==> r.scope == h.scope
    ensures h.isRegional.Some? ==> r.isRegional == h.isRegional
    ensures h.source.Some? ==> r.source == h.source
    ensures h.appliesTo.Some? ==> r.appliesTo == h.appliesTo
    ensures h.scope.None? ==> r.scope == Some("FULL_DAY")
    ensures h.isRegional.None? ==> r.isRegional == Some(false)
    ensures h.source.None? ==> r.source == Some("Nager.Date")
    ensures h.appliesTo.None? ==> r.appliesTo == Some("ALL")
    ensures r.(scope := h.scope, isRegional := h.isRegional, source := h.source, appliesTo := h.appliesTo) == h
  {
    h.(scope := Some(h.scope.GetOr("FULL_DAY")),
       isRegional := Some(h.isRegional.GetOr(false)),
       source := Some(h.source.GetOr("Nager.Date")),
       appliesTo := Some(h.appliesTo.GetOr("ALL")))
  }

  lemma WithDefaultsIdempotent(h: Holiday)
    ensures WithDefaults(WithDefaults(h)) == WithDefaults(h)
  {
  }

  /** The list after the `setdefault` loop. */
  function Defaulted(hs: seq<Holiday>): (r: seq<Holiday>)
    ensures |r| == |hs|
  {
    if hs == [] then [] else Defaulted(hs[..|hs| - 1]) + [WithDefaults(hs[|hs| - 1])]
  }

  lemma {:induction false} DefaultedAt(hs: seq<Holiday>, i: nat)
    requires i < |hs|
    ensures Defaulted(hs)[i] == WithDefaults(hs[i])
    decreases |hs|
  {
    if i < |hs| - 1 {
      DefaultedAt(hs[..|hs| - 1], i);
    }
  }

  /** The defaulting loop keeps the holidays, their order and their dates and
      names. */
  lemma DefaultedKeepsDatesAndNames(hs: seq<Holiday>, i: nat)
    requires i < |hs|
    ensures Defaulted(hs)[i].date == hs[i].date && Defaulted(hs)[i].name == hs[i].name
    ensures Defaulted(hs)[i].global == hs[i].global && Defaulted(hs)[i].counties == hs[i].counties
  {
    DefaultedAt(hs, i);
  }

  /** `for h in holidays: h.setdefault(...)`, one holiday at a time. */
  method ApplyDefaults(hs: seq<Holiday>) returns (out: seq<Holiday>)
    ensures out == Defaulted(hs)
  {
    out := hs;
    for i := 0 to |hs|
      invariant |out| == |hs|
      invariant out[..i] == Defaulted(hs[..i]) && out[i..] == hs[i..]
    {
      assert hs[..i + 1][..i] == hs[..i];
      out := out[i := WithDefaults(hs[i])];
    }
    assert hs[..|hs|] == hs;
  }

  // ---------------------------------------------------------------------
  // Rule ids and labels
  // ---------------------------------------------------------------------

  /** `f"{r_date.isoformat()}:{r_name}"`; a rule has neither `rule_id` nor
      `id`, and a date is always truthy, so its name decides. */
  function RuleId(r: Rule): string {
    IsoFormat(r.date) + ":" + r.name
  }

  function Named(): Rule -> bool {
    (r: Rule) => r.name != ""
  }

  /** The ids the audit loop collects. */
  function RuleIds(rules: seq<Rule>): (ids: seq<string>)
    ensures |ids| <= |rules|
  {
    if rules == [] then []
    else
      var r := rules[|rules| - 1];
      RuleIds(rules[..|rules| - 1]) + (if r.name != "" then [RuleId(r)] else [])
  }

  /** Each rule with a name contributes its id, in rule order; a rule with an
      empty name contributes nothing. */
  lemma {:induction false} RuleIdsOfNamed(rules: seq<Rule>)
    ensures |RuleIds(rules)| == |Filter(rules, Named())|
    ensures forall i :: 0 <= i < |RuleIds(rules)| ==> RuleIds(rules)[i] == RuleId(Filter(rules, Named())[i])
    decreases |rules|
  {
    if rules != [] {
      RuleIdsOfNamed(rules[..|rules| - 1]);
    }
  }

  /** The loop that appends to `applied`. */
  method CollectRuleIds(rules: seq<Rule>) returns (applied: seq<string>)
    ensures applied == RuleIds(rules)
  {
    applied := [];
    for i := 0 to |rules|
      invariant applied == RuleIds(rules[..i])
    {
      assert rules[..i + 1][..i] == rules[..i];
      var r := rules[i];
      if r.name != "" {
        applied := applied + [RuleId(r)];
      }
    }
    assert rules[..|rules|] == rules;
  }

  /** `f"{r.date.isoformat()} - {r.name}".strip()` */
  function AppliedLabel(r: Rule): string {
    Strip(IsoFormat(r.date) + " - " + r.name)
  }

  /** A rule with a trimmed, non-empty name is labelled `date - name`. */
  lemma AppliedLabelOfNamed(r: Rule)
    requires Trimmed(r.name) && r.name != ""
    ensures AppliedLabel(r) == IsoFormat(r.date) + " - " + r.name
  {
    IsoFormatShape(r.date);
    var s := IsoFormat(r.date) + " - " + r.name;
    assert s[0] == IsoFormat(r.date)[0];
    assert s[|s| - 1] == r.name[|r.name| - 1];
    StripTrimmed(s);
  }

  /** The labels of the matched rules, one per rule and in rule order. */
  function AppliedLabels(rules: seq<Rule>): (r: seq<string>)
    ensures |r| == |rules|
    ensures forall i :: 0 <= i < |rules| ==> r[i] == AppliedLabel(rules[i])
  {
    if rules == [] then [] else AppliedLabels(rules[..|rules| - 1]) + [AppliedLabel(rules[|rules| - 1])]
  }

  // ---------------------------------------------------------------------
  // Downgrades and the final message
  // ---------------------------------------------------------------------

  /** The two downgrade steps after the merge. */
  function Downgraded(a: Audit, merged: seq<Holiday>): (r: Audit)
    ensures r.confidence <= a.confidence
    ensures merged == [] ==> r.status == StatusRulesMissing
                             && r.confidence == (if a.confidence < 0.6 then a.confidence else 0.6)
    ensures merged != [] ==> r.confidence == a.confidence
    ensures a.status == StatusOk ==> (r.status == StatusLowConfidence <==> a.confidence < Threshold && merged != [])
    ensures merged != [] && a.status == StatusOk && a.confidence < Threshold ==> r.status == StatusLowConfidence
    ensures merged != [] && !(a.status == StatusOk && a.confidence < Threshold) ==> r.status == a.status
    ensures r.(status := a.status, confidence := a.confidence) == a
  {
    var b := if a.confidence < Threshold && a.status == StatusOk then a.(status := StatusLowConfidence) else a;
    if merged == [] then b.(status := StatusRulesMissing, confidence := if b.confidence < 0.6 then b.confidence else 0.6)
    else b
  }

  const MessageOk := "Resolved via geocode coordinates and LGA polygon match; holidays calculated with regional rules."
  const MessageLowConfidence := "Result generated but geocode confidence is low; manual review recommended."
  const MessageRulesMissing := "No holidays matched for the derived state/subdivision; manual review recommended."

  /** The final audit message: fixed for OK, LOW_CONFIDENCE and
      RULES_MISSING, otherwise the message already set. */
  function FinalMessage(a: Audit): string {
    if a.status == StatusOk then MessageOk
    else if a.status == StatusLowConfidence then MessageLowConfidence
    else if a.status == StatusRulesMissing then MessageRulesMissing
    else a.auditMessage
  }

  // ---------------------------------------------------------------------
  // The pay-period filter
  // ---------------------------------------------------------------------

  /** `start <= date.fromisoformat(h["date"]) <= end` for a date that parses. */
  function InPeriod(start: CivilDate, end: CivilDate, fromIso: string -> Stage<CivilDate>): Holiday -> bool {
    (h: Holiday) => fromIso(h.date).Returned? && DateLe(start, fromIso(h.date).value) && DateLe(fromIso(h.date).value, end)
  }

  /** `[h for h in holidays if start <= date.fromisoformat(h["date"]) <= end]`:
      the first date that does not parse raises. */
  function PeriodFilter(hs: seq<Holiday>, start: CivilDate, end: CivilDate,
                        fromIso: string -> Stage<CivilDate>): Stage<seq<Holiday>>
  {
    if hs == [] then Returned([])
    else
      match PeriodFilter(hs[..|hs| - 1], start, end, fromIso)
      case Raised(e) => Raised(e)
      case Returned(front) =>
        var h := hs[|hs| - 1];
        match fromIso(h.date)
        case Raised(e) => Raised(e)
        case Returned(d) => Returned(front + (if DateLe(start, d) && DateLe(d, end) then [h] else []))
  }

  /** When it returns, the period list is exactly the holidays dated from
      `start` to `end` inclusive, in order; it raises exactly when some
      date does not parse, and then with the first such failure. */
  lemma {:induction false} PeriodFilterExactly(hs: seq<Holiday>, start: CivilDate, end: CivilDate,
                                               fromIso: string -> Stage<CivilDate>)
    ensures PeriodFilter(hs, start, end, fromIso).Returned? <==>
      forall i :: 0 <= i < |hs| ==> fromIso(hs[i].date).Returned?
    ensures PeriodFilter(hs, start, end, fromIso).Returned? ==>
      PeriodFilter(hs, start, end, fromIso).value == Filter(hs, InPeriod(start, end, fromIso))
    ensures PeriodFilter(hs, start, end, fromIso).Raised? ==>
      exists i :: 0 <= i < |hs| && fromIso(hs[i].date).Raised?
                  && PeriodFilter(hs, start, end, fromIso).exc == fromIso(hs[i].date).exc
                  && (forall j :: 0 <= j < i ==> fromIso(hs[j].date).Returned?)
    decreases |hs|
  {
    if hs != [] {
      var init := hs[..|hs| - 1];
      PeriodFilterExactly(init, start, end, fromIso);
      assert forall i :: 0 <= i < |init| ==> init[i] == hs[i];
    }
  }

  /** The period list when both bounds are given, else the whole list. */
  function PeriodList(hs: seq<Holiday>, start: Option<CivilDate>, end: Option<CivilDate>,
                      fromIso: string -> Stage<CivilDate>): Stage<seq<Holiday>>
  {
    if start.Some? && end.Some? then PeriodFilter(hs, start.value, end.value, fromIso) else Returned(hs)
  }

  // ---------------------------------------------------------------------
  // The pipeline
  // ---------------------------------------------------------------------

  /** The collaborators of `lookup_address_info(address, year, start, end)`
      for one call: what `geocode_address(address)` gives, the
      `lga_from_latlon` oracle, what `get_au_public_holidays(year)` gives,
      the rows of the year's rules file (`None` when it does not exist),
      `datetime.strptime` for rule dates and `date.fromisoformat` for
      holiday dates. */
  datatype Upstream = Upstream(
    geocode: Stage<GeoDict>,
    lga: (real, real) -> Stage<Option<string>>,
    holidays: Stage<seq<Holiday>>,
    rulesFile: Option<seq<CsvRow>>,
    strptime: string -> Stage<CivilDate>,
    fromIso: string -> Stage<CivilDate>)

  /** Where the pipeline returns: at an early exit or an exception handler
      (with the `geo` and `lga` known at that point and the audit not yet
      finalised), or at the end. */
  datatype Outcome =
    | Early(geo: GeoDict, lga: Option<string>, audit: Audit)
    | Complete(geo: GeoDict, lgaName: string, audit: Audit, merged: seq<Holiday>,
               inPeriod: seq<Holiday>, matched: seq<Rule>)

  /** `geo.get("ok") is False or geo.get("status") in {"ZERO_RESULTS", "NOT_FOUND"}` */
  predicate GeoNotFound(geo: GeoDict) {
    geo.ok == Some(false) || geo.status == Some("ZERO_RESULTS") || geo.status == Some("NOT_FOUND")
  }

  const MessageUnresolved := "Address could not be resolved."
  const MessageNoCoordinates := "Geocoding returned no coordinates."
  const MessageLgaLow := "Could not deterministically resolve LGA from coordinates (low confidence geocode)."
  const MessageLga := "Could not deterministically resolve LGA from coordinates."
  const MessageUnexpected := "An unexpected error occurred while processing this address."

  /** The two `except` handlers: a `ValueError` whose lower-cased text
      mentions "address not found" or "zero_results" is NOT_FOUND, any other
      `ValueError` UPSTREAM_UNAVAILABLE, and these drop the LGA; any other
      exception is ERROR and keeps it. */
  function Handle(geo: GeoDict, lga: Option<string>, a: Audit, e: Exception): (o: Outcome)
    ensures o.Early? && o.geo == geo && o.audit.status != StatusOk
    ensures o.audit.confidence == 0.0 && o.audit.error == Some(e.typeName + ": " + e.message)
    ensures e.isValueError ==> o.lga.None? && o.audit.auditMessage == e.message
    ensures e.isValueError ==>
      (o.audit.status == StatusNotFound <==>
         Contains(Lower(e.message), "address not found") || Contains(Lower(e.message), "zero_results"))
    ensures e.isValueError ==> o.audit.status == StatusNotFound || o.audit.status == StatusUpstreamUnavailable
    ensures !e.isValueError ==> o.lga == lga && o.audit.status == StatusError
                                && o.audit.auditMessage == MessageUnexpected
    ensures o.audit.(status := a.status, confidence := a.confidence, auditMessage := a.auditMessage,
                     error := a.error) == a
  {
    if e.isValueError then
      var msg := Lower(e.message);
      var status := if Contains(msg, "address not found") || Contains(msg, "zero_results")
                    then StatusNotFound else StatusUpstreamUnavailable;
      Early(geo, None, a.(status := status, confidence := 0.0, auditMessage := e.message,
                          error := Some(e.Describe())))
    else
      Early(geo, lga, a.(status := StatusError, confidence := 0.0, error := Some(e.Describe()),
                         auditMessage := MessageUnexpected))
  }

  /** The steps after the geocode: the not-found and no-coordinates exits,
      then the LGA lookup and its exit. */
  function AfterGeocode(geo: GeoDict, up: Upstream, a: Audit, start: Option<CivilDate>,
                        end: Option<CivilDate>): Outcome
  {
    if GeoNotFound(geo) then
      Early(geo, None, a.(status := StatusNotFound, confidence := 0.0,
                          auditMessage := if Truthy(geo.error) then geo.error.value else MessageUnresolved))
    else
      var q := Quality(geo);
      var a := a.(geocodeQuality := q, confidence := ConfidenceFromQuality(q));
      if geo.lat.None? || geo.lon.None? then
        Early(geo, None, a.(status := StatusNotFound, confidence := 0.0, auditMessage := MessageNoCoordinates))
      else
        match up.lga(geo.lat.value, geo.lon.value)
        case Raised(e) => Handle(geo, None, a, e)
        case Returned(lga) =>
          var a := a.(lgaResolutionMethod := Some("polygon"));
          if !Truthy(lga) then
            Early(geo, None, a.(status := StatusAmbiguousLga,
                                auditMessage := if a.confidence < Threshold then MessageLgaLow else MessageLga))
          else AfterLga(geo, lga.value, up, a, start, end)
  }

  /** The base code of the state: `(geo.get("state") or "").upper()`. */
  function GeoState(geo: GeoDict): string {
    Upper(geo.state.GetOr(""))
  }

  /** The base holidays of the state, with their default keys. */
  function BaseHolidays(all: seq<Holiday>, geo: GeoDict): seq<Holiday> {
    Defaulted(Filter(all, AppliesTo(Target(GeoState(geo)))))
  }

  /** The matched rules for the resolved location, restricted ones left out. */
  function MatchedRules(rules: seq<Rule>, geo: GeoDict, lga: string): seq<Rule> {
    Filter(rules, Matcher(NormLocation(geo.state, Some(lga), geo.postcode, geo.locality), false))
  }

  /** The steps after a resolved LGA: base holidays, rules, merge,
      downgrades, the period filter and the final message. */
  function AfterLga(geo: GeoDict, lga: string, up: Upstream, a: Audit, start: Option<CivilDate>,
                    end: Option<CivilDate>): Outcome
  {
    match up.holidays
    case Raised(e) => Handle(geo, Some(lga), a, e)
    case Returned(all) =>
      var base := BaseHolidays(all, geo);
      match LoadRules(up.rulesFile, up.strptime)
      case Raised(e) => Handle(geo, Some(lga), a, e)
      case Returned(rules) =>
        var matched := MatchedRules(rules, geo, lga);
        AfterMerge(geo, lga, up, a.(rulesApplied := RuleIds(matched)), Merged(base, matched), matched, start, end)
  }

  /** The steps after the merge: downgrades, the period filter and the final
      message. */
  function AfterMerge(geo: GeoDict, lga: string, up: Upstream, a: Audit, merged: seq<Holiday>,
                      matched: seq<Rule>, start: Option<CivilDate>, end: Option<CivilDate>): Outcome
  {
    var a := Downgraded(a, merged);
    match PeriodList(merged, start, end, up.fromIso)
    case Raised(e) => Handle(geo, Some(lga), a, e)
    case Returned(hp) => Complete(geo, lga, a.(auditMessage := FinalMessage(a)), merged, hp, matched)
  }

  /** Where `lookup_address_info` returns, and with what. */
  function Run(address: string, up: Upstream, start: Option<CivilDate>, end: Option<CivilDate>): Outcome {
    match up.geocode
    case Raised(e) => Handle(EmptyGeo, None, InitAudit(address), e)
    case Returned(geo) => AfterGeocode(geo, up, InitAudit(address), start, end)
  }

  /** The dictionary `lookup_address_info` returns, without `audit_json`. */
  datatype LookupResult = LookupResult(
    inputAddress: string,
    formattedAddress: Option<string>,
    state: Option<string>,
    postcode: Option<string>,
    locality: Option<string>,
    lga: Option<string>,
    holidays: seq<Holiday>,
    holidayCount: nat,
    payPeriodStart: Option<string>,
    payPeriodEnd: Option<string>,
    holidaysInPeriod: seq<Holiday>,
    holidayCountInPeriod: nat,
    regionalHolidaysApplied: seq<string>,
    audit: Audit)

  /** `d.isoformat() if d else None` */
  function IsoOrNone(d: Option<CivilDate>): Option<string> {
    if d.Some? then Some(IsoFormat(d.value)) else None
  }

  /** The returned dictionary built at the point the pipeline returns. */
  function Render(address: string, o: Outcome, start: Option<CivilDate>, end: Option<CivilDate>): LookupResult {
    match o
    case Early(geo, lga, a) =>
      LookupResult(address, geo.formattedAddress, geo.state, geo.postcode, geo.locality, lga,
                   [], 0, IsoOrNone(start), IsoOrNone(end), [], 0, [], Finalised(a))
    case Complete(geo, lga, a, merged, hp, matched) =>
      LookupResult(address, geo.formattedAddress, geo.state, geo.postcode, geo.locality, Some(lga),
                   merged, |merged|, IsoOrNone(start), IsoOrNone(end), hp, |hp|,
                   AppliedLabels(matched), Finalised(a))
  }

  /** `lookup_address_info(address, year, start, end)` */
  function Lookup(address: string, up: Upstream, start: Option<CivilDate>, end: Option<CivilDate>): LookupResult {
    Render(address, Run(address, up, start, end), start, end)
  }

  // ---------------------------------------------------------------------
  // lookup_address_info, step by step
  // ---------------------------------------------------------------------

  method LookupAddressInfo(address: string, up: Upstream, start: Option<CivilDate>, end: Option<CivilDate>)
    returns (result: LookupResult)
    ensures result == Lookup(address, up, start, end)
  {
    var audit := InitAudit(address);
    if up.geocode.Raised? {
      return Render(address, Handle(EmptyGeo, None, audit, up.geocode.exc), start, end);
    }
    result := ResolveLocation(address, up.geocode.value, up, audit, start, end);
  }

  /** Steps 1 (after the call) and 2 of `lookup_address_info`. */
  method ResolveLocation(address: string, geo: GeoDict, up: Upstream, audit: Audit,
                         start: Option<CivilDate>, end: Option<CivilDate>)
    returns (result: LookupResult)
    ensures result == Render(address, AfterGeocode(geo, up, audit, start, end), start, end)
  {
    var audit := audit;
    if GeoNotFound(geo) {
      audit := audit.(status := StatusNotFound, confidence := 0.0,
                      auditMessage := if Truthy(geo.error) then geo.error.value else MessageUnresolved);
      return Render(address, Early(geo, None, audit), start, end);
    }
    var quality := Quality(geo);
    audit := audit.(geocodeQuality := quality);
    audit := audit.(confidence := ConfidenceFromQuality(quality));
    if geo.lat.None? || geo.lon.None? {
      audit := audit.(status := StatusNotFound, confidence := 0.0, auditMessage := MessageNoCoordinates);
      return Render(address, Early(geo, None, audit), start, end);
    }
    var lgaReply := up.lga(geo.lat.value, geo.lon.value);
    if lgaReply.Raised? {
      return Render(address, Handle(geo, None, audit, lgaReply.exc), start, end);
    }
    var lga := lgaReply.value;
    audit := audit.(lgaResolutionMethod := Some("polygon"));
    if !Truthy(lga) {
      if audit.confidence < Threshold {
        audit := audit.(status := StatusAmbiguousLga, auditMessage := MessageLgaLow);
      } else {
        audit := audit.(status := StatusAmbiguousLga, auditMessage := MessageLga);
      }
      return Render(address, Early(geo, None, audit), start, end);
    }
    result := ResolveHolidays(address, geo, lga.value, up, audit, start, end);
  }

  /** Steps 3 to 6 of `lookup_address_info`, once the LGA is known. */
  method ResolveHolidays(address: string, geo: GeoDict, lga: string, up: Upstream, audit: Audit,
                         start: Option<CivilDate>, end: Option<CivilDate>)
    returns (result: LookupResult)
    ensures result == Render(address, AfterLga(geo, lga, up, audit, start, end), start, end)
  {
    if up.holidays.Raised? {
      return Render(address, Handle(geo, Some(lga), audit, up.holidays.exc), start, end);
    }
    var holidays := FilterHolidaysForSubdivision(up.holidays.value, GeoState(geo));
    holidays := ApplyDefaults(holidays);
    var loaded := LoadRegionalRules(up.rulesFile, up.strptime);
    if loaded.Raised? {
      return Render(address, Handle(geo, Some(lga), audit, loaded.exc), start, end);
    }
    var matched := MatchRegionalRules(loaded.value, geo.state, Some(lga), geo.postcode, geo.locality, false);
    var applied := CollectRuleIds(matched);
    holidays := MergeHolidays(holidays, matched);
    result := FinishLookup(address, geo, lga, up, audit.(rulesApplied := applied), holidays, matched, start, end);
  }

  /** Steps 4 (after the merge) to 6 of `lookup_address_info`. */
  method FinishLookup(address: string, geo: GeoDict, lga: string, up: Upstream, audit: Audit,
                      holidays: seq<Holiday>, matched: seq<Rule>, start: Option<CivilDate>, end: Option<CivilDate>)
    returns (result: LookupResult)
    ensures result == Render(address, AfterMerge(geo, lga, up, audit, holidays, matched, start, end), start, end)
  {
    var audit := audit;
    if audit.confidence < Threshold && audit.status == StatusOk {
      audit := audit.(status := StatusLowConfidence);
    }
    if holidays == [] {
      audit := audit.(status := StatusRulesMissing,
                      confidence := if audit.confidence < 0.6 then audit.confidence else 0.6);
    }
    var inPeriod := PeriodList(holidays, start, end, up.fromIso);
    if inPeriod.Raised? {
      return Render(address, Handle(geo, Some(lga), audit, inPeriod.exc), start, end);
    }
    audit := audit.(auditMessage := FinalMessage(audit));
    result := Render(address, Complete(geo, lga, audit, holidays, inPeriod.value, matched), start, end);
  }

  // ---------------------------------------------------------------------
  // Properties of the lookup
  // ---------------------------------------------------------------------

  /** Every early exit and every handled exception returns no holidays, zero
      counts and no applied rules, and is never OK, so it is flagged for
      review. */
  lemma EarlyReturnsNothing(address: string, up: Upstream, start: Option<CivilDate>, end: Option<CivilDate>)
    requires Run(address, up, start, end).Early?
    ensures var r := Lookup(address, up, start, end);
      r.holidays == [] && r.holidayCount == 0 && r.holidaysInPeriod == [] && r.holidayCountInPeriod == 0
      && r.regionalHolidaysApplied == [] && r.audit.status != StatusOk && r.audit.manualReview
  {
    var o := Run(address, up, start, end);
    if up.geocode.Returned? {
      var geo := up.geocode.value;
      if !GeoNotFound(geo) && geo.lat.Some? && geo.lon.Some? {
        var reply := up.lga(geo.lat.value, geo.lon.value);
        if reply.Returned? && Truthy(reply.value) {
          var a := InitAudit(address).(geocodeQuality := Quality(geo),
                                       confidence := ConfidenceFromQuality(Quality(geo)),
                                       lgaResolutionMethod := Some("polygon"));
          AfterLgaEarlyIsNotOk(geo, reply.value.value, up, a, start, end);
        }
      }
    }
  }

  lemma AfterLgaEarlyIsNotOk(geo: GeoDict, lga: string, up: Upstream, a: Audit,
                             start: Option<CivilDate>, end: Option<CivilDate>)
    requires AfterLga(geo, lga, up, a, start, end).Early?
    ensures AfterLga(geo, lga, up, a, start, end).audit.status != StatusOk
  {
  }

  /** A geocode that is not found ends the lookup as NOT_FOUND with
      confidence 0.0, no LGA and the geocode's error text (or a fixed one),
      whatever the later stages would have given. */
  lemma NotFoundGeocode(address: string, up: Upstream, other: Upstream,
                        start: Option<CivilDate>, end: Option<CivilDate>)
    requires up.geocode.Returned? && GeoNotFound(up.geocode.value)
    requires other.geocode == up.geocode
    ensures var r := Lookup(address, up, start, end);
      r.audit.status == StatusNotFound && r.audit.confidence == 0.0 && r.lga.None?
      && r.audit.auditMessage == (if Truthy(up.geocode.value.error) then up.geocode.value.error.value
                                  else MessageUnresolved)
    ensures Lookup(address, other, start, end) == Lookup(address, up, start, end)
  {
  }

  /** A geocode without coordinates ends the lookup as NOT_FOUND with
      confidence 0.0, whatever the later stages would have given. */
  lemma NoCoordinates(address: string, up: Upstream, other: Upstream,
                      start: Option<CivilDate>, end: Option<CivilDate>)
    requires up.geocode.Returned? && !GeoNotFound(up.geocode.value)
    requires up.geocode.value.lat.None? || up.geocode.value.lon.None?
    requires other.geocode == up.geocode
    ensures var r := Lookup(address, up, start, end);
      r.audit.status == StatusNotFound && r.audit.confidence == 0.0 && r.lga.None?
      && r.audit.auditMessage == MessageNoCoordinates
    ensures Lookup(address, other, start, end) == Lookup(address, up, start, end)
  {
  }

  /** No LGA for the coordinates ends the lookup as AMBIGUOUS_LGA whatever
      the confidence, which is kept; only the message depends on it. The
      holiday provider, the rules and the parsers are not consulted. */
  lemma AmbiguousLga(address: string, up: Upstream, other: Upstream,
                     start: Option<CivilDate>, end: Option<CivilDate>)
    requires up.geocode.Returned? && !GeoNotFound(up.geocode.value)
    requires up.geocode.value.lat.Some? && up.geocode.value.lon.Some?
    requires var geo := up.geocode.value;
      up.lga(geo.lat.value, geo.lon.value).Returned? && !Truthy(up.lga(geo.lat.value, geo.lon.value).value)
    requires other.geocode == up.geocode && other.lga == up.lga
    ensures var r := Lookup(address, up, start, end);
      var c := ConfidenceFromQuality(Quality(up.geocode.value));
      r.audit.status == StatusAmbiguousLga && r.audit.confidence == c && r.lga.None?
      && r.audit.auditMessage == (if c < Threshold then MessageLgaLow else MessageLga)
    ensures Lookup(address, other, start, end) == Lookup(address, up, start, end)
  {
  }

  /** An exception from the geocoder is handled with an empty `geo`. */
  lemma GeocodeRaised(address: string, up: Upstream, start: Option<CivilDate>, end: Option<CivilDate>)
    requires up.geocode.Raised?
    ensures var e := up.geocode.exc;
      var r := Lookup(address, up, start, end);
      r.formattedAddress.None? && r.state.None? && r.lga.None? && r.audit.confidence == 0.0
      && r.audit.error == Some(e.typeName + ": " + e.message)
      && (e.isValueError ==> (r.audit.status == StatusNotFound <==>
            Contains(Lower(e.message), "address not found") || Contains(Lower(e.message), "zero_results")))
      && (e.isValueError && r.audit.status != StatusNotFound ==> r.audit.status == StatusUpstreamUnavailable)
      && (!e.isValueError ==> r.audit.status == StatusError)
  {
  }

  /** When the lookup runs to the end, the status is decided by the geocode
      confidence and by whether any holiday remains: OK needs both, LOW_CONFIDENCE
      a low confidence, RULES_MISSING an empty list; the message is the one
      fixed for that status and the counts are the list lengths. */
  lemma CompleteStatus(address: string, up: Upstream, start: Option<CivilDate>, end: Option<CivilDate>)
    requires Run(address, up, start, end).Complete?
    ensures var o := Run(address, up, start, end);
      var r := Lookup(address, up, start, end);
      var c := ConfidenceFromQuality(Quality(o.geo));
      up.geocode == Returned(o.geo) && r.lga == Some(o.lgaName) && Truthy(r.lga)
      && r.holidays == o.merged && r.holidayCount == |r.holidays| && r.holidayCountInPeriod == |r.holidaysInPeriod|
      && (r.audit.status == StatusOk <==> c >= Threshold && r.holidays != [])
      && (r.audit.status == StatusLowConfidence <==> c < Threshold && r.holidays != [])
      && (r.audit.status == StatusRulesMissing <==> r.holidays == [])
      && (r.audit.status == StatusOk ==> r.audit.auditMessage == MessageOk && r.audit.confidence == c)
      && (r.audit.status == StatusLowConfidence ==> r.audit.auditMessage == MessageLowConfidence)
      && (r.audit.status == StatusRulesMissing ==> r.audit.auditMessage == MessageRulesMissing)
      && r.audit.confidence <= c
  {
    var geo := up.geocode.value;
    var reply := up.lga(geo.lat.value, geo.lon.value);
    var a := InitAudit(address).(geocodeQuality := Quality(geo),
                                 confidence := ConfidenceFromQuality(Quality(geo)),
                                 lgaResolutionMethod := Some("polygon"));
    CompleteAfterLga(geo, reply.value.value, up, a, start, end);
  }

  lemma CompleteAfterLga(geo: GeoDict, lga: string, up: Upstream, a: Audit,
                         start: Option<CivilDate>, end: Option<CivilDate>)
    requires a.status == StatusOk && 0.0 <= a.confidence <= 1.0
    requires AfterLga(geo, lga, up, a, start, end).Complete?
    ensures var o := AfterLga(geo, lga, up, a, start, end);
      var f := Finalised(o.audit);
      o.geo == geo && o.lgaName == lga
      && (f.status == StatusOk <==> a.confidence >= Threshold && o.merged != [])
      && (f.status == StatusLowConfidence <==> a.confidence < Threshold && o.merged != [])
      && (f.status == StatusRulesMissing <==> o.merged == [])
      && (f.status == StatusOk ==> f.auditMessage == MessageOk && f.confidence == a.confidence)
      && (f.status == StatusLowConfidence ==> f.auditMessage == MessageLowConfidence)
      && (f.status == StatusRulesMissing ==> f.auditMessage == MessageRulesMissing)
      && f.confidence <= a.confidence
  {
  }

  /** With both bounds given, the period list of a complete lookup is
      exactly its holidays dated from start to end inclusive, in order;
      otherwise it is the whole list. */
  lemma CompletePeriod(address: string, up: Upstream, start: Option<CivilDate>, end: Option<CivilDate>)
    requires Run(address, up, start, end).Complete?
    ensures var r := Lookup(address, up, start, end);
      (start.Some? && end.Some? ==>
         r.holidaysInPeriod == Filter(r.holidays, InPeriod(start.value, end.value, up.fromIso)))
      && (start.None? || end.None? ==> r.holidaysInPeriod == r.holidays)
      && r.payPeriodStart == IsoOrNone(start) && r.payPeriodEnd == IsoOrNone(end)
  {
    var o := Run(address, up, start, end);
    assert PeriodList(o.merged, start, end, up.fromIso) == Returned(o.inPeriod) by {
      var geo := up.geocode.value;
      var reply := up.lga(geo.lat.value, geo.lon.value);
      var a := InitAudit(address).(geocodeQuality := Quality(geo),
                                   confidence := ConfidenceFromQuality(Quality(geo)),
                                   lgaResolutionMethod := Some("polygon"));
      PeriodOfAfterLga(geo, reply.value.value, up, a, start, end);
    }
    if start.Some? && end.Some? {
      PeriodFilterExactly(o.merged, start.value, end.value, up.fromIso);
    }
  }

  lemma PeriodOfAfterLga(geo: GeoDict, lga: string, up: Upstream, a: Audit,
                         start: Option<CivilDate>, end: Option<CivilDate>)
    requires AfterLga(geo, lga, up, a, start, end).Complete?
    ensures var o := AfterLga(geo, lga, up, a, start, end);
      PeriodList(o.merged, start, end, up.fromIso) == Returned(o.inPeriod)
  {
  }

  /** The rules of a complete lookup: the ids in the audit are those of the
      named matched rules, and every matched rule is labelled. */
  lemma CompleteRules(address: string, up: Upstream, start: Option<CivilDate>, end: Option<CivilDate>)
    requires Run(address, up, start, end).Complete?
    ensures var o := Run(address, up, start, end);
      var r := Lookup(address, up, start, end);
      r.audit.rulesApplied == RuleIds(o.matched)
      && r.regionalHolidaysApplied == AppliedLabels(o.matched)
      && |r.regionalHolidaysApplied| == |o.matched|
  {
    var geo := up.geocode.value;
    var reply := up.lga(geo.lat.value, geo.lon.value);
    var a := InitAudit(address).(geocodeQuality := Quality(geo),
                                 confidence := ConfidenceFromQuality(Quality(geo)),
                                 lgaResolutionMethod := Some("polygon"));
    RulesOfAfterLga(geo, reply.value.value, up, a, start, end);
  }

  lemma RulesOfAfterLga(geo: GeoDict, lga: string, up: Upstream, a: Audit,
                        start: Option<CivilDate>, end: Option<CivilDate>)
    requires AfterLga(geo, lga, up, a, start, end).Complete?
    ensures var o := AfterLga(geo, lga, up, a, start, end);
      o.audit.rulesApplied == RuleIds(o.matched)
  {
  }

  /** Whatever path it takes, the returned audit is finalised: confidence in
      [0, 1] and the review flag set exactly when the status is not OK. */
  lemma ResultIsFinal(address: string, up: Upstream, start: Option<CivilDate>, end: Option<CivilDate>)
    ensures var a := Lookup(address, up, start, end).audit;
      0.0 <= a.confidence <= 1.0 && (a.manualReview <==> a.status != StatusOk)
  {
  }

  /** Every lookup ends with one of the seven statuses. */
  lemma LookupStatusIsEngine(address: string, up: Upstream, start: Option<CivilDate>, end: Option<CivilDate>)
    ensures EngineStatus(Lookup(address, up, start, end).audit.status)
  {
    var o := Run(address, up, start, end);
    match up.geocode
    case Raised(e) =>
    case Returned(geo) => AfterGeocodeStatus(geo, up, InitAudit(address), start, end);
    assert Lookup(address, up, start, end).audit == Finalised(o.audit);
  }

  lemma AfterGeocodeStatus(geo: GeoDict, up: Upstream, a: Audit, start: Option<CivilDate>, end: Option<CivilDate>)
    requires a.status == StatusOk
    ensures EngineStatus(AfterGeocode(geo, up, a, start, end).audit.status)
  {
    if !GeoNotFound(geo) && geo.lat.Some? && geo.lon.Some? {
      var q := Quality(geo);
      var a := a.(geocodeQuality := q, confidence := ConfidenceFromQuality(q));
      match up.lga(geo.lat.value, geo.lon.value)
      case Raised(e) =>
      case Returned(lga) =>
        if Truthy(lga) {
          AfterLgaStatus(geo, lga.value, up, a.(lgaResolutionMethod := Some("polygon")), start, end);
        }
    }
  }

  lemma AfterLgaStatus(geo: GeoDict, lga: string, up: Upstream, a: Audit, start: Option<CivilDate>,
                       end: Option<CivilDate>)
    requires a.status == StatusOk
    ensures EngineStatus(AfterLga(geo, lga, up, a, start, end).audit.status)
  {
    match up.holidays
    case Raised(e) =>
    case Returned(all) =>
      var base := BaseHolidays(all, geo);
      match LoadRules(up.rulesFile, up.strptime)
      case Raised(e) =>
      case Returned(rules) =>
        var matched := MatchedRules(rules, geo, lga);
        AfterMergeStatus(geo, lga, up, a.(rulesApplied := RuleIds(matched)), Merged(base, matched), matched, start, end);
  }

  lemma AfterMergeStatus(geo: GeoDict, lga: string, up: Upstream, a: Audit, merged: seq<Holiday>,
                         matched: seq<Rule>, start: Option<CivilDate>, end: Option<CivilDate>)
    requires a.status == StatusOk
    ensures EngineStatus(AfterMerge(geo, lga, up, a, merged, matched, start, end).audit.status)
  {
  }

  // ---------------------------------------------------------------------
  // The geocoder and the orchestrator composed
  // ---------------------------------------------------------------------

  /** As written, a geocode from `geocode_address` has no quality key, so
      its confidence is 0.5 and the lookup can never end OK. */
  lemma ComposedLookupNeverOk(address: string, up: Upstream, table: map<string, GeocodeCache.CachedRow>,
                              http: string -> Stage<GeocodeGoogle.Payload>,
                              start: Option<CivilDate>, end: Option<CivilDate>)
    requires up.geocode == GeocodeGoogle.GeocodeFlow(table, address, http).result
    ensures Lookup(address, up, start, end).audit.status != StatusOk
  {
    if Run(address, up, start, end).Early? {
      EarlyReturnsNothing(address, up, start, end);
    } else {
      GeocodeGoogle.FlowHasNoQuality(table, address, http);
      CompleteStatus(address, up, start, end);
    }
  }

  /** With `location_type` carried into the geocode, a rooftop fix for an
      address not yet cached sets confidence 1.0, and a lookup that runs to
      the end with some holiday is OK. */
  lemma CorrectedLookupCanBeOk(address: string, up: Upstream, table: map<string, GeocodeCache.CachedRow>,
                               http: string -> Stage<GeocodeGoogle.Payload>,
                               start: Option<CivilDate>, end: Option<CivilDate>)
    requires GeocodeGoogle.CacheKey(address) !in table
    requires up.geocode == GeocodeGoogle.GeocodeFlowFixed(table, address, http).result
    requires var reply := http(address);
      reply.Returned? && reply.value.status == Some("OK") && reply.value.results.Some?
      && |reply.value.results.value| > 0 && reply.value.results.value[0].geometry.Some?
      && reply.value.results.value[0].geometry.value.location.Some?
      && reply.value.results.value[0].geometry.value.locationType == Some("ROOFTOP")
    requires Run(address, up, start, end).Complete? && Run(address, up, start, end).merged != []
    ensures Lookup(address, up, start, end).audit.status == StatusOk
    ensures Lookup(address, up, start, end).audit.confidence == 1.0
  {
    var first := GeocodeGoogle.CallGeocodeFixed(address, address, http(address));
    assert GeocodeGoogle.CallGeocode(address, address, http(address)).Returned?;
    assert GeocodeGoogle.Fixed()(address, address, http(address)) == first;
    GeocodeGoogle.NoRetryWithoutZeroResultsText(GeocodeGoogle.Fixed(), table, address, http);
    assert up.geocode == first;
    RooftopConfidence();
    CompleteStatus(address, up, start, end);
  }
}
