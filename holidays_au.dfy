/** The base public holidays of the Nager.Date provider and the filter that
    keeps those observed in one Australian state or territory. The provider's
    HTTP call itself is an input of the orchestrator, not part of this module. */
module HolidaysAu {
  import opened Wrappers
  import opened Seqs

  /** A holiday dictionary. `date` (`YYYY-MM-DD`) and `name` are always present;
      an optional key that is absent from the dictionary is `None`. The keys
      `scope`, `is_regional`, `source`, `applies_to` and `notes` are those the
      orchestrator and the regional-rule merge add. */
  datatype Holiday = Holiday(
    date: string,
    name: string,
    localName: Option<string>,
    global: Option<bool>,
    counties: Option<seq<string>>,
    scope: Option<string>,
    isRegional: Option<bool>,
    source: Option<string>,
    appliesTo: Option<string>,
    notes: Option<string>)

  /** `h.get("counties") or []` */
  function Counties(h: Holiday): seq<string> {
    if h.counties.Some? then h.counties.value else []
  }

  /** `bool(h.get("global"))` */
  predicate IsGlobal(h: Holiday) {
    h.global == Some(true)
  }

  /** The ISO 3166-2-style key of a subdivision: `f"AU-{code}"`. */
  function Target(code: string): string {
    "AU-" + code
  }

  predicate Applies(h: Holiday, target: string) {
    IsGlobal(h) || target in Counties(h)
  }

  function AppliesTo(target: string): Holiday -> bool {
    h => Applies(h, target)
  }

  /** `filter_holidays_for_subdivision`: keep the holidays that are national or
      list the subdivision among their counties, in their original order. */
  method FilterHolidaysForSubdivision(holidays: seq<Holiday>, code: string) returns (out: seq<Holiday>)
    ensures out == Filter(holidays, AppliesTo(Target(code)))
  {
    out := [];
    var target := Target(code);
    for i := 0 to |holidays|
      invariant out == Filter(holidays[..i], AppliesTo(target))
    {
      var h := holidays[i];
      FilterSnoc(holidays[..i], h, AppliesTo(target));
      assert holidays[..i + 1] == holidays[..i] + [h];
      if IsGlobal(h) || target in Counties(h) {
        out := out + [h];
      }
    }
    assert holidays[..|holidays|] == holidays;
  }

  /** The filtered list is the input with some holidays removed, order kept. */
  lemma FilterKeepsOrder(holidays: seq<Holiday>, code: string)
    ensures IsSubseq(Filter(holidays, AppliesTo(Target(code))), holidays)
  {
    FilterIsSubseq(holidays, AppliesTo(Target(code)));
  }

  /** A holiday is kept exactly when it is national or lists `AU-<code>`. */
  lemma FilterKeepsExactly(holidays: seq<Holiday>, code: string, h: Holiday)
    ensures h in Filter(holidays, AppliesTo(Target(code)))
        <==> h in holidays && (IsGlobal(h) || "AU-" + code in Counties(h))
  {
    FilterMembership(holidays, AppliesTo(Target(code)), h);
  }

  /** National holidays survive the filter for every subdivision code. */
  lemma GlobalsSurvive(holidays: seq<Holiday>, code: string, h: Holiday)
    requires h in holidays && h.global == Some(true)
    ensures h in Filter(holidays, AppliesTo(Target(code)))
  {
    FilterMembership(holidays, AppliesTo(Target(code)), h);
  }

  /** A holiday with no counties list (absent, null or empty) survives only
      when it is national. */
  lemma NoCountiesOnlyGlobal(holidays: seq<Holiday>, code: string, h: Holiday)
    requires h.counties.None? || h.counties == Some([])
    ensures h in Filter(holidays, AppliesTo(Target(code))) <==> h in holidays && h.global == Some(true)
  {
    FilterMembership(holidays, AppliesTo(Target(code)), h);
  }

  /** Filtering for the same subdivision twice changes nothing more. */
  lemma FilterTwice(holidays: seq<Holiday>, code: string)
    ensures Filter(Filter(holidays, AppliesTo(Target(code))), AppliesTo(Target(code)))
         == Filter(holidays, AppliesTo(Target(code)))
  {
    FilterIdempotent(holidays, AppliesTo(Target(code)));
  }
}
