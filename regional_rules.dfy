/** Curated regional holiday rules: the conversion of CSV rows into rules,
    the `_norm` key normalisation, matching rules against a resolved
    location, and the de-duplicating merge of matched rules into the base
    holidays. Reading the CSV file is an input here (its rows, or `None` when
    the file does not exist), and `datetime.strptime(…, "%Y-%m-%d")` is a
    parameter. */
module RegionalRules {
  import opened Wrappers
  import opened Text
  import opened Seqs
  import opened Calendar
  import opened HolidaysAu

  /** `RegionalHolidayRule` */
  datatype Rule = Rule(
    date: CivilDate,
    name: string,
    state: string,
    matchType: string,
    matchValue: string,
    scope: string,
    appliesTo: string,
    source: string,
    notes: string)

  // ---------------------------------------------------------------------
  // _norm
  // ---------------------------------------------------------------------

  /** `" ".join((s or "").strip().lower().split())` */
  function Norm(s: Option<string>): string {
    Collapse(Lower(Strip(s.GetOr(""))))
  }

  /** A normalised value has no surrounding whitespace and no upper-case letter. */
  lemma NormIsNormal(s: Option<string>)
    ensures Trimmed(Norm(s)) && IsLower(Norm(s))
  {
    CollapseTrimmed(Lower(Strip(s.GetOr(""))));
    LowerIsLower(Strip(s.GetOr("")));
    CollapseKeepsLower(Lower(Strip(s.GetOr(""))));
  }

  /** Normalising a normalised value changes nothing. */
  lemma NormIdempotent(s: Option<string>)
    ensures Norm(Some(Norm(s))) == Norm(s)
  {
    var n := Norm(s);
    NormIsNormal(s);
    StripTrimmed(n);
    CollapseLowerIdempotent(Strip(s.GetOr("")));
  }

  /** `None`, the empty string and blank strings all normalise to "". */
  lemma NormOfBlank(s: Option<string>)
    requires s.None? || NoneButSpace(s.value)
    ensures Norm(s) == ""
  {
    if s.Some? {
      BlankStrips(s.value);
    }
  }

  predicate NoneButSpace(s: string) {
    forall i :: 0 <= i < |s| ==> IsSpace(s[i])
  }

  lemma {:induction false} BlankStrips(s: string)
    requires NoneButSpace(s)
    ensures TrimRight(s) == "" && Strip(s) == ""
    decreases |s|
  {
    if s != [] {
      BlankStrips(s[..|s| - 1]);
    }
  }

  // ---------------------------------------------------------------------
  // match_regional_rules
  // ---------------------------------------------------------------------

  /** The normalised location a rule is matched against. */
  datatype Location = Location(state: string, lga: string, postcode: string, locality: string)

  function NormLocation(state: Option<string>, lga: Option<string>, postcode: Option<string>, locality: Option<string>): Location {
    Location(Upper(Norm(state)), Norm(lga), Norm(postcode), Norm(locality))
  }

  /** The body of the matching loop: same state, unrestricted unless asked,
      and a match on the field the rule's declared match type names. */
  predicate RuleMatches(r: Rule, loc: Location, includeRestricted: bool) {
    Upper(Norm(Some(r.state))) == loc.state
    && (includeRestricted || r.appliesTo == "ALL")
    && var mt := Upper(r.matchType);
       var mv := Norm(Some(r.matchValue));
       (mt == "LGA" && mv == loc.lga)
       || (mt == "POSTCODE" && mv == loc.postcode)
       || (mt == "LOCALITY" && mv == loc.locality)
  }

  function Matcher(loc: Location, includeRestricted: bool): Rule -> bool {
    r => RuleMatches(r, loc, includeRestricted)
  }

  /** `match_regional_rules` */
  method MatchRegionalRules(rules: seq<Rule>, state: Option<string>, lga: Option<string>,
                            postcode: Option<string>, locality: Option<string>, includeRestricted: bool)
    returns (matched: seq<Rule>)
    ensures matched == Filter(rules, Matcher(NormLocation(state, lga, postcode, locality), includeRestricted))
  {
    var loc := NormLocation(state, lga, postcode, locality);
    var stateN, lgaN, postcodeN, localityN := loc.state, loc.lga, loc.postcode, loc.locality;
    matched := [];
    for i := 0 to |rules|
      invariant matched == Filter(rules[..i], Matcher(loc, includeRestricted))
    {
      var r := rules[i];
      MatchStep(rules, i, loc, includeRestricted);
      ghost var keep := RuleMatches(r, loc, includeRestricted);
      if Upper(Norm(Some(r.state))) != stateN {
        assert !keep;
        assert matched == Filter(rules[..i + 1], Matcher(loc, includeRestricted));
        continue;
      }
      if !includeRestricted && r.appliesTo != "ALL" {
        assert !keep;
        assert matched == Filter(rules[..i + 1], Matcher(loc, includeRestricted));
        continue;
      }
      var mt := Upper(r.matchType);
      var mv := Norm(Some(r.matchValue));
      if mt == "LGA" && mv == lgaN {
        assert keep;
        matched := matched + [r];
        assert matched == Filter(rules[..i + 1], Matcher(loc, includeRestricted));
      } else if mt == "POSTCODE" && mv == postcodeN {
        assert keep;
        matched := matched + [r];
        assert matched == Filter(rules[..i + 1], Matcher(loc, includeRestricted));
      } else if mt == "LOCALITY" && mv == localityN {
        assert keep;
        matched := matched + [r];
        assert matched == Filter(rules[..i + 1], Matcher(loc, includeRestricted));
      } else {
        assert !keep;
        assert matched == Filter(rules[..i + 1], Matcher(loc, includeRestricted));
      }
    }
    assert rules[..|rules|] == rules;
  }

  lemma MatchStep(rules: seq<Rule>, i: nat, loc: Location, includeRestricted: bool)
    requires i < |rules|
    ensures Filter(rules[..i + 1], Matcher(loc, includeRestricted))
         == Filter(rules[..i], Matcher(loc, includeRestricted))
            + (if RuleMatches(rules[i], loc, includeRestricted) then [rules[i]] else [])
  {
    var p := Matcher(loc, includeRestricted);
    var r := rules[i];
    assert rules[..i + 1] == rules[..i] + [r];
    FilterSnoc(rules[..i], r, p);
    assert p(r) == RuleMatches(r, loc, includeRestricted);
  }

  /** The matched rules are the input rules with some removed, order kept. */
  lemma MatchedKeepsOrder(rules: seq<Rule>, loc: Location, includeRestricted: bool)
    ensures IsSubseq(Filter(rules, Matcher(loc, includeRestricted)), rules)
  {
    FilterIsSubseq(rules, Matcher(loc, includeRestricted));
  }

  /** A rule is matched exactly when its normalised state is the location's,
      it is unrestricted (unless restricted rules are included), and its
      normalised match value equals the location field its declared match
      type names. */
  lemma MatchedExactly(rules: seq<Rule>, state: Option<string>, lga: Option<string>,
                       postcode: Option<string>, locality: Option<string>, includeRestricted: bool, r: Rule)
    ensures r in Filter(rules, Matcher(NormLocation(state, lga, postcode, locality), includeRestricted))
        <==> r in rules
             && Upper(Norm(Some(r.state))) == Upper(Norm(state))
             && (includeRestricted || r.appliesTo == "ALL")
             && ((Upper(r.matchType) == "LGA" && Norm(Some(r.matchValue)) == Norm(lga))
                 || (Upper(r.matchType) == "POSTCODE" && Norm(Some(r.matchValue)) == Norm(postcode))
                 || (Upper(r.matchType) == "LOCALITY" && Norm(Some(r.matchValue)) == Norm(locality)))
  {
    FilterMembership(rules, Matcher(NormLocation(state, lga, postcode, locality), includeRestricted), r);
  }

  /** A rule whose match type is none of LGA, POSTCODE and LOCALITY never
      matches, and without `include_restricted` only rules that apply to ALL
      match. */
  lemma MatchedNeverOther(rules: seq<Rule>, loc: Location, includeRestricted: bool, r: Rule)
    requires r in Filter(rules, Matcher(loc, includeRestricted))
    ensures Upper(r.matchType) in ["LGA", "POSTCODE", "LOCALITY"]
    ensures !includeRestricted ==> r.appliesTo == "ALL"
    ensures Upper(Norm(Some(r.state))) == loc.state
  {
    FilterMembership(rules, Matcher(loc, includeRestricted), r);
  }

  // ---------------------------------------------------------------------
  // The row-to-rule conversion of load_regional_rules
  // ---------------------------------------------------------------------

  /** A `csv.DictReader` row: column name to cell; a short row has `None`
      for its missing cells. */
  type CsvRow = map<string, Option<string>>

  /** `row.get(key)`: `None` both for a missing column and for a short row. */
  function Cell(row: CsvRow, key: string): Option<string> {
    if key in row then row[key] else None
  }

  const NoStrip: Exception := Exception("AttributeError", "'NoneType' object has no attribute 'strip'", false)

  /** `row[key].strip()` */
  function Field(row: CsvRow, key: string): (r: Stage<string>)
    ensures r.Returned? ==> Trimmed(r.value)
    ensures key !in row ==> r == Raised(KeyError(key))
  {
    StripIsTrimmedSome(row, key);
    if key !in row then Raised(KeyError(key))
    else if row[key].None? then Raised(NoStrip)
    else Returned(Strip(row[key].value))
  }

  lemma StripIsTrimmedSome(row: CsvRow, key: string)
    ensures key in row && row[key].Some? ==> Trimmed(Strip(row[key].value))
  {
    if key in row && row[key].Some? {
      StripIsTrimmed(row[key].value);
    }
  }

  /** `row.get(key, "").strip()` */
  function OptionalField(row: CsvRow, key: string): (r: Stage<string>)
    ensures r.Returned? ==> Trimmed(r.value)
    ensures key !in row ==> r == Returned("")
  {
    if key !in row then Returned("") else Field(row, key)
  }

  /** `row[key].strip().upper()` */
  function UpperField(row: CsvRow, key: string): (r: Stage<string>)
    ensures r.Returned? ==> Trimmed(r.value) && IsUpper(r.value)
    ensures key !in row ==> r == Raised(KeyError(key))
  {
    var f := Field(row, key);
    if f.Raised? then f
    else
      UpperOfTrimmed(f.value);
      UpperIsUpper(f.value);
      Returned(Upper(f.value))
  }

  /** `not row or not row.get("date")`: the loader passes over the row. */
  predicate Skipped(row: CsvRow) {
    "date" !in row || row["date"].None? || row["date"].value == ""
  }

  /** Every field of a loaded rule is trimmed, and state, match type, scope
      and applies-to are upper case. */
  predicate NormalisedRule(r: Rule) {
    Trimmed(r.name) && Trimmed(r.matchValue) && Trimmed(r.source) && Trimmed(r.notes)
    && Trimmed(r.state) && IsUpper(r.state) && Trimmed(r.matchType) && IsUpper(r.matchType)
    && Trimmed(r.scope) && IsUpper(r.scope) && Trimmed(r.appliesTo) && IsUpper(r.appliesTo)
  }

  /** `RegionalHolidayRule(...)` built from one row whose date is present. The
      keyword arguments are evaluated left to right, so the first failing
      field decides the exception: a date `strptime` rejects, then a missing
      column (`KeyError`) or missing cell (`AttributeError` on `None.strip`).
      Source and notes default to "" when their column is absent. */
  function Convert(row: CsvRow, strptime: string -> Stage<CivilDate>): (r: Stage<Rule>)
    requires !Skipped(row)
    ensures r.Returned? ==> NormalisedRule(r.value)
    ensures r.Returned? ==> strptime(Strip(row["date"].value)) == Returned(r.value.date)
    ensures r.Returned? && "source" !in row ==> r.value.source == ""
    ensures r.Returned? && "notes" !in row ==> r.value.notes == ""
    ensures strptime(Strip(row["date"].value)).Raised? ==> r == Raised(strptime(Strip(row["date"].value)).exc)
    ensures strptime(Strip(row["date"].value)).Returned? && "name" !in row ==> r == Raised(KeyError("name"))
  {
    var d := strptime(Strip(row["date"].value));
    if d.Raised? then Raised(d.exc) else
    var name := Field(row, "name");
    if name.Raised? then Raised(name.exc) else
    var state := UpperField(row, "state");
    if state.Raised? then Raised(state.exc) else
    var matchType := UpperField(row, "match_type");
    if matchType.Raised? then Raised(matchType.exc) else
    var matchValue := Field(row, "match_value");
    if matchValue.Raised? then Raised(matchValue.exc) else
    var scope := UpperField(row, "scope");
    if scope.Raised? then Raised(scope.exc) else
    var appliesTo := UpperField(row, "applies_to");
    if appliesTo.Raised? then Raised(appliesTo.exc) else
    var source := OptionalField(row, "source");
    if source.Raised? then Raised(source.exc) else
    var notes := OptionalField(row, "notes");
    if notes.Raised? then Raised(notes.exc) else
    Returned(Rule(d.value, name.value, state.value, matchType.value, matchValue.value,
                  scope.value, appliesTo.value, source.value, notes.value))
  }

  /** The loader's loop over the rows, written from the back: the first row
      that fails to convert decides the exception. */
  function ConvertRows(rows: seq<CsvRow>, strptime: string -> Stage<CivilDate>): Stage<seq<Rule>> {
    if rows == [] then Returned([])
    else
      var front := ConvertRows(rows[..|rows| - 1], strptime);
      var row := rows[|rows| - 1];
      if front.Raised? || Skipped(row) then front
      else
        var r := Convert(row, strptime);
        if r.Raised? then Raised(r.exc) else Returned(front.value + [r.value])
  }

  function KeptRow(): CsvRow -> bool {
    row => !Skipped(row)
  }

  /** A successful load holds one rule per row with a date, in row order, each
      the conversion of its row; rows without a date contribute nothing. */
  lemma {:induction false} ConvertRowsKept(rows: seq<CsvRow>, strptime: string -> Stage<CivilDate>)
    ensures ConvertRows(rows, strptime).Returned? ==>
      var rs := ConvertRows(rows, strptime).value;
      var kept := Filter(rows, KeptRow());
      |rs| == |kept| && forall k :: 0 <= k < |kept| ==> !Skipped(kept[k]) && Convert(kept[k], strptime) == Returned(rs[k])
    ensures ConvertRows(rows, strptime).Raised? ==>
      exists k :: 0 <= k < |rows| && !Skipped(rows[k]) && Convert(rows[k], strptime).Raised?
    decreases |rows|
  {
    if rows != [] {
      var init := rows[..|rows| - 1];
      var row := rows[|rows| - 1];
      ConvertRowsKept(init, strptime);
      assert rows[..|rows| - 1] == init;
      var kept := Filter(rows, KeptRow());
      var keptInit := Filter(init, KeptRow());
      assert kept == keptInit + (if !Skipped(row) then [row] else []);
      forall k | 0 <= k < |keptInit| ensures !Skipped(keptInit[k]) {
        FilterMembership(init, KeptRow(), keptInit[k]);
      }
      var front := ConvertRows(init, strptime);
      if front.Raised? {
        var k :| 0 <= k < |init| && !Skipped(init[k]) && Convert(init[k], strptime).Raised?;
        assert rows[k] == init[k];
      } else if !Skipped(row) && Convert(row, strptime).Raised? {
        assert rows[|rows| - 1] == row;
      }
    }
  }

  /** `load_regional_rules` without the file open: `None` for a missing file. */
  function LoadRules(file: Option<seq<CsvRow>>, strptime: string -> Stage<CivilDate>): Stage<seq<Rule>> {
    if file.None? then Returned([]) else ConvertRows(file.value, strptime)
  }

  method LoadRegionalRules(file: Option<seq<CsvRow>>, strptime: string -> Stage<CivilDate>)
    returns (result: Stage<seq<Rule>>)
    ensures result == LoadRules(file, strptime)
  {
    if file.None? {
      return Returned([]);
    }
    var rows := file.value;
    var rules: seq<Rule> := [];
    for i := 0 to |rows|
      invariant ConvertRows(rows[..i], strptime) == Returned(rules)
    {
      var row := rows[i];
      ConvertRowsStep(rows, i, strptime);
      if Skipped(row) {
        continue;
      }
      var r := Convert(row, strptime);
      if r.Raised? {
        PrefixRaised(rows, i + 1, strptime);
        return Raised(r.exc);
      }
      rules := rules + [r.value];
    }
    assert rows[..|rows|] == rows;
    return Returned(rules);
  }

  lemma ConvertRowsStep(rows: seq<CsvRow>, i: nat, strptime: string -> Stage<CivilDate>)
    requires i < |rows|
    ensures ConvertRows(rows[..i + 1], strptime)
         == var front := ConvertRows(rows[..i], strptime);
            if front.Raised? || Skipped(rows[i]) then front
            else if Convert(rows[i], strptime).Raised? then Raised(Convert(rows[i], strptime).exc)
            else Returned(front.value + [Convert(rows[i], strptime).value])
  {
    assert rows[..i + 1][..i] == rows[..i];
  }

  /** Once a prefix of the rows fails, the whole load fails the same way. */
  lemma {:induction false} PrefixRaised(rows: seq<CsvRow>, i: nat, strptime: string -> Stage<CivilDate>)
    requires i <= |rows| && ConvertRows(rows[..i], strptime).Raised?
    ensures ConvertRows(rows, strptime) == ConvertRows(rows[..i], strptime)
    decreases |rows| - i
  {
    if i < |rows| {
      assert rows[..i + 1][..i] == rows[..i];
      PrefixRaised(rows, i + 1, strptime);
    } else {
      assert rows[..i] == rows;
    }
  }

  // ---------------------------------------------------------------------
  // merge_holidays
  // ---------------------------------------------------------------------

  type Key = (string, string)

  /** `(h.get("date"), h.get("name"))` */
  function HolidayKey(h: Holiday): Key {
    (h.date, h.name)
  }

  /** `(r.date.isoformat(), r.name)` */
  function RuleKey(r: Rule): Key {
    (IsoFormat(r.date), r.name)
  }

  function KeySet(hs: seq<Holiday>): set<Key> {
    set h | h in hs :: HolidayKey(h)
  }

  /** The holiday dictionary a matched rule contributes. */
  function FromRule(r: Rule): (h: Holiday)
    ensures HolidayKey(h) == RuleKey(r)
  {
    Holiday(IsoFormat(r.date), r.name, None, None, None,
            Some(r.scope), Some(true), Some(r.source), Some(r.appliesTo), Some(r.notes))
  }

  /** The entries the loop appends: a rule is added unless its key is already
      `seen`, and every added key becomes seen. */
  function Added(seen: set<Key>, rules: seq<Rule>): (r: seq<Holiday>)
    ensures |r| <= |rules|
    decreases |rules|
  {
    if rules == [] then []
    else if RuleKey(rules[0]) in seen then Added(seen, rules[1..])
    else [FromRule(rules[0])] + Added(seen + {RuleKey(rules[0])}, rules[1..])
  }

  /** The sort key `(x.get("date", ""), x.get("name", ""))`, compared as
      Python compares tuples of strings. */
  predicate HolidayLeq(a: Holiday, b: Holiday) {
    StrLt(a.date, b.date) || (a.date == b.date && StrLe(a.name, b.name))
  }

  function HolidayOrder(): (Holiday, Holiday) -> bool {
    (a, b) => HolidayLeq(a, b)
  }

  lemma HolidayOrderIsTotalPreorder()
    ensures TotalPreorder(HolidayOrder())
  {
    forall a: Holiday, b: Holiday ensures HolidayLeq(a, b) || HolidayLeq(b, a) {
      StrLtTrichotomy(a.date, b.date);
      StrLeTotal(a.name, b.name);
    }
    forall a: Holiday, b: Holiday, c: Holiday | HolidayLeq(a, b) && HolidayLeq(b, c)
      ensures HolidayLeq(a, c)
    {
      if StrLt(a.date, b.date) && StrLt(b.date, c.date) {
        StrLtTransitive(a.date, b.date, c.date);
      } else if a.date == b.date && b.date == c.date {
        StrLeTransitive(a.name, b.name, c.name);
      }
    }
  }

  /** The result of `merge_holidays(base, rules)`. */
  function Merged(base: seq<Holiday>, rules: seq<Rule>): seq<Holiday> {
    Sort(base + Added(KeySet(base), rules), HolidayOrder())
  }

  method MergeHolidays(base: seq<Holiday>, rules: seq<Rule>) returns (out: seq<Holiday>)
    ensures out == Merged(base, rules)
  {
    var seen := KeySet(base);
    out := base;
    for i := 0 to |rules|
      invariant out + Added(seen, rules[i..]) == base + Added(KeySet(base), rules)
    {
      var r := rules[i];
      AddedStep(seen, rules, i);
      var key := RuleKey(r);
      if key in seen {
        continue;
      }
      out := out + [FromRule(r)];
      seen := seen + {key};
    }
    assert Added(seen, rules[|rules|..]) == [];
    assert out == base + Added(KeySet(base), rules);
    out := Sort(out, HolidayOrder());
  }

  /** One turn of the merge loop: the rule at `i` is skipped or added. */
  lemma AddedStep(seen: set<Key>, rules: seq<Rule>, i: nat)
    requires i < |rules|
    ensures Added(seen, rules[i..]) ==
      if RuleKey(rules[i]) in seen then Added(seen, rules[i + 1..])
      else [FromRule(rules[i])] + Added(seen + {RuleKey(rules[i])}, rules[i + 1..])
  {
    assert rules[i..][0] == rules[i] && rules[i..][1..] == rules[i + 1..];
  }

  /** Every base entry is kept, duplicates among them included, and at most one
      entry is added per rule. */
  lemma MergeBounds(base: seq<Holiday>, rules: seq<Rule>)
    ensures multiset(base) <= multiset(Merged(base, rules))
    ensures |base| <= |Merged(base, rules)| <= |base| + |rules|
  {
    SortPermutes(base + Added(KeySet(base), rules), HolidayOrder());
  }

  /** Each added entry is the entry of one of the rules, marked regional,
      under a key not seen before. */
  lemma {:induction false} AddedFromRules(seen: set<Key>, rules: seq<Rule>, h: Holiday)
    requires h in Added(seen, rules)
    ensures h.isRegional == Some(true) && HolidayKey(h) !in seen
    ensures exists r :: r in rules && h == FromRule(r)
    decreases |rules|
  {
    var r0 := rules[0];
    if RuleKey(r0) in seen {
      AddedFromRules(seen, rules[1..], h);
    } else if h != FromRule(r0) {
      AddedFromRules(seen + {RuleKey(r0)}, rules[1..], h);
    }
  }

  /** No two added entries share a key. */
  lemma {:induction false} AddedKeysDistinct(seen: set<Key>, rules: seq<Rule>, i: nat, j: nat)
    requires i < j < |Added(seen, rules)|
    ensures HolidayKey(Added(seen, rules)[i]) != HolidayKey(Added(seen, rules)[j])
    decreases |rules|
  {
    var r0 := rules[0];
    if RuleKey(r0) in seen {
      AddedKeysDistinct(seen, rules[1..], i, j);
    } else {
      var seen' := seen + {RuleKey(r0)};
      var rest := Added(seen', rules[1..]);
      var all := Added(seen, rules);
      assert all == [FromRule(r0)] + rest;
      assert all[j] == rest[j - 1];
      if i == 0 {
        assert all[0] == FromRule(r0);
        AddedFromRules(seen', rules[1..], rest[j - 1]);
      } else {
        assert all[i] == rest[i - 1];
        AddedKeysDistinct(seen', rules[1..], i - 1, j - 1);
      }
    }
  }

  /** Every rule's key is seen beforehand or carried by an added entry. */
  lemma {:induction false} AddedCoversRules(seen: set<Key>, rules: seq<Rule>, r: Rule)
    requires r in rules
    ensures RuleKey(r) in seen || exists h :: h in Added(seen, rules) && HolidayKey(h) == RuleKey(r)
    decreases |rules|
  {
    var r0 := rules[0];
    if RuleKey(r0) in seen {
      if r != r0 { AddedCoversRules(seen, rules[1..], r); }
    } else {
      var seen' := seen + {RuleKey(r0)};
      assert Added(seen, rules) == [FromRule(r0)] + Added(seen', rules[1..]);
      if RuleKey(r) != RuleKey(r0) {
        AddedCoversRules(seen', rules[1..], r);
      } else {
        assert FromRule(r0) in Added(seen, rules);
      }
    }
  }

  /** When some rule's key is already a base key, strictly fewer than
      `|base| + |rules|` entries come out. */
  lemma {:induction false} AddedShorterOnOverlap(seen: set<Key>, rules: seq<Rule>, k: nat)
    requires k < |rules| && RuleKey(rules[k]) in seen
    ensures |Added(seen, rules)| < |rules|
    decreases |rules|
  {
    var tail := rules[1..];
    if k == 0 {
      assert Added(seen, rules) == Added(seen, tail);
    } else {
      assert tail[k - 1] == rules[k];
      var key := RuleKey(rules[k]);
      assert RuleKey(tail[k - 1]) == key;
      if RuleKey(rules[0]) in seen {
        assert Added(seen, rules) == Added(seen, tail);
        AddedShorterOnOverlap(seen, tail, k - 1);
      } else {
        var more := seen + {RuleKey(rules[0])};
        assert key in more;
        assert Added(seen, rules) == [FromRule(rules[0])] + Added(more, tail);
        AddedShorterOnOverlap(more, tail, k - 1);
      }
    }
  }

  /** The merged list is sorted by (date, name) and is a permutation of the
      base entries followed by the added ones; `sorted` being stable, entries
      with the same (date, name) keep that order. */
  lemma MergeSortedPermutation(base: seq<Holiday>, rules: seq<Rule>)
    ensures SortedBy(Merged(base, rules), HolidayOrder())
    ensures multiset(Merged(base, rules)) == multiset(base + Added(KeySet(base), rules))
    ensures forall e :: Filter(Merged(base, rules), Tied(HolidayOrder(), e))
                     == Filter(base + Added(KeySet(base), rules), Tied(HolidayOrder(), e))
  {
    var all := base + Added(KeySet(base), rules);
    HolidayOrderIsTotalPreorder();
    SortSorted(all, HolidayOrder());
    SortPermutes(all, HolidayOrder());
    forall e {
      SortStable(all, HolidayOrder(), e);
    }
  }

  /** A rule that shares its key with a base holiday adds nothing. */
  lemma MergeOverlapIsShorter(base: seq<Holiday>, rules: seq<Rule>, k: nat)
    requires k < |rules| && exists h :: h in base && HolidayKey(h) == RuleKey(rules[k])
    ensures |Merged(base, rules)| < |base| + |rules|
  {
    AddedShorterOnOverlap(KeySet(base), rules, k);
  }
}
