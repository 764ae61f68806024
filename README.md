# Address-to-holiday pipeline, modelled in Dafny

This project models the decision logic of a payroll compliance tool. For
each employee the tool takes a work address and works out which public
holidays apply: national and state holidays from the Nager.Date provider,
plus curated regional holidays matched by local government area (LGA),
postcode or locality. It flags every record whose location could not be
resolved with confidence for manual review, and it writes a Markdown
report that counts the outcomes.

The model follows the program's files, one module per file:

- `GeocodeCache` (`geocode_cache.dfy`): the persistent geocode cache. It is
  a class whose `table` field maps a cache key to the six stored columns.
  `get_cached` reads the table; `set_cached` upserts a row.
- `GeocodeGoogle` (`geocode_google.dfy`): the Google geocoder's control
  logic. It covers the cache key, the fallback-query simplifier, the
  flattening of address components, the state-name table, the locality
  chain, the reply handling, and the retry and caching flow. The HTTP reply
  for a query is a parameter.
- `HolidaysAu` (`holidays_au.dfy`): the filter that keeps the holidays
  observed in one state or territory.
- `RegionalRules` (`regional_rules.dfy`): the regional holiday rules. It
  covers converting CSV rows into rules, normalising text, matching rules
  to a location, and merging them into the base holidays with
  de-duplication and a sort.
- `Service` (`service.dfy`): the lookup orchestrator `lookup_address_info`.
  - Its status machine covers OK, LOW_CONFIDENCE, AMBIGUOUS_LGA,
    NOT_FOUND, RULES_MISSING, UPSTREAM_UNAVAILABLE and ERROR.
  - Its collaborators (geocoder, LGA lookup, holiday provider, rule loader,
    date parser) are the fields of an `Upstream` value.
  - The function `Lookup` gives the specification. The method
    `LookupAddressInfo` and its helper methods perform it step by step.
- `Report` (`report.dfy`): the deterministic part of the Markdown report.
  It covers the boolean and status parsing, the severity mapping, the
  counters and key messages of `summarise`, the Markdown table helper, and
  the date-frequency count with its top-ten list.
- `Batch` (`batch.dfy`): the row loop of `run_public_holiday_batch`. It
  covers work-mode selection, the year and pay-period overrides, the
  sorted holiday dates with the first name per date, and the union of the
  output columns. The lookup it calls is a parameter of the batch
  environment; `Batch.OrchestratorLookup` connects it to `Service.Lookup`.

The remaining modules are helpers. `Wrappers` holds `Option`, `Stage`
(returned or raised) and `Exception`. `Text` holds Python's string
operations. `Seqs` holds filtering, subsequences, a stable insertion sort
and an indexed map. `AssocLists` models insertion-ordered dictionaries.
`Calendar` holds dates and `isoformat`. `GeoDicts` is the geocode
dictionary.

Confidences are exact decimals (Dafny `real`). Dates inside the
orchestrator are `(year, month, day)` values. Dates the report reads back
from CSV are `YYYY-MM-DD` strings (the calendar date in extended format of
section 5.2.1.1 of ISO 8601:2004), compared lexicographically as Python
compares them.

Two facts that the proofs show about the system as composed:

- Once finalised, the orchestrator flags manual review exactly when the
  status is not OK. The report's LOW severity needs a manual-review flag
  on an OK, INFO or empty status. Of these the orchestrator emits only OK,
  and it never flags an OK record for review, so its records never reach
  LOW (`Report.LookupIsNeverLow`).
- The report's two holiday-count tallies disagree on negative counts.
  `summarise` puts such a count among "two or more", while the overview
  leaves it out of every row (`Report.OverviewAgreesWithSummary`). The
  batch never writes a negative count.

## Model

| member | source | states |
|---|---|---|
| GeocodeCache.Read | src/address_holidays/geocode_cache.py:39-63 | `get_cached` gives `None` exactly when the key has no row, in particular for a key never set |
| GeocodeCache.ReadAfterWrite | src/address_holidays/geocode_cache.py:66-88 | after `set_cached(k, g)`, `get_cached(k)` gives the six-column projection of `g`, and every other key reads as before |
| GeocodeCache.RoundTripKeepsSixFields | src/address_holidays/geocode_cache.py:54-61 | the dictionary read back keeps `formatted_address`, `lat`, `lon`, `state`, `postcode` and `locality` of what was written, and has none of the other keys (query used, fallback flag, quality, status, error) |
| GeocodeCache.ProjectExpand | src/address_holidays/geocode_cache.py:54-83 | writing back a row that was read stores the same row |
| GeocodeCache.GeocodeCache.constructor | src/address_holidays/geocode_cache.py:13-26 | a newly created table has no rows |
| GeocodeCache.GeocodeCache.GetCached | src/address_holidays/geocode_cache.py:39-63 | returns the expanded row of the key, or `None` when the key has no row; the table is not changed |
| GeocodeCache.GeocodeCache.SetCached | src/address_holidays/geocode_cache.py:66-88 | INSERT OR REPLACE: the key's row becomes the projection of `geo`, and every other row is unchanged |
| GeocodeGoogle.StateCode | src/address_holidays/geocode_google.py:88 | a missing state stays missing |
| GeocodeGoogle.StateCodeCases | src/address_holidays/geocode_google.py:10-19 | a listed state name maps to one of the eight codes, and different names map to different codes; an unlisted name passes through unchanged |
| GeocodeGoogle.StateCodeIdempotent | src/address_holidays/geocode_google.py:88 | mapping a state twice gives the same result as mapping it once |
| GeocodeGoogle.CacheKey | src/address_holidays/geocode_google.py:48 | the cache key `" ".join(address.lower().split())`; CacheKeyIsNormal, CacheKeyIdempotent, CacheKeyIgnoresCase and CacheKeyOfUpper state its properties |
| GeocodeGoogle.CacheKeyIsNormal | src/address_holidays/geocode_google.py:48 | the cache key has no surrounding whitespace and no upper-case letter |
| GeocodeGoogle.CacheKeyIdempotent | src/address_holidays/geocode_google.py:48 | normalising a key again gives the same key |
| GeocodeGoogle.CacheKeyIgnoresCase | src/address_holidays/geocode_google.py:48 | two addresses whose lower-cased forms are equal share a cache key |
| GeocodeGoogle.CacheKeyOfUpper | src/address_holidays/geocode_google.py:48 | an address and its upper-cased form share a cache key |
| GeocodeGoogle.NonBlankParts | src/address_holidays/geocode_google.py:36 | keeping the non-blank parts never produces more parts than there were pieces |
| GeocodeGoogle.NonBlankPartsShape | src/address_holidays/geocode_google.py:36 | each kept part is non-empty, has no surrounding whitespace and no comma |
| GeocodeGoogle.CommaPartsShape | src/address_holidays/geocode_google.py:36 | every comma-separated part of an address is non-empty, trimmed and free of commas |
| GeocodeGoogle.SimplifyForFallback | src/address_holidays/geocode_google.py:28-44 | the fallback query: the last two non-blank comma parts, or the address without its house number and street-type words; SimplifyKeepsLastTwoParts and SimplifyIsTrimmed state its properties |
| GeocodeGoogle.SimplifyKeepsLastTwoParts | src/address_holidays/geocode_google.py:36-38 | with two or more non-blank comma parts, the fallback query is the last two parts joined by ", " |
| GeocodeGoogle.DropHouseNumber | src/address_holidays/geocode_google.py:41 | removing the leading house number leaves a suffix of the input |
| GeocodeGoogle.DropHouseNumberOf | src/address_holidays/geocode_google.py:41 | digits, then whitespace, then a non-space character: the digits and the whitespace are dropped and the rest is kept |
| GeocodeGoogle.StripWords | src/address_holidays/geocode_google.py:42 | removing street-suffix words never lengthens the text |
| GeocodeGoogle.StreetSuffixesAreLetterWords | src/address_holidays/geocode_google.py:42 | each street-suffix alternative in the pattern is a non-empty lower-case word |
| GeocodeGoogle.StripWordsKeepsSeparator | src/address_holidays/geocode_google.py:42 | a character that is not a word character is kept |
| GeocodeGoogle.StripWordsRemovesWord | src/address_holidays/geocode_google.py:42 | a whole word that is a street suffix in any letter case is removed, together with a dot right after it |
| GeocodeGoogle.StripWordsKeepsWord | src/address_holidays/geocode_google.py:42 | a whole word that is not a street suffix is kept |
| GeocodeGoogle.SimplifyIsTrimmed | src/address_holidays/geocode_google.py:33-44 | the fallback query has no surrounding whitespace |
| GeocodeGoogle.AddTypesEntries | src/address_holidays/geocode_google.py:76-77 | one component sets each of its types to its `long_name`; other keys keep their values |
| GeocodeGoogle.FlattenComponents | src/address_holidays/geocode_google.py:74-77 | the nested loop builds exactly the flattened `components` dictionary |
| GeocodeGoogle.FlattenedKeys | src/address_holidays/geocode_google.py:74-77 | a type is a key exactly when some component lists it |
| GeocodeGoogle.FlattenedLastWins | src/address_holidays/geocode_google.py:74-77 | a type maps to the `long_name` of the last component that lists it |
| GeocodeGoogle.LocalityOf | src/address_holidays/geocode_google.py:81-85 | locality is the first truthy value of `locality`, `postal_town` and `administrative_area_level_2`, in that order |
| GeocodeGoogle.CallGeocode | src/address_holidays/geocode_google.py:54-99 | only an OK reply with a first result and its location gives a dictionary, which records the query and whether it was a fallback and has no quality key; ZERO_RESULTS raises the "Address not found" ValueError; any other status raises "Geocoding failed: <status>"; an HTTP error propagates |
| GeocodeGoogle.CallGeocodeStep | src/address_holidays/geocode_google.py:54-99 | the step-by-step `_call_geocode` gives the same outcome as `CallGeocode` |
| GeocodeGoogle.GeocodeFlow | src/address_holidays/geocode_google.py:47-115 | the result, new cache table and upstream calls of `geocode_address`; CacheHitMakesNoCall, MissStoresUnderOriginalKey, RetryOnlyAfterZeroResultsText and NoRetryWithoutZeroResultsText state its properties |
| GeocodeGoogle.GeocodeAddress | src/address_holidays/geocode_google.py:47-115 | against the cache object, `geocode_address` returns, updates the table and issues calls exactly as the flow function says |
| GeocodeGoogle.CacheHitMakesNoCall | src/address_holidays/geocode_google.py:50-52 | a cache hit returns the stored row, makes no upstream call and leaves the table unchanged |
| GeocodeGoogle.MissStoresUnderOriginalKey | src/address_holidays/geocode_google.py:101-115 | on a miss the address is sent first, with at most one retry; a success is stored under the original address's key, and a failure leaves the table unchanged |
| GeocodeGoogle.RetryOnlyAfterZeroResultsText | src/address_holidays/geocode_google.py:101-112 | a second call happens only after a ValueError whose text contains "ZERO_RESULTS", and it sends the fallback query, which is non-blank and differs from the address |
| GeocodeGoogle.NoRetryWithoutZeroResultsText | src/address_holidays/geocode_google.py:101-106 | without such a ValueError on the first call, exactly one call is made |
| GeocodeGoogle.ZeroResultsMessageLacksCode | src/address_holidays/geocode_google.py:61-65 | the ZERO_RESULTS error text does not contain "ZERO_RESULTS" |
| GeocodeGoogle.ZeroResultsNeverRetried | src/address_holidays/geocode_google.py:61-112 | as written, an upstream ZERO_RESULTS raises at once with a single call and is never retried |
| GeocodeGoogle.DocumentedStatusNeverFallsBack | src/address_holidays/geocode_google.py:61-112 | as written, a reply with any documented status leads to one call only, so a fresh result is never a fallback match |
| GeocodeGoogle.DocumentedFailureLacksZ | src/address_holidays/geocode_google.py:67-68 | the documented failure statuses other than ZERO_RESULTS contain no "Z" |
| GeocodeGoogle.FailureTextLacksCode | src/address_holidays/geocode_google.py:67-68 | "Geocoding failed: <status>" cannot contain "ZERO_RESULTS" when the status has no "Z" |
| GeocodeGoogle.FlowHasNoQuality | src/address_holidays/geocode_google.py:90-99 | whatever `geocode_address` returns has no `location_type`, `geocode_quality` or `quality` key |
| GeocodeGoogle.CallGeocodeFixed | src/address_holidays/geocode_google.py:61-65 | corrected `_call_geocode`: it succeeds only where the original succeeds, with the same query and fallback flag, and it carries `location_type` into the result |
| GeocodeGoogle.FixedMessageHasCode | src/address_holidays/geocode_google.py:61-65 | the corrected ZERO_RESULTS error text contains "ZERO_RESULTS" |
| GeocodeGoogle.FixedRetriesZeroResults | src/address_holidays/geocode_google.py:101-112 | with the correction, an upstream ZERO_RESULTS is retried with the usable fallback query, and a success is flagged as a fallback match |
| HolidaysAu.FilterHolidaysForSubdivision | src/address_holidays/holidays_au.py:24-35 | the loop returns exactly the holidays that are global or list `AU-<code>` among their counties, in input order |
| HolidaysAu.FilterKeepsOrder | src/address_holidays/holidays_au.py:24-35 | the result is a subsequence of the input |
| HolidaysAu.FilterKeepsExactly | src/address_holidays/holidays_au.py:26-33 | a holiday is kept if and only if it is in the input and is global or lists `AU-<code>` |
| HolidaysAu.GlobalsSurvive | src/address_holidays/holidays_au.py:30-33 | every global holiday survives, whatever the code |
| HolidaysAu.NoCountiesOnlyGlobal | src/address_holidays/holidays_au.py:29 | a holiday whose counties are absent, null or empty survives exactly when it is global |
| HolidaysAu.FilterTwice | src/address_holidays/holidays_au.py:24-35 | filtering twice for the same code gives the same result as filtering once |
| RegionalRules.Norm | src/address_holidays/regional_rules.py:67-68 | `_norm`; NormIsNormal, NormIdempotent and NormOfBlank state its properties |
| RegionalRules.NormIsNormal | src/address_holidays/regional_rules.py:67-68 | a normalised value has no surrounding whitespace and no upper-case letter |
| RegionalRules.NormIdempotent | src/address_holidays/regional_rules.py:67-68 | normalising twice gives the same result as normalising once |
| RegionalRules.NormOfBlank | src/address_holidays/regional_rules.py:67-68 | `None`, the empty string and blank strings all normalise to "" |
| RegionalRules.MatchRegionalRules | src/address_holidays/regional_rules.py:70-102 | the loop returns exactly the rules that match the normalised location, in order |
| RegionalRules.MatchedKeepsOrder | src/address_holidays/regional_rules.py:84-102 | the matched rules are a subsequence of the input rules |
| RegionalRules.MatchedExactly | src/address_holidays/regional_rules.py:79-100 | a rule matches if and only if its normalised state equals the input state, it applies to ALL (unless restricted rules are included), and its normalised match value equals the input field that its declared match type names |
| RegionalRules.MatchedNeverOther | src/address_holidays/regional_rules.py:86-100 | a matched rule has match type LGA, POSTCODE or LOCALITY, applies to ALL when restricted rules are excluded, and has the input's normalised state |
| RegionalRules.Field | src/address_holidays/regional_rules.py:54 | `row[key].strip()` is trimmed and raises KeyError for a missing column |
| RegionalRules.OptionalField | src/address_holidays/regional_rules.py:60-61 | `row.get(key, "").strip()` is trimmed and gives "" for a missing column |
| RegionalRules.UpperField | src/address_holidays/regional_rules.py:55-59 | `row[key].strip().upper()` is trimmed and upper-case, and raises KeyError for a missing column |
| RegionalRules.Convert | src/address_holidays/regional_rules.py:51-62 | a converted rule has every field trimmed, with state, match type, scope and applies-to upper-cased; its date is the parsed date; source and notes default to ""; a date that fails to parse, or a missing name, raises |
| RegionalRules.ConvertRowsKept | src/address_holidays/regional_rules.py:46-63 | a successful load has one rule per row that has a date, in row order, each the conversion of its row; a failed load comes from a row with a date that fails to convert |
| RegionalRules.LoadRegionalRules | src/address_holidays/regional_rules.py:30-64 | the loader loop gives `[]` for a missing file and otherwise the row conversion |
| RegionalRules.PrefixRaised | src/address_holidays/regional_rules.py:46-63 | once a prefix of the rows fails, the whole load fails with the same exception |
| RegionalRules.FromRule | src/address_holidays/regional_rules.py:124-137 | the entry added for a rule carries the rule's (isodate, name) key |
| RegionalRules.Added | src/address_holidays/regional_rules.py:123-138 | at most one entry is added per rule |
| RegionalRules.HolidayOrderIsTotalPreorder | src/address_holidays/regional_rules.py:141 | the (date, name) sort key is a total preorder |
| RegionalRules.Merged | src/address_holidays/regional_rules.py:105-142 | the result of `merge_holidays`: the base plus the added rule entries, stably sorted by (date, name); MergeBounds, MergeSortedPermutation and MergeOverlapIsShorter state its properties |
| RegionalRules.MergeHolidays | src/address_holidays/regional_rules.py:105-142 | the merge loop and the sort return exactly the merged list |
| RegionalRules.MergeBounds | src/address_holidays/regional_rules.py:120-138 | every base entry is kept, duplicates included, and `len(base) <= len(out) <= len(base) + len(rules)` |
| RegionalRules.AddedFromRules | src/address_holidays/regional_rules.py:127-137 | each added entry is marked regional, has a key not seen in base, and is the entry of one of the rules |
| RegionalRules.AddedKeysDistinct | src/address_holidays/regional_rules.py:124-138 | no two added entries share a key |
| RegionalRules.AddedCoversRules | src/address_holidays/regional_rules.py:124-138 | every rule's key is either a base key or carried by an added entry |
| RegionalRules.AddedShorterOnOverlap | src/address_holidays/regional_rules.py:125-126 | a rule whose key is already a base key adds nothing, so fewer entries than rules are added |
| RegionalRules.MergeSortedPermutation | src/address_holidays/regional_rules.py:122-141 | the merged list is sorted by (date, name) and is a permutation of the base plus the added entries; `sorted` being stable, entries with equal (date, name) keep their order in the base-plus-added list |
| RegionalRules.MergeOverlapIsShorter | src/address_holidays/regional_rules.py:120-141 | with an overlapping key, the merged list is shorter than `len(base) + len(rules)` |
| Service.ConfidenceFromQuality | src/address_holidays/service.py:33-46 | the confidence is one of 1.0, 0.8, 0.6, 0.5 and 0.4, and is 0.5 for an absent or empty quality |
| Service.ConfidenceIgnoresCase | src/address_holidays/service.py:37 | the table does not depend on the letter case of the quality |
| Service.RooftopConfidence | src/address_holidays/service.py:38-39 | ROOFTOP gives 1.0 |
| Service.ConfidenceReachesThreshold | src/address_holidays/service.py:33-46 | only ROOFTOP and RANGE_INTERPOLATED, in any case, reach the 0.7 threshold |
| Service.Quality | src/address_holidays/service.py:124-129 | the quality is the first truthy value of `location_type`, `geocode_quality` and `quality`, or `None` when none is truthy |
| Service.InitAudit | src/address_holidays/service.py:49-63 | a fresh audit is OK, with confidence 1.0, no rules, no error and no quality, and records the input address |
| Service.Clamp01 | src/address_holidays/service.py:70-72 | the confidence is clamped to [0, 1]; a value that cannot be converted becomes 0.0 |
| Service.Finalised | src/address_holidays/service.py:66-72 | after finalising, manual review is set exactly when the status is not OK, the confidence is in [0, 1] (unchanged when already inside), and nothing else changes |
| Service.FinaliseIdempotent | src/address_holidays/service.py:66-72 | finalising twice gives the same result as finalising once |
| Service.InitAuditIsFinal | src/address_holidays/service.py:49-72 | a fresh audit is already final |
| Service.WithDefaults | src/address_holidays/service.py:204-208 | only missing keys are filled, with FULL_DAY, False, "Nager.Date" and ALL; existing values and other keys are untouched |
| Service.WithDefaultsIdempotent | src/address_holidays/service.py:204-208 | filling defaults twice gives the same result as filling them once |
| Service.DefaultedAt | src/address_holidays/service.py:204-208 | entry `i` of the defaulted list is entry `i` of the input with its defaults filled |
| Service.DefaultedKeepsDatesAndNames | src/address_holidays/service.py:204-208 | defaulting keeps each holiday's date, name, global flag and counties, in the same order |
| Service.ApplyDefaults | src/address_holidays/service.py:204-208 | the `setdefault` loop returns the defaulted list |
| Service.RuleIds | src/address_holidays/service.py:225-236 | there are no more ids than rules |
| Service.RuleIdsOfNamed | src/address_holidays/service.py:226-235 | the ids are `isodate:name` of exactly the rules that have a name, in rule order |
| Service.CollectRuleIds | src/address_holidays/service.py:225-236 | the loop that appends to `applied` returns exactly those ids |
| Service.AppliedLabelOfNamed | src/address_holidays/service.py:356 | a rule with a trimmed, non-empty name is labelled `isodate - name` |
| Service.AppliedLabels | src/address_holidays/service.py:355-359 | there is one label per matched rule, and label i is the stripped `date - name` of rule i |
| Service.Downgraded | src/address_holidays/service.py:241-247 | confidence never increases; an empty merged list forces RULES_MISSING; otherwise OK becomes LOW_CONFIDENCE exactly when confidence is below 0.7, and any other status is kept |
| Service.PeriodFilter | src/address_holidays/service.py:252-256 | the pay-period filter, which raises on the first date that does not parse; PeriodFilterExactly states its properties |
| Service.PeriodFilterExactly | src/address_holidays/service.py:252-256 | when every date parses, the period list is exactly the holidays dated from start to end inclusive, in order; otherwise the failing parse is raised |
| Service.Handle | src/address_holidays/service.py:271-336 | a ValueError whose lower-cased text mentions "address not found" or "zero_results" gives NOT_FOUND, any other ValueError gives UPSTREAM_UNAVAILABLE, and any other exception gives ERROR with the LGA kept; all three set confidence 0.0 and the error "TypeName: msg" |
| Service.Lookup | src/address_holidays/service.py:75-363 | the result of `lookup_address_info`; EarlyReturnsNothing, NotFoundGeocode, NoCoordinates, AmbiguousLga, GeocodeRaised, CompleteStatus, CompletePeriod, CompleteRules, ResultIsFinal and LookupStatusIsEngine state its properties |
| Service.LookupAddressInfo | src/address_holidays/service.py:75-363 | the step-by-step lookup returns exactly `Lookup` |
| Service.ResolveLocation | src/address_holidays/service.py:96-194 | the geocode and LGA steps return what the specification gives after the geocode |
| Service.ResolveHolidays | src/address_holidays/service.py:199-268 | the steps after the LGA return what the specification gives after the LGA |
| Service.FinishLookup | src/address_holidays/service.py:240-363 | the steps after the merge return what the specification gives after the merge |
| Service.EarlyReturnsNothing | src/address_holidays/service.py:96-194 | every early exit and handled exception returns no holidays, zero counts and no applied rules, and is never OK, so it is flagged for review |
| Service.NotFoundGeocode | src/address_holidays/service.py:96-121 | a not-found geocode gives NOT_FOUND with confidence 0.0, no LGA and the geocode's error text or the fixed message, and no later stage is consulted |
| Service.NoCoordinates | src/address_holidays/service.py:133-158 | a geocode without coordinates gives NOT_FOUND with confidence 0.0 and the fixed message, and no later stage is consulted |
| Service.AmbiguousLga | src/address_holidays/service.py:163-194 | a missing LGA gives AMBIGUOUS_LGA whatever the confidence, which is kept; only the message depends on the confidence, and no later stage is consulted |
| Service.GeocodeRaised | src/address_holidays/service.py:271-336 | an exception from the geocoder is handled with an empty geocode: no address fields, confidence 0.0, and the status set by the exception's kind and text |
| Service.FinalMessage | src/address_holidays/service.py:260-269 | the final audit message for OK, LOW_CONFIDENCE and RULES_MISSING, any other status keeping its message; CompleteStatus states which message each status gets |
| Service.CompleteStatus | src/address_holidays/service.py:238-268 | a lookup that runs to the end is OK exactly when confidence is at least 0.7 and holidays remain, LOW_CONFIDENCE exactly when confidence is low and holidays remain, and RULES_MISSING exactly when none remain; each status has its fixed message and the counts are the list lengths |
| Service.CompletePeriod | src/address_holidays/service.py:252-258 | with both bounds, the period list is the merged holidays from start to end inclusive; otherwise it is the whole list; the pay period echoes the bounds |
| Service.CompleteRules | src/address_holidays/service.py:213-238 | the ids in the audit are those of the named matched rules, and there is one applied label per matched rule, in order |
| Service.ResultIsFinal | src/address_holidays/service.py:66-72 | whatever path is taken, the returned audit is final: manual review exactly when not OK, and confidence in [0, 1] |
| Service.LookupStatusIsEngine | src/address_holidays/service.py:23-29 | every lookup ends with one of the seven statuses the orchestrator defines |
| Service.ComposedLookupNeverOk | src/address_holidays/service.py:124-131 | with the geocoder as written, no lookup ends OK |
| Service.CorrectedLookupCanBeOk | src/address_holidays/service.py:124-131 | with the corrected geocoder, a rooftop fix that keeps its holidays ends OK with confidence 1.0 |
| Report.AsBoolReadsPyBool | src/address_holidays/reporting/public_holiday_report_md.py:44-48 | the "True"/"False" the batch writes reads back as the same boolean |
| Report.AsBoolIgnoresCaseAndPadding | src/address_holidays/reporting/public_holiday_report_md.py:47-48 | neither letter case nor surrounding whitespace changes the result |
| Report.Clean | src/address_holidays/reporting/public_holiday_report_md.py:60-63 | the result is trimmed, and "" for `None` |
| Report.CleanIdempotent | src/address_holidays/reporting/public_holiday_report_md.py:60-63 | cleaning twice gives the same result as cleaning once |
| Report.Position | src/address_holidays/reporting/public_holiday_report_md.py:77-78 | `STATUS_ORDER.index(s)`: the first position of `s`, and a position inside the list exactly when `s` is listed |
| Report.StatusSortKey | src/address_holidays/reporting/public_holiday_report_md.py:75-79 | the key is the `STATUS_ORDER` index of the stripped status for a listed status, and 999 otherwise |
| Report.ByStatusLeIsTotalPreorder | src/address_holidays/reporting/public_holiday_report_md.py:251 | the order that sorts `by_status` is a total preorder |
| Report.SeverityOf | src/address_holidays/reporting/public_holiday_report_md.py:82-106 | `_status_to_severity` on a stripped, upper-case status; CanonicalSeverity, SeverityOfEngineStatuses and StatusToSeverity state its properties |
| Report.StatusToSeverity | src/address_holidays/reporting/public_holiday_report_md.py:82-106 | the severity is always one of HIGH, MED, LOW and INFO |
| Report.SeverityIgnoresCaseAndPadding | src/address_holidays/reporting/public_holiday_report_md.py:87 | the mapping only looks at the stripped, upper-cased status |
| Report.SeverityOfEngineStatuses | src/address_holidays/reporting/public_holiday_report_md.py:90-106 | for the orchestrator's statuses: NOT_FOUND gives HIGH, LOW_CONFIDENCE gives MED, OK with manual review gives LOW, and everything else gives INFO (AMBIGUOUS_LGA and ERROR included) |
| Report.LookupIsNeverLow | src/address_holidays/reporting/public_holiday_report_md.py:101-103 | for every address, upstream and period, a record produced by the orchestrator is never given the LOW severity |
| Report.LoadFinding | src/address_holidays/reporting/public_holiday_report_md.py:144-149 | a loaded row has its review flag parsed by `_as_bool` and its holiday count by `_safe_int`; its status, pay-period start and end, and date cells are as read |
| Report.StatusLabel | src/address_holidays/reporting/public_holiday_report_md.py:172 | the status label is never empty and is trimmed |
| Report.StatusCounts | src/address_holidays/reporting/public_holiday_report_md.py:171-173 | `by_status[s]` is the number of records with status label `s` |
| Report.StatusKeys | src/address_holidays/reporting/public_holiday_report_md.py:171-173 | a label is a key of `by_status` exactly when some record has it |
| Report.StatusTotal | src/address_holidays/reporting/public_holiday_report_md.py:161-173 | the `by_status` counts add up to the number of records |
| Report.SeverityCounts | src/address_holidays/reporting/public_holiday_report_md.py:166-176 | `by_severity` has exactly the keys HIGH, MED, LOW and INFO; each count is the number of records with that severity, and the counts add up to the number of records |
| Report.FlagCounts | src/address_holidays/reporting/public_holiday_report_md.py:178-181 | the NOT_FOUND and LOW_CONFIDENCE counters count the records whose upper-cased label is that status |
| Report.BucketsPartition | src/address_holidays/reporting/public_holiday_report_md.py:184-199 | zero + one + two-plus equals the number of records, and the zero and one buckets count the records with those holiday counts |
| Report.Starts | src/address_holidays/reporting/public_holiday_report_md.py:155 | one cleaned start date per record |
| Report.Ends | src/address_holidays/reporting/public_holiday_report_md.py:156 | one cleaned end date per record |
| Report.LeastIsLeast | src/address_holidays/reporting/public_holiday_report_md.py:155-158 | the first of the sorted non-empty values is one of them and is at most every one of them; it is "" exactly when there are none |
| Report.GreatestIsGreatest | src/address_holidays/reporting/public_holiday_report_md.py:156-159 | the last of the sorted non-empty values is one of them and is at least every one of them; it is "" exactly when there are none |
| Report.KeyMessagesShape | src/address_holidays/reporting/public_holiday_report_md.py:203-243 | the closing statement comes last and only there; the two opening messages are present exactly when total > 0; each count message is present exactly when its count is positive; the list's length follows from these |
| Report.CountFindings | src/address_holidays/reporting/public_holiday_report_md.py:171-181 | the first loop of `summarise` computes the status, severity and flag counters |
| Report.CountFinding | src/address_holidays/reporting/public_holiday_report_md.py:172-181 | one record adds one to its status label's count and to its severity's count, and to the NOT_FOUND or LOW_CONFIDENCE counter when its upper-cased label is that status |
| Report.BucketFindings | src/address_holidays/reporting/public_holiday_report_md.py:188-199 | the second loop computes the three holiday-count buckets |
| Report.SummaryOf | src/address_holidays/reporting/public_holiday_report_md.py:153-254 | the dictionary `summarise` returns; SummaryByStatus, SummaryPeriod and SummaryMessages state its properties |
| Report.Summarise | src/address_holidays/reporting/public_holiday_report_md.py:153-254 | `summarise` returns the summary of the findings |
| Report.SummaryByStatus | src/address_holidays/reporting/public_holiday_report_md.py:251 | the summary's status table is the status counter sorted by the status key, stably: entries with the same key keep their counting order; its counts add up to the total |
| Report.SummaryPeriod | src/address_holidays/reporting/public_holiday_report_md.py:155-159 | the period start is the least non-empty start date and the period end is the greatest non-empty end date; each is "" when there are none |
| Report.SummaryMessages | src/address_holidays/reporting/public_holiday_report_md.py:203-243 | the summary's key messages end with the closing statement; the opening pair is there exactly when there are records; the NOT_FOUND and LOW_CONFIDENCE messages are there exactly when those counts are positive; the buckets add up to the total |
| Report.Dashes | src/address_holidays/reporting/public_holiday_report_md.py:261 | `["---"] * n` has `n` cells, each "---" |
| Report.RowLines | src/address_holidays/reporting/public_holiday_report_md.py:262-263 | one table line per row |
| Report.MdTable | src/address_holidays/reporting/public_holiday_report_md.py:257-264 | `_md_table` joins the header line, the separator line and the row lines with newlines |
| Report.MdTableLines | src/address_holidays/reporting/public_holiday_report_md.py:257-264 | when no cell holds a line break, the table has `2 + len(rows)` lines: the header, a separator with one "---" cell per header, then one line per row |
| Report.Tokens | src/address_holidays/reporting/public_holiday_report_md.py:480 | every token is non-empty and trimmed |
| Report.CountTokens | src/address_holidays/reporting/public_holiday_report_md.py:480-481 | the inner loop adds one to `freq` for each token, in order |
| Report.CountHolidayDates | src/address_holidays/reporting/public_holiday_report_md.py:475-481 | the `freq` loop computes the frequency dictionary |
| Report.IncAllGet | src/address_holidays/reporting/public_holiday_report_md.py:481 | counting tokens raises each key's count by the number of times it occurs among the tokens |
| Report.IncAllKeys | src/address_holidays/reporting/public_holiday_report_md.py:481 | counting adds exactly the tokens as keys |
| Report.IncAllDistinct | src/address_holidays/reporting/public_holiday_report_md.py:481 | counting never duplicates a key |
| Report.FrequenciesCount | src/address_holidays/reporting/public_holiday_report_md.py:475-481 | `freq[t]` is the number of times `t` occurs among all records' date tokens; the keys are exactly those tokens, each once |
| Report.TopLeIsTotalPreorder | src/address_holidays/reporting/public_holiday_report_md.py:483 | the order "more records first, then by date" is a total preorder |
| Report.TopDates | src/address_holidays/reporting/public_holiday_report_md.py:483 | `sorted(freq.items(), key=lambda x: (-x[1], x[0]))[:10]`; TopDatesAreTop states its properties |
| Report.TopDatesAreTop | src/address_holidays/reporting/public_holiday_report_md.py:483 | the top list has `min(10, len(freq))` entries, all from `freq`, sorted by count descending and then by date; no left-out entry ranks above a listed one |
| Report.BuildOverview | src/address_holidays/reporting/public_holiday_report_md.py:464-483 | the overview computes its total, its 0, 1 and 2+ counts, and its top dates |
| Report.CountsPartition | src/address_holidays/reporting/public_holiday_report_md.py:470-472 | the counts of 0, of 1, of 2 or more, and of negative values add up to the number of records |
| Report.OverviewAgreesWithSummary | src/address_holidays/reporting/public_holiday_report_md.py:468-472 | the overview's 0 and 1 rows match the summary's buckets; the summary's two-plus bucket is the overview's 2+ row plus the negative counts |
| Batch.WorkMode | src/address_holidays/run.py:97-98 | the work mode is trimmed and upper-case |
| Batch.ModeOf | src/address_holidays/run.py:100-104 | OFFICE selects the office address, HOME selects the home address, and any other value is invalid |
| Batch.EffectiveYear | src/address_holidays/run.py:124-131 | a missing, blank or unparsable year cell gives the batch year; otherwise the parsed year |
| Batch.ParseIsoDate | src/address_holidays/run.py:36-46 | a missing or blank value gives `None`; otherwise the parse of the stripped value |
| Batch.Override | src/address_holidays/run.py:137-138 | a parsed row date wins; otherwise the batch default is used |
| Batch.SortedDates | src/address_holidays/run.py:147 | `sorted({h.get("date") for h in holidays_in_period if h.get("date")})`; SortedDatesAreTheDateSet states its properties |
| Batch.SortedDatesAreTheDateSet | src/address_holidays/run.py:147 | `dates` is strictly increasing and holds exactly the non-empty holiday dates |
| Batch.NamesByDate | src/address_holidays/run.py:150-156 | the `names_by_date` dictionary; NamesByDateFirstWins states its properties |
| Batch.NamesByDateFirstWins | src/address_holidays/run.py:150-156 | `names_by_date[d]` is the name of the first holiday dated `d` |
| Batch.CollectNames | src/address_holidays/run.py:150-156 | the `setdefault` loop builds `names_by_date` |
| Batch.AlignedNames | src/address_holidays/run.py:159 | one name per date: `names_by_date.get(d, "")` |
| Batch.NamesFollowDates | src/address_holidays/run.py:147-159 | `names[i]` is the first name seen for `dates[i]` |
| Batch.ColumnsOfCases | src/address_holidays/run.py:106-194 | every record has `row` and `employee_id`; a rejected row has `error` and no lookup columns; a looked-up row has the lookup columns and no `error` |
| Batch.Enrich | src/address_holidays/run.py:93-94 | each record carries its row index and the row's employee id |
| Batch.EnrichCases | src/address_holidays/run.py:96-185 | an invalid work mode gives the error record; a missing or blank selected address gives the missing-address record; otherwise the trimmed address is looked up with the effective year and the overridden period |
| Batch.LookedCells | src/address_holidays/run.py:172-181 | with the orchestrator's result, manual review is set exactly when the status is not OK, confidence is in [0, 1], the count is the number of period holidays, and the period cells are the ISO dates or "" |
| Batch.EnrichRow | src/address_holidays/run.py:93-185 | one iteration of the row loop builds the record of the specification |
| Batch.EnrichAll | src/address_holidays/run.py:93-194 | one record per input row |
| Batch.OneRecordPerRow | src/address_holidays/run.py:93-194 | record `i` is the enrichment of row `i` and carries `row == i` |
| Batch.OrchestratorLookup | src/address_holidays/run.py:137-181 | when the lookup is the orchestrator, each looked-up record flags review exactly when not OK, has confidence in [0, 1], and echoes the row's effective pay period |
| Batch.AllColumnsIsUnion | src/address_holidays/run.py:197-202 | a column is in the header exactly when some record has it |
| Batch.CollectColumns | src/address_holidays/run.py:199-201 | the `update` loop builds the union of the record keys |
| Batch.HeaderColumns | src/address_holidays/run.py:197-202 | a non-empty batch's header has `row` and `employee_id`; it has `error` exactly when some row was rejected, and the lookup columns exactly when some row was looked up |
| Batch.RunBatch | src/address_holidays/run.py:84-204 | the header and records `run_public_holiday_batch` writes; OneRecordPerRow, HeaderColumns and RunPublicHolidayBatch state its properties |
| Batch.RunPublicHolidayBatch | src/address_holidays/run.py:84-204 | an empty input keeps the input header; otherwise there is one record per row and the header is the union of their keys |

## Left out

- The SQLite connection, schema creation and column migration of the cache, and its `created_at` column.
- The HTTP calls to the Google Geocoding API and to Nager.Date. Each reply is an input: a function from query to `Stage<Payload>` for the geocoder, and a field of `Service.Upstream` for the holiday provider.
- `lga_lookup.py` (point-in-polygon through geopandas) is not part of this model. It is the oracle `Upstream.lga` from latitude and longitude to an optional LGA name, which may raise.
- The date and float conversions of the Python library (`datetime.strptime`, `date.fromisoformat`, `datetime.fromisoformat`, `int(...)`). They are partial parser parameters, which return `None` or raise where Python raises.
- Service.Clamp01: `float(...)` of an arbitrary value is not modelled; a value that does not convert is `None`.
- Report's `_as_float`, `_safe_int`, `_as_int`, `fmt_date`, `fmt_iso_date` and `_fmt_iso_to_long`: library conversions. `Report.LoadFinding` takes the integer conversion `_safe_int` as a parameter. `Report.OverviewOf` and `Report.BuildOverview` take none: they reuse the count stored when the row was loaded where the source recomputes `_as_int` of that cell (public_holiday_report_md.py:468). The two agree, because `_safe_int` returns `int(float(v))`, an integer that `float` represents exactly, so `_as_int` of its text is that integer again.
- `render_markdown`, `write_report_markdown` and `generate_public_holiday_report`: the report prose and file output. Report.Sentence renders the key messages but carries no contract about the literal wording.
- `load_findings` and the CSV reading and writing in `run_public_holiday_batch`. Rows are given as maps from column name to optional cell; the output is the header plus the records.
- The clock: `date.today().year`, the default batch year, is the `year` field of the batch environment.
- Batch.RunPublicHolidayBatch: the header is the set of column names. Python's `list(set)` gives an unspecified order, so no order is modelled.
- Batch.EnrichRow: the `except Exception` record of `run.py` (lines 186-194) is not modelled. The lookup is a total function here, and the modelled orchestrator catches every exception itself.
- `json.dumps` of the audit (`audit_json`) is not modelled.
- Service.PeriodFilter: a holiday dictionary is taken to carry `date` and `name` (`HolidaysAu.Holiday` holds them as plain strings). A provider entry without `date` would make `h["date"]` (service.py:255) raise KeyError, which `lookup_address_info` turns into an ERROR result keeping the LGA; that path, and the `""` that `x.get("date", "")` gives such an entry in the merge sort key, are not modelled.
- Text: case mapping (`lower`, `upper`) is modelled on ASCII letters only. Other characters pass through unchanged. Regular-expression `\w` and `\d` are ASCII too.
- `holidays_vic.py`, `streamlit_app.py`, `reporting/html_builder.py` and `scripts/build_lga_artifact.py` are not part of this model.
- JSON decoding and `raise_for_status` in `_call_geocode` are folded into the reply oracle, which either gives the decoded reply or raises.

## Findings

| source | as written | input that shows it | evidently intended | confidence | as-written member | corrected member |
|---|---|---|---|---|---|---|
| src/address_holidays/geocode_google.py:61-112 | The ZERO_RESULTS error text "Address not found. Try adding suburb + state/postcode ..." does not contain "ZERO_RESULTS", yet the retry tests `"ZERO_RESULTS" in str(e)`. The fallback query is never sent, and `is_fallback_match` is always false. | An address with no cache entry whose first reply has status ZERO_RESULTS and whose simplified query is non-blank and different (e.g. "Unit 4, 12 Foo St, Brunswick VIC 3056"): one call, then the ValueError | The ZERO_RESULTS failure is retried once with the simplified query | high (not executed) | GeocodeGoogle.ZeroResultsNeverRetried | GeocodeGoogle.FixedRetriesZeroResults |
| src/address_holidays/service.py:124-131 | The orchestrator reads the geocode quality from `location_type`, `geocode_quality` or `quality`. The geocoder's result (geocode_google.py:90-99) has none of these keys, so the confidence is always 0.5, below the 0.7 threshold, and no lookup can end OK. | Any address that geocodes to a ROOFTOP result, resolves to an LGA and has holidays: status LOW_CONFIDENCE instead of OK | The geocoder carries Google's `location_type`, so a ROOFTOP fix gets confidence 1.0 and status OK | high (not executed) | Service.ComposedLookupNeverOk | Service.CorrectedLookupCanBeOk |
