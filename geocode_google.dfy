/** The control logic of the Google geocoder: the cache key, the fallback
    query simplifier, the interpretation of one Geocoding API reply (status
    checks, address-component flattening, the state-name table and the
    locality chain), and the cache-then-call-then-retry flow of
    `geocode_address`. The HTTP request is an input: a function from the
    query to the decoded reply, or to the exception `requests` raised. */
module GeocodeGoogle {
  import opened Wrappers
  import opened Text
  import opened GeoDicts
  import opened GeocodeCache

  // ---------------------------------------------------------------------
  // State names
  // ---------------------------------------------------------------------

  /** `STATE_MAP`: full state and territory names to their codes. */
  const StateMap: map<string, string> := map[
    "Victoria" := "VIC",
    "New South Wales" := "NSW",
    "Queensland" := "QLD",
    "South Australia" := "SA",
    "Western Australia" := "WA",
    "Tasmania" := "TAS",
    "Northern Territory" := "NT",
    "Australian Capital Territory" := "ACT"]

  const StateCodes: set<string> := {"VIC", "NSW", "QLD", "SA", "WA", "TAS", "NT", "ACT"}

  /** `STATE_MAP.get(state, state)` */
  function StateCode(state: Option<string>): (r: Option<string>)
    ensures state.None? ==> r.None?
  {
    if state.Some? && state.value in StateMap then Some(StateMap[state.value]) else state
  }

  /** A listed name becomes one of the eight codes, different names giving
      different codes; any other name passes through unchanged. */
  lemma StateCodeCases(name: string, other: string)
    ensures name in StateMap ==> StateCode(Some(name)).value in StateCodes
    ensures name !in StateMap ==> StateCode(Some(name)) == Some(name)
    ensures name in StateMap && other in StateMap && name != other
            ==> StateCode(Some(name)) != StateCode(Some(other))
  {
  }

  /** No code is itself a listed name, so mapping twice is mapping once. */
  lemma StateCodeIdempotent(state: Option<string>)
    ensures StateCode(StateCode(state)) == StateCode(state)
  {
    if state.Some? && state.value in StateMap {
      assert StateCode(state).value in StateCodes;
      assert forall c :: c in StateCodes ==> c !in StateMap;
    }
  }

  // ---------------------------------------------------------------------
  // The cache key
  // ---------------------------------------------------------------------

  /** `" ".join(address.lower().split())` */
  function CacheKey(address: string): string {
    Collapse(Lower(address))
  }

  /** The key is lower case with no surrounding whitespace. */
  lemma CacheKeyIsNormal(address: string)
    ensures Trimmed(CacheKey(address)) && IsLower(CacheKey(address))
  {
    CollapseTrimmed(Lower(address));
    LowerIsLower(address);
    CollapseKeepsLower(Lower(address));
  }

  /** Normalising a key again gives the same key. */
  lemma CacheKeyIdempotent(address: string)
    ensures CacheKey(CacheKey(address)) == CacheKey(address)
  {
    CollapseLowerIdempotent(address);
  }

  /** Addresses that differ only in letter case share a key. */
  lemma CacheKeyIgnoresCase(a: string, b: string)
    requires Lower(a) == Lower(b)
    ensures CacheKey(a) == CacheKey(b)
  {
  }

  /** In particular an address and its upper-cased form share a key. */
  lemma CacheKeyOfUpper(address: string)
    ensures CacheKey(Upper(address)) == CacheKey(address)
  {
    LowerOfUpper(address);
    CacheKeyIgnoresCase(Upper(address), address);
  }

  // ---------------------------------------------------------------------
  // The fallback query
  // ---------------------------------------------------------------------

  /** Python's `\w` and `\d`, on the ASCII range. */
  predicate IsWordChar(c: char) {
    'a' <= c <= 'z' || 'A' <= c <= 'Z' || '0' <= c <= '9' || c == '_'
  }

  predicate IsDigit(c: char) {
    '0' <= c <= '9'
  }

  /** `[p.strip() for p in pieces if p.strip()]` */
  function NonBlankParts(pieces: seq<string>): (r: seq<string>)
    ensures |r| <= |pieces|
  {
    if pieces == [] then []
    else (if Strip(pieces[0]) != "" then [Strip(pieces[0])] else []) + NonBlankParts(pieces[1..])
  }

  /** The non-blank, stripped, comma-separated parts of `a`. */
  function CommaParts(a: string): seq<string> {
    NonBlankParts(SplitOn(a, ','))
  }

  /** Lengths of the longest prefixes made of whitespace, of digits and of
      word characters. */
  function SpaceRun(s: string): (n: nat)
    ensures n <= |s|
  {
    if s != [] && IsSpace(s[0]) then 1 + SpaceRun(s[1..]) else 0
  }

  function DigitRun(s: string): (n: nat)
    ensures n <= |s|
  {
    if s != [] && IsDigit(s[0]) then 1 + DigitRun(s[1..]) else 0
  }

  function WordRun(s: string): (n: nat)
    ensures n <= |s|
    ensures forall i :: 0 <= i < n ==> IsWordChar(s[i])
    ensures n < |s| ==> !IsWordChar(s[n])
  {
    if s != [] && IsWordChar(s[0]) then 1 + WordRun(s[1..]) else 0
  }

  /** `re.sub(r"^\s*\d+\s+", "", s)`: drop a leading house number and the
      whitespace after it. The result is always a suffix of `s`. */
  function DropHouseNumber(s: string): (r: string)
    ensures |r| <= |s| && r == s[|s| - |r|..]
  {
    var i := SpaceRun(s);
    var j := DigitRun(s[i..]);
    var k := SpaceRun(s[i + j..]);
    if j > 0 && k > 0 then s[i + j + k..] else s
  }

  /** A leading run of digits, then whitespace, then something that is not
      whitespace: exactly the digits and the whitespace are dropped. */
  lemma DropHouseNumberOf(digits: string, spaces: string, rest: string)
    requires digits != [] && forall i :: 0 <= i < |digits| ==> IsDigit(digits[i])
    requires spaces != [] && forall i :: 0 <= i < |spaces| ==> IsSpace(spaces[i])
    requires rest == [] || !IsSpace(rest[0])
    ensures DropHouseNumber(digits + spaces + rest) == rest
  {
    var t := spaces + rest;
    var s := digits + t;
    assert s == digits + spaces + rest;
    assert s[0] == digits[0] && !IsSpace(s[0]);
    assert SpaceRun(s) == 0;
    assert s[0..] == s;
    assert t[0] == spaces[0] && !IsDigit(t[0]);
    DigitPrefix(digits, t);
    assert s[|digits|..] == t;
    SpacePrefix(spaces, rest);
    assert s[|digits| + |spaces|..] == rest;
  }

  lemma {:induction false} DigitPrefix(digits: string, t: string)
    requires forall i :: 0 <= i < |digits| ==> IsDigit(digits[i])
    requires t == [] || !IsDigit(t[0])
    ensures DigitRun(digits + t) == |digits|
    decreases |digits|
  {
    if digits != [] {
      assert (digits + t)[1..] == digits[1..] + t;
      DigitPrefix(digits[1..], t);
    }
  }

  lemma {:induction false} SpacePrefix(spaces: string, t: string)
    requires forall i :: 0 <= i < |spaces| ==> IsSpace(spaces[i])
    requires t == [] || !IsSpace(t[0])
    ensures SpaceRun(spaces + t) == |spaces|
    decreases |spaces|
  {
    if spaces != [] {
      assert (spaces + t)[1..] == spaces[1..] + t;
      SpacePrefix(spaces[1..], t);
    }
  }

  /** The street suffix words of the pattern, short and long forms. */
  const StreetSuffixes: set<string> := {
    "st", "street", "rd", "road", "ave", "avenue", "blvd", "boulevard",
    "dr", "drive", "ct", "court", "ln", "lane", "pde", "parade"}

  /** `re.sub(r"\b(st|street|...|parade)\b\.?", "", s, flags=re.I)` with the
      alternatives `words`, as the left-to-right scan of the
      regular-expression engine: at the start of a word (the previous
      character, if any, is not a word character) a whole word that is one
      of `words` in any letter case is removed, with one dot right after it.
      `afterWord` says whether the character before `s` in the original text
      is a word character. */
  function StripWords(s: string, afterWord: bool, words: set<string>): (r: string)
    ensures |r| <= |s|
    decreases |s|
  {
    if s == [] then []
    else
      var n := WordRun(s);
      if !afterWord && n > 0 && Lower(s[..n]) in words then
        var m := if n < |s| && s[n] == '.' then n + 1 else n;
        StripWords(s[m..], m == n, words)
      else [s[0]] + StripWords(s[1..], IsWordChar(s[0]), words)
  }

  /** Non-empty words of lower-case letters, as the alternatives are. */
  predicate LetterWords(words: set<string>) {
    forall x :: x in words ==> x != [] && forall i :: 0 <= i < |x| ==> 'a' <= x[i] <= 'z'
  }

  lemma StreetSuffixesAreLetterWords()
    ensures LetterWords(StreetSuffixes)
  {
  }

  /** A character that is not a word character is kept. */
  lemma StripWordsKeepsSeparator(c: char, rest: string, afterWord: bool, words: set<string>)
    requires !IsWordChar(c)
    ensures StripWords([c] + rest, afterWord, words) == [c] + StripWords(rest, false, words)
  {
    assert WordRun([c] + rest) == 0;
    assert ([c] + rest)[1..] == rest;
  }

  /** A whole word that is one of `words` is removed, with a dot right after it. */
  lemma StripWordsRemovesWord(w: string, rest: string, words: set<string>)
    requires LetterWords(words) && Lower(w) in words
    requires rest == [] || !IsWordChar(rest[0])
    ensures StripWords(w + rest, false, words) ==
      if rest == [] then []
      else if rest[0] == '.' then StripWords(rest[1..], false, words)
      else [rest[0]] + StripWords(rest[1..], false, words)
  {
    WordLetters(w, words);
    WordPrefix(w, rest);
    var s := w + rest;
    assert s[..|w|] == w;
    if rest != [] {
      if rest[0] == '.' {
        assert s[|w| + 1..] == rest[1..];
      } else {
        assert s[|w|..] == rest;
        StripWordsKeepsSeparator(rest[0], rest[1..], true, words);
        assert [rest[0]] + rest[1..] == rest;
      }
    } else {
      assert s[|w|..] == [];
    }
  }

  /** A whole word that is not one of `words` is kept. */
  lemma StripWordsKeepsWord(w: string, rest: string, words: set<string>)
    requires w != [] && forall i :: 0 <= i < |w| ==> IsWordChar(w[i])
    requires Lower(w) !in words
    requires rest == [] || !IsWordChar(rest[0])
    ensures StripWords(w + rest, false, words) == w + StripWords(rest, true, words)
  {
    KeptWordStart(w, rest, words);
    InsideWord(w[1..], rest, words);
    Glue(w, StripWords(rest, true, words));
  }

  lemma Glue(w: string, x: string)
    requires w != []
    ensures [w[0]] + (w[1..] + x) == w + x
  {
    assert [w[0]] + w[1..] == w;
  }

  /** The first character of a kept word is copied; the scan goes on inside it. */
  lemma KeptWordStart(w: string, rest: string, words: set<string>)
    requires w != [] && forall i :: 0 <= i < |w| ==> IsWordChar(w[i])
    requires Lower(w) !in words
    requires rest == [] || !IsWordChar(rest[0])
    ensures StripWords(w + rest, false, words) == [w[0]] + StripWords(w[1..] + rest, true, words)
  {
    var s := w + rest;
    KeptWordParts(w, rest);
    UnfoldKept(s, words);
  }

  lemma KeptWordParts(w: string, rest: string)
    requires w != [] && forall i :: 0 <= i < |w| ==> IsWordChar(w[i])
    requires rest == [] || !IsWordChar(rest[0])
    ensures var s := w + rest;
      s != [] && s[0] == w[0] && IsWordChar(s[0]) && s[1..] == w[1..] + rest && s[..WordRun(s)] == w
  {
    var s := w + rest;
    assert s[0] == w[0] && s[1..] == w[1..] + rest;
    WordPrefix(w, rest);
    assert s[..|w|] == w;
  }

  lemma UnfoldKept(s: string, words: set<string>)
    requires s != [] && IsWordChar(s[0]) && Lower(s[..WordRun(s)]) !in words
    ensures StripWords(s, false, words) == [s[0]] + StripWords(s[1..], true, words)
  {
  }

  lemma {:induction false} InsideWord(v: string, rest: string, words: set<string>)
    requires forall i :: 0 <= i < |v| ==> IsWordChar(v[i])
    ensures StripWords(v + rest, true, words) == v + StripWords(rest, true, words)
    decreases |v|
  {
    if v != [] {
      var s := v + rest;
      assert s[0] == v[0] && IsWordChar(s[0]);
      assert s[1..] == v[1..] + rest;
      assert StripWords(s, true, words) == [s[0]] + StripWords(s[1..], true, words);
      InsideWord(v[1..], rest, words);
      assert [v[0]] + v[1..] == v;
    } else {
      assert v + rest == rest;
    }
  }

  lemma {:induction false} WordPrefix(w: string, t: string)
    requires forall i :: 0 <= i < |w| ==> IsWordChar(w[i])
    requires t == [] || !IsWordChar(t[0])
    ensures WordRun(w + t) == |w|
    decreases |w|
  {
    if w != [] {
      assert (w + t)[1..] == w[1..] + t;
      WordPrefix(w[1..], t);
    }
  }

  /** A word that is one of `words` in some letter case is made of letters. */
  lemma WordLetters(w: string, words: set<string>)
    requires LetterWords(words) && Lower(w) in words
    ensures w != [] && forall i :: 0 <= i < |w| ==> IsWordChar(w[i])
  {
    forall i | 0 <= i < |w| ensures IsWordChar(w[i]) {
      assert 'a' <= Lower(w)[i] <= 'z';
    }
  }

  /** `_simplify_address_for_fallback(address)` */
  function SimplifyForFallback(address: string): string {
    var a := Strip(address);
    var parts := CommaParts(a);
    if |parts| >= 2 then Join(parts[|parts| - 2..], ", ")
    else Collapse(StripWords(DropHouseNumber(a), false, StreetSuffixes))
  }

  /** Each comma part is non-empty, has no surrounding whitespace and
      contains no comma. */
  lemma {:induction false} NonBlankPartsShape(pieces: seq<string>)
    requires forall k :: 0 <= k < |pieces| ==> Excludes(pieces[k], ',')
    ensures forall k :: 0 <= k < |NonBlankParts(pieces)| ==>
      NonBlankParts(pieces)[k] != "" && Trimmed(NonBlankParts(pieces)[k])
      && Excludes(NonBlankParts(pieces)[k], ',')
    decreases |pieces|
  {
    if pieces != [] {
      NonBlankPartsShape(pieces[1..]);
      StripIsTrimmed(pieces[0]);
      StripExcludes(pieces[0], ',');
    }
  }

  lemma StripExcludes(s: string, c: char)
    requires Excludes(s, c)
    ensures Excludes(Strip(s), c)
  {
    var t := TrimRight(s);
    TrimRightShape(s);
    TrimLeftShape(t);
    forall i | 0 <= i < |Strip(s)| ensures Strip(s)[i] != c {
      assert Strip(s)[i] == t[|t| - |Strip(s)| + i];
    }
  }

  lemma {:induction false} SplitOnExcludes(s: string, c: char)
    ensures forall k :: 0 <= k < |SplitOn(s, c)| ==> Excludes(SplitOn(s, c)[k], c)
    decreases |s|
  {
    var i := IndexOf(s, c);
    if i < |s| {
      SplitOnExcludes(s[i + 1..], c);
    }
  }

  lemma CommaPartsShape(a: string)
    ensures forall k :: 0 <= k < |CommaParts(a)| ==>
      CommaParts(a)[k] != "" && Trimmed(CommaParts(a)[k]) && Excludes(CommaParts(a)[k], ',')
  {
    SplitOnExcludes(a, ',');
    NonBlankPartsShape(SplitOn(a, ','));
  }

  /** With two or more non-blank comma parts, the query is the last two,
      stripped, joined by ", "; each is non-empty and comma-free. */
  lemma SimplifyKeepsLastTwoParts(address: string)
    requires |CommaParts(Strip(address))| >= 2
    ensures var p := CommaParts(Strip(address));
      SimplifyForFallback(address) == p[|p| - 2] + ", " + p[|p| - 1]
      && p[|p| - 2] != "" && p[|p| - 1] != ""
      && Trimmed(p[|p| - 2]) && Trimmed(p[|p| - 1])
      && Excludes(p[|p| - 2], ',') && Excludes(p[|p| - 1], ',')
  {
    var p := CommaParts(Strip(address));
    CommaPartsShape(Strip(address));
    var last := p[|p| - 2..];
    assert |last| == 2 && last[0] == p[|p| - 2] && last[1..] == [p[|p| - 1]];
    assert Join(last, ", ") == last[0] + ", " + Join(last[1..], ", ");
  }

  /** The fallback query has no surrounding whitespace, so its `.strip()`
      in `geocode_address` changes nothing. */
  lemma SimplifyIsTrimmed(address: string)
    ensures Trimmed(SimplifyForFallback(address))
  {
    var p := CommaParts(Strip(address));
    if |p| >= 2 {
      SimplifyKeepsLastTwoParts(address);
    } else {
      CollapseTrimmed(StripWords(DropHouseNumber(Strip(address)), false, StreetSuffixes));
    }
  }

  // ---------------------------------------------------------------------
  // One Geocoding API call
  // ---------------------------------------------------------------------

  /** An element of `address_components`; a missing `types` key is `[]`. */
  datatype Component = Component(longName: Option<string>, types: seq<string>)

  datatype LatLng = LatLng(lat: Option<real>, lng: Option<real>)

  /** `result["geometry"]`; `None` fields are missing keys. */
  datatype Geometry = Geometry(location: Option<LatLng>, locationType: Option<string>)

  /** An element of `results`; a missing `address_components` key is `[]`. */
  datatype ApiResult = ApiResult(formattedAddress: Option<string>, geometry: Option<Geometry>,
                                 components: seq<Component>)

  /** The decoded reply `data`; `None` fields are missing keys. */
  datatype Payload = Payload(status: Option<string>, results: Option<seq<ApiResult>>)

  /** The status codes the Geocoding API documents. */
  const ApiStatuses: set<string> := {
    "OK", "ZERO_RESULTS", "OVER_DAILY_LIMIT", "OVER_QUERY_LIMIT",
    "REQUEST_DENIED", "INVALID_REQUEST", "UNKNOWN_ERROR"}

  /** `d[t] = v` for each `t` of `types`, in order. */
  function AddTypes(d: map<string, Option<string>>, v: Option<string>, types: seq<string>): map<string, Option<string>> {
    if types == [] then d else AddTypes(d, v, types[..|types| - 1])[types[|types| - 1] := v]
  }

  /** One element sets each of its types to its `long_name`; other keys keep
      their values. */
  lemma {:induction false} AddTypesEntries(d: map<string, Option<string>>, v: Option<string>, types: seq<string>, t: string)
    ensures t in AddTypes(d, v, types) <==> t in d || t in types
    ensures t in types ==> AddTypes(d, v, types)[t] == v
    ensures t !in types && t in d ==> AddTypes(d, v, types)[t] == d[t]
    decreases |types|
  {
    if types != [] {
      var init := types[..|types| - 1];
      AddTypesEntries(d, v, init, t);
      assert types == init + [types[|types| - 1]];
    }
  }

  /** The `components` dictionary the nested loop builds. */
  function Flattened(cs: seq<Component>): map<string, Option<string>> {
    if cs == [] then map[]
    else AddTypes(Flattened(cs[..|cs| - 1]), cs[|cs| - 1].longName, cs[|cs| - 1].types)
  }

  /** The nested loop of `_call_geocode` over `address_components`. */
  method FlattenComponents(cs: seq<Component>) returns (components: map<string, Option<string>>)
    ensures components == Flattened(cs)
  {
    components := map[];
    for i := 0 to |cs|
      invariant components == Flattened(cs[..i])
    {
      var c := cs[i];
      ghost var before := components;
      for j := 0 to |c.types|
        invariant components == AddTypes(before, c.longName, c.types[..j])
      {
        assert c.types[..j + 1][..j] == c.types[..j];
        components := components[c.types[j] := c.longName];
      }
      assert c.types[..|c.types|] == c.types;
      assert cs[..i + 1][..i] == cs[..i];
    }
    assert cs[..|cs|] == cs;
  }

  /** A type is a key exactly when some component lists it. */
  lemma {:induction false} FlattenedKeys(cs: seq<Component>, t: string)
    ensures t in Flattened(cs) <==> exists i :: 0 <= i < |cs| && t in cs[i].types
    decreases |cs|
  {
    if cs != [] {
      var init := cs[..|cs| - 1];
      var last := cs[|cs| - 1];
      FlattenedKeys(init, t);
      AddTypesEntries(Flattened(init), last.longName, last.types, t);
      if t in Flattened(cs) && t !in last.types {
        var i :| 0 <= i < |init| && t in init[i].types;
        assert cs[i] == init[i];
      }
      if exists i :: 0 <= i < |cs| && t in cs[i].types {
        var i :| 0 <= i < |cs| && t in cs[i].types;
        if i < |cs| - 1 {
          assert init[i] == cs[i];
        }
      }
    }
  }

  /** A type maps to the `long_name` of the last component that lists it. */
  lemma {:induction false} FlattenedLastWins(cs: seq<Component>, i: nat, t: string)
    requires i < |cs| && t in cs[i].types
    requires forall j :: i < j < |cs| ==> t !in cs[j].types
    ensures t in Flattened(cs) && Flattened(cs)[t] == cs[i].longName
    decreases |cs|
  {
    var init := cs[..|cs| - 1];
    var last := cs[|cs| - 1];
    AddTypesEntries(Flattened(init), last.longName, last.types, t);
    if i < |cs| - 1 {
      assert init[i] == cs[i];
      assert t !in last.types;
      FlattenedLastWins(init, i, t);
    }
  }

  /** `components.get(key)` */
  function Get(components: map<string, Option<string>>, key: string): Option<string> {
    if key in components then components[key] else None
  }

  /** `locality or postal_town or administrative_area_level_2` */
  function LocalityOf(components: map<string, Option<string>>): (r: Option<string>)
    ensures Truthy(Get(components, "locality")) ==> r == Get(components, "locality")
    ensures !Truthy(Get(components, "locality")) && Truthy(Get(components, "postal_town"))
            ==> r == Get(components, "postal_town")
    ensures !Truthy(Get(components, "locality")) && !Truthy(Get(components, "postal_town"))
            ==> r == Get(components, "administrative_area_level_2")
  {
    OrElse(OrElse(Get(components, "locality"), Get(components, "postal_town")),
           Get(components, "administrative_area_level_2"))
  }

  const ZeroResultsMessage: string :=
    "Address not found. " + "Try adding suburb " + "+ state/postcode "
    + "(e.g. 'Brunswick VIC 3056') " + "or check spelling."

  /** `f"{status}"` */
  function StatusText(status: Option<string>): string {
    if status.Some? then status.value else "None"
  }

  const IndexError: Exception := Exception("IndexError", "list index out of range", false)

  /** The dictionary `_call_geocode` builds from the first result. */
  function Reading(query: string, address: string, result: ApiResult): (g: GeoDict)
    requires result.geometry.Some? && result.geometry.value.location.Some?
  {
    var components := Flattened(result.components);
    var location := result.geometry.value.location.value;
    GeoDict(result.formattedAddress, location.lat, location.lng,
            StateCode(Get(components, "administrative_area_level_1")),
            Get(components, "postal_code"), LocalityOf(components),
            Some(query), Some(query != address),
            None, None, None, None, None, None)
  }

  /** The reply `_call_geocode(query)` makes of the HTTP outcome `reply`.
      The contract states when a dictionary comes back, its query fields and every error.
      The success record itself is `Reading` of the first result; its pieces carry their own
      lemmas: `StateCodeCases` for the state, `FlattenedLastWins` for the flattened components
      and the contract of `LocalityOf` for the locality. */
  function CallGeocode(query: string, address: string, reply: Stage<Payload>): (r: Stage<GeoDict>)
    ensures r.Returned? <==>
      reply.Returned? && reply.value.status == Some("OK") && reply.value.results.Some?
      && |reply.value.results.value| > 0 && reply.value.results.value[0].geometry.Some?
      && reply.value.results.value[0].geometry.value.location.Some?
    ensures r.Returned? ==>
      r.value.queryUsed == Some(query) && r.value.isFallbackMatch == Some(query != address)
      && r.value.locationType.None? && r.value.geocodeQuality.None? && r.value.quality.None?
      && r.value.ok.None? && r.value.status.None? && r.value.error.None?
    ensures reply.Returned? && reply.value.status == Some("ZERO_RESULTS")
            ==> r == Raised(ValueError(ZeroResultsMessage))
    ensures reply.Returned? && reply.value.status != Some("ZERO_RESULTS") && reply.value.status != Some("OK")
            ==> r == Raised(ValueError("Geocoding failed: " + StatusText(reply.value.status)))
    ensures reply.Raised? ==> r == Raised(reply.exc)
  {
    match reply
    case Raised(e) => Raised(e)
    case Returned(data) =>
      if data.status == Some("ZERO_RESULTS") then Raised(ValueError(ZeroResultsMessage))
      else if data.status != Some("OK") then Raised(ValueError("Geocoding failed: " + StatusText(data.status)))
      else if data.results.None? then Raised(KeyError("results"))
      else if data.results.value == [] then Raised(IndexError)
      else
        var result := data.results.value[0];
        if result.geometry.None? then Raised(KeyError("geometry"))
        else if result.geometry.value.location.None? then Raised(KeyError("location"))
        else Returned(Reading(query, address, result))
  }

  /** `_call_geocode(query)`, step by step, once the reply is in. */
  method CallGeocodeStep(query: string, address: string, reply: Stage<Payload>) returns (r: Stage<GeoDict>)
    ensures r == CallGeocode(query, address, reply)
  {
    if reply.Raised? {
      return Raised(reply.exc);
    }
    var data := reply.value;
    if data.status == Some("ZERO_RESULTS") {
      return Raised(ValueError(ZeroResultsMessage));
    }
    if data.status != Some("OK") {
      return Raised(ValueError("Geocoding failed: " + StatusText(data.status)));
    }
    if data.results.None? {
      return Raised(KeyError("results"));
    }
    if data.results.value == [] {
      return Raised(IndexError);
    }
    var result := data.results.value[0];
    if result.geometry.None? {
      return Raised(KeyError("geometry"));
    }
    if result.geometry.value.location.None? {
      return Raised(KeyError("location"));
    }
    var location := result.geometry.value.location.value;
    var components := FlattenComponents(result.components);
    var state := Get(components, "administrative_area_level_1");
    var postcode := Get(components, "postal_code");
    var locality := LocalityOf(components);
    r := Returned(GeoDict(result.formattedAddress, location.lat, location.lng, StateCode(state),
                          postcode, locality, Some(query), Some(query != address),
                          None, None, None, None, None, None));
  }

  // ---------------------------------------------------------------------
  // geocode_address
  // ---------------------------------------------------------------------

  /** The outcome of `geocode_address`: what it returns or raises, the cache
      table afterwards, and the queries sent upstream, in order. */
  datatype Flow = Flow(result: Stage<GeoDict>, table: map<string, CachedRow>, calls: seq<string>)

  /** How one reply is turned into a geocode dictionary: `(query, address,
      reply)` to the outcome. */
  type Caller = (string, string, Stage<Payload>) -> Stage<GeoDict>

  /** The flow of `geocode_address` for a given interpretation of replies:
      a cache hit returns at once; otherwise the address is sent, and only a
      `ValueError` whose text contains "ZERO_RESULTS" leads to one retry
      with the simplified query, when that is non-blank and differs from the
      address. A success is stored under the key of the original address. */
  function FlowWith(call: Caller, table: map<string, CachedRow>, address: string,
                    http: string -> Stage<Payload>): Flow
  {
    var key := CacheKey(address);
    if key in table then Flow(Returned(Expand(table[key])), table, [])
    else
      var first := call(address, address, http(address));
      match first
      case Returned(g) => Flow(first, table[key := Project(g)], [address])
      case Raised(e) =>
        if !e.isValueError || !Contains(e.message, "ZERO_RESULTS") then Flow(first, table, [address])
        else
          var fallback := SimplifyForFallback(address);
          if Strip(fallback) != "" && Strip(fallback) != Strip(address) then
            var second := call(fallback, address, http(fallback));
            match second
            case Returned(g) => Flow(second, table[key := Project(g)], [address, fallback])
            case Raised(_) => Flow(second, table, [address, fallback])
          else Flow(first, table, [address])
  }

  function AsWritten(): Caller {
    (query, address, reply) => CallGeocode(query, address, reply)
  }

  /** `geocode_address(address)` as written. */
  function GeocodeFlow(table: map<string, CachedRow>, address: string, http: string -> Stage<Payload>): Flow {
    FlowWith(AsWritten(), table, address, http)
  }

  /** `geocode_address(address)` against the cache object. */
  method GeocodeAddress(cache: GeocodeCache, address: string, http: string -> Stage<Payload>)
    returns (result: Stage<GeoDict>, calls: seq<string>)
    modifies cache
    ensures Flow(result, cache.table, calls) == GeocodeFlow(old(cache.table), address, http)
  {
    var key := CacheKey(address);
    var cached := cache.GetCached(key);
    if cached.Some? {
      return Returned(cached.value), [];
    }
    calls := [address];
    var first := CallGeocodeStep(address, address, http(address));
    if first.Raised? {
      var e := first.exc;
      if !e.isValueError || !Contains(e.message, "ZERO_RESULTS") {
        return first, calls;
      }
      var fallback := SimplifyForFallback(address);
      if Strip(fallback) != "" && Strip(fallback) != Strip(address) {
        calls := calls + [fallback];
        result := CallGeocodeStep(fallback, address, http(fallback));
        if result.Raised? {
          return;
        }
      } else {
        return first, calls;
      }
    } else {
      result := first;
    }
    cache.SetCached(key, result.value);
  }

  /** A cache hit returns the stored projection and sends nothing upstream. */
  lemma CacheHitMakesNoCall(call: Caller, table: map<string, CachedRow>, address: string,
                            http: string -> Stage<Payload>)
    requires CacheKey(address) in table
    ensures FlowWith(call, table, address, http)
         == Flow(Returned(Expand(table[CacheKey(address)])), table, [])
  {
  }

  /** On a miss the address itself is sent first and at most one retry
      follows; a success is stored under the key of the original address
      (not of the fallback query), and a failure leaves the table as it was. */
  lemma MissStoresUnderOriginalKey(call: Caller, table: map<string, CachedRow>, address: string,
                                   http: string -> Stage<Payload>)
    requires CacheKey(address) !in table
    ensures var f := FlowWith(call, table, address, http);
      1 <= |f.calls| <= 2 && f.calls[0] == address
      && (f.result.Returned? ==> f.table == table[CacheKey(address) := Project(f.result.value)])
      && (f.result.Raised? ==> f.table == table)
  {
  }

  /** A retry happens only after a `ValueError` mentioning "ZERO_RESULTS",
      and its query is the simplified address, non-blank and different. */
  lemma RetryOnlyAfterZeroResultsText(call: Caller, table: map<string, CachedRow>, address: string,
                                      http: string -> Stage<Payload>)
    requires |FlowWith(call, table, address, http).calls| == 2
    ensures var first := call(address, address, http(address));
      first.Raised? && first.exc.isValueError && Contains(first.exc.message, "ZERO_RESULTS")
      && FlowWith(call, table, address, http).calls[1] == SimplifyForFallback(address)
      && Strip(SimplifyForFallback(address)) != ""
      && Strip(SimplifyForFallback(address)) != Strip(address)
  {
  }

  /** Without a `ValueError` mentioning "ZERO_RESULTS" on the first call,
      there is no retry: the first outcome is the result. */
  lemma NoRetryWithoutZeroResultsText(call: Caller, table: map<string, CachedRow>, address: string,
                                      http: string -> Stage<Payload>)
    requires CacheKey(address) !in table
    requires var first := call(address, address, http(address));
      first.Returned? || !first.exc.isValueError || !Contains(first.exc.message, "ZERO_RESULTS")
    ensures var f := FlowWith(call, table, address, http);
      f.calls == [address] && f.result == call(address, address, http(address))
  {
  }

  lemma ZeroResultsMessageLacksCode()
    ensures !Contains(ZeroResultsMessage, "ZERO_RESULTS")
  {
    ZeroResultsMessageLacksZ();
    MissingFirstChar(ZeroResultsMessage, "ZERO_RESULTS");
  }

  lemma ZeroResultsMessageLacksZ()
    ensures 'Z' !in ZeroResultsMessage
  {
    LacksZ1();
    LacksZ2();
    LacksZ3();
  }

  lemma LacksZ1()
    ensures 'Z' !in "Address not found. " + "Try adding suburb "
  {
    assert 'Z' !in "Address not found. ";
    assert 'Z' !in "Try adding suburb ";
  }

  lemma LacksZ2()
    ensures 'Z' !in "+ state/postcode " && 'Z' !in "or check spelling."
  {
  }

  lemma LacksZ3()
    ensures 'Z' !in "(e.g. 'Brunswick VIC 3056') "
  {
  }

  /** As written, an upstream ZERO_RESULTS is never retried: the error text
      raised for it does not contain "ZERO_RESULTS". */
  lemma ZeroResultsNeverRetried(table: map<string, CachedRow>, address: string,
                                http: string -> Stage<Payload>)
    requires CacheKey(address) !in table
    requires http(address).Returned? && http(address).value.status == Some("ZERO_RESULTS")
    ensures GeocodeFlow(table, address, http) == Flow(Raised(ValueError(ZeroResultsMessage)), table, [address])
  {
    ZeroResultsMessageLacksCode();
  }

  /** As written, a reply with a documented status never leads to a retry,
      so a fresh result is never a fallback match. */
  lemma DocumentedStatusNeverFallsBack(table: map<string, CachedRow>, address: string,
                                       http: string -> Stage<Payload>)
    requires CacheKey(address) !in table
    requires http(address).Returned? && http(address).value.status.Some?
    requires http(address).value.status.value in ApiStatuses
    ensures var f := GeocodeFlow(table, address, http);
      f.calls == [address] && (f.result.Returned? ==> f.result.value.isFallbackMatch == Some(false))
  {
    var status := http(address).value.status.value;
    var first := CallGeocode(address, address, http(address));
    if status == "ZERO_RESULTS" {
      ZeroResultsMessageLacksCode();
      assert first == Raised(ValueError(ZeroResultsMessage));
    } else if status != "OK" {
      DocumentedFailureLacksZ(status);
      FailureTextLacksCode(status);
      assert first == Raised(ValueError("Geocoding failed: " + status));
    }
    assert AsWritten()(address, address, http(address)) == first;
    NoRetryWithoutZeroResultsText(AsWritten(), table, address, http);
  }

  lemma DocumentedFailureLacksZ(status: string)
    requires status in ApiStatuses && status != "ZERO_RESULTS"
    ensures 'Z' !in status
  {
  }

  lemma FailureTextLacksCode(status: string)
    requires 'Z' !in status
    ensures !Contains("Geocoding failed: " + status, "ZERO_RESULTS")
  {
    assert 'Z' !in "Geocoding failed: ";
    MissingFirstChar("Geocoding failed: " + status, "ZERO_RESULTS");
  }

  /** Whatever `geocode_address` returns, as written, has no
      `location_type`, `geocode_quality` or `quality` key. */
  lemma FlowHasNoQuality(table: map<string, CachedRow>, address: string, http: string -> Stage<Payload>)
    requires GeocodeFlow(table, address, http).result.Returned?
    ensures var g := GeocodeFlow(table, address, http).result.value;
      g.locationType.None? && g.geocodeQuality.None? && g.quality.None?
  {
  }

  // ---------------------------------------------------------------------
  // The evidently intended geocoder
  // ---------------------------------------------------------------------

  /** A ZERO_RESULTS error text that names the status, so that the retry
      test can see it. */
  const ZeroResultsMessageFixed: string := "ZERO_RESULTS: " + ZeroResultsMessage

  /** `_call_geocode` with the status named in the ZERO_RESULTS error and
      `location_type` carried into the result. */
  function CallGeocodeFixed(query: string, address: string, reply: Stage<Payload>): (r: Stage<GeoDict>)
    ensures r.Returned? ==> CallGeocode(query, address, reply).Returned?
    ensures r.Returned? ==> r.value.isFallbackMatch == Some(query != address)
                            && r.value.queryUsed == Some(query)
    ensures r.Returned? && CallGeocode(query, address, reply).Returned?
            ==> r.value.locationType == reply.value.results.value[0].geometry.value.locationType
  {
    if reply.Returned? && reply.value.status == Some("ZERO_RESULTS") then
      Raised(ValueError(ZeroResultsMessageFixed))
    else
      match CallGeocode(query, address, reply)
      case Raised(e) => Raised(e)
      case Returned(g) => Returned(g.(locationType := reply.value.results.value[0].geometry.value.locationType))
  }

  function Fixed(): Caller {
    (query, address, reply) => CallGeocodeFixed(query, address, reply)
  }

  function GeocodeFlowFixed(table: map<string, CachedRow>, address: string, http: string -> Stage<Payload>): Flow {
    FlowWith(Fixed(), table, address, http)
  }

  /** With the fix, an upstream ZERO_RESULTS for the address is retried
      with the simplified query whenever that is usable, and a success is
      flagged as a fallback match. */
  lemma FixedRetriesZeroResults(table: map<string, CachedRow>, address: string,
                                http: string -> Stage<Payload>)
    requires CacheKey(address) !in table
    requires http(address).Returned? && http(address).value.status == Some("ZERO_RESULTS")
    requires Strip(SimplifyForFallback(address)) != ""
    requires Strip(SimplifyForFallback(address)) != Strip(address)
    ensures var fallback := SimplifyForFallback(address);
      var f := GeocodeFlowFixed(table, address, http);
      f.calls == [address, fallback]
      && f.result == CallGeocodeFixed(fallback, address, http(fallback))
      && (f.result.Returned? ==> f.result.value.isFallbackMatch == Some(true)
                                 && f.result.value.queryUsed == Some(fallback))
  {
    FixedMessageHasCode();
    StripKeepsEqual(SimplifyForFallback(address), address);
  }

  lemma FixedMessageHasCode()
    ensures Contains(ZeroResultsMessageFixed, "ZERO_RESULTS")
  {
    assert ZeroResultsMessageFixed[..|"ZERO_RESULTS"|] == "ZERO_RESULTS";
  }

  lemma StripKeepsEqual(a: string, b: string)
    requires Strip(a) != Strip(b)
    ensures a != b
  {
  }
}
