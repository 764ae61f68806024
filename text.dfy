/** The parts of Python's `str` behaviour the core relies on: whitespace,
    case mapping, `strip()`, `split()`, `split(sep)`, `join`, substring tests,
    the code-point order on strings, and `str()` of a natural number. */
module Text {

  /** `str.isspace()` for one character: the characters that `str.split()`,
      `str.strip()` and the regular-expression class `\s` treat as whitespace. */
  const Whitespace: set<char> := {
    ' ', '\t', '\n', '\U{0B}', '\U{0C}', '\r', '\U{1C}', '\U{1D}', '\U{1E}', '\U{1F}',
    '\U{85}', '\U{A0}', '\U{1680}', '\U{2000}', '\U{2001}', '\U{2002}', '\U{2003}',
    '\U{2004}', '\U{2005}', '\U{2006}', '\U{2007}', '\U{2008}', '\U{2009}', '\U{200A}',
    '\U{2028}', '\U{2029}', '\U{202F}', '\U{205F}', '\U{3000}'}

  predicate IsSpace(c: char) {
    c in Whitespace
  }

  predicate NoSpace(s: string) {
    forall i :: 0 <= i < |s| ==> !IsSpace(s[i])
  }

  // ---------------------------------------------------------------------
  // Case mapping (ASCII letters; see README for what is left out)
  // ---------------------------------------------------------------------

  function LowerChar(c: char): char {
    if 'A' <= c <= 'Z' then (c as int + 32) as char else c
  }

  function UpperChar(c: char): char {
    if 'a' <= c <= 'z' then (c as int - 32) as char else c
  }

  /** `str.lower()` */
  function Lower(s: string): (r: string)
    ensures |r| == |s| && forall i :: 0 <= i < |s| ==> r[i] == LowerChar(s[i])
  {
    if s == [] then [] else [LowerChar(s[0])] + Lower(s[1..])
  }

  /** `str.upper()` */
  function Upper(s: string): (r: string)
    ensures |r| == |s| && forall i :: 0 <= i < |s| ==> r[i] == UpperChar(s[i])
  {
    if s == [] then [] else [UpperChar(s[0])] + Upper(s[1..])
  }

  /** A string with no lower-case ASCII letter: what `str.upper()` returns. */
  predicate IsUpper(s: string) {
    forall i :: 0 <= i < |s| ==> UpperChar(s[i]) == s[i]
  }

  lemma UpperIsUpper(s: string)
    ensures IsUpper(Upper(s))
  {
  }

  /** Upper-casing a string with no lower-case letter changes nothing. */
  lemma UpperOfUpper(s: string)
    requires IsUpper(s)
    ensures Upper(s) == s
  {
    assert forall i :: 0 <= i < |s| ==> Upper(s)[i] == s[i];
  }

  /** Neither case mapping turns a space into a non-space or back. */
  lemma CaseKeepsSpaces(c: char)
    ensures IsSpace(LowerChar(c)) == IsSpace(c)
    ensures IsSpace(UpperChar(c)) == IsSpace(c)
  {
  }

  // ---------------------------------------------------------------------
  // strip()
  // ---------------------------------------------------------------------

  function TrimLeft(s: string): (r: string)
    ensures |r| <= |s|
  {
    if s != [] && IsSpace(s[0]) then TrimLeft(s[1..]) else s
  }

  function TrimRight(s: string): (r: string)
    ensures |r| <= |s|
  {
    if s != [] && IsSpace(s[|s| - 1]) then TrimRight(s[..|s| - 1]) else s
  }

  /** `TrimLeft` removes a prefix made only of whitespace, and no more. */
  lemma {:induction false} TrimLeftShape(s: string)
    ensures TrimLeft(s) == s[|s| - |TrimLeft(s)|..]
    ensures TrimLeft(s) == [] || !IsSpace(TrimLeft(s)[0])
    ensures forall i :: 0 <= i < |s| - |TrimLeft(s)| ==> IsSpace(s[i])
    decreases |s|
  {
    if s != [] && IsSpace(s[0]) {
      TrimLeftShape(s[1..]);
    }
  }

  /** `TrimRight` removes a suffix made only of whitespace, and no more. */
  lemma {:induction false} TrimRightShape(s: string)
    ensures TrimRight(s) == s[..|TrimRight(s)|]
    ensures TrimRight(s) == [] || !IsSpace(TrimRight(s)[|TrimRight(s)| - 1])
    ensures forall i :: |TrimRight(s)| <= i < |s| ==> IsSpace(s[i])
    decreases |s|
  {
    if s != [] && IsSpace(s[|s| - 1]) {
      TrimRightShape(s[..|s| - 1]);
    }
  }

  /** `str.strip()`: drop leading and trailing whitespace. */
  function Strip(s: string): string {
    TrimLeft(TrimRight(s))
  }

  /** A string that neither starts nor ends with whitespace. */
  predicate Trimmed(s: string) {
    s == [] || (!IsSpace(s[0]) && !IsSpace(s[|s| - 1]))
  }

  lemma StripIsTrimmed(s: string)
    ensures Trimmed(Strip(s))
  {
    var t := TrimRight(s);
    var r := TrimLeft(t);
    TrimRightShape(s);
    TrimLeftShape(t);
    if r != [] {
      assert r == t[|t| - |r|..];
      assert r[|r| - 1] == t[|t| - 1];
    }
  }

  /** ASCII letters, digits and underscores only, as identifiers and
      keywords are spelled. */
  predicate AsciiWord(s: string) {
    forall i :: 0 <= i < |s| ==> 'A' <= s[i] <= 'Z' || 'a' <= s[i] <= 'z' || '0' <= s[i] <= '9' || s[i] == '_'
  }

  predicate UpperWord(s: string) {
    forall i :: 0 <= i < |s| ==> 'A' <= s[i] <= 'Z' || '0' <= s[i] <= '9' || s[i] == '_'
  }

  lemma AsciiWordIsTrimmed(s: string)
    requires AsciiWord(s)
    ensures Trimmed(s)
  {
    if s != [] {
      assert !IsSpace(s[0]) && !IsSpace(s[|s| - 1]);
    }
  }

  lemma UpperWordIsCanonical(s: string)
    requires UpperWord(s)
    ensures Trimmed(s) && IsUpper(s)
  {
    if s != [] {
      assert !IsSpace(s[0]) && !IsSpace(s[|s| - 1]);
    }
  }



  /** Stripping a string that has no surrounding whitespace changes nothing. */
  lemma StripTrimmed(s: string)
    requires Trimmed(s)
    ensures Strip(s) == s
  {
  }

  lemma StripIdempotent(s: string)
    ensures Strip(Strip(s)) == Strip(s)
  {
    StripIsTrimmed(s);
    StripTrimmed(Strip(s));
  }

  /** Stripping commutes with upper-casing, since case mapping keeps spaces. */
  lemma UpperOfTrimmed(s: string)
    requires Trimmed(s)
    ensures Trimmed(Upper(s))
  {
    if s != [] {
      CaseKeepsSpaces(s[0]);
      CaseKeepsSpaces(s[|s| - 1]);
    }
  }

  lemma {:induction false} TrimLeftUpper(s: string)
    ensures TrimLeft(Upper(s)) == Upper(TrimLeft(s))
    decreases |s|
  {
    if s != [] {
      CaseKeepsSpaces(s[0]);
      assert Upper(s)[1..] == Upper(s[1..]);
      if IsSpace(s[0]) {
        TrimLeftUpper(s[1..]);
      }
    }
  }

  lemma {:induction false} TrimRightUpper(s: string)
    ensures TrimRight(Upper(s)) == Upper(TrimRight(s))
    decreases |s|
  {
    if s != [] {
      CaseKeepsSpaces(s[|s| - 1]);
      assert Upper(s)[..|s| - 1] == Upper(s[..|s| - 1]);
      if IsSpace(s[|s| - 1]) {
        TrimRightUpper(s[..|s| - 1]);
      }
    }
  }

  /** `s.upper().strip() == s.strip().upper()` */
  lemma StripUpper(s: string)
    ensures Strip(Upper(s)) == Upper(Strip(s))
  {
    TrimRightUpper(s);
    TrimLeftUpper(TrimRight(s));
  }

  // ---------------------------------------------------------------------
  // split() without a separator, and " ".join(...)
  // ---------------------------------------------------------------------

  /** Length of the longest whitespace-free prefix of `s`. */
  function WordLen(s: string): (n: nat)
    ensures n <= |s|
    ensures forall i :: 0 <= i < n ==> !IsSpace(s[i])
    ensures n < |s| ==> IsSpace(s[n])
  {
    if s == [] || IsSpace(s[0]) then 0 else 1 + WordLen(s[1..])
  }

  /** `str.split()`: the maximal whitespace-free runs of `s`, in order. */
  function Words(s: string): seq<string>
    decreases |s|
  {
    if s == [] then []
    else if IsSpace(s[0]) then Words(s[1..])
    else
      var n := WordLen(s);
      [s[..n]] + Words(s[n..])
  }

  /** The words of a string are non-empty and contain no whitespace. */
  predicate WordList(ws: seq<string>) {
    forall k :: 0 <= k < |ws| ==> ws[k] != [] && NoSpace(ws[k])
  }

  lemma {:induction false} WordsAreWords(s: string)
    ensures WordList(Words(s))
    decreases |s|
  {
    if s == [] {
    } else if IsSpace(s[0]) {
      WordsAreWords(s[1..]);
    } else {
      var n := WordLen(s);
      WordsAreWords(s[n..]);
      assert Words(s) == [s[..n]] + Words(s[n..]);
    }
  }

  /** `sep.join(ws)` */
  function Join(ws: seq<string>, sep: string): string {
    if |ws| == 0 then ""
    else if |ws| == 1 then ws[0]
    else ws[0] + sep + Join(ws[1..], sep)
  }

  /** `" ".join(s.split())`: trim, and collapse every whitespace run to one space. */
  function Collapse(s: string): string {
    Join(Words(s), " ")
  }

  lemma WordsSkipsSpace(c: char, t: string)
    requires IsSpace(c)
    ensures Words([c] + t) == Words(t)
  {
    assert ([c] + t)[1..] == t;
  }

  lemma {:induction false} WordsOfWordThenRest(w: string, t: string)
    requires w != [] && NoSpace(w)
    requires t == [] || IsSpace(t[0])
    ensures Words(w + t) == [w] + Words(t)
    decreases |w|
  {
    var s := w + t;
    if |w| == 1 {
      assert WordLen(s) == 1;
    } else {
      assert s[1..] == w[1..] + t;
      WordsOfWordThenRest(w[1..], t);
      assert WordLen(s) == 1 + WordLen(s[1..]);
      assert WordLen(s[1..]) == |w| - 1 by {
        assert Words(s[1..]) == [w[1..]] + Words(t);
        WordLenExact(w[1..], t);
      }
    }
    var n := WordLen(s);
    assert n == |w| by { WordLenExact(w, t); }
    assert s[..n] == w;
    assert s[n..] == t;
  }

  lemma {:induction false} WordLenExact(w: string, t: string)
    requires NoSpace(w)
    requires t == [] || IsSpace(t[0])
    ensures WordLen(w + t) == |w|
    decreases |w|
  {
    if w == [] {
      assert w + t == t;
    } else {
      assert (w + t)[1..] == w[1..] + t;
      WordLenExact(w[1..], t);
    }
  }

  /** Splitting a space-joined list of words gives the words back. */
  lemma {:induction false} WordsOfJoin(ws: seq<string>)
    requires WordList(ws)
    ensures Words(Join(ws, " ")) == ws
    decreases |ws|
  {
    if |ws| == 0 {
    } else if |ws| == 1 {
      WordsOfWordThenRest(ws[0], "");
      assert ws[0] + "" == ws[0];
    } else {
      var rest := Join(ws[1..], " ");
      WordsOfJoin(ws[1..]);
      assert Join(ws, " ") == ws[0] + (" " + rest);
      WordsOfWordThenRest(ws[0], " " + rest);
      WordsSkipsSpace(' ', rest);
      assert [ws[0]] + ws[1..] == ws;
    }
  }

  /** Collapsing whitespace twice is collapsing it once. */
  lemma CollapseIdempotent(s: string)
    ensures Collapse(Collapse(s)) == Collapse(s)
  {
    WordsAreWords(s);
    WordsOfJoin(Words(s));
  }

  /** Every character of a space-join of words is a space or comes from a word. */
  lemma {:induction false} JoinChars(ws: seq<string>, i: nat)
    requires i < |Join(ws, " ")|
    ensures Join(ws, " ")[i] == ' ' || exists k, j :: 0 <= k < |ws| && 0 <= j < |ws[k]| && Join(ws, " ")[i] == ws[k][j]
    decreases |ws|
  {
    if |ws| == 1 {
      assert Join(ws, " ")[i] == ws[0][i];
    } else if |ws| > 1 {
      var rest := Join(ws[1..], " ");
      assert Join(ws, " ") == ws[0] + " " + rest;
      if i < |ws[0]| {
        assert Join(ws, " ")[i] == ws[0][i];
      } else if i > |ws[0]| {
        var i' := i - |ws[0]| - 1;
        assert Join(ws, " ")[i] == rest[i'];
        JoinChars(ws[1..], i');
        if rest[i'] != ' ' {
          var k, j :| 0 <= k < |ws[1..]| && 0 <= j < |ws[1..][k]| && rest[i'] == ws[1..][k][j];
          assert ws[k + 1][j] == rest[i'];
        }
      }
    }
  }

  /** Every character of `Words(s)` is a character of `s`. */
  lemma {:induction false} WordsChars(s: string, k: nat, j: nat)
    requires k < |Words(s)| && j < |Words(s)[k]|
    ensures exists i :: 0 <= i < |s| && s[i] == Words(s)[k][j]
    decreases |s|
  {
    if IsSpace(s[0]) {
      WordsChars(s[1..], k, j);
      var i :| 0 <= i < |s[1..]| && s[1..][i] == Words(s[1..])[k][j];
      assert s[i + 1] == s[1..][i];
    } else {
      var n := WordLen(s);
      if k == 0 {
        assert Words(s)[0] == s[..n];
        assert s[j] == Words(s)[k][j];
      } else {
        assert Words(s)[k] == Words(s[n..])[k - 1];
        WordsChars(s[n..], k - 1, j);
        var i :| 0 <= i < |s[n..]| && s[n..][i] == Words(s[n..])[k - 1][j];
        assert s[n + i] == s[n..][i];
      }
    }
  }

  /** Lower-casing forgets any earlier upper-casing. */
  lemma LowerOfUpper(s: string)
    ensures Lower(Upper(s)) == Lower(s)
  {
    assert forall i :: 0 <= i < |s| ==> LowerChar(UpperChar(s[i])) == LowerChar(s[i]);
  }

  lemma UpperOfLower(s: string)
    ensures Upper(Lower(s)) == Upper(s)
  {
    assert forall i :: 0 <= i < |s| ==> UpperChar(LowerChar(s[i])) == UpperChar(s[i]);
  }

  lemma UpperIdempotent(s: string)
    ensures Upper(Upper(s)) == Upper(s)
  {
    assert forall i :: 0 <= i < |s| ==> UpperChar(UpperChar(s[i])) == UpperChar(s[i]);
  }

  /** A string every character of which is already lower case. */
  predicate IsLower(s: string) {
    forall i :: 0 <= i < |s| ==> LowerChar(s[i]) == s[i]
  }

  lemma LowerIsLower(s: string)
    ensures IsLower(Lower(s))
  {
  }

  lemma LowerOfLower(s: string)
    requires IsLower(s)
    ensures Lower(s) == s
  {
  }

  /** Collapsing whitespace of a lower-case string keeps it lower case. */
  lemma CollapseKeepsLower(s: string)
    requires IsLower(s)
    ensures IsLower(Collapse(s))
  {
    var ws := Words(s);
    forall i | 0 <= i < |Collapse(s)|
      ensures LowerChar(Collapse(s)[i]) == Collapse(s)[i]
    {
      JoinChars(ws, i);
      if Collapse(s)[i] != ' ' {
        var k, j :| 0 <= k < |ws| && 0 <= j < |ws[k]| && Collapse(s)[i] == ws[k][j];
        WordsChars(s, k, j);
      }
    }
  }

  /** A space-join of words has no whitespace at either end. */
  lemma {:induction false} JoinOfWordsTrimmed(ws: seq<string>)
    requires WordList(ws)
    ensures Trimmed(Join(ws, " "))
    decreases |ws|
  {
    if |ws| > 1 {
      JoinOfWordsTrimmed(ws[1..]);
      var rest := Join(ws[1..], " ");
      assert Join(ws, " ") == ws[0] + " " + rest;
      assert rest != [] by { assert |rest| >= |ws[1]|; JoinLength(ws[1..]); }
    }
  }

  lemma {:induction false} JoinLength(ws: seq<string>)
    requires |ws| > 0
    ensures |Join(ws, " ")| >= |ws[0]|
    decreases |ws|
  {
  }

  lemma CollapseTrimmed(s: string)
    ensures Trimmed(Collapse(s))
  {
    WordsAreWords(s);
    JoinOfWordsTrimmed(Words(s));
  }

  /** `" ".join(s.lower().split())` is a fixed point of itself. */
  lemma CollapseLowerIdempotent(s: string)
    ensures Collapse(Lower(Collapse(Lower(s)))) == Collapse(Lower(s))
  {
    LowerIsLower(s);
    CollapseKeepsLower(Lower(s));
    LowerOfLower(Collapse(Lower(s)));
    CollapseIdempotent(Lower(s));
  }

  // ---------------------------------------------------------------------
  // split(sep) for a one-character separator
  // ---------------------------------------------------------------------

  /** Index of the first `c` in `s`, or `|s|` when there is none. */
  function IndexOf(s: string, c: char): (i: nat)
    ensures i <= |s|
    ensures i < |s| ==> s[i] == c
    ensures forall j :: 0 <= j < i ==> s[j] != c
  {
    if s == [] then 0 else if s[0] == c then 0 else 1 + IndexOf(s[1..], c)
  }

  /** `s.split(c)`: the pieces between occurrences of `c` (never empty). */
  function SplitOn(s: string, c: char): (r: seq<string>)
    ensures |r| >= 1
    decreases |s|
  {
    var i := IndexOf(s, c);
    if i == |s| then [s] else [s[..i]] + SplitOn(s[i + 1..], c)
  }

  /** `c.join(s.split(c))` gives back `s`. */
  lemma {:induction false} JoinSplitOn(s: string, c: char)
    ensures Join(SplitOn(s, c), [c]) == s
    decreases |s|
  {
    var i := IndexOf(s, c);
    if i < |s| {
      JoinSplitOn(s[i + 1..], c);
      var rest := SplitOn(s[i + 1..], c);
      assert SplitOn(s, c) == [s[..i]] + rest;
      assert s == s[..i] + [c] + s[i + 1..];
    }
  }

  predicate Excludes(s: string, c: char) {
    forall i :: 0 <= i < |s| ==> s[i] != c
  }

  /** Splitting a `c`-join of pieces free of `c` gives the pieces back. */
  lemma {:induction false} SplitOnJoin(xs: seq<string>, c: char)
    requires |xs| >= 1
    requires forall k :: 0 <= k < |xs| ==> Excludes(xs[k], c)
    ensures SplitOn(Join(xs, [c]), c) == xs
    decreases |xs|
  {
    var s := Join(xs, [c]);
    if |xs| == 1 {
      assert IndexOf(s, c) == |s|;
    } else {
      var rest := Join(xs[1..], [c]);
      assert s == xs[0] + [c] + rest;
      IndexOfPrefix(xs[0], c, rest);
      assert s[..|xs[0]|] == xs[0];
      assert s[|xs[0]| + 1..] == rest;
      SplitOnJoin(xs[1..], c);
      assert [xs[0]] + xs[1..] == xs;
    }
  }

  lemma {:induction false} IndexOfPrefix(w: string, c: char, t: string)
    requires Excludes(w, c)
    ensures IndexOf(w + [c] + t, c) == |w|
    decreases |w|
  {
    if w != [] {
      assert (w + [c] + t)[1..] == w[1..] + [c] + t;
      IndexOfPrefix(w[1..], c, t);
    }
  }

  // ---------------------------------------------------------------------
  // Substrings
  // ---------------------------------------------------------------------

  /** `sub in s` */
  predicate Contains(s: string, sub: string)
    decreases |s|
  {
    sub <= s || (s != [] && Contains(s[1..], sub))
  }

  lemma {:induction false} ContainsAt(s: string, sub: string, i: nat)
    requires i + |sub| <= |s| && s[i..i + |sub|] == sub
    ensures Contains(s, sub)
    decreases i
  {
    if i > 0 {
      assert s[1..][i - 1..i - 1 + |sub|] == sub;
      ContainsAt(s[1..], sub, i - 1);
    }
  }

  /** A string can contain `sub` only if it contains the first character of `sub`. */
  lemma {:induction false} ContainsFirstChar(s: string, sub: string)
    requires sub != [] && Contains(s, sub)
    ensures sub[0] in s
    decreases |s|
  {
    if !(sub <= s) {
      ContainsFirstChar(s[1..], sub);
      assert s == [s[0]] + s[1..];
    }
  }

  /** A string lacking the first character of `sub` does not contain it. */
  lemma MissingFirstChar(s: string, sub: string)
    requires sub != [] && sub[0] !in s
    ensures !Contains(s, sub)
  {
    if Contains(s, sub) {
      ContainsFirstChar(s, sub);
    }
  }

  // ---------------------------------------------------------------------
  // Python's ordering of strings: lexicographic by code point
  // ---------------------------------------------------------------------

  predicate StrLt(a: string, b: string)
    decreases |a|
  {
    if a == [] then b != []
    else b != [] && (a[0] < b[0] || (a[0] == b[0] && StrLt(a[1..], b[1..])))
  }

  predicate StrLe(a: string, b: string) {
    a == b || StrLt(a, b)
  }

  lemma {:induction false} StrLtIrreflexive(a: string)
    ensures !StrLt(a, a)
    decreases |a|
  {
    if a != [] { StrLtIrreflexive(a[1..]); }
  }

  lemma {:induction false} StrLtTrichotomy(a: string, b: string)
    ensures a == b || StrLt(a, b) || StrLt(b, a)
    decreases |a|
  {
    if a != [] && b != [] && a[0] == b[0] {
      StrLtTrichotomy(a[1..], b[1..]);
      if a[1..] == b[1..] {
        assert a == [a[0]] + a[1..] && b == [b[0]] + b[1..];
      }
    }
  }

  lemma {:induction false} StrLtAsymmetric(a: string, b: string)
    ensures !(StrLt(a, b) && StrLt(b, a))
    decreases |a|
  {
    if a != [] && b != [] && a[0] == b[0] {
      StrLtAsymmetric(a[1..], b[1..]);
    }
  }

  lemma {:induction false} StrLtTransitive(a: string, b: string, c: string)
    requires StrLt(a, b) && StrLt(b, c)
    ensures StrLt(a, c)
    decreases |a|
  {
    if a != [] && a[0] == b[0] && b[0] == c[0] {
      StrLtTransitive(a[1..], b[1..], c[1..]);
    }
  }

  lemma StrLeTotal(a: string, b: string)
    ensures StrLe(a, b) || StrLe(b, a)
  {
    StrLtTrichotomy(a, b);
  }

  lemma StrLeTransitive(a: string, b: string, c: string)
    requires StrLe(a, b) && StrLe(b, c)
    ensures StrLe(a, c)
  {
    if a != b && b != c { StrLtTransitive(a, b, c); }
  }

  lemma StrLeAntisymmetric(a: string, b: string)
    requires StrLe(a, b) && StrLe(b, a)
    ensures a == b
  {
    StrLtAsymmetric(a, b);
  }

  // ---------------------------------------------------------------------
  // str(n) for a natural number
  // ---------------------------------------------------------------------

  function DigitChar(d: nat): char
    requires d < 10
  {
    ('0' as int + d) as char
  }

  /** `str(n)`: the decimal digits of `n`, without leading zeros. */
  function NatToString(n: nat): (r: string)
    ensures |r| >= 1
  {
    PadNat(n, 1)
  }

  /** `"%0{width}d" % n`: the decimal digits of `n`, padded on the left with
      zeros to at least `width` characters. */
  function PadNat(n: nat, width: nat): (r: string)
    ensures |r| >= 1 && |r| >= width
    decreases n + width
  {
    if n < 10 && width <= 1 then [DigitChar(n)]
    else PadNat(n / 10, if width == 0 then 0 else width - 1) + [DigitChar(n % 10)]
  }

  /** `"%0{width}d" % n` is made of decimal digits only. */
  lemma {:induction false} PadNatDigits(n: nat, width: nat)
    ensures forall i :: 0 <= i < |PadNat(n, width)| ==> '0' <= PadNat(n, width)[i] <= '9'
    decreases n + width
  {
    if !(n < 10 && width <= 1) {
      PadNatDigits(n / 10, if width == 0 then 0 else width - 1);
    }
  }
}
