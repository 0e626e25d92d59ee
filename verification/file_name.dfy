/**
 * Upload file-name normalisation (src/utils/normalizeFileName.js): a stem is
 * lower-cased, passed through the file's replacement rules, reduced to
 * `[a-z0-9-]` and hyphenated; the extension after the last dot is only
 * lower-cased. The replacement tables are modelled with the code points the
 * file holds, which are Thai letters, U+00A0 and C1 control characters rather
 * than Vietnamese letters: a Vietnamese letter with a diacritic is not folded
 * to its base letter here but deleted by the `[a-z0-9\s-]` filter.
 */
module FileName {
  import opened Common

  /** `pat` occurs in `s` starting at index `i`. */
  predicate OccursAt(s: string, pat: string, i: int) {
    0 <= i && i + |pat| <= |s| && s[i..i + |pat|] == pat
  }

  /**
   * `s.replace(/pat/g, rep)` for a literal pattern: matches are found from the
   * left and do not overlap; scanning resumes after each replaced match.
   */
  function ReplaceAll(s: string, pat: string, rep: string): string
    requires |pat| > 0
    decreases |s|
  {
    if |s| < |pat| then s
    else if s[..|pat|] == pat then rep + ReplaceAll(s[|pat|..], pat, rep)
    else [s[0]] + ReplaceAll(s[1..], pat, rep)
  }

  /** Replacing a pattern with itself changes nothing. */
  lemma {:induction false} ReplaceSelf(s: string, pat: string)
    requires |pat| > 0
    ensures ReplaceAll(s, pat, pat) == s
    decreases |s|
  {
    if |s| < |pat| {
    } else if s[..|pat|] == pat {
      ReplaceSelf(s[|pat|..], pat);
      assert s == pat + s[|pat|..];
    } else {
      ReplaceSelf(s[1..], pat);
      assert s == [s[0]] + s[1..];
    }
  }

  /** A string in which the pattern does not occur is left unchanged. */
  lemma {:induction false} ReplaceAbsent(s: string, pat: string, rep: string)
    requires |pat| > 0
    requires forall i :: !OccursAt(s, pat, i)
    ensures ReplaceAll(s, pat, rep) == s
    decreases |s|
  {
    if |s| < |pat| {
    } else {
      assert !OccursAt(s, pat, 0);
      assert s[..|pat|] == s[0..0 + |pat|];
      forall i ensures !OccursAt(s[1..], pat, i) {
        if OccursAt(s[1..], pat, i) {
          assert s[1..][i..i + |pat|] == s[i + 1..i + 1 + |pat|];
          assert OccursAt(s, pat, i + 1);
        }
      }
      ReplaceAbsent(s[1..], pat, rep);
      assert s == [s[0]] + s[1..];
    }
  }

  /** The nine digraph rules (`tr`, `ch`, `gh`, `kh`, `ng`, `ngh`, `ph`, `th`, `nh`), applied in source order. */
  function Digraphs(s: string): string {
    var s1 := ReplaceAll(s, "tr", "tr");
    var s2 := ReplaceAll(s1, "ch", "ch");
    var s3 := ReplaceAll(s2, "gh", "g");
    var s4 := ReplaceAll(s3, "kh", "kh");
    var s5 := ReplaceAll(s4, "ng", "ng");
    var s6 := ReplaceAll(s5, "ngh", "ng");
    var s7 := ReplaceAll(s6, "ph", "ph");
    var s8 := ReplaceAll(s7, "th", "th");
    ReplaceAll(s8, "nh", "nh")
  }

  /** Of the nine digraph rules only `gh -> g` and `ngh -> ng` change anything. */
  lemma DigraphsReduce(s: string)
    ensures Digraphs(s) == ReplaceAll(ReplaceAll(s, "gh", "g"), "ngh", "ng")
  {
    ReplaceSelf(s, "tr");
    ReplaceSelf(s, "ch");
    var s3 := ReplaceAll(s, "gh", "g");
    ReplaceSelf(s3, "kh");
    ReplaceSelf(s3, "ng");
    var s6 := ReplaceAll(s3, "ngh", "ng");
    ReplaceSelf(s6, "ph");
    ReplaceSelf(s6, "th");
    ReplaceSelf(s6, "nh");
  }

  /** Input without any `gh` leaves the digraph stage unchanged. */
  lemma DigraphsWithoutGh(s: string)
    requires forall i :: !OccursAt(s, "gh", i)
    ensures Digraphs(s) == s
  {
    DigraphsReduce(s);
    ReplaceAbsent(s, "gh", "g");
    forall i ensures !OccursAt(s, "ngh", i) {
      if OccursAt(s, "ngh", i) {
        NghHoldsGh(s, i);
      }
    }
    ReplaceAbsent(s, "ngh", "ng");
  }

  /** An `ngh` holds a `gh` one character further on. */
  lemma NghHoldsGh(s: string, i: int)
    requires OccursAt(s, "ngh", i)
    ensures OccursAt(s, "gh", i + 1)
  {
    var w := s[i..i + 3];
    assert w[1] == 'g' && w[2] == 'h';
    assert s[i + 1..i + 3] == [w[1], w[2]];
  }

  /** The `ngh` rule is not an identity: `gh -> g` can create a fresh `ngh`. */
  lemma NghRuleRewrites()
    ensures Digraphs("nghh") == "ng"
  {
    DigraphsReduce("nghh");
    assert ReplaceAll("nghh", "gh", "g") == "ngh" by {
      assert "nghh"[..2] != "gh";
      assert "nghh"[1..] == "ghh";
      assert "ghh"[..2] == "gh";
      assert "ghh"[2..] == "h";
    }
    assert ReplaceAll("ngh", "ngh", "ng") == "ng" by {
      assert "ngh"[..3] == "ngh";
      assert "ngh"[3..] == "";
    }
  }

  /** The two-character pattern of the `d` rule, which runs right after lower-casing, as the file holds it. */
  const DPattern: string := "\U{E24}\U{91}"

  /** The two-character pattern of the `u` rule, which runs after the class rules, as the file holds it. */
  const UPattern: string := "\U{E26}\U{E10}"

  /** The character class of the `a` rule, the first class rule. */
  const AClass: set<char> :=
    {'\U{83}', '\U{A0}', '\U{E01}', '\U{E02}', '\U{E03}', '\U{E05}', '\U{E07}', '\U{E09}', '\U{E0B}', '\U{E0D}',
     '\U{E0F}', '\U{E11}', '\U{E13}', '\U{E15}', '\U{E17}', '\U{E1A}', '\U{E23}', '\U{E24}', '\U{E41}'}

  /** The character class of the `e` rule. */
  const EClass: set<char> :=
    {'\U{81}', '\U{83}', '\U{85}', '\U{87}', '\U{E08}', '\U{E09}', '\U{E0A}', '\U{E19}', '\U{E1A}', '\U{E1B}',
     '\U{E1D}', '\U{E1F}', '\U{E23}', '\U{E41}'}

  /** The character class of the `i` rule. */
  const IClass: set<char> :=
    {'\U{89}', '\U{8B}', '\U{E09}', '\U{E0C}', '\U{E0D}', '\U{E1B}', '\U{E23}', '\U{E24}', '\U{E41}'}

  /** The character class of the `o` rule. */
  const OClass: set<char> :=
    {'\U{8D}', '\U{8F}', '\U{91}', '\U{93}', '\U{95}', '\U{97}', '\U{99}', '\U{9B}', '\U{9D}', '\U{9F}',
     '\U{E01}', '\U{E03}', '\U{E12}', '\U{E13}', '\U{E14}', '\U{E15}', '\U{E1B}', '\U{E23}', '\U{E26}', '\U{E41}'}

  /** The character class of the `u` class rule. */
  const UClass: set<char> :=
    {'\U{E05}', '\U{E07}', '\U{E09}', '\U{E0B}', '\U{E0D}', '\U{E0F}', '\U{E10}', '\U{E11}', '\U{E19}', '\U{E1A}',
     '\U{E1B}', '\U{E23}', '\U{E25}', '\U{E26}', '\U{E41}'}

  /** The character class of the `y` rule, the last class rule. */
  const YClass: set<char> :=
    {'\U{E13}', '\U{E15}', '\U{E17}', '\U{E19}', '\U{E1B}', '\U{E1D}', '\U{E23}', '\U{E41}'}

  /** `s.replace(/[cls]/g, rep)`: every character of the class becomes `rep`. */
  function ReplaceClass(s: string, cls: set<char>, rep: char): (r: string)
    ensures |r| == |s|
    ensures forall i :: 0 <= i < |s| ==> r[i] == (if s[i] in cls then rep else s[i])
  {
    if s == [] then [] else [if s[0] in cls then rep else s[0]] + ReplaceClass(s[1..], cls, rep)
  }

  /** The six class rules, `a`, `e`, `i`, `o`, `u` and `y`, applied in source order. */
  function VowelRules(s: string): string {
    var a := ReplaceClass(s, AClass, 'a');
    var e := ReplaceClass(a, EClass, 'e');
    var i := ReplaceClass(e, IClass, 'i');
    var o := ReplaceClass(i, OClass, 'o');
    var u := ReplaceClass(o, UClass, 'u');
    ReplaceClass(u, YClass, 'y')
  }

  /**
   * What the six class rules do to one character, stated on its own: the
   * first class that holds it decides its letter.
   */
  function VowelFold(c: char): char {
    if c in AClass then 'a'
    else if c in EClass then 'e'
    else if c in IClass then 'i'
    else if c in OClass then 'o'
    else if c in UClass then 'u'
    else if c in YClass then 'y'
    else c
  }

  /**
   * The class rules work character by character: a later rule never
   * rewrites the letter an earlier rule produced.
   */
  lemma VowelRulesPointwise(s: string)
    ensures |VowelRules(s)| == |s|
    ensures forall i :: 0 <= i < |s| ==> VowelRules(s)[i] == VowelFold(s[i])
  {
    var a := ReplaceClass(s, AClass, 'a');
    var e := ReplaceClass(a, EClass, 'e');
    var i := ReplaceClass(e, IClass, 'i');
    var o := ReplaceClass(i, OClass, 'o');
    var u := ReplaceClass(o, UClass, 'u');
    var y := ReplaceClass(u, YClass, 'y');
    forall k | 0 <= k < |s| ensures y[k] == VowelFold(s[k]) {
      VowelStep(s[k], a[k], e[k], i[k], o[k], u[k], y[k]);
    }
  }

  /** One character through the six class rules. */
  lemma VowelStep(c: char, a: char, e: char, i: char, o: char, u: char, y: char)
    requires a == (if c in AClass then 'a' else c)
    requires e == (if a in EClass then 'e' else a)
    requires i == (if e in IClass then 'i' else e)
    requires o == (if i in OClass then 'o' else i)
    requires u == (if o in UClass then 'u' else o)
    requires y == (if u in YClass then 'y' else u)
    ensures y == VowelFold(c)
  {
  }

  /**
   * The `y` class rule is dead: every character of its class is already
   * claimed by an earlier rule, so no character folds to 'y' but 'y' itself.
   */
  lemma YRuleDead(c: char)
    ensures VowelFold(c) == 'y' <==> c == 'y'
    ensures VowelFold(c) !in YClass
  {
  }

  /** The class rules leave no first character of the `u` pattern behind. */
  lemma VowelFoldNotU(c: char)
    ensures VowelFold(c) != UPattern[0]
  {
  }

  /**
   * The `u` pattern rule is dead too: it runs after the class rules, and
   * its pattern starts with a character of the `o` class.
   */
  lemma URuleDead(s: string)
    ensures ReplaceAll(VowelRules(s), UPattern, "u") == VowelRules(s)
  {
    var v := VowelRules(s);
    VowelRulesPointwise(s);
    forall i ensures !OccursAt(v, UPattern, i) {
      if OccursAt(v, UPattern, i) {
        assert v[i] == v[i..i + 2][0];
        VowelFoldNotU(s[i]);
      }
    }
    ReplaceAbsent(v, UPattern, "u");
  }

  /**
   * The tables hold no Vietnamese letter: 'á' (U+00E1) passes the class rules
   * unchanged, while a no-break space becomes 'a' before `\s` is looked at.
   */
  lemma TablesMissVietnamese()
    ensures VowelFold('\U{E1}') == '\U{E1}' && VowelFold('\U{1EA1}') == '\U{1EA1}'
    ensures VowelFold('\U{A0}') == 'a' && IsSpace('\U{A0}')
  {
  }

  /**
   * The transliteration half of `normalizeName`: lower-casing, the `d` rule,
   * the digraph rules, the class rules and the `u` pattern rule.
   */
  function Transliterate(s: string): string {
    var lowered := Lower(s);
    var d := ReplaceAll(lowered, DPattern, "d");
    var v := VowelRules(Digraphs(d));
    ReplaceAll(v, UPattern, "u")
  }

  /** The characters the class `[a-z0-9\s-]` keeps. */
  predicate IsAllowed(c: char) {
    IsAsciiLower(c) || IsDigit(c) || IsSpace(c) || c == '-'
  }

  /** The characters a normalised stem is made of: `[a-z0-9-]`. */
  predicate IsSafe(c: char) {
    IsAsciiLower(c) || IsDigit(c) || c == '-'
  }

  /** No two adjacent hyphens. */
  predicate NoDoubleDash(s: string) {
    forall i :: 0 <= i < |s| - 1 ==> !(s[i] == '-' && s[i + 1] == '-')
  }

  /** `s.replace(/[^a-z0-9\s-]/g, '')`. */
  function KeepAllowed(s: string): (r: string)
    ensures forall c :: c in r <==> c in s && IsAllowed(c)
    ensures |r| <= |s|
    ensures (forall i :: 0 <= i < |s| ==> IsAllowed(s[i])) ==> r == s
  {
    if s == [] then []
    else if IsAllowed(s[0]) then [s[0]] + KeepAllowed(s[1..])
    else KeepAllowed(s[1..])
  }

  /**
   * The filter works character by character: filtering a concatenation is
   * filtering each part.
   */
  lemma {:induction false} KeepAllowedAppend(a: string, b: string)
    ensures KeepAllowed(a + b) == KeepAllowed(a) + KeepAllowed(b)
    decreases |a|
  {
    if a == [] {
      assert a + b == b;
    } else {
      assert (a + b)[0] == a[0];
      assert (a + b)[1..] == a[1..] + b;
      KeepAllowedAppend(a[1..], b);
    }
  }

  /** A single character is kept exactly when the class allows it. */
  lemma KeepAllowedChar(c: char)
    ensures KeepAllowed([c]) == (if IsAllowed(c) then [c] else [])
  {
    assert [c][1..] == [];
  }

  /** Drops a leading run of hyphens. */
  function SkipDashes(s: string): (r: string)
    ensures |r| <= |s| && r == s[|s| - |r|..]
    ensures forall i :: 0 <= i < |s| - |r| ==> s[i] == '-'
    ensures |r| > 0 ==> r[0] != '-'
  {
    if |s| > 0 && s[0] == '-' then SkipDashes(s[1..]) else s
  }

  /** `s.replace(/\s+/g, '-')`: every maximal whitespace run becomes one hyphen. */
  function HyphenateSpaces(s: string): (r: string)
    ensures forall c :: c in r ==> !IsSpace(c)
    ensures forall c :: c in r ==> c in s || c == '-'
    ensures forall c :: c in s && !IsSpace(c) ==> c in r
    ensures |r| > 0 <==> |s| > 0
    ensures |r| > 0 ==> (r[0] == '-' <==> s[0] == '-' || IsSpace(s[0]))
    decreases |s|
  {
    if s == [] then []
    else if IsSpace(s[0]) then
      var rest := TrimStart(s[1..]);
      var tail := HyphenateSpaces(rest);
      TrimStartChars(s[1..]);
      SpaceRunStep(s, rest, tail);
      ['-'] + tail
    else
      var tail := HyphenateSpaces(s[1..]);
      KeptCharStep(s, tail);
      [s[0]] + tail
  }

  /** What `TrimStart` keeps: characters of its argument, among them every non-space one. */
  lemma TrimStartChars(t: string)
    ensures forall c :: c in TrimStart(t) ==> c in t
    ensures forall c :: c in t && !IsSpace(c) ==> c in TrimStart(t)
  {
    var r := TrimStart(t);
    var k := |t| - |r|;
    SuffixChars(t, k);
    forall c | c in t && !IsSpace(c) ensures c in r {
      var i :| 0 <= i < |t| && t[i] == c;
      SuffixHolds(t, k, i);
    }
  }

  /** The characters of a whitespace run's hyphen followed by the hyphenated rest. */
  lemma SpaceRunStep(s: string, rest: string, tail: string)
    requires |s| > 0 && IsSpace(s[0])
    requires forall c :: c in rest ==> c in s[1..]
    requires forall c :: c in s[1..] && !IsSpace(c) ==> c in rest
    requires forall c :: c in tail ==> !IsSpace(c)
    requires forall c :: c in tail ==> c in rest || c == '-'
    requires forall c :: c in rest && !IsSpace(c) ==> c in tail
    ensures forall c :: c in ['-'] + tail ==> !IsSpace(c) && (c in s || c == '-')
    ensures forall c :: c in s && !IsSpace(c) ==> c in ['-'] + tail
  {
    assert forall c :: c in s ==> c == s[0] || c in s[1..];
  }

  /** The characters of a kept character followed by the hyphenated rest. */
  lemma KeptCharStep(s: string, tail: string)
    requires |s| > 0 && !IsSpace(s[0])
    requires forall c :: c in tail ==> !IsSpace(c)
    requires forall c :: c in tail ==> c in s[1..] || c == '-'
    requires forall c :: c in s[1..] && !IsSpace(c) ==> c in tail
    ensures forall c :: c in [s[0]] + tail ==> !IsSpace(c) && (c in s || c == '-')
    ensures forall c :: c in s && !IsSpace(c) ==> c in [s[0]] + tail
  {
    assert forall c :: c in s ==> c == s[0] || c in s[1..];
  }

  /** A word without whitespace at the front passes through unchanged. */
  lemma {:induction false} HyphenateWordPrefix(w: string, x: string)
    requires forall i :: 0 <= i < |w| ==> !IsSpace(w[i])
    ensures HyphenateSpaces(w + x) == w + HyphenateSpaces(x)
    decreases |w|
  {
    if w == [] {
      assert w + x == x;
    } else {
      HyphenateWordPrefix(w[1..], x);
      HyphenateKeptPrefix(w, x, HyphenateSpaces(w[1..] + x), HyphenateSpaces(x));
    }
  }

  /** The step of `HyphenateWordPrefix`: the word's first character is copied. */
  lemma HyphenateKeptPrefix(w: string, x: string, t: string, h: string)
    requires |w| > 0 && !IsSpace(w[0])
    requires t == HyphenateSpaces(w[1..] + x) && t == w[1..] + h
    ensures HyphenateSpaces(w + x) == w + h
  {
    var s := w + x;
    assert s[0] == w[0] && s[1..] == w[1..] + x;
    HyphenateKept(s);
    ConsAppend(w, h);
  }

  /** `w + h` is the first character of `w` followed by the rest of `w`, then `h`. */
  lemma ConsAppend(w: string, h: string)
    requires |w| > 0
    ensures [w[0]] + (w[1..] + h) == w + h
  {
    assert w == [w[0]] + w[1..];
  }

  /** A character that is not whitespace is copied, and the rest hyphenated. */
  lemma HyphenateKept(s: string)
    requires |s| > 0 && !IsSpace(s[0])
    ensures HyphenateSpaces(s) == [s[0]] + HyphenateSpaces(s[1..])
  {
  }

  /** Text without whitespace is left unchanged. */
  lemma HyphenateNoSpace(s: string)
    requires forall i :: 0 <= i < |s| ==> !IsSpace(s[i])
    ensures HyphenateSpaces(s) == s
  {
    HyphenateWordPrefix(s, []);
    assert s + [] == s;
  }

  /** Words of which the first has a first character start with that character. */
  lemma JoinStart(ws: seq<string>, sep: char)
    requires |ws| > 0 && |ws[0]| > 0
    ensures |Join(ws, sep)| > 0 && Join(ws, sep)[0] == ws[0][0]
  {
  }

  /** Non-empty words joined by single spaces come out joined by single hyphens. */
  lemma {:induction false} HyphenateWords(ws: seq<string>)
    requires |ws| > 0
    requires forall k :: 0 <= k < |ws| ==> |ws[k]| > 0
    requires forall k, i :: 0 <= k < |ws| && 0 <= i < |ws[k]| ==> !IsSpace(ws[k][i])
    ensures HyphenateSpaces(Join(ws, ' ')) == Join(ws, '-')
    decreases |ws|
  {
    if |ws| == 1 {
      HyphenateNoSpace(ws[0]);
    } else {
      var rest := Join(ws[1..], ' ');
      HyphenateWords(ws[1..]);
      JoinStart(ws[1..], ' ');
      HyphenateSpaceRun(rest);
      JoinCons(ws, ' ');
      HyphenateWordPrefix(ws[0], [' '] + rest);
      JoinCons(ws, '-');
    }
  }

  /** Joining two or more words is the first word, the separator, then the rest joined. */
  lemma JoinCons(ws: seq<string>, sep: char)
    requires |ws| > 1
    ensures Join(ws, sep) == ws[0] + ([sep] + Join(ws[1..], sep))
  {
  }

  /** A single space before non-space text becomes a single hyphen. */
  lemma HyphenateSpaceRun(rest: string)
    requires |rest| > 0 && !IsSpace(rest[0])
    ensures HyphenateSpaces([' '] + rest) == ['-'] + HyphenateSpaces(rest)
  {
    assert ([' '] + rest)[1..] == rest;
  }

  /** `s.replace(/-+/g, '-')`: every maximal hyphen run becomes one hyphen. */
  function CollapseDashes(s: string): (r: string)
    ensures NoDoubleDash(r)
    ensures forall c :: c in r <==> c in s
    ensures |r| > 0 <==> |s| > 0
    ensures |r| > 0 ==> r[0] == s[0]
    decreases |s|
  {
    if s == [] then []
    else if s[0] == '-' then
      var rest := SkipDashes(s[1..]);
      var tail := CollapseDashes(rest);
      SkipDashesChars(s[1..]);
      DashRunStep(s, rest, tail);
      ['-'] + tail
    else
      var tail := CollapseDashes(s[1..]);
      assert forall c :: c in s ==> c == s[0] || c in s[1..];
      [s[0]] + tail
  }

  /** What `SkipDashes` keeps: characters of its argument, among them every one that is not '-'. */
  lemma SkipDashesChars(t: string)
    ensures forall c :: c in SkipDashes(t) ==> c in t
    ensures forall c :: c in t && c != '-' ==> c in SkipDashes(t)
  {
    var r := SkipDashes(t);
    var k := |t| - |r|;
    SuffixChars(t, k);
    forall c | c in t && c != '-' ensures c in r {
      var i :| 0 <= i < |t| && t[i] == c;
      SuffixHolds(t, k, i);
    }
  }

  /** The characters of a hyphen run's single hyphen followed by the collapsed rest. */
  lemma DashRunStep(s: string, rest: string, tail: string)
    requires |s| > 0 && s[0] == '-'
    requires forall c :: c in rest ==> c in s[1..]
    requires forall c :: c in s[1..] && c != '-' ==> c in rest
    requires forall c :: c in tail <==> c in rest
    ensures forall c :: c in ['-'] + tail <==> c in s
  {
    assert forall c :: c in s ==> c == s[0] || c in s[1..];
  }

  /** `s` with every hyphen removed. */
  function Undashed(s: string): string {
    if s == [] then [] else if s[0] == '-' then Undashed(s[1..]) else [s[0]] + Undashed(s[1..])
  }

  /** Dropping a leading hyphen run removes no character but hyphens. */
  lemma {:induction false} UndashedSkip(s: string)
    ensures Undashed(SkipDashes(s)) == Undashed(s)
    decreases |s|
  {
    if |s| > 0 && s[0] == '-' {
      UndashedSkip(s[1..]);
    }
  }

  /**
   * Collapsing hyphen runs touches nothing but hyphens: without them the
   * result and the input are the same text.
   */
  lemma {:induction false} CollapseKeepsUndashed(s: string)
    ensures Undashed(CollapseDashes(s)) == Undashed(s)
    decreases |s|
  {
    if s == [] {
    } else if s[0] == '-' {
      var rest := SkipDashes(s[1..]);
      CollapseKeepsUndashed(rest);
      UndashedSkip(s[1..]);
      assert (['-'] + CollapseDashes(rest))[1..] == CollapseDashes(rest);
    } else {
      CollapseKeepsUndashed(s[1..]);
      assert ([s[0]] + CollapseDashes(s[1..]))[1..] == CollapseDashes(s[1..]);
    }
  }

  /** Text without "--" is left unchanged. */
  lemma {:induction false} CollapseFixed(s: string)
    requires NoDoubleDash(s)
    ensures CollapseDashes(s) == s
    decreases |s|
  {
    if s != [] {
      assert NoDoubleDash(s[1..]);
      CollapseFixed(s[1..]);
      if s[0] == '-' {
        assert |s| > 1 ==> s[1] != '-';
        assert SkipDashes(s[1..]) == s[1..];
      }
      assert s == [s[0]] + s[1..];
    }
  }

  /** The sanitising half of `normalizeName`: the character filter, `trim`, and the two run rules. */
  function Sanitise(s: string): (r: string)
    ensures forall i :: 0 <= i < |r| ==> IsSafe(r[i])
    ensures NoDoubleDash(r)
  {
    var kept := KeepAllowed(s);
    var trimmed := Trim(kept);
    var hyphenated := HyphenateSpaces(trimmed);
    var r := CollapseDashes(hyphenated);
    TrimChars(kept);
    SanitisedSafe(kept, trimmed, hyphenated, r);
    r
  }

  /** `trim` adds no character. */
  lemma TrimChars(s: string)
    ensures forall c :: c in Trim(s) ==> c in s
  {
    var n := LeadingSpaces(s);
    SliceChars(s, n, Trim(s));
  }

  /** A slice of `s` holds only characters of `s`. */
  lemma SliceChars(s: string, n: int, r: string)
    requires 0 <= n && n + |r| <= |s| && r == s[n..n + |r|]
    ensures forall c :: c in r ==> c in s
  {
    forall c | c in r ensures c in s {
      var i :| 0 <= i < |r| && r[i] == c;
      assert s[n + i] == c;
    }
  }

  /** The character facts of the four sanitising stages leave only `[a-z0-9-]`. */
  lemma SanitisedSafe(kept: string, trimmed: string, hyphenated: string, r: string)
    requires forall c :: c in kept ==> IsAllowed(c)
    requires forall c :: c in trimmed ==> c in kept
    requires forall c :: c in hyphenated ==> !IsSpace(c) && (c in trimmed || c == '-')
    requires forall c :: c in r ==> c in hyphenated
    ensures forall i :: 0 <= i < |r| ==> IsSafe(r[i])
  {
    forall i | 0 <= i < |r| ensures IsSafe(r[i]) {
      assert r[i] in r;
    }
  }

  /**
   * `normalizeName`: a falsy argument (`None`, or the empty string) gives the
   * empty string; otherwise the text is transliterated, then sanitised.
   */
  function NormalizeName(arg: Option<string>): (r: string)
    ensures !Truthy(arg) ==> r == ""
    ensures forall i :: 0 <= i < |r| ==> IsSafe(r[i])
    ensures NoDoubleDash(r)
  {
    if !Truthy(arg) then "" else Sanitise(Transliterate(arg.value))
  }

  /** `[a-z0-9-]` text without "gh" is left alone by the transliteration. */
  lemma TransliterateSafe(s: string)
    requires forall i :: 0 <= i < |s| ==> IsSafe(s[i])
    requires forall i :: !OccursAt(s, "gh", i)
    ensures Transliterate(s) == s
  {
    LowerSafe(s);
    DRuleSafe(s);
    DigraphsWithoutGh(s);
    VowelRulesSafe(s);
    URuleDead(s);
  }

  /** Lower-casing leaves `[a-z0-9-]` text alone. */
  lemma LowerSafe(s: string)
    requires forall i :: 0 <= i < |s| ==> IsSafe(s[i])
    ensures Lower(s) == s
  {
    LowerPointwise(s, s);
  }

  /** The `d` rule leaves `[a-z0-9-]` text alone. */
  lemma DRuleSafe(s: string)
    requires forall i :: 0 <= i < |s| ==> IsSafe(s[i])
    ensures ReplaceAll(s, DPattern, "d") == s
  {
    forall i ensures !OccursAt(s, DPattern, i) {
      if OccursAt(s, DPattern, i) {
        assert false;
      }
    }
    ReplaceAbsent(s, DPattern, "d");
  }

  /** The class rules leave `[a-z0-9-]` text alone. */
  lemma VowelRulesSafe(s: string)
    requires forall i :: 0 <= i < |s| ==> IsSafe(s[i])
    ensures VowelRules(s) == s
  {
    VowelRulesPointwise(s);
    forall i | 0 <= i < |s| ensures VowelRules(s)[i] == s[i] {
      SafeNotFolded(s[i]);
    }
  }

  /** No character of `[a-z0-9-]` is in any class. */
  lemma SafeNotFolded(c: char)
    requires IsSafe(c)
    ensures VowelFold(c) == c
  {
  }

  /** `[a-z0-9-]` text without "--" is left alone by the sanitising stages. */
  lemma SanitiseSafe(s: string)
    requires forall i :: 0 <= i < |s| ==> IsSafe(s[i])
    requires NoDoubleDash(s)
    ensures Sanitise(s) == s
  {
    assert KeepAllowed(s) == s;
    assert s[0..|s|] == s;
    TrimDetermined(s, 0, s);
    HyphenateNoSpace(s);
    CollapseFixed(s);
  }

  /**
   * A name already made of `[a-z0-9-]`, with no "--" and no "gh", is its own
   * normal form. Names of other shapes are changed, and "gh" is rewritten to
   * "g" even in a name that is otherwise normal.
   */
  lemma NormalizeSafeFixed(s: string)
    requires forall i :: 0 <= i < |s| ==> IsSafe(s[i])
    requires NoDoubleDash(s)
    requires forall i :: !OccursAt(s, "gh", i)
    ensures NormalizeName(Some(s)) == s
  {
    if s != "" {
      TransliterateSafe(s);
      SanitiseSafe(s);
    }
  }

  /** `filename.lastIndexOf('.')`: -1 when there is no dot. */
  function LastDot(s: string): (k: int)
    ensures -1 <= k < |s|
    ensures k == -1 <==> '.' !in s
    ensures k >= 0 ==> s[k] == '.' && '.' !in s[k + 1..]
  {
    if s == [] then -1
    else if s[|s| - 1] == '.' then |s| - 1
    else
      var k := LastDot(s[..|s| - 1]);
      assert s == s[..|s| - 1] + [s[|s| - 1]];
      assert k >= 0 ==> s[k + 1..] == s[..|s| - 1][k + 1..] + [s[|s| - 1]];
      k
  }

  /**
   * `normalizeFileName`: no dot means the whole name is normalised; otherwise
   * the stem before the last dot is normalised and the suffix from the last
   * dot on is lower-cased and appended unchanged otherwise.
   */
  function NormalizeFileName(filename: string): string {
    var k := LastDot(filename);
    if k == -1 then NormalizeName(Some(filename))
    else NormalizeName(Some(filename[..k])) + Lower(filename[k..])
  }

  /**
   * Splitting a normalised file name again at its last dot gives back the
   * normalised stem and the lower-cased extension: the stem contributes no dot.
   */
  lemma {:induction false} NormalizedSplitsAtSameDot(filename: string)
    requires '.' in filename
    ensures var k := LastDot(filename);
            var r := NormalizeFileName(filename);
            var stem := NormalizeName(Some(filename[..k]));
            && LastDot(r) == |stem|
            && r[..|stem|] == stem
            && r[|stem|..] == Lower(filename[k..])
  {
    var k := LastDot(filename);
    var stem := NormalizeName(Some(filename[..k]));
    var ext := Lower(filename[k..]);
    assert NormalizeFileName(filename) == stem + ext;
    StemHasNoDot(Some(filename[..k]));
    ExtensionHasOneDot(filename, k);
    LastDotOf(stem, ext);
  }

  /** A normalised stem contains no dot. */
  lemma StemHasNoDot(arg: Option<string>)
    ensures '.' !in NormalizeName(arg)
  {
    var stem := NormalizeName(arg);
    forall i | 0 <= i < |stem| ensures stem[i] != '.' {
      assert IsSafe(stem[i]);
    }
  }

  /** The lower-cased suffix from the last dot holds that dot only, at its start. */
  lemma ExtensionHasOneDot(filename: string, k: int)
    requires k == LastDot(filename) && k >= 0
    ensures var ext := Lower(filename[k..]);
            |ext| > 0 && ext[0] == '.' && forall j :: 1 <= j < |ext| ==> ext[j] != '.'
  {
    var ext := Lower(filename[k..]);
    forall j | 1 <= j < |ext| ensures ext[j] != '.' {
      var c := filename[k + 1..][j - 1];
      assert filename[k..][j] == c;
      assert c in filename[k + 1..];
      LowerCharKeepsDot(c);
    }
  }

  /** Lower-casing makes no dot and removes none. */
  lemma LowerCharKeepsDot(c: char)
    ensures LowerChar(c) == '.' <==> c == '.'
  {
  }

  /** The last dot of `a + b` is the first character of `b` when that is the only dot. */
  lemma LastDotOf(a: string, b: string)
    requires '.' !in a
    requires |b| > 0 && b[0] == '.'
    requires forall j :: 1 <= j < |b| ==> b[j] != '.'
    ensures LastDot(a + b) == |a|
  {
    var s := a + b;
    assert s[|a|] == '.';
  }

  /** A file name without a dot is normalised as a whole, extension and all. */
  lemma NoDotIsWholeName(filename: string)
    requires '.' !in filename
    ensures NormalizeFileName(filename) == NormalizeName(Some(filename))
    ensures forall i :: 0 <= i < |NormalizeFileName(filename)| ==> IsSafe(NormalizeFileName(filename)[i])
  {
  }

  /** The extension is only lower-cased: spaces and symbols in it survive. */
  lemma ExtensionNotSanitised()
    ensures NormalizeFileName(".P G") == ".p g"
  {
    SpacedExtensionDot();
    LeadingDotIsAllExtension(".P G");
    SpacedExtensionLowered();
  }

  /** The only dot of ".P G" is its first character. */
  lemma SpacedExtensionDot()
    ensures LastDot(".P G") == 0
  {
    LastDotOf("", ".P G");
    assert "" + ".P G" == ".P G";
  }

  /** Lower-casing ".P G" touches only the letter. */
  lemma SpacedExtensionLowered()
    ensures Lower(".P G") == ".p g"
  {
    LowerPointwise(".P G", ".p g");
  }

  /** A name whose only dot leads it is all extension: it is only lower-cased. */
  lemma LeadingDotIsAllExtension(filename: string)
    requires LastDot(filename) == 0
    ensures NormalizeFileName(filename) == Lower(filename)
  {
    assert filename[..0] == "" && filename[0..] == filename;
  }
}
