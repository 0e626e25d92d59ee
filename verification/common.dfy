/**
 * Shared vocabulary: optional values, JavaScript truthiness for the values the
 * storefront handles, the JavaScript whitespace class, case mapping and trim.
 */
module Common {

  /** A value that may be missing (`undefined`/`null` in the source). */
  datatype Option<+T> = None | Some(value: T)

  /** `x` is truthy in JavaScript when `x` is an optional string. */
  predicate Truthy(x: Option<string>) {
    x.Some? && x.value != ""
  }

  /** `x` is truthy in JavaScript when `x` is an optional number (0 is falsy). */
  predicate HasId(x: Option<int>) {
    x.Some? && x.value != 0
  }

  /**
   * The outcome of an awaited request: it threw (with the server's
   * `error.response?.data?.message`, when there is one), or it returned a body.
   */
  datatype Response<+T> = Thrown(message: Option<string>) | Returned(body: T)

  /** A toast or `message.*` notification shown to the user. */
  datatype Notice = Success(text: string) | Failure(text: string) | Warning(text: string)

  /** JavaScript's `a || d` for an optional string `a` and a string default `d`. */
  function OrElse(a: Option<string>, d: string): (r: string)
    ensures Truthy(a) ==> r == a.value
    ensures !Truthy(a) ==> r == d
  {
    if a.Some? && a.value != "" then a.value else d
  }

  /**
   * The characters matched by `\s` in a JavaScript regular expression, which
   * are also the characters `String.prototype.trim` removes.
   */
  predicate IsSpace(c: char) {
    || c == '\t' || c == '\n' || c == '\U{B}' || c == '\U{C}' || c == '\r'
    || c == ' ' || c == '\U{A0}' || c == '\U{1680}'
    || ('\U{2000}' <= c <= '\U{200A}')
    || c == '\U{2028}' || c == '\U{2029}' || c == '\U{202F}' || c == '\U{205F}'
    || c == '\U{3000}' || c == '\U{FEFF}'
  }

  predicate IsAsciiLower(c: char) { 'a' <= c <= 'z' }
  predicate IsAsciiUpper(c: char) { 'A' <= c <= 'Z' }
  predicate IsDigit(c: char) { '0' <= c <= '9' }

  /** `\w` of a JavaScript regular expression without the `u` flag. */
  predicate IsWordChar(c: char) {
    IsAsciiLower(c) || IsAsciiUpper(c) || IsDigit(c) || c == '_'
  }

  /**
   * Lower-case mapping of one character: ASCII, Latin-1, Latin Extended
   * Additional (the Vietnamese block) and the Vietnamese letters of Latin
   * Extended A/B. Every other character is its own lower case here.
   */
  function LowerChar(c: char): char {
    if IsAsciiUpper(c) then (c as int + 32) as char
    else if '\U{C0}' <= c <= '\U{DE}' && c != '\U{D7}' then (c as int + 32) as char
    else if '\U{1EA0}' <= c <= '\U{1EF9}' && c as int % 2 == 0 then (c as int + 1) as char
    else if c == '\U{102}' || c == '\U{110}' || c == '\U{128}' || c == '\U{168}' then (c as int + 1) as char
    else if c == '\U{1A0}' || c == '\U{1AF}' then (c as int + 1) as char
    else c
  }

  /**
   * Upper-case mapping of one character: the inverse direction of
   * `LowerChar`, plus the two Latin-1 letters whose capitals lie outside
   * Latin-1, 'ÿ' and 'µ'. The sharp s has no one-character capital; `Upper`
   * handles it.
   */
  function UpperChar(c: char): char {
    if IsAsciiLower(c) then (c as int - 32) as char
    else if c == '\U{FF}' then '\U{178}'
    else if c == '\U{B5}' then '\U{39C}'
    else if '\U{E0}' <= c <= '\U{FE}' && c != '\U{F7}' && c != SharpS then (c as int - 32) as char
    else if '\U{1EA0}' <= c <= '\U{1EF9}' && c as int % 2 == 1 then (c as int - 1) as char
    else if c == '\U{103}' || c == '\U{111}' || c == '\U{129}' || c == '\U{169}' then (c as int - 1) as char
    else if c == '\U{1A1}' || c == '\U{1B0}' then (c as int - 1) as char
    else c
  }

  /** `String.prototype.toLowerCase`. */
  function Lower(s: string): (r: string)
    ensures |r| == |s|
    ensures forall i :: 0 <= i < |s| ==> r[i] == LowerChar(s[i])
  {
    if s == [] then [] else [LowerChar(s[0])] + Lower(s[1..])
  }

  /** Any text that agrees with lower-casing character by character is its result. */
  lemma LowerPointwise(s: string, t: string)
    requires |s| == |t|
    requires forall i :: 0 <= i < |s| ==> t[i] == LowerChar(s[i])
    ensures Lower(s) == t
  {
    var r := Lower(s);
    assert forall i :: 0 <= i < |s| ==> r[i] == t[i];
  }

  /** The sharp s, 'ß', whose upper case is the two letters "SS". */
  const SharpS := '\U{DF}'

  /** How many sharp s a text holds. */
  function SharpCount(s: string): nat {
    if s == [] then 0 else (if s[0] == SharpS then 1 else 0) + SharpCount(s[1..])
  }

  /** The upper case of one character as text: "SS" for the sharp s, one character otherwise. */
  function UpperText(c: char): string {
    if c == SharpS then "SS" else [UpperChar(c)]
  }

  /**
   * `String.prototype.toUpperCase`: each character is replaced by its upper
   * case, so the text grows by one character per sharp s and otherwise
   * maps pointwise.
   */
  function Upper(s: string): (r: string)
    ensures |r| == |s| + SharpCount(s)
    ensures SharpCount(s) == 0 ==> forall i :: 0 <= i < |s| ==> r[i] == UpperChar(s[i])
  {
    if s == [] then [] else UpperText(s[0]) + Upper(s[1..])
  }

  /** Upper-casing a concatenation is upper-casing each part. */
  lemma {:induction false} UpperAppend(a: string, b: string)
    ensures Upper(a + b) == Upper(a) + Upper(b)
  {
    if a == [] {
      assert a + b == b;
    } else {
      var ab := a + b;
      assert ab[0] == a[0] && ab[1..] == a[1..] + b;
      UpperAppend(a[1..], b);
      UpperFirst(ab);
      UpperFirst(a);
    }
  }

  /** Upper-casing a non-empty text upper-cases its first character, then the rest. */
  lemma UpperFirst(s: string)
    requires s != []
    ensures Upper(s) == UpperText(s[0]) + Upper(s[1..])
  {
  }

  /** The sharp s becomes two capitals, so "straße" grows by one character. */
  lemma UpperSharpS()
    ensures Upper("stra\U{DF}e") == "STRASSE"
  {
    var s := "stra\U{DF}e";
    assert s == "stra" + "\U{DF}e";
    UpperAppend("stra", "\U{DF}e");
    assert Upper("stra") == "STRA";
    UpperFirst("\U{DF}e");
    assert "\U{DF}e"[1..] == "e";
  }

  /** 'ÿ' and 'µ' upper-case to letters outside Latin-1. */
  lemma UpperLeavesLatin1()
    ensures Upper("\U{FF}\U{B5}") == "\U{178}\U{39C}"
  {
    var t := "\U{FF}\U{B5}";
    UpperFirst(t);
    assert t[1..] == "\U{B5}";
  }

  /** The length of the whitespace run `s` starts with. */
  function LeadingSpaces(s: string): (n: nat)
    ensures n <= |s|
    ensures forall i :: 0 <= i < n ==> IsSpace(s[i])
    ensures n < |s| ==> !IsSpace(s[n])
  {
    if |s| > 0 && IsSpace(s[0]) then 1 + LeadingSpaces(s[1..]) else 0
  }

  /** Drops the leading whitespace of `s`. */
  function TrimStart(s: string): (r: string)
    ensures |r| <= |s| && r == s[|s| - |r|..]
    ensures |s| - |r| == LeadingSpaces(s)
    ensures forall i :: 0 <= i < |s| - |r| ==> IsSpace(s[i])
    ensures |r| > 0 ==> !IsSpace(r[0])
  {
    if |s| > 0 && IsSpace(s[0]) then TrimStart(s[1..]) else s
  }

  /** Drops the trailing whitespace of `s`. */
  function TrimEnd(s: string): (r: string)
    ensures |r| <= |s| && r == s[..|r|]
    ensures forall i :: |r| <= i < |s| ==> IsSpace(s[i])
    ensures |r| > 0 ==> !IsSpace(r[|r| - 1])
  {
    if |s| > 0 && IsSpace(s[|s| - 1]) then TrimEnd(s[..|s| - 1]) else s
  }

  /**
   * `String.prototype.trim`: the infix of `s` that starts after its leading
   * whitespace run and is followed only by whitespace, with no whitespace at
   * either of its own ends.
   */
  function Trim(s: string): (r: string)
    ensures LeadingSpaces(s) + |r| <= |s|
    ensures r == s[LeadingSpaces(s)..LeadingSpaces(s) + |r|]
    ensures forall i :: LeadingSpaces(s) + |r| <= i < |s| ==> IsSpace(s[i])
    ensures |r| > 0 ==> !IsSpace(r[0]) && !IsSpace(r[|r| - 1])
  {
    var t := TrimStart(s);
    var r := TrimEnd(t);
    TrimInfix(s, |s| - |t|, t, r);
    r
  }

  /** A prefix of a suffix of `s` is an infix of `s`, and what follows it in the suffix follows it in `s`. */
  lemma TrimInfix(s: string, n: int, t: string, r: string)
    requires 0 <= n <= |s| && t == s[n..] && |r| <= |t| && r == t[..|r|]
    requires forall i :: |r| <= i < |t| ==> IsSpace(t[i])
    requires |t| > 0 ==> !IsSpace(t[0])
    ensures r == s[n..n + |r|]
    ensures forall i :: n + |r| <= i < |s| ==> IsSpace(s[i])
    ensures |r| > 0 ==> !IsSpace(r[0])
  {
    forall i | n + |r| <= i < |s| ensures IsSpace(s[i]) {
      assert s[i] == t[i - n];
    }
  }

  /** Whitespace only. */
  predicate AllSpace(s: string) {
    forall i :: 0 <= i < |s| ==> IsSpace(s[i])
  }

  /** Trimming removes exactly the whitespace padding around a text with non-whitespace ends. */
  lemma TrimPadded(p: string, w: string, q: string)
    requires AllSpace(p) && AllSpace(q)
    requires |w| > 0 ==> !IsSpace(w[0]) && !IsSpace(w[|w| - 1])
    ensures Trim(p + w + q) == w
  {
    var s := p + w + q;
    assert forall i :: 0 <= i < |p| ==> s[i] == p[i];
    assert forall i :: 0 <= i < |q| ==> s[|p| + |w| + i] == q[i];
    assert s[|p|..|p| + |w|] == w;
    TrimDetermined(s, |p|, w);
  }

  /**
   * `Trim(s)` is the text `w` found at `a` in `s` when only whitespace
   * surrounds it there and `w` has no whitespace at its ends.
   */
  lemma TrimDetermined(s: string, a: int, w: string)
    requires 0 <= a && a + |w| <= |s| && s[a..a + |w|] == w
    requires forall i :: 0 <= i < a ==> IsSpace(s[i])
    requires forall i :: a + |w| <= i < |s| ==> IsSpace(s[i])
    requires |w| > 0 ==> !IsSpace(w[0]) && !IsSpace(w[|w| - 1])
    ensures Trim(s) == w
  {
    var n := LeadingSpaces(s);
    var r := Trim(s);
    if w == [] {
      assert n == |s|;
    } else {
      assert s[a] == w[0];
      assert n == a;
      assert s[a + |w| - 1] == w[|w| - 1];
      assert |r| == |w|;
    }
  }

  /** The index of the first `c` in `s`, or -1 when there is none. */
  function IndexOf(s: string, c: char): (k: int)
    ensures -1 <= k < |s|
    ensures k == -1 <==> c !in s
    ensures k >= 0 ==> s[k] == c && c !in s[..k]
  {
    if s == [] then -1
    else if s[0] == c then 0
    else
      var k := IndexOf(s[1..], c);
      if k == -1 then -1
      else
        assert s[..k + 1] == [s[0]] + s[1..][..k];
        k + 1
  }

  /** `String.prototype.split` with a one-character separator. */
  function Split(s: string, sep: char): (parts: seq<string>)
    ensures |parts| >= 1
    ensures forall i :: 0 <= i < |parts| ==> sep !in parts[i]
    decreases |s|
  {
    var k := IndexOf(s, sep);
    if k == -1 then [s] else [s[..k]] + Split(s[k + 1..], sep)
  }

  /** `Array.prototype.join` with a one-character separator. */
  function Join(parts: seq<string>, sep: char): (r: string)
    ensures parts == [] ==> r == ""
    ensures forall i :: 0 <= i < |parts| ==> forall c :: c in parts[i] ==> c in r
  {
    if parts == [] then ""
    else if |parts| == 1 then parts[0]
    else
      var rest := Join(parts[1..], sep);
      assert forall i :: 1 <= i < |parts| ==> parts[i] == parts[1..][i - 1];
      parts[0] + [sep] + rest
  }

  /** Splitting and joining on the same separator gives the string back. */
  lemma {:induction false} JoinSplit(s: string, sep: char)
    ensures Join(Split(s, sep), sep) == s
    decreases |s|
  {
    var k := IndexOf(s, sep);
    if k == -1 {
      assert Split(s, sep) == [s];
    } else {
      var tail := s[k + 1..];
      var rest := Split(tail, sep);
      JoinSplit(tail, sep);
      var parts := Split(s, sep);
      assert parts == [s[..k]] + rest;
      assert |parts| >= 2 && parts[0] == s[..k] && parts[1..] == rest;
      assert Join(parts, sep) == s[..k] + [sep] + Join(rest, sep);
      assert s == s[..k] + [sep] + tail;
    }
  }

  /** Joining pieces free of the separator and splitting again gives the pieces back. */
  lemma {:induction false} SplitJoin(parts: seq<string>, sep: char)
    requires |parts| >= 1
    requires forall i :: 0 <= i < |parts| ==> sep !in parts[i]
    ensures Split(Join(parts, sep), sep) == parts
  {
    if |parts| == 1 {
      assert Join(parts, sep) == parts[0];
    } else {
      var rest := Join(parts[1..], sep);
      var s := parts[0] + [sep] + rest;
      assert Join(parts, sep) == s;
      assert sep !in parts[0];
      assert s[|parts[0]|] == sep;
      assert s[..|parts[0]|] == parts[0];
      IndexOfAfterFree(parts[0], sep, rest);
      assert s[|parts[0]| + 1..] == rest;
      SplitJoin(parts[1..], sep);
    }
  }

  /** Every character of a suffix is a character of the whole. */
  lemma SuffixChars(s: string, k: int)
    requires 0 <= k <= |s|
    ensures forall c :: c in s[k..] ==> c in s
  {
    forall c | c in s[k..] ensures c in s {
      var i :| 0 <= i < |s[k..]| && s[k..][i] == c;
      assert s[k + i] == c;
    }
  }

  /** Every character of a prefix is a character of the whole. */
  lemma PrefixChars(s: string, k: int)
    requires 0 <= k <= |s|
    ensures forall c :: c in s[..k] ==> c in s
  {
    forall c | c in s[..k] ensures c in s {
      var i :| 0 <= i < k && s[..k][i] == c;
      assert s[i] == c;
    }
  }

  /** A character at or after `k` belongs to the suffix from `k`. */
  lemma SuffixHolds(s: string, k: int, i: int)
    requires 0 <= k <= i < |s|
    ensures s[i] in s[k..]
  {
    assert s[k..][i - k] == s[i];
  }

  /** The first separator of `a + [sep] + b` is the one after `a` when `a` has none. */
  lemma IndexOfAfterFree(a: string, sep: char, b: string)
    requires sep !in a
    ensures IndexOf(a + [sep] + b, sep) == |a|
  {
    var s := a + [sep] + b;
    assert s[|a|] == sep;
    assert forall j :: 0 <= j < |a| ==> s[j] == a[j];
  }

  /**
   * A run of events under a step function, which gives the next state and
   * the requests one event issues: the final state and every request, in
   * order. The pages' event loops are instances of it.
   */
  function RunOf<S, E, Q>(step: (S, E) -> (S, seq<Q>), s: S, es: seq<E>): (S, seq<Q>)
    decreases |es|
  {
    if es == [] then (s, [])
    else
      var t := step(s, es[0]);
      var rest := RunOf(step, t.0, es[1..]);
      (rest.0, t.1 + rest.1)
  }

  /** A run starts with the first event's step. */
  lemma RunOfCons<S, E, Q>(step: (S, E) -> (S, seq<Q>), s: S, es: seq<E>)
    requires es != []
    ensures RunOf(step, s, es) == (RunOf(step, step(s, es[0]).0, es[1..]).0,
                                   step(s, es[0]).1 + RunOf(step, step(s, es[0]).0, es[1..]).1)
  {
  }

  /** Running two sequences of events one after the other is running their concatenation. */
  lemma {:induction false} RunOfAppend<S, E, Q>(step: (S, E) -> (S, seq<Q>), s: S, a: seq<E>, b: seq<E>)
    ensures var first := RunOf(step, s, a);
            var second := RunOf(step, first.0, b);
            RunOf(step, s, a + b) == (second.0, first.1 + second.1)
    decreases |a|
  {
    if a == [] {
      assert a + b == b;
      assert [] + RunOf(step, s, b).1 == RunOf(step, s, b).1;
    } else {
      var t := step(s, a[0]);
      assert (a + b)[0] == a[0] && (a + b)[1..] == a[1..] + b;
      RunOfAppend(step, t.0, a[1..], b);
      var first := RunOf(step, t.0, a[1..]);
      var second := RunOf(step, first.0, b);
      assert t.1 + (first.1 + second.1) == (t.1 + first.1) + second.1;
    }
  }

  /** When no event issues more than one request, a run issues at most one per event. */
  lemma {:induction false} RunOfAtMostOne<S, E, Q>(step: (S, E) -> (S, seq<Q>), s: S, es: seq<E>)
    requires forall x: S, e: E :: |step(x, e).1| <= 1
    ensures |RunOf(step, s, es).1| <= |es|
    decreases |es|
  {
    if es != [] {
      RunOfAtMostOne(step, step(s, es[0]).0, es[1..]);
    }
  }
}
