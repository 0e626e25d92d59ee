/**
 * The admin layout: breadcrumb text derived from the URL path, the guard run
 * on mount, and logout.
 */
module AdminLayout {
  import opened Common
  import opened Storage

  /** `.replace(/[-_]/g, ' ')`. */
  function DashesToSpaces(s: string): (r: string)
    ensures |r| == |s|
    ensures forall i :: 0 <= i < |s| ==> r[i] == (if s[i] == '-' || s[i] == '_' then ' ' else s[i])
  {
    if s == [] then [] else [if s[0] == '-' || s[0] == '_' then ' ' else s[0]] + DashesToSpaces(s[1..])
  }

  /** A lower-case ASCII letter directly followed by an upper-case one at `i`. */
  predicate CamelAt(s: string, i: int) {
    0 <= i < |s| - 1 && IsAsciiLower(s[i]) && IsAsciiUpper(s[i + 1])
  }

  /** `s` with its spaces removed. */
  function Unspaced(s: string): (r: string)
    ensures forall c :: c in r <==> c in s && c != ' '
  {
    if s == [] then [] else (if s[0] == ' ' then [] else [s[0]]) + Unspaced(s[1..])
  }

  /**
   * `.replace(/([a-z])([A-Z])/g, '$1 $2')`: scanning left to right, each
   * lower-case letter followed by an upper-case one gets a space between
   * them. A match ends on an upper-case letter, which cannot start the next
   * match, so consecutive matches never compete.
   */
  function CamelSplit(s: string): (r: string)
    ensures |s| > 0 ==> |r| > 0 && r[0] == s[0]
    ensures forall i :: !CamelAt(r, i)
    ensures forall c :: c in r ==> c in s || c == ' '
    ensures |r| >= |s|
  {
    if |s| < 2 then s
    else if IsAsciiLower(s[0]) && IsAsciiUpper(s[1]) then
      var rest := CamelSplit(s[2..]);
      assert forall c :: c in rest ==> c in s[2..] || c == ' ';
      var r := [s[0], ' ', s[1]] + rest;
      assert forall i :: 2 <= i < |r| - 1 ==> (CamelAt(r, i) <==> CamelAt(rest, i - 3)) || i == 2;
      r
    else
      var rest := CamelSplit(s[1..]);
      assert forall c :: c in rest ==> c in s[1..] || c == ' ';
      var r := [s[0]] + rest;
      assert forall i :: 1 <= i < |r| - 1 ==> (CamelAt(r, i) <==> CamelAt(rest, i - 1));
      r
  }

  /** Splitting camel case only inserts spaces: without them the text is unchanged. */
  lemma {:induction false} CamelSplitOnlyAddsSpaces(s: string)
    ensures Unspaced(CamelSplit(s)) == Unspaced(s)
    decreases |s|
  {
    if |s| >= 2 {
      if IsAsciiLower(s[0]) && IsAsciiUpper(s[1]) {
        CamelSplitOnlyAddsSpaces(s[2..]);
        CamelPairStep(s, CamelSplit(s[2..]));
      } else {
        CamelSplitOnlyAddsSpaces(s[1..]);
        CamelKeptStep(s, CamelSplit(s[1..]));
      }
    }
  }

  /** The step of `CamelSplitOnlyAddsSpaces` where a space goes between the first two letters. */
  lemma CamelPairStep(s: string, rest: string)
    requires |s| >= 2 && IsAsciiLower(s[0]) && IsAsciiUpper(s[1])
    requires Unspaced(rest) == Unspaced(s[2..])
    ensures Unspaced([s[0], ' ', s[1]] + rest) == Unspaced(s)
  {
    UnspacedAppend([s[0], ' ', s[1]], rest);
    UnspacedAppend([s[0], s[1]], s[2..]);
    assert s == [s[0], s[1]] + s[2..];
  }

  /** The step of `CamelSplitOnlyAddsSpaces` where the first character is kept as it is. */
  lemma CamelKeptStep(s: string, rest: string)
    requires |s| >= 1 && Unspaced(rest) == Unspaced(s[1..])
    ensures Unspaced([s[0]] + rest) == Unspaced(s)
  {
    UnspacedAppend([s[0]], rest);
    UnspacedAppend([s[0]], s[1..]);
    assert s == [s[0]] + s[1..];
  }

  /** Removing spaces distributes over concatenation. */
  lemma {:induction false} UnspacedAppend(a: string, b: string)
    ensures Unspaced(a + b) == Unspaced(a) + Unspaced(b)
  {
    if a == [] {
      assert a + b == b;
    } else {
      assert (a + b)[1..] == a[1..] + b;
      UnspacedAppend(a[1..], b);
    }
  }

  /** A word character with no word character before it: where `\b\w` matches. */
  predicate WordStart(s: string, i: int) {
    0 <= i < |s| && IsWordChar(s[i]) && (i == 0 || !IsWordChar(s[i - 1]))
  }

  /** Capitalises the word starts of `s`, given whether the character before `s` was a word character. */
  function CapitalizeAfter(s: string, afterWord: bool): (r: string)
    ensures |r| == |s|
    ensures forall i :: 1 <= i < |s| ==> r[i] == (if WordStart(s, i) then UpperChar(s[i]) else s[i])
    ensures |s| > 0 ==> r[0] == (if IsWordChar(s[0]) && !afterWord then UpperChar(s[0]) else s[0])
  {
    if s == [] then []
    else
      var c := if IsWordChar(s[0]) && !afterWord then UpperChar(s[0]) else s[0];
      var rest := CapitalizeAfter(s[1..], IsWordChar(s[0]));
      WordStartShift(s);
      [c] + rest
  }

  /** Past the first two characters, the word starts of `s` are those of its tail, one place later. */
  lemma WordStartShift(s: string)
    requires s != []
    ensures forall i :: 2 <= i < |s| ==> (WordStart(s, i) <==> WordStart(s[1..], i - 1))
  {
  }

  /** `.replace(/\b\w/g, (char) => char.toUpperCase())`. */
  function Capitalize(s: string): (r: string)
    ensures |r| == |s|
    ensures forall i :: 0 <= i < |s| ==> r[i] == (if WordStart(s, i) then UpperChar(s[i]) else s[i])
  {
    CapitalizeAfter(s, false)
  }

  /** `formatBreadcrumb(segment)`. */
  function FormatBreadcrumb(segment: string): (title: string)
    ensures '-' !in title && '_' !in title
    ensures |title| >= |segment|
  {
    var spaced := DashesToSpaces(segment);
    var split := CamelSplit(spaced);
    NoSeparatorsLeft(segment, spaced, split);
    CapitalizeAddsNoSeparator(split);
    Capitalize(split)
  }

  /** After the replacement no dash or underscore is left, and splitting adds none. */
  lemma NoSeparatorsLeft(segment: string, spaced: string, split: string)
    requires spaced == DashesToSpaces(segment) && split == CamelSplit(spaced)
    ensures '-' !in split && '_' !in split
  {
    assert forall c :: c in spaced ==> c != '-' && c != '_';
  }

  /** Capitalising a text without dashes or underscores introduces neither. */
  lemma CapitalizeAddsNoSeparator(s: string)
    requires '-' !in s && '_' !in s
    ensures '-' !in Capitalize(s) && '_' !in Capitalize(s)
  {
    var r := Capitalize(s);
    forall i | 0 <= i < |r|
      ensures r[i] != '-' && r[i] != '_'
    {
      assert s[i] in s;
      if WordStart(s, i) { UpperWordChar(s[i]); }
    }
  }

  /** The capital of a word character other than `_` is neither a dash nor an underscore. */
  lemma UpperWordChar(c: char)
    requires IsWordChar(c) && c != '_'
    ensures UpperChar(c) != '-' && UpperChar(c) != '_'
  {
  }

  /** Camel-case splitting leaves text without a lower-to-upper boundary as it is. */
  lemma {:induction false} CamelSplitNoBoundary(s: string)
    requires forall i :: !CamelAt(s, i)
    ensures CamelSplit(s) == s
    decreases |s|
  {
    if |s| >= 2 {
      assert !CamelAt(s, 0);
      assert forall i :: CamelAt(s[1..], i) ==> CamelAt(s, i + 1);
      CamelSplitNoBoundary(s[1..]);
      assert s == [s[0]] + s[1..];
    }
  }

  /**
   * Texts that do not meet at a lower→upper boundary are camel-split
   * separately. With `CamelSplitPair` this pins the whole result: a space
   * goes at each boundary and nowhere else.
   */
  lemma {:induction false} CamelSplitAppend(a: string, b: string)
    requires a == [] || b == [] || !(IsAsciiLower(a[|a| - 1]) && IsAsciiUpper(b[0]))
    ensures CamelSplit(a + b) == CamelSplit(a) + CamelSplit(b)
    decreases |a|
  {
    if a == [] {
      assert a + b == b;
    } else if |a| == 1 {
      CamelAppendLast(a, b);
    } else if IsAsciiLower(a[0]) && IsAsciiUpper(a[1]) {
      CamelSplitAppend(a[2..], b);
      CamelAppendPair(a, b);
    } else {
      CamelSplitAppend(a[1..], b);
      CamelAppendKept(a, b);
    }
  }

  /** The base of `CamelSplitAppend`: one character that does not start a boundary with `b`. */
  lemma CamelAppendLast(a: string, b: string)
    requires |a| == 1 && (b == [] || !(IsAsciiLower(a[0]) && IsAsciiUpper(b[0])))
    ensures CamelSplit(a + b) == CamelSplit(a) + CamelSplit(b)
  {
    if b == [] {
      assert a + b == a;
    } else {
      CamelKeptHead(a + b);
      assert (a + b)[1..] == b;
    }
  }

  /** The step of `CamelSplitAppend` where `a` starts at a boundary. */
  lemma CamelAppendPair(a: string, b: string)
    requires |a| >= 2 && IsAsciiLower(a[0]) && IsAsciiUpper(a[1])
    requires CamelSplit(a[2..] + b) == CamelSplit(a[2..]) + CamelSplit(b)
    ensures CamelSplit(a + b) == CamelSplit(a) + CamelSplit(b)
  {
    DropAppend(a, b, 2);
    CamelPairHead(a + b);
    CamelPairHead(a);
    AppendAssociates([a[0], ' ', a[1]], CamelSplit(a[2..]), CamelSplit(b));
  }

  /** The step of `CamelSplitAppend` where `a` does not start at a boundary. */
  lemma CamelAppendKept(a: string, b: string)
    requires |a| >= 2 && !(IsAsciiLower(a[0]) && IsAsciiUpper(a[1]))
    requires CamelSplit(a[1..] + b) == CamelSplit(a[1..]) + CamelSplit(b)
    ensures CamelSplit(a + b) == CamelSplit(a) + CamelSplit(b)
  {
    DropAppend(a, b, 1);
    CamelKeptHead(a + b);
    CamelKeptHead(a);
    AppendAssociates([a[0]], CamelSplit(a[1..]), CamelSplit(b));
  }

  /** Dropping a prefix of `a` from `a + b` leaves the rest of `a`, then `b`. */
  lemma DropAppend(a: string, b: string, k: nat)
    requires k <= |a|
    ensures (a + b)[k..] == a[k..] + b
    ensures |a| > k ==> (a + b)[k] == a[k]
  {
  }

  /** Concatenation associates. */
  lemma AppendAssociates(x: string, y: string, z: string)
    ensures x + (y + z) == (x + y) + z
  {
  }

  /** A text starting at a boundary: its first two letters, a space between them, then the rest split. */
  lemma CamelPairHead(s: string)
    requires |s| >= 2 && IsAsciiLower(s[0]) && IsAsciiUpper(s[1])
    ensures CamelSplit(s) == [s[0], ' ', s[1]] + CamelSplit(s[2..])
  {
  }

  /** A text not starting at a boundary: its first character, then the rest split. */
  lemma CamelKeptHead(s: string)
    requires |s| >= 2 && !(IsAsciiLower(s[0]) && IsAsciiUpper(s[1]))
    ensures CamelSplit(s) == [s[0]] + CamelSplit(s[1..])
  {
  }

  /** One character is left alone; two get a space between them exactly when they form a boundary. */
  lemma CamelSplitPair(x: char, y: char)
    ensures CamelSplit([x]) == [x]
    ensures CamelSplit([x, y]) == if IsAsciiLower(x) && IsAsciiUpper(y) then [x, ' ', y] else [x, y]
  {
    assert [x, y][1..] == [y];
    assert [x, y][2..] == [];
  }

  /** One space goes at the one boundary of "aBc", and none after the upper-case letter. */
  lemma CamelSplitOneBoundary()
    ensures CamelSplit("aBc") == "a Bc"
  {
    CamelSplitPair('a', 'B');
    CamelSplitPair('c', 'c');
    CamelSplitAppend("aB", "c");
    assert "aB" + "c" == "aBc";
  }

  /** A dashed segment becomes capitalised words. */
  lemma DashedSegment()
    ensures FormatBreadcrumb("edit-item") == "Edit Item"
  {
    SpacedEditItem();
    NoCamelInEditItem();
    CamelSplitNoBoundary("edit item");
    CapitalizeEditItem();
  }

  /** The replacement step of `DashedSegment`. */
  lemma SpacedEditItem()
    ensures DashesToSpaces("edit-item") == "edit item"
  {
    DashesReplacedPointwise("edit-item", "edit item");
  }

  /** Any text that agrees with the replacement character by character is its result. */
  lemma DashesReplacedPointwise(s: string, t: string)
    requires |s| == |t|
    requires forall i :: 0 <= i < |s| ==> t[i] == (if s[i] == '-' || s[i] == '_' then ' ' else s[i])
    ensures DashesToSpaces(s) == t
  {
    var r := DashesToSpaces(s);
    assert forall i :: 0 <= i < |s| ==> r[i] == t[i];
  }

  /** "edit item" has no lower-to-upper boundary. */
  lemma NoCamelInEditItem()
    ensures forall i :: !CamelAt("edit item", i)
  {
    var s := "edit item";
    forall i | 0 <= i < |s|
      ensures !IsAsciiUpper(s[i])
    {
    }
  }

  /** The capitalisation step of `DashedSegment`. */
  lemma CapitalizeEditItem()
    ensures Capitalize("edit item") == "Edit Item"
  {
    var s := "edit item";
    forall i | 0 <= i < |s|
      ensures WordStart(s, i) <==> i == 0 || i == 5
    {
    }
    CapitalizedPointwise(s, "Edit Item");
  }

  /** Any text that agrees with the capitalisation character by character is its result. */
  lemma CapitalizedPointwise(s: string, t: string)
    requires |s| == |t|
    requires forall i :: 0 <= i < |s| ==> t[i] == (if WordStart(s, i) then UpperChar(s[i]) else s[i])
    ensures Capitalize(s) == t
  {
    var r := Capitalize(s);
    assert forall i :: 0 <= i < |s| ==> r[i] == t[i];
  }

  /**
   * `\w` knows only ASCII, so a letter that follows a Vietnamese letter
   * counts as a word start and is capitalised.
   */
  lemma AccentedSegment()
    ensures FormatBreadcrumb("\U{111}\U{1A1}n") == "\U{111}\U{1A1}N"
  {
    assert DashesToSpaces("\U{111}\U{1A1}n") == "\U{111}\U{1A1}n";
    assert CamelSplit("\U{111}\U{1A1}n") == "\U{111}\U{1A1}n";
    assert WordStart("\U{111}\U{1A1}n", 2);
  }

  /** The non-empty parts of a path: `pathname.split('/').filter(Boolean)`. */
  function Segments(pathname: string): (segs: seq<string>)
    ensures forall i :: 0 <= i < |segs| ==> segs[i] != "" && '/' !in segs[i]
  {
    NonEmpty(Split(pathname, '/'))
  }

  /** `parts.filter(Boolean)` for strings. */
  function NonEmpty(parts: seq<string>): (r: seq<string>)
    ensures forall i :: 0 <= i < |r| ==> r[i] != "" && r[i] in parts
    ensures (forall i :: 0 <= i < |parts| ==> parts[i] != "") ==> r == parts
  {
    if parts == [] then []
    else
      var rest := NonEmpty(parts[1..]);
      assert forall i :: 0 <= i < |rest| ==> rest[i] in parts;
      if parts[0] == "" then rest
      else
        assert (forall i :: 0 <= i < |parts| ==> parts[i] != "") ==> rest == parts[1..];
        [parts[0]] + rest
  }

  /** A path built from non-empty segments without slashes gives those segments back. */
  lemma SegmentsOfJoinedPath(segs: seq<string>)
    requires forall i :: 0 <= i < |segs| ==> segs[i] != "" && '/' !in segs[i]
    ensures Segments("/" + Join(segs, '/')) == segs
  {
    if segs == [] {
      RootHasNoSegments();
    } else {
      SegmentsAfterRoot(segs);
    }
  }

  /** The root path "/" has no segments. */
  lemma RootHasNoSegments()
    ensures Segments("/" + Join([], '/')) == []
  {
    assert "/" + Join([], '/') == "/";
    assert IndexOf("/", '/') == 0;
    assert Split("/", '/') == ["", ""] by {
      assert "/"[1..] == "";
      assert Split("", '/') == [""];
    }
    assert NonEmpty(["", ""]) == [];
  }

  /** Below the root, the split gives an empty first part and then the segments, and the filter drops only that part. */
  lemma SegmentsAfterRoot(segs: seq<string>)
    requires segs != []
    requires forall i :: 0 <= i < |segs| ==> segs[i] != "" && '/' !in segs[i]
    ensures Segments("/" + Join(segs, '/')) == segs
  {
    RootPathSplit(segs);
    NonEmptyDropsLeadingEmpty(segs);
  }

  /** Splitting a path below the root gives an empty first part, then the segments. */
  lemma RootPathSplit(segs: seq<string>)
    requires segs != []
    requires forall i :: 0 <= i < |segs| ==> '/' !in segs[i]
    ensures Split("/" + Join(segs, '/'), '/') == [""] + segs
  {
    var parts := [""] + segs;
    assert parts[1..] == segs;
    assert Join(parts, '/') == "/" + Join(segs, '/');
    SplitJoin(parts, '/');
  }

  /** The filter drops a leading empty part and keeps non-empty parts as they are. */
  lemma NonEmptyDropsLeadingEmpty(segs: seq<string>)
    requires forall i :: 0 <= i < |segs| ==> segs[i] != ""
    ensures NonEmpty([""] + segs) == segs
  {
    assert ([""] + segs)[1..] == segs;
  }

  /** `filter(Boolean)` distributes over concatenation. */
  lemma {:induction false} NonEmptyAppend(a: seq<string>, b: seq<string>)
    ensures NonEmpty(a + b) == NonEmpty(a) + NonEmpty(b)
  {
    if a == [] {
      assert a + b == b;
    } else {
      assert (a + b)[1..] == a[1..] + b;
      NonEmptyAppend(a[1..], b);
    }
  }

  /** One part is kept exactly when it is non-empty. */
  lemma NonEmptyOne(p: string)
    ensures NonEmpty([p]) == if p == "" then [] else [p]
  {
    assert [p][1..] == [];
  }

  /** A doubled or trailing slash adds no segment: "a//b/" has the segments "a" and "b". */
  lemma DoubledSlashesDropped()
    ensures NonEmpty(["a", "", "b", ""]) == ["a", "b"]
  {
    var p := ["a", "", "b", ""];
    assert p[1..] == ["", "b", ""];
    assert p[1..][1..] == ["b", ""];
    assert p[1..][1..][1..] == [""];
    assert NonEmpty([""]) == [];
  }


  /** The breadcrumb titles: "Admin", then each path segment after the first, formatted. */
  function Breadcrumbs(pathname: string): (titles: seq<string>)
    ensures |titles| == 1 + (if |Segments(pathname)| > 0 then |Segments(pathname)| - 1 else 0)
    ensures titles[0] == "Admin"
    ensures forall i :: 1 <= i < |titles| ==> titles[i] == FormatBreadcrumb(Segments(pathname)[i])
  {
    var segs := Segments(pathname);
    var rest := if |segs| > 0 then segs[1..] else [];
    ["Admin"] + seq(|rest|, i requires 0 <= i < |rest| => FormatBreadcrumb(rest[i]))
  }

  /** What the admin layout shows when it mounts. */
  datatype AdminView =
    | Crashed            // `JSON.parse` in the state initialiser threw during render
    | RedirectToLogin    // no stored user: replace the location with the login page
    | Shown(user: User)

  /**
   * The mount of the admin layout. The stored user is parsed while rendering,
   * before the guard effect can run, so unreadable text never reaches the
   * guard's own `catch`. Any stored user passes: the role is not checked.
   */
  function AdminMount(stored: Slot<User>): (v: AdminView)
    ensures stored.Corrupt? <==> v.Crashed?
    ensures stored.Absent? <==> v.RedirectToLogin?
    ensures v.Shown? ==> stored == Present(v.user)
  {
    match stored
      case Corrupt => Crashed
      case Absent => RedirectToLogin
      case Present(u) => Shown(u)
  }

  /** A signed-in customer who is not an administrator still gets the admin layout. */
  lemma GuardIgnoresRole(u: User)
    requires !IsAdmin(u)
    ensures AdminMount(Present(u)) == Shown(u)
  {
  }

  /** The admin logout item: both keys removed and a full page load of the login page. */
  function AdminLogout(s: Store): (r: (Store, string))
    ensures r.0.user == Absent && r.0.token == None && r.0.remembered == s.remembered
    ensures r.1 == "/auth/login"
  {
    (ClearSession(s), "/auth/login")
  }
}
