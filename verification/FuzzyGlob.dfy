/** Patterns with `**` (internal/filter/matchers.go): the parts around `**` are
    matched separately, the middle ones by a greedy left-to-right search. */
module FuzzyGlob {
  import opened Glob

  /** The answer of a match; slicing past the end of the string panics in Go. */
  datatype Answer = Answer(matched: bool) | SliceOutOfRange

  // -------------------------------------------------------------------------
  // The operations.
  // -------------------------------------------------------------------------

  function WithTrailingStar(p: string): string {
    if p != [] && p[|p| - 1] == '*' then p else p + "*"
  }

  function WithLeadingStar(p: string): string {
    if p != [] && p[0] == '*' then p else "*" + p
  }

  /** The first window of `part`'s length, at `i` or later, that `part` matches. */
  function WindowFrom(str: string, part: string, i: nat): int
    decreases |str| - i
  {
    if i + |part| > |str| then -1
    else if SimpleGlob(part, str[i..i + |part|]) then i
    else WindowFrom(str, part, i + 1)
  }

  function IndexOfGlob(str: string, part: string): int {
    var i := WindowFrom(str, part, 0);
    if i >= 0 then i else if SimpleGlob(part, str) then 0 else -1
  }

  function MiddleParts(parts: seq<string>): seq<string> {
    if |parts| < 2 then [] else parts[1..|parts| - 1]
  }

  function SearchMiddle(middle: seq<string>, str: string, pos: nat): Answer {
    if middle == [] then Answer(true)
    else if middle[0] == "" then SearchMiddle(middle[1..], str, pos)
    else if pos > |str| then SliceOutOfRange
    else
      var idx := IndexOfGlob(str[pos..], middle[0]);
      if idx < 0 then Answer(false) else SearchMiddle(middle[1..], str, pos + idx + |middle[0]|)
  }

  function FuzzyPath(parts: seq<string>, str: string): Answer {
    if parts == [] then Answer(true)
    else if parts[0] != "" && !SimpleGlob(WithTrailingStar(parts[0]), str) then Answer(false)
    else
      var last := parts[|parts| - 1];
      if last != "" && !SimpleGlob(WithLeadingStar(last), str) then Answer(false)
      else SearchMiddle(MiddleParts(parts), str, 0)
  }

  /** `strings.Split(p, "**")`: cut at the leftmost non-overlapping `**`. */
  function Split(p: string): (parts: seq<string>)
    ensures parts != [] && Join(parts) == p
  {
    if |p| < 2 then [p]
    else if p[..2] == "**" then
      assert p == "**" + p[2..];
      [""] + Split(p[2..])
    else
      var rest := Split(p[1..]);
      var parts := [[p[0]] + rest[0]] + rest[1..];
      assert parts[1..] == rest[1..];
      assert p == [p[0]] + p[1..];
      parts
  }

  function Join(parts: seq<string>): string
    requires parts != []
  {
    if |parts| == 1 then parts[0] else parts[0] + ("**" + Join(parts[1..]))
  }

  function GlobMatch(pattern: string, str: string): Answer {
    var parts := Split(pattern);
    if |parts| == 1 then Answer(SimpleGlob(pattern, str)) else FuzzyPath(parts, str)
  }

  method IndexOfGlobPattern(str: string, pattern: string) returns (idx: int)
    ensures idx == IndexOfGlob(str, pattern)
  {
    var i := 0;
    while i <= |str| - |pattern|
      invariant 0 <= i && WindowFrom(str, pattern, i) == WindowFrom(str, pattern, 0)
    {
      var hit, _ := SimpleGlobMatch(pattern, str[i..i + |pattern|]);
      if hit { return i; }
      i := i + 1;
    }
    var whole, _ := SimpleGlobMatch(pattern, str);
    return if whole then 0 else -1;
  }

  method FuzzyPathMatch(parts: seq<string>, str: string) returns (answer: Answer)
    ensures answer == FuzzyPath(parts, str)
  {
    if |parts| == 0 { return Answer(true); }
    if parts[0] != "" {
      var prefix, _ := SimpleGlobMatch(WithTrailingStar(parts[0]), str);
      if !prefix { return Answer(false); }
    }
    var lastPart := parts[|parts| - 1];
    if lastPart != "" {
      var suffix, _ := SimpleGlobMatch(WithLeadingStar(lastPart), str);
      if !suffix { return Answer(false); }
    }
    ghost var middle := MiddleParts(parts);
    var currentPos := 0;
    var i := 1;
    while i < |parts| - 1
      invariant 1 <= i && (i <= |parts| - 1 || |parts| == 1)
      invariant |middle| == if |parts| == 1 then 0 else |parts| - 1 - i
      invariant |parts| > 1 ==> middle == parts[i..|parts| - 1]
      invariant 0 <= currentPos
      invariant SearchMiddle(middle, str, currentPos) == SearchMiddle(MiddleParts(parts), str, 0)
    {
      var part := parts[i];
      i := i + 1;
      middle := middle[1..];
      if part == "" { continue; }
      if currentPos > |str| { return SliceOutOfRange; }
      var idx := IndexOfGlobPattern(str[currentPos..], part);
      if idx < 0 { return Answer(false); }
      currentPos := currentPos + idx + |part|;
    }
    return Answer(true);
  }

  // -------------------------------------------------------------------------
  // Splitting a match at a boundary of the pattern.
  // -------------------------------------------------------------------------

  lemma {:induction false} MatchesJoin(a: string, b: string, s: string, k: nat)
    requires k <= |s| && Matches(a, s[..k]) && Matches(b, s[k..])
    ensures Matches(a + b, s)
    decreases |a| + |s|
  {
    if a == [] {
      assert a + b == b && s[0..] == s;
    } else {
      assert (a + b)[0] == a[0] && (a + b)[1..] == a[1..] + b;
      if a[0] == '*' && Matches(a[1..], s[..k]) {
        MatchesJoin(a[1..], b, s, k);
      } else {
        assert s[..k][1..] == s[1..][..k - 1] && s[1..][k - 1..] == s[k..];
        MatchesJoin(if a[0] == '*' then a else a[1..], b, s[1..], k - 1);
      }
    }
  }

  lemma {:induction false} MatchesSplit(a: string, b: string, s: string) returns (k: nat)
    requires Matches(a + b, s)
    ensures k <= |s| && Matches(a, s[..k]) && Matches(b, s[k..])
    decreases |a| + |s|
  {
    if a == [] {
      assert a + b == b && s[0..] == s;
      k := 0;
    } else {
      assert (a + b)[0] == a[0] && (a + b)[1..] == a[1..] + b;
      if a[0] == '*' && Matches(a[1..] + b, s) {
        k := MatchesSplit(a[1..], b, s);
      } else {
        var j := MatchesSplit(if a[0] == '*' then a else a[1..], b, s[1..]);
        k := j + 1;
        assert s[..k][1..] == s[1..][..j] && s[1..][j..] == s[k..];
      }
    }
  }

  lemma {:induction false} MatchesConcat(a: string, b: string, s: string)
    ensures Matches(a + b, s) <==> exists k :: 0 <= k <= |s| && Matches(a, s[..k]) && Matches(b, s[k..])
  {
    if Matches(a + b, s) {
      var k := MatchesSplit(a, b, s);
    }
    if k :| 0 <= k <= |s| && Matches(a, s[..k]) && Matches(b, s[k..]) { MatchesJoin(a, b, s, k); }
  }

  lemma PrefixMeaning(p: string, s: string)
    ensures Matches(WithTrailingStar(p), s) <==> exists k :: 0 <= k <= |s| && Matches(p, s[..k])
  {
    if p != [] && p[|p| - 1] == '*' {
      var q := p[..|p| - 1];
      assert p == q + "*" && s[..|s|] == s;
      if k :| 0 <= k <= |s| && Matches(p, s[..k]) {
        MatchesConcat(q, "*", s[..k]);
        var j :| 0 <= j <= k && Matches(q, s[..k][..j]);
        assert s[..k][..j] == s[..j];
        StarMatchesAll(s[j..]);
        MatchesConcat(q, "*", s);
      }
    } else {
      MatchesConcat(p, "*", s);
      if k :| 0 <= k <= |s| && Matches(p, s[..k]) { StarMatchesAll(s[k..]); }
    }
  }

  lemma SuffixMeaning(p: string, s: string)
    ensures Matches(WithLeadingStar(p), s) <==> exists k :: 0 <= k <= |s| && Matches(p, s[k..])
  {
    if p != [] && p[0] == '*' {
      assert s[0..] == s;
      if k :| 0 <= k <= |s| && Matches(p, s[k..]) { StarAbsorbs(p, s, k); }
    } else {
      assert ("*" + p)[1..] == p;
      StarIsAnyString("*" + p, s);
    }
  }

  // -------------------------------------------------------------------------
  // The greedy search finds a placement whenever there is one.
  // -------------------------------------------------------------------------

  ghost predicate StarFree(parts: seq<string>) {
    forall part :: part in parts ==> '*' !in part
  }

  ghost predicate Fits(part: string, s: string, i: nat) {
    i + |part| <= |s| && Matches(part, s[i..i + |part|])
  }

  /** `at` places the parts in order, without overlap, from `from` on. */
  ghost predicate Placed(parts: seq<string>, s: string, at: seq<nat>, from: nat) {
    |at| == |parts| &&
    (parts != [] ==>
       && from <= at[0] && Fits(parts[0], s, at[0])
       && Placed(parts[1..], s, at[1..], at[0] + |parts[0]|))
  }

  ghost predicate Placeable(parts: seq<string>, s: string, from: nat) {
    exists at :: Placed(parts, s, at, from)
  }

  /** A placement in closed form: every part fits where it is put, and each one
      starts no earlier than the one before it ends. */
  lemma {:induction false} PlacedPointwise(parts: seq<string>, s: string, at: seq<nat>, from: nat)
    requires |at| == |parts|
    ensures Placed(parts, s, at, from) <==>
              && (forall j :: 0 <= j < |at| ==> Fits(parts[j], s, at[j]))
              && (at != [] ==> from <= at[0])
              && (forall j :: 0 < j < |at| ==> at[j - 1] + |parts[j - 1]| <= at[j])
  {
    if parts != [] {
      var ps, ks := parts[1..], at[1..];
      PlacedPointwise(ps, s, ks, at[0] + |parts[0]|);
      if Placed(parts, s, at, from) {
        forall j | 0 <= j < |at| ensures Fits(parts[j], s, at[j]) {
          if j > 0 { assert Fits(ps[j - 1], s, ks[j - 1]); }
        }
        forall j | 0 < j < |at| ensures at[j - 1] + |parts[j - 1]| <= at[j] {
          if j > 1 { assert ks[j - 2] + |ps[j - 2]| <= ks[j - 1]; }
        }
      }
      if && (forall j :: 0 <= j < |at| ==> Fits(parts[j], s, at[j]))
         && from <= at[0]
         && (forall j :: 0 < j < |at| ==> at[j - 1] + |parts[j - 1]| <= at[j]) {
        forall j | 0 <= j < |ks| ensures Fits(ps[j], s, ks[j]) { assert Fits(parts[j + 1], s, at[j + 1]); }
        forall j | 0 < j < |ks| ensures ks[j - 1] + |ps[j - 1]| <= ks[j] {
          assert at[j] + |parts[j]| <= at[j + 1];
        }
      }
    }
  }

  lemma PlaceableCons(parts: seq<string>, s: string, from: nat, i: nat)
    requires parts != [] && from <= i && Fits(parts[0], s, i)
    requires Placeable(parts[1..], s, i + |parts[0]|)
    ensures Placeable(parts, s, from)
  {
    var at :| Placed(parts[1..], s, at, i + |parts[0]|);
    assert ([i] + at)[1..] == at;
    assert Placed(parts, s, [i] + at, from);
  }

  lemma PlaceableUncons(parts: seq<string>, s: string, from: nat) returns (i: nat)
    requires parts != [] && Placeable(parts, s, from)
    ensures from <= i && Fits(parts[0], s, i)
    ensures Placeable(parts[1..], s, i + |parts[0]|)
  {
    var at :| Placed(parts, s, at, from);
    i := at[0];
    assert Placed(parts[1..], s, at[1..], i + |parts[0]|);
  }

  lemma PlaceableEarlier(parts: seq<string>, s: string, from: nat, from': nat)
    requires Placeable(parts, s, from) && from' <= from
    ensures Placeable(parts, s, from')
  {
    var at :| Placed(parts, s, at, from);
    assert Placed(parts, s, at, from');
  }

  predicate Hit(str: string, part: string, i: nat) {
    i + |part| <= |str| && SimpleGlob(part, str[i..i + |part|])
  }

  lemma {:induction false} WindowFromIsFirst(str: string, part: string, i: nat)
    ensures var w := WindowFrom(str, part, i);
            && (w >= 0 ==> i <= w && Hit(str, part, w))
            && (w < 0 ==> w == -1)
            && (forall j: nat :: i <= j && (w < 0 || j < w) ==> !Hit(str, part, j))
    decreases |str| - i
  {
    if i + |part| <= |str| && !SimpleGlob(part, str[i..i + |part|]) { WindowFromIsFirst(str, part, i + 1); }
  }

  /** For a star-free part the whole-string fallback finds nothing new. */
  lemma IndexOfStarFree(str: string, part: string)
    requires '*' !in part
    ensures IndexOfGlob(str, part) == WindowFrom(str, part, 0)
  {
    WindowFromIsFirst(str, part, 0);
    if SimpleGlob(part, str) {
      ScanIsExact(part, str);
      LiteralLength(part, str);
      assert str[0..0 + |part|] == str;
      assert Hit(str, part, 0);
    }
  }

  lemma {:induction false} GreedySearch(middle: seq<string>, s: string, pos: nat)
    requires StarFree(middle) && pos <= |s|
    ensures SearchMiddle(middle, s, pos).Answer?
    ensures SearchMiddle(middle, s, pos).matched <==> Placeable(middle, s, pos)
  {
    if middle == [] {
      assert Placed(middle, s, [], pos);
    } else {
      var part, rest := middle[0], middle[1..];
      assert StarFree(rest);
      var idx := if part == "" then 0 else WindowFrom(s[pos..], part, 0);
      if part != "" {
        IndexOfStarFree(s[pos..], part);
        WindowFromIsFirst(s[pos..], part, 0);
      }
      if Placeable(middle, s, pos) {
        var i := PlaceableUncons(middle, s, pos);
        if part != "" { HitIsFit(s, part, pos, i - pos); }
        assert 0 <= idx <= i - pos;
        PlaceableEarlier(rest, s, i + |part|, pos + idx + |part|);
      }
      if idx >= 0 {
        if part != "" { HitIsFit(s, part, pos, idx); }
        GreedySearch(rest, s, pos + idx + |part|);
        if Placeable(rest, s, pos + idx + |part|) { PlaceableCons(middle, s, pos, pos + idx); }
      }
    }
  }

  lemma HitIsFit(s: string, part: string, pos: nat, i: nat)
    requires pos <= |s| && '*' !in part
    ensures Hit(s[pos..], part, i) <==> Fits(part, s, pos + i)
  {
    if pos + i + |part| <= |s| {
      assert s[pos..][i..i + |part|] == s[pos + i..pos + i + |part|];
      ScanIsExact(part, s[pos + i..pos + i + |part|]);
    }
  }

  // -------------------------------------------------------------------------
  // What `fuzzyPathMatch` and `globMatch` decide.
  // -------------------------------------------------------------------------

  ghost predicate SomePrefix(p: string, s: string) {
    exists k :: 0 <= k <= |s| && Matches(p, s[..k])
  }

  ghost predicate SomeSuffix(p: string, s: string) {
    exists k :: 0 <= k <= |s| && Matches(p, s[k..])
  }

  /** With star-free middle parts and a star-free string the match never slices
      out of range, and it holds iff the first part matches a prefix, the last a
      suffix, and the middle parts can be placed in order without overlap. */
  lemma FuzzyPathMeaning(parts: seq<string>, s: string)
    requires parts != [] && StarFree(MiddleParts(parts)) && '*' !in s
    ensures FuzzyPath(parts, s).Answer?
    ensures FuzzyPath(parts, s).matched <==>
              && SomePrefix(parts[0], s)
              && SomeSuffix(parts[|parts| - 1], s)
              && Placeable(MiddleParts(parts), s, 0)
  {
    var last := parts[|parts| - 1];
    ScanIsExact(WithTrailingStar(parts[0]), s);
    PrefixMeaning(parts[0], s);
    ScanIsExact(WithLeadingStar(last), s);
    SuffixMeaning(last, s);
    GreedySearch(MiddleParts(parts), s, 0);
    assert s[..0] == "" && s[|s|..] == "";
    assert Matches("", s[..0]) && Matches("", s[|s|..]);
  }

  /** Two stars stand for any string, too. */
  lemma DoubleStar(rest: string, s: string, from: nat) returns (start: nat)
    requires from <= |s| && Matches("**" + rest, s[from..])
    ensures from <= start <= |s| && Matches(rest, s[start..])
  {
    assert ("**" + rest)[1..] == "*" + rest && ("*" + rest)[1..] == rest;
    StarIsAnyString("**" + rest, s[from..]);
    var i :| 0 <= i <= |s[from..]| && Matches("*" + rest, s[from..][i..]);
    assert s[from..][i..] == s[from + i..];
    StarIsAnyString("*" + rest, s[from + i..]);
    var j :| 0 <= j <= |s[from + i..]| && Matches(rest, s[from + i..][j..]);
    assert s[from + i..][j..] == s[from + i + j..];
    start := from + i + j;
  }

  /** A match of `**` + the joined parts places all but the last part in order. */
  lemma {:induction false} JoinPlaces(parts: seq<string>, s: string, from: nat)
    requires parts != [] && StarFree(parts[..|parts| - 1]) && from <= |s|
    requires Matches("**" + Join(parts), s[from..])
    ensures Placeable(parts[..|parts| - 1], s, from)
    ensures SomeSuffix(parts[|parts| - 1], s)
  {
    var start := DoubleStar(Join(parts), s, from);
    var all := parts[..|parts| - 1];
    if |parts| == 1 {
      assert Placed(all, s, [], from);
    } else {
      var part, rest := parts[0], parts[1..];
      assert all[0] == part && all[1..] == rest[..|rest| - 1];
      SplitStarFree(part, "**" + Join(rest), s, start);
      JoinPlaces(rest, s, start + |part|);
      PlaceableCons(all, s, from, start);
    }
  }

  lemma SplitStarFree(part: string, q: string, s: string, start: nat)
    requires '*' !in part && start <= |s| && Matches(part + q, s[start..])
    ensures Fits(part, s, start) && Matches(q, s[start + |part|..])
  {
    var t := s[start..];
    MatchesConcat(part, q, t);
    var k :| 0 <= k <= |t| && Matches(part, t[..k]) && Matches(q, t[k..]);
    LiteralLength(part, t[..k]);
    assert t[..k] == s[start..start + k] && t[k..] == s[start + k..];
  }

  lemma {:induction false} JoinAccepted(parts: seq<string>, s: string)
    requires |parts| > 1 && StarFree(MiddleParts(parts)) && '*' !in s
    requires Matches(Join(parts), s)
    ensures FuzzyPath(parts, s) == Answer(true)
  {
    var rest := parts[1..];
    MatchesConcat(parts[0], "**" + Join(rest), s);
    var k :| 0 <= k <= |s| && Matches(parts[0], s[..k]) && Matches("**" + Join(rest), s[k..]);
    assert SomePrefix(parts[0], s);
    assert rest[..|rest| - 1] == MiddleParts(parts);
    JoinPlaces(rest, s, k);
    PlaceableEarlier(MiddleParts(parts), s, k, 0);
    FuzzyPathMeaning(parts, s);
  }

  /** Every string that the pattern means (`**` standing for any string) is
      accepted, provided the parts between two `**` hold no single star. */
  lemma {:induction false} GlobAcceptsMeaning(pattern: string, s: string)
    requires StarFree(MiddleParts(Split(pattern))) && '*' !in s
    requires Matches(pattern, s)
    ensures GlobMatch(pattern, s) == Answer(true)
  {
    if |Split(pattern)| == 1 { ScanIsExact(pattern, s); } else { JoinAccepted(Split(pattern), s); }
  }

  /** The converse fails: prefix and suffix may overlap. */
  lemma {:induction false} OverlapIsAccepted()
    ensures Split("ab**bc") == ["ab", "bc"]
    ensures GlobMatch("ab**bc", "abc") == Answer(true) && !Matches("ab**bc", "abc")
  {
    SplitTwo("ab**bc", "ab", "bc");
    var s := "abc";
    FuzzyPathMeaning(["ab", "bc"], s);
    MatchesItself("ab");
    MatchesItself("bc");
    assert s[..2] == "ab" && s[1..] == "bc";
    assert Placed([], s, [], 0);
    if Matches("ab**bc", s) {
      assert s[0..] == s && "ab**bc" == "ab" + ("**" + "bc");
      SplitStarFree("ab", "**" + "bc", s, 0);
      var start := DoubleStar("bc", s, 2);
      LiteralLength("bc", s[start..]);
    }
  }

  /** No two stars next to each other, and none at the end. */
  predicate Solid(w: string) {
    forall i :: 0 <= i < |w| && w[i] == '*' ==> i + 1 < |w| && w[i + 1] != '*'
  }

  lemma {:induction false} SplitWord(w: string, rest: string)
    requires Solid(w)
    ensures Split(w + ("**" + rest)) == [w] + Split(rest)
  {
    var p := w + ("**" + rest);
    if w == "" {
      assert p[..2] == "**" && p[2..] == rest;
    } else {
      SplitWord(w[1..], rest);
      assert p[1..] == w[1..] + ("**" + rest) && p[..2] != "**" by { assert p[..2] == [p[0], p[1]]; }
      assert [w[0]] + w[1..] == w;
    }
  }

  lemma {:induction false} SplitSolid(w: string)
    requires Solid(w)
    ensures Split(w) == [w]
  {
    if |w| >= 2 {
      SplitSolid(w[1..]);
      assert w[..2] == [w[0], w[1]] && w == [w[0]] + w[1..];
    }
  }

  lemma SplitTwo(p: string, a: string, b: string)
    requires Solid(a) && Solid(b) && p == a + ("**" + b)
    ensures Split(p) == [a, b]
  {
    SplitWord(a, b);
    SplitSolid(b);
  }

  // -------------------------------------------------------------------------
  // The search for a part that may hold stars.
  // -------------------------------------------------------------------------

  ghost predicate SomeWindow(part: string, str: string) {
    exists i: nat :: Fits(part, str, i)
  }

  /** On a star-free string the search finds the first window of the part's length that the
      part matches; without one it finds 0 when the part matches the whole string, and
      nothing otherwise. */
  lemma IndexMeaning(str: string, part: string)
    requires '*' !in str
    ensures var idx := IndexOfGlob(str, part);
            && (idx >= 0 <==> SomeWindow(part, str) || Matches(part, str))
            && (SomeWindow(part, str) ==> Fits(part, str, idx) && forall j: nat :: j < idx ==> !Fits(part, str, j))
            && (!SomeWindow(part, str) && Matches(part, str) ==> idx == 0)
  {
    WindowFromIsFirst(str, part, 0);
    ScanIsExact(part, str);
    forall i: nat ensures Hit(str, part, i) <==> Fits(part, str, i) {
      if i + |part| <= |str| { ScanIsExact(part, str[i..i + |part|]); }
    }
  }

  /** Where a part is found from the cursor on: in the first window it matches, or at the
      cursor if there is none and it matches all that is left. */
  ghost predicate FoundAt(part: string, s: string, pos: nat, at: nat) {
    && pos <= |s| && pos <= at
    && if exists i: nat :: pos <= i && Fits(part, s, i)
       then Fits(part, s, at) && forall j: nat :: pos <= j < at ==> !Fits(part, s, j)
       else at == pos && Matches(part, s[pos..])
  }

  /** The parts are found one after the other; empty ones are passed over. */
  ghost predicate FoundInTurn(parts: seq<string>, s: string, at: seq<nat>, pos: nat) {
    |at| == |parts| &&
    (parts != [] ==>
       if parts[0] == "" then FoundInTurn(parts[1..], s, at[1..], pos)
       else FoundAt(parts[0], s, pos, at[0]) && FoundInTurn(parts[1..], s, at[1..], at[0] + |parts[0]|))
  }

  lemma FitsShifted(part: string, s: string, pos: nat, i: nat)
    requires pos <= |s|
    ensures Fits(part, s[pos..], i) <==> Fits(part, s, pos + i)
  {
    if pos + i + |part| <= |s| { assert s[pos..][i..i + |part|] == s[pos + i..pos + i + |part|]; }
  }

  ghost predicate CanBeFound(parts: seq<string>, s: string, pos: nat) {
    exists at: seq<nat> :: FoundInTurn(parts, s, at, pos)
  }

  /** The index, seen from the whole string. */
  lemma IndexIsFound(part: string, s: string, pos: nat, at: nat)
    requires '*' !in s && pos <= |s|
    ensures IndexOfGlob(s[pos..], part) >= 0 ==> FoundAt(part, s, pos, pos + IndexOfGlob(s[pos..], part))
    ensures FoundAt(part, s, pos, at) ==> at == pos + IndexOfGlob(s[pos..], part)
  {
    var t := s[pos..];
    IndexMeaning(t, part);
    forall i: nat ensures Fits(part, t, i) <==> Fits(part, s, pos + i) { FitsShifted(part, s, pos, i); }
    if exists i: nat :: pos <= i && Fits(part, s, i) {
      var i: nat :| pos <= i && Fits(part, s, i);
      assert Fits(part, t, i - pos);
      var idx := IndexOfGlob(t, part);
      forall j: nat | pos <= j < pos + idx ensures !Fits(part, s, j) { assert !Fits(part, t, j - pos); }
      if FoundAt(part, s, pos, at) { assert Fits(part, t, at - pos); }
    } else {
      assert !SomeWindow(part, t);
    }
  }

  lemma {:induction false} SearchFinds(middle: seq<string>, s: string, pos: nat) returns (at: seq<nat>)
    requires '*' !in s && SearchMiddle(middle, s, pos) == Answer(true)
    ensures FoundInTurn(middle, s, at, pos)
  {
    if middle == [] {
      at := [];
    } else if middle[0] == "" {
      at := SearchFinds(middle[1..], s, pos);
      at := [pos] + at;
    } else {
      var idx := IndexOfGlob(s[pos..], middle[0]);
      IndexIsFound(middle[0], s, pos, pos);
      at := SearchFinds(middle[1..], s, pos + idx + |middle[0]|);
      assert ([pos + idx] + at)[1..] == at;
      at := [pos + idx] + at;
    }
  }

  lemma {:induction false} FoundIsAccepted(middle: seq<string>, s: string, at: seq<nat>, pos: nat)
    requires '*' !in s && FoundInTurn(middle, s, at, pos)
    ensures SearchMiddle(middle, s, pos) == Answer(true)
  {
    if middle != [] {
      if middle[0] == "" {
        FoundIsAccepted(middle[1..], s, at[1..], pos);
      } else {
        IndexIsFound(middle[0], s, pos, at[0]);
        FoundIsAccepted(middle[1..], s, at[1..], at[0] + |middle[0]|);
      }
    }
  }

  /** Whatever stars the middle parts hold: on a star-free string the search succeeds iff the
      parts are found one after the other. */
  lemma SearchMeaning(middle: seq<string>, s: string, pos: nat)
    requires '*' !in s
    ensures SearchMiddle(middle, s, pos) == Answer(true) <==> CanBeFound(middle, s, pos)
  {
    if SearchMiddle(middle, s, pos) == Answer(true) { var at := SearchFinds(middle, s, pos); }
    if CanBeFound(middle, s, pos) {
      var at: seq<nat> :| FoundInTurn(middle, s, at, pos);
      FoundIsAccepted(middle, s, at, pos);
    }
  }

  /** What is accepted on a star-free string, whatever stars the pattern holds. */
  lemma FuzzyPathAccepts(parts: seq<string>, s: string)
    requires '*' !in s
    ensures FuzzyPath(parts, s) == Answer(true) <==>
              parts == [] || (&& SomePrefix(parts[0], s)
                              && SomeSuffix(parts[|parts| - 1], s)
                              && CanBeFound(MiddleParts(parts), s, 0))
  {
    if parts == [] { return; }
    var last := parts[|parts| - 1];
    ScanIsExact(WithTrailingStar(parts[0]), s);
    PrefixMeaning(parts[0], s);
    ScanIsExact(WithLeadingStar(last), s);
    SuffixMeaning(last, s);
    SearchMeaning(MiddleParts(parts), s, 0);
    assert s[..0] == "" && s[|s|..] == "";
    assert Matches("", s[..0]) && Matches("", s[|s|..]);
  }

  /** So a pattern with one part between two `**`, stars or not, accepts a star-free string
      iff the part matches some window of its own length, or all of the string. */
  lemma OneMiddlePart(part: string, s: string)
    requires part != "" && '*' !in s
    ensures FuzzyPath(["", part, ""], s) == Answer(SomeWindow(part, s) || Matches(part, s))
    ensures Solid(part) ==> GlobMatch("**" + (part + "**"), s) == Answer(SomeWindow(part, s) || Matches(part, s))
  {
    var parts := ["", part, ""];
    assert MiddleParts(parts) == [part] && [part][1..] == [];
    assert s[0..] == s;
    IndexMeaning(s, part);
    assert FuzzyPath(parts, s) == SearchMiddle([part], s, 0);
    assert forall pos: nat :: SearchMiddle([], s, pos) == Answer(true);
    assert SearchMiddle([part], s, 0) == Answer(IndexOfGlob(s, part) >= 0);
    if Solid(part) {
      SplitWord(part, "");
      assert part + ("**" + "") == part + "**";
      SplitWord("", part + "**");
      assert "" + ("**" + (part + "**")) == "**" + (part + "**");
      assert Split("**" + (part + "**")) == parts;
    }
  }

  // -------------------------------------------------------------------------
  // Exactly when the cursor stays inside the string.
  // -------------------------------------------------------------------------

  function WithoutStars(p: string): string {
    if p == [] then [] else if p[0] == '*' then WithoutStars(p[1..]) else [p[0]] + WithoutStars(p[1..])
  }

  lemma {:induction false} StarsMayBeEmpty(p: string)
    ensures '*' !in WithoutStars(p) && Matches(p, WithoutStars(p)) && |WithoutStars(p)| <= |p|
    ensures '*' in p ==> |WithoutStars(p)| < |p|
  {
    if p != [] {
      StarsMayBeEmpty(p[1..]);
      assert p == [p[0]] + p[1..];
      var w := WithoutStars(p);
      if p[0] != '*' { assert w[1..] == WithoutStars(p[1..]); }
    }
  }

  /** A found part ends inside every string iff it holds no star. */
  lemma IndexStaysInside(part: string)
    ensures (forall t :: IndexOfGlob(t, part) >= 0 ==> IndexOfGlob(t, part) + |part| <= |t|) <==> '*' !in part
  {
    if '*' !in part {
      forall t ensures IndexOfGlob(t, part) >= 0 ==> IndexOfGlob(t, part) + |part| <= |t| {
        IndexOfStarFree(t, part);
        WindowFromIsFirst(t, part, 0);
      }
    } else {
      var t := WithoutStars(part);
      StarsMayBeEmpty(part);
      ScanIsExact(part, t);
      WindowFromIsFirst(t, part, 0);
      assert IndexOfGlob(t, part) == 0;
    }
  }

  /** A part that is searched for after a part with a star. */
  ghost predicate StarBeforePart(middle: seq<string>) {
    exists i, j :: 0 <= i < j < |middle| && middle[j] != "" && '*' in middle[i]
  }

  lemma {:induction false} EmptyRest(middle: seq<string>, s: string, pos: nat)
    requires forall j :: 0 <= j < |middle| ==> middle[j] == ""
    ensures SearchMiddle(middle, s, pos) == Answer(true)
  {
    if middle != [] { EmptyRest(middle[1..], s, pos); }
  }

  lemma {:induction false} SearchStaysInside(middle: seq<string>, s: string, pos: nat)
    requires !StarBeforePart(middle) && pos <= |s|
    ensures SearchMiddle(middle, s, pos).Answer?
  {
    if middle != [] {
      var part, rest := middle[0], middle[1..];
      forall i, j | 0 <= i < j < |rest| && rest[j] != "" ensures '*' !in rest[i] {
        assert middle[i + 1] == rest[i] && middle[j + 1] == rest[j];
      }
      if '*' in part {
        forall j | 0 <= j < |rest| ensures rest[j] == "" { assert middle[j + 1] == rest[j]; }
        var idx := IndexOfGlob(s[pos..], part);
        if idx >= 0 { EmptyRest(rest, s, pos + idx + |part|); }
      } else if part == "" {
        SearchStaysInside(rest, s, pos);
      } else {
        var idx := IndexOfGlob(s[pos..], part);
        IndexOfStarFree(s[pos..], part);
        WindowFromIsFirst(s[pos..], part, 0);
        if idx >= 0 { SearchStaysInside(rest, s, pos + idx + |part|); }
      }
    }
  }

  lemma {:induction false} PastTheEnd(middle: seq<string>, s: string, pos: nat)
    requires pos > |s| && exists j :: 0 <= j < |middle| && middle[j] != ""
    ensures SearchMiddle(middle, s, pos) == SliceOutOfRange
  {
    if middle[0] == "" {
      var j :| 0 <= j < |middle| && middle[j] != "";
      assert middle[1..][j - 1] == middle[j];
      PastTheEnd(middle[1..], s, pos);
    }
  }

  /** The parts before the first one with a star, then that one with its stars left out. */
  function TooShort(middle: seq<string>): string {
    if middle == [] then []
    else if '*' in middle[0] then WithoutStars(middle[0])
    else middle[0] + TooShort(middle[1..])
  }

  /** A literal part at the cursor is found there. */
  lemma FoundAtOnce(part: string, t: string)
    requires '*' !in part && |part| <= |t| && t[..|part|] == part
    ensures IndexOfGlob(t, part) == 0
  {
    MatchesItself(part);
    ScanIsExact(part, part);
    assert t[0..0 + |part|] == part;
  }

  lemma FoundTooShort(part: string)
    requires '*' in part
    ensures IndexOfGlob(WithoutStars(part), part) == 0 && |WithoutStars(part)| < |part|
  {
    StarsMayBeEmpty(part);
    ScanIsExact(part, WithoutStars(part));
  }

  lemma {:induction false} SearchLeaves(middle: seq<string>, s: string, pos: nat)
    requires StarBeforePart(middle) && pos <= |s| && s[pos..] == TooShort(middle)
    ensures SearchMiddle(middle, s, pos) == SliceOutOfRange
  {
    var i, j :| 0 <= i < j < |middle| && middle[j] != "" && '*' in middle[i];
    var part, rest := middle[0], middle[1..];
    assert rest[j - 1] == middle[j];
    if '*' in part {
      FoundTooShort(part);
      PastTheEnd(rest, s, pos + |part|);
    } else {
      assert rest[i - 1] == middle[i];
      var t := TooShort(rest);
      assert s[pos..][..|part|] == part && s[pos..][|part|..] == s[pos + |part|..] == t;
      FoundAtOnce(part, s[pos..]);
      SearchLeaves(rest, s, pos + |part|);
    }
  }

  /** Exactly when a slice can start past the end: some string panics the search iff a
      part is searched for after one that holds a star. */
  lemma NeverPanicsExactly(middle: seq<string>)
    ensures (forall s :: SearchMiddle(middle, s, 0).Answer?) <==> !StarBeforePart(middle)
  {
    if StarBeforePart(middle) {
      var s := TooShort(middle);
      assert s[0..] == s;
      SearchLeaves(middle, s, 0);
    } else {
      forall s ensures SearchMiddle(middle, s, 0).Answer? { SearchStaysInside(middle, s, 0); }
    }
  }

  /** So no such part, no panic; and for patterns that begin and end with `**` no panic
      only if no such part. */
  lemma GlobPanicsExactly(pattern: string)
    ensures var parts := Split(pattern);
            && (!StarBeforePart(MiddleParts(parts)) ==> forall s :: GlobMatch(pattern, s).Answer?)
            && (parts[0] == "" && parts[|parts| - 1] == "" && StarBeforePart(MiddleParts(parts)) ==>
                  exists s :: GlobMatch(pattern, s) == SliceOutOfRange)
  {
    var parts := Split(pattern);
    NeverPanicsExactly(MiddleParts(parts));
    forall s | !StarBeforePart(MiddleParts(parts)) ensures GlobMatch(pattern, s).Answer? {
      assert SearchMiddle(MiddleParts(parts), s, 0).Answer?;
    }
    if parts[0] == "" && parts[|parts| - 1] == "" && StarBeforePart(MiddleParts(parts)) {
      var s :| SearchMiddle(MiddleParts(parts), s, 0) == SliceOutOfRange;
      assert GlobMatch(pattern, s) == SliceOutOfRange;
    }
  }

  lemma SplitBetween(a: string, b: string)
    requires Solid(a) && Solid(b)
    ensures Split("**" + (a + ("**" + (b + "**")))) == ["", a, b, ""]
  {
    SplitWord(b, "");
    assert b + ("**" + "") == b + "**";
    SplitWord(a, b + "**");
    SplitWord("", a + ("**" + (b + "**")));
    assert "" + ("**" + (a + ("**" + (b + "**")))) == "**" + (a + ("**" + (b + "**")));
  }

  /** Every starred part with another part after it panics on its own letters. */
  lemma StarredPanics(part: string, next: string)
    requires Solid(part) && Solid(next) && '*' in part && next != ""
    ensures GlobMatch("**" + (part + ("**" + (next + "**"))), WithoutStars(part)) == SliceOutOfRange
  {
    SplitBetween(part, next);
    var middle := [part, next];
    assert MiddleParts(["", part, next, ""]) == middle;
    assert middle[1] == next && middle[0] == part;
    assert WithoutStars(part)[0..] == WithoutStars(part);
    SearchLeaves(middle, WithoutStars(part), 0);
  }

  /** Such a pattern and a string. */
  lemma StarredMiddleSlicesOutOfRange()
    ensures GlobMatch("**ab*c**d**", "abc") == SliceOutOfRange
  {
    var part := "ab*c";
    assert part[2] == '*' && part[1..] == "b*c" && part[1..][1..] == "*c" && part[1..][1..][1..] == "c";
    assert WithoutStars("*c") == WithoutStars("c") == ['c'] + "" == "c";
    assert WithoutStars("b*c") == ['b'] + "c" == "bc";
    assert WithoutStars(part) == ['a'] + "bc" == "abc";
    StarredPanics(part, "d");
    assert "**" + (part + ("**" + ("d" + "**"))) == "**ab*c**d**";
  }
}
