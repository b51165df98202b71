/** When a pattern with `**` means what the matcher decides (internal/filter/matchers.go):
    the first and the last part are only checked to be a prefix and a suffix, and the parts
    between are searched from the start of the string, so parts may share bytes. */
module GlobOverlap {
  import opened Glob
  import opened FuzzyGlob

  // -------------------------------------------------------------------------
  // Parts without stars, byte by byte.
  // -------------------------------------------------------------------------

  predicate Spells(part: string, s: string, i: nat) {
    i + |part| <= |s| && forall j :: 0 <= j < |part| ==> part[j] == '?' || part[j] == s[i + j]
  }

  lemma {:induction false} LiteralSpells(part: string, t: string)
    requires '*' !in part
    ensures Matches(part, t) <==> |t| == |part| && Spells(part, t, 0)
  {
    if part != [] && t != [] {
      LiteralSpells(part[1..], t[1..]);
      if Spells(part[1..], t[1..], 0) && (part[0] == '?' || part[0] == t[0]) {
        forall j | 0 <= j < |part| ensures part[j] == '?' || part[j] == t[0 + j] {
          if j > 0 { assert part[1..][j - 1] == part[j] && t[1..][j - 1] == t[j]; }
        }
      }
      if Spells(part, t, 0) {
        forall j | 0 <= j < |part[1..]| ensures part[1..][j] == '?' || part[1..][j] == t[1..][0 + j] {
          assert part[j + 1] == '?' || part[j + 1] == t[0 + (j + 1)];
        }
      }
    }
  }

  lemma FitsSpells(part: string, s: string, i: nat)
    requires '*' !in part
    ensures Fits(part, s, i) <==> Spells(part, s, i)
  {
    if i + |part| <= |s| {
      var t := s[i..i + |part|];
      LiteralSpells(part, t);
      if Spells(part, t, 0) {
        forall j | 0 <= j < |part| ensures part[j] == '?' || part[j] == s[i + j] { assert t[0 + j] == s[i + j]; }
      }
    }
  }

  lemma PrefixSpells(part: string, s: string)
    requires '*' !in part
    ensures SomePrefix(part, s) <==> Spells(part, s, 0)
  {
    FitsSpells(part, s, 0);
    if k :| 0 <= k <= |s| && Matches(part, s[..k]) {
      LiteralLength(part, s[..k]);
      assert s[..k] == s[0..0 + |part|];
    }
    if Fits(part, s, 0) { assert s[0..0 + |part|] == s[..|part|]; }
  }

  lemma SuffixSpells(part: string, s: string)
    requires '*' !in part
    ensures SomeSuffix(part, s) <==> |part| <= |s| && Spells(part, s, |s| - |part|)
  {
    if k :| 0 <= k <= |s| && Matches(part, s[k..]) {
      LiteralLength(part, s[k..]);
      assert s[k..] == s[k..k + |part|];
      FitsSpells(part, s, k);
    }
    if |part| <= |s| {
      var k := |s| - |part|;
      FitsSpells(part, s, k);
      assert s[k..] == s[k..k + |part|];
    }
  }

  // -------------------------------------------------------------------------
  // Two parts that share bytes.
  // -------------------------------------------------------------------------

  predicate Agree(c: char, d: char) {
    c == d || c == '?' || d == '?'
  }

  /** Some string spells `a` at `x` and `b` at `y`. */
  predicate Meets(a: string, x: nat, b: string, y: nat) {
    forall k :: x <= k < x + |a| ==> AgreeAt(a, x, b, y, k)
  }

  predicate AgreeAt(a: string, x: nat, b: string, y: nat, k: int) {
    x <= k < x + |a| && y <= k < y + |b| ==> Agree(a[k - x], b[k - y])
  }

  /** With `first` at the start, `part` can begin before it ends. */
  predicate OverlapsFirst(first: string, part: string) {
    exists y :: 0 <= y < |first| && Meets(first, 0, part, y)
  }

  /** With `last` at the end, `part` can end after it begins. */
  predicate OverlapsLast(part: string, last: string) {
    exists x :: 0 < x <= |last| && Meets(part, x, last, |part|)
  }

  /** With nothing between them, `first` can end after `last` begins. */
  predicate OverlapEnds(first: string, last: string) {
    exists y :: 0 <= y < |first| <= y + |last| && Meets(first, 0, last, y)
  }

  function FirstWord(words: seq<string>): string {
    if words == [] then "" else if words[0] != "" then words[0] else FirstWord(words[1..])
  }

  function LastWord(words: seq<string>): string {
    if words == [] then "" else if words[|words| - 1] != "" then words[|words| - 1] else LastWord(words[..|words| - 1])
  }

  /** No part can share bytes with the first or with the last one. */
  predicate Apart(parts: seq<string>)
    requires |parts| > 1
  {
    var first, words, last := parts[0], MiddleParts(parts), parts[|parts| - 1];
    if FirstWord(words) == "" then !OverlapEnds(first, last)
    else !OverlapsFirst(first, FirstWord(words)) && !OverlapsLast(LastWord(words), last)
  }

  lemma SpelledMeet(a: string, x: nat, b: string, y: nat, s: string)
    requires Spells(a, s, x) && Spells(b, s, y)
    ensures Meets(a, x, b, y)
  {
    forall k | x <= k < x + |a| ensures AgreeAt(a, x, b, y, k) {
      if y <= k < y + |b| { assert s[x + (k - x)] == s[y + (k - y)]; }
    }
  }

  lemma MeetsShifted(a: string, x: nat, b: string, y: nat, x': nat, y': nat)
    requires Meets(a, x, b, y) && x - x' == y - y'
    ensures Meets(a, x', b, y')
  {
    forall k | x' <= k < x' + |a| ensures AgreeAt(a, x', b, y', k) { assert AgreeAt(a, x, b, y, k + x - x'); }
  }

  /** Such a string, of length `n`. */
  function Overlay(a: string, x: nat, b: string, y: nat, n: nat): string
  {
    seq(n, k requires 0 <= k < n =>
      if x <= k < x + |a| && a[k - x] != '?' then a[k - x] else if y <= k < y + |b| then b[k - y] else 'a')
  }

  lemma OverlaySpells(a: string, x: nat, b: string, y: nat, n: nat)
    requires Meets(a, x, b, y) && x + |a| <= n && y + |b| <= n && '*' !in a && '*' !in b
    ensures var s := Overlay(a, x, b, y, n); '*' !in s && Spells(a, s, x) && Spells(b, s, y)
  {
    var s := Overlay(a, x, b, y, n);
    forall j | 0 <= j < |b| ensures b[j] == '?' || b[j] == s[y + j] { assert AgreeAt(a, x, b, y, y + j); }
  }

  // -------------------------------------------------------------------------
  // Parts that cannot share bytes: what is accepted has the meaning.
  // -------------------------------------------------------------------------

  lemma {:induction false} FirstWordAt(words: seq<string>) returns (p: nat)
    ensures p <= |words| && forall j :: 0 <= j < p ==> words[j] == ""
    ensures if p == |words| then FirstWord(words) == "" else words[p] == FirstWord(words) != ""
  {
    if words == [] || words[0] != "" {
      p := 0;
    } else {
      p := FirstWordAt(words[1..]);
      p := p + 1;
    }
  }

  lemma {:induction false} LastWordAt(words: seq<string>) returns (p: nat)
    ensures p <= |words| && forall j :: p <= j < |words| ==> words[j] == ""
    ensures if p == 0 then LastWord(words) == "" else words[p - 1] == LastWord(words) != ""
  {
    if words == [] || words[|words| - 1] != "" {
      p := |words|;
    } else {
      p := LastWordAt(words[..|words| - 1]);
    }
  }

  ghost predicate PlacedAt(words: seq<string>, s: string, at: seq<nat>) {
    && |at| == |words|
    && (forall j :: 0 <= j < |at| ==> Fits(words[j], s, at[j]))
    && (forall j :: 0 < j < |at| ==> at[j - 1] + |words[j - 1]| <= at[j])
  }

  lemma {:induction false} PlacedAscend(words: seq<string>, s: string, at: seq<nat>, i: nat, j: nat)
    requires PlacedAt(words, s, at) && i < j < |at|
    ensures at[i] + |words[i]| <= at[j]
  {
    if i + 1 < j {
      PlacedAscend(words, s, at, i, j - 1);
      assert at[j - 1] + |words[j - 1]| <= at[j];
    }
  }

  function Clamp(k: nat, lo: nat, hi: nat): nat {
    if k < lo then lo else if k > hi then hi else k
  }

  /** The words between the ends stay where they are; the empty ones are moved there. */
  lemma Clamped(words: seq<string>, s: string, at: seq<nat>, lo: nat, hi: nat) returns (at': seq<nat>)
    requires PlacedAt(words, s, at) && lo <= hi <= |s|
    requires forall j :: 0 <= j < |at| && words[j] != "" ==> lo <= at[j] && at[j] + |words[j]| <= hi
    ensures PlacedAt(words, s, at')
    ensures forall j :: 0 <= j < |at'| ==> lo <= at'[j] && at'[j] + |words[j]| <= hi
  {
    at' := seq(|at|, j requires 0 <= j < |at| => Clamp(at[j], lo, hi));
    forall j | 0 <= j < |at| ensures Fits(words[j], s, at'[j]) {
      if words[j] == "" { EmptyFits(s, at'[j]); }
    }
  }

  lemma EmptyFits(s: string, i: nat)
    requires i <= |s|
    ensures Fits("", s, i)
  {
    assert s[i..i + 0] == "";
  }

  lemma WithDoubleStar(rest: string, s: string, from: nat, start: nat)
    requires from <= start <= |s| && Matches(rest, s[start..])
    ensures Matches("**" + rest, s[from..])
  {
    var one, two := "*" + rest, "**" + rest;
    assert one[1..] == rest && two[1..] == one;
    assert s[start..][0..] == s[start..];
    StarIsAnyString(one, s[start..]);
    StarIsAnyString(two, s[start..]);
    assert s[from..][start - from..] == s[start..];
    StarAbsorbs(two, s[from..], start - from);
  }

  /** The converse of `JoinPlaces`: parts in order, the last one at the end, match. */
  lemma {:induction false} PlacedJoins(parts: seq<string>, s: string, at: seq<nat>, from: nat)
    requires parts != [] && from <= |s|
    requires PlacedAt(parts, s, at) && from <= at[0]
    requires at[|at| - 1] + |parts[|parts| - 1]| == |s|
    ensures Matches("**" + Join(parts), s[from..])
  {
    var part := parts[0];
    var start := at[0];
    assert s[start..][..|part|] == s[start..start + |part|];
    if |parts| == 1 {
      assert s[start..] == s[start..start + |part|];
    } else {
      var rest, at' := parts[1..], at[1..];
      forall j | 0 <= j < |at'| ensures Fits(rest[j], s, at'[j]) { assert Fits(parts[j + 1], s, at[j + 1]); }
      forall j | 0 < j < |at'| ensures at'[j - 1] + |rest[j - 1]| <= at'[j] { assert at[j] + |parts[j]| <= at[j + 1]; }
      PlacedJoins(rest, s, at', start + |part|);
      assert s[start..][|part|..] == s[start + |part|..];
      MatchesJoin(part, "**" + Join(rest), s[start..], |part|);
    }
    WithDoubleStar(Join(parts), s, from, start);
  }

  /** The first part at the start, the words in order between the ends, the last part at the end. */
  lemma EndsAndWordsJoin(parts: seq<string>, s: string, at: seq<nat>)
    requires |parts| > 1 && StarFree(parts)
    requires Spells(parts[0], s, 0) && PlacedAt(MiddleParts(parts), s, at)
    requires var last := parts[|parts| - 1];
             && |parts[0]| + |last| <= |s| && Spells(last, s, |s| - |last|)
             && forall j :: 0 <= j < |at| ==> |parts[0]| <= at[j] && at[j] + |MiddleParts(parts)[j]| <= |s| - |last|
    ensures Matches(Join(parts), s)
  {
    var first, words, last := parts[0], MiddleParts(parts), parts[|parts| - 1];
    var rest, all := parts[1..], at + [|s| - |last|];
    assert first in parts && last in parts;
    FitsSpells(first, s, 0);
    FitsSpells(last, s, |s| - |last|);
    forall j | 0 <= j < |all| ensures Fits(rest[j], s, all[j]) {
      if j < |at| { assert Fits(words[j], s, at[j]) && rest[j] == words[j]; }
    }
    forall j | 0 < j < |all| ensures all[j - 1] + |rest[j - 1]| <= all[j] {
      assert rest[j - 1] == words[j - 1];
      if j < |at| { assert at[j - 1] + |words[j - 1]| <= at[j]; }
    }
    PlacedJoins(rest, s, all, |first|);
    assert s[..|first|] == s[0..0 + |first|];
    MatchesJoin(first, "**" + Join(rest), s, |first|);
  }

  /** When the parts cannot share bytes, the words lie between the ends. */
  lemma WordsLieBetween(parts: seq<string>, s: string, at: seq<nat>)
    requires |parts| > 1 && StarFree(parts) && Apart(parts)
    requires Spells(parts[0], s, 0) && PlacedAt(MiddleParts(parts), s, at)
    requires var last := parts[|parts| - 1]; |last| <= |s| && Spells(last, s, |s| - |last|)
    ensures |parts[0]| + |parts[|parts| - 1]| <= |s|
    ensures forall j :: 0 <= j < |at| && MiddleParts(parts)[j] != "" ==>
              |parts[0]| <= at[j] && at[j] + |MiddleParts(parts)[j]| <= |s| - |parts[|parts| - 1]|
  {
    var first, words, last := parts[0], MiddleParts(parts), parts[|parts| - 1];
    var p := FirstWordAt(words);
    var q := LastWordAt(words);
    if p == |words| {
      if |first| + |last| > |s| { SpelledMeet(first, 0, last, |s| - |last|, s); }
    } else {
      WordsAreFree(parts, p);
      WordsAreFree(parts, q - 1);
      FitsSpells(words[p], s, at[p]);
      FitsSpells(words[q - 1], s, at[q - 1]);
      if at[p] < |first| { SpelledMeet(first, 0, words[p], at[p], s); }
      if at[q - 1] + |words[q - 1]| > |s| - |last| { LastMeets(words[q - 1], at[q - 1], last, s); }
      forall j | 0 <= j < |at| && words[j] != ""
        ensures |first| <= at[j] && at[j] + |words[j]| <= |s| - |last|
      {
        if p < j { PlacedAscend(words, s, at, p, j); }
        if j < q - 1 { PlacedAscend(words, s, at, j, q - 1); }
      }
      if p < q - 1 { PlacedAscend(words, s, at, p, q - 1); }
    }
  }

  lemma WordsAreFree(parts: seq<string>, j: nat)
    requires StarFree(parts) && j < |MiddleParts(parts)|
    ensures '*' !in MiddleParts(parts)[j]
  {
    assert MiddleParts(parts)[j] == parts[j + 1];
  }

  lemma LastMeets(word: string, i: nat, last: string, s: string)
    requires Spells(word, s, i) && |last| <= |s| && Spells(last, s, |s| - |last|)
    requires i + |word| > |s| - |last|
    ensures OverlapsLast(word, last)
  {
    var n := |s| - |last|;
    SpelledMeet(word, i, last, n, s);
    MeetsShifted(word, i, last, n, i + |word| - n, |word|);
  }

  lemma AcceptedHasMeaning(parts: seq<string>, s: string)
    requires |parts| > 1 && StarFree(parts) && Apart(parts)
    requires SomePrefix(parts[0], s) && SomeSuffix(parts[|parts| - 1], s) && Placeable(MiddleParts(parts), s, 0)
    ensures Matches(Join(parts), s)
  {
    var first, words, last := parts[0], MiddleParts(parts), parts[|parts| - 1];
    assert first in parts && last in parts;
    PrefixSpells(first, s);
    SuffixSpells(last, s);
    var at := PlacedSomewhere(words, s);
    WordsLieBetween(parts, s, at);
    var at' := Clamped(words, s, at, |first|, |s| - |last|);
    EndsAndWordsJoin(parts, s, at');
  }

  lemma PlacedSomewhere(words: seq<string>, s: string) returns (at: seq<nat>)
    requires Placeable(words, s, 0)
    ensures PlacedAt(words, s, at)
  {
    at :| Placed(words, s, at, 0);
    PlacedPointwise(words, s, at, 0);
  }

  // -------------------------------------------------------------------------
  // Parts that can share bytes: a string too short for the meaning is accepted.
  // -------------------------------------------------------------------------

  function Concat(words: seq<string>): string {
    if words == [] then "" else words[0] + Concat(words[1..])
  }

  /** A string with the meaning has room for all parts. */
  lemma {:induction false} MeaningIsLong(parts: seq<string>, s: string)
    requires parts != [] && StarFree(parts) && Matches(Join(parts), s)
    ensures |Concat(parts)| <= |s|
  {
    var part, rest := parts[0], parts[1..];
    assert part in parts;
    if |parts| == 1 {
      LiteralLength(part, s);
      assert Concat(rest) == "";
    } else {
      assert s[0..] == s;
      SplitStarFree(part, "**" + Join(rest), s, 0);
      var start := DoubleStar(Join(rest), s, |part|);
      assert StarFree(rest);
      MeaningIsLong(rest, s[start..]);
    }
  }

  lemma {:induction false} ConcatAppend(a: seq<string>, w: string)
    ensures Concat(a + [w]) == Concat(a) + w
  {
    if a == [] {
      assert a + [w] == [w] && [w][1..] == [];
    } else {
      assert (a + [w])[0] == a[0] && (a + [w])[1..] == a[1..] + [w];
      ConcatAppend(a[1..], w);
    }
  }

  lemma LengthOfParts(parts: seq<string>)
    requires |parts| > 1
    ensures |Concat(parts)| == |parts[0]| + |Concat(MiddleParts(parts))| + |parts[|parts| - 1]|
  {
    assert parts[1..] == MiddleParts(parts) + [parts[|parts| - 1]];
    ConcatAppend(MiddleParts(parts), parts[|parts| - 1]);
  }

  ghost predicate Written(words: seq<string>, s: string, from: nat) {
    from + |Concat(words)| <= |s| && s[from..from + |Concat(words)|] == Concat(words)
  }

  lemma WrittenStep(words: seq<string>, s: string, from: nat)
    requires words != [] && StarFree(words) && Written(words, s, from)
    ensures Fits(words[0], s, from) && StarFree(words[1..]) && Written(words[1..], s, from + |words[0]|)
  {
    var word, rest := words[0], words[1..];
    var t := s[from..from + |Concat(words)|];
    assert word in words;
    assert s[from..from + |word|] == t[..|word|] == word;
    MatchesItself(word);
    assert s[from + |word|..from + |word| + |Concat(rest)|] == t[|word|..] == Concat(rest);
  }

  /** Words written one after the other are placed there. */
  lemma {:induction false} WrittenPlaced(words: seq<string>, s: string, from: nat)
    requires StarFree(words) && Written(words, s, from)
    ensures Placeable(words, s, from)
  {
    if words == [] {
      assert Placed(words, s, [], from);
    } else {
      WrittenStep(words, s, from);
      WrittenPlaced(words[1..], s, from + |words[0]|);
      PlaceableCons(words, s, from, from);
    }
  }

  function AfterFirst(words: seq<string>): seq<string> {
    if words == [] then [] else if words[0] != "" then words[1..] else AfterFirst(words[1..])
  }

  lemma {:induction false} AfterFirstFree(words: seq<string>)
    requires StarFree(words)
    ensures StarFree(AfterFirst(words)) && '*' !in FirstWord(words)
    ensures |Concat(words)| == |FirstWord(words)| + |Concat(AfterFirst(words))|
  {
    if words != [] {
      assert words[0] in words && StarFree(words[1..]);
      AfterFirstFree(words[1..]);
    }
  }

  lemma {:induction false} FirstPlaced(words: seq<string>, s: string, i: nat)
    requires i <= |s| && Fits(FirstWord(words), s, i) && Placeable(AfterFirst(words), s, i + |FirstWord(words)|)
    ensures Placeable(words, s, 0)
  {
    if words == [] {
      assert Placed(words, s, [], 0);
    } else if words[0] != "" {
      PlaceableCons(words, s, 0, i);
    } else {
      FirstPlaced(words[1..], s, i);
      EmptyFits(s, 0);
      PlaceableCons(words, s, 0, 0);
    }
  }

  /** What the matcher needs to accept. */
  lemma Accepts(parts: seq<string>, s: string)
    requires |parts| > 1 && StarFree(parts) && '*' !in s
    requires var last := parts[|parts| - 1];
             Spells(parts[0], s, 0) && |last| <= |s| && Spells(last, s, |s| - |last|)
    requires Placeable(MiddleParts(parts), s, 0)
    ensures FuzzyPath(parts, s) == Answer(true)
  {
    assert parts[0] in parts && parts[|parts| - 1] in parts;
    PrefixSpells(parts[0], s);
    SuffixSpells(parts[|parts| - 1], s);
    FuzzyPathMeaning(parts, s);
  }

  lemma SpellsOn(part: string, s: string, i: nat, t: string, d: nat)
    requires Spells(part, s, i) && d + |s| <= |t| && t[d..d + |s|] == s
    ensures Spells(part, t, d + i)
  {
    forall j | 0 <= j < |part| ensures part[j] == '?' || part[j] == t[d + i + j] {
      assert t[d + i + j] == t[d..d + |s|][i + j];
    }
  }

  lemma EndsShare(parts: seq<string>) returns (s: string)
    requires |parts| > 1 && StarFree(parts)
    requires FirstWord(MiddleParts(parts)) == "" && OverlapEnds(parts[0], parts[|parts| - 1])
    ensures '*' !in s && |s| < |Concat(parts)| && FuzzyPath(parts, s) == Answer(true)
  {
    var first, words, last := parts[0], MiddleParts(parts), parts[|parts| - 1];
    assert first in parts && last in parts;
    var y :| 0 <= y < |first| <= y + |last| && Meets(first, 0, last, y);
    s := Overlay(first, 0, last, y, y + |last|);
    OverlaySpells(first, 0, last, y, y + |last|);
    LengthOfParts(parts);
    var p := FirstWordAt(words);
    assert AllEmpty(words);
    EmptyPlaced(words, s);
    Accepts(parts, s);
  }

  predicate AllEmpty(words: seq<string>) {
    forall j :: 0 <= j < |words| ==> words[j] == ""
  }

  lemma {:induction false} EmptyPlaced(words: seq<string>, s: string)
    requires AllEmpty(words)
    ensures Placeable(words, s, 0)
  {
    if words == [] {
      assert Placed(words, s, [], 0);
    } else {
      EmptyPlaced(words[1..], s);
      EmptyFits(s, 0);
      PlaceableCons(words, s, 0, 0);
    }
  }

  /** `h` spells the first part at its start and the first word at `y`. */
  lemma FirstWitness(parts: seq<string>, h: string, y: nat) returns (s: string)
    requires |parts| > 1 && StarFree(parts) && '*' !in h
    requires Spells(parts[0], h, 0) && Spells(FirstWord(MiddleParts(parts)), h, y)
    ensures '*' !in s && FuzzyPath(parts, s) == Answer(true)
    ensures |s| == |h| + |Concat(AfterFirst(MiddleParts(parts)))| + |parts[|parts| - 1]|
  {
    var words, last := MiddleParts(parts), parts[|parts| - 1];
    assert last in parts && StarFree(words);
    var word, more := FirstWord(words), AfterFirst(words);
    AfterFirstFree(words);
    ConcatFree(more);
    s := h + (Concat(more) + last);
    SpellsOn(parts[0], h, 0, s, 0);
    SpellsOn(word, h, y, s, 0);
    SpellsOn(last, last, 0, s, |s| - |last|);
    FitsSpells(word, s, y);
    assert Written(more, s, |h|);
    WrittenPlaced(more, s, |h|);
    PlaceableEarlier(more, s, |h|, y + |word|);
    FirstPlaced(words, s, y);
    Accepts(parts, s);
  }

  lemma FirstShares(parts: seq<string>) returns (s: string)
    requires |parts| > 1 && StarFree(parts)
    requires FirstWord(MiddleParts(parts)) != "" && OverlapsFirst(parts[0], FirstWord(MiddleParts(parts)))
    ensures '*' !in s && |s| < |Concat(parts)| && FuzzyPath(parts, s) == Answer(true)
  {
    var first, words := parts[0], MiddleParts(parts);
    assert first in parts && StarFree(words);
    var word := FirstWord(words);
    AfterFirstFree(words);
    var y :| 0 <= y < |first| && Meets(first, 0, word, y);
    var n := if |first| > y + |word| then |first| else y + |word|;
    OverlaySpells(first, 0, word, y, n);
    s := FirstWitness(parts, Overlay(first, 0, word, y, n), y);
    LengthOfParts(parts);
  }

  lemma {:induction false} ConcatFree(words: seq<string>)
    requires StarFree(words)
    ensures '*' !in Concat(words)
  {
    if words != [] {
      assert words[0] in words && StarFree(words[1..]);
      ConcatFree(words[1..]);
    }
  }

  function BeforeLast(words: seq<string>): seq<string> {
    if words == [] then [] else if words[|words| - 1] != "" then words[..|words| - 1] else BeforeLast(words[..|words| - 1])
  }

  lemma {:induction false} BeforeLastFree(words: seq<string>)
    requires StarFree(words)
    ensures StarFree(BeforeLast(words)) && '*' !in LastWord(words)
    ensures |Concat(words)| == |Concat(BeforeLast(words))| + |LastWord(words)|
  {
    if words != [] {
      var init, w := words[..|words| - 1], words[|words| - 1];
      assert words == init + [w] && w in words && StarFree(init);
      ConcatAppend(init, w);
      BeforeLastFree(init);
    }
  }

  lemma OnePlaced(word: string, s: string, from: nat, i: nat)
    requires from <= i && Fits(word, s, i)
    ensures Placeable([word], s, from)
  {
    assert [word][1..] == [];
    assert Placed([], s, [], i + |word|);
    PlaceableCons([word], s, from, i);
  }

  lemma {:induction false} PlaceOneMore(words: seq<string>, word: string, s: string, from: nat, i: nat)
    requires StarFree(words) && Written(words, s, from) && from + |Concat(words)| <= i && Fits(word, s, i)
    ensures Placeable(words + [word], s, from)
  {
    if words == [] {
      assert words + [word] == [word];
      OnePlaced(word, s, from, i);
    } else {
      WrittenStep(words, s, from);
      PlaceOneMore(words[1..], word, s, from + |words[0]|, i);
      assert (words + [word])[0] == words[0] && (words + [word])[1..] == words[1..] + [word];
      PlaceableCons(words + [word], s, from, from);
    }
  }

  lemma {:induction false} LastPlaced(words: seq<string>, s: string)
    requires LastWord(words) != "" && Placeable(BeforeLast(words) + [LastWord(words)], s, 0)
    ensures Placeable(words, s, 0)
  {
    var init, w := words[..|words| - 1], words[|words| - 1];
    assert words == init + [w];
    if w == "" {
      LastPlaced(init, s);
      EmptyAtEnd(init, s, 0);
    }
  }

  lemma {:induction false} EmptyAtEnd(words: seq<string>, s: string, from: nat)
    requires words != [] && Placeable(words, s, from)
    ensures Placeable(words + [""], s, from)
  {
    var i := PlaceableUncons(words, s, from);
    var rest := words[1..];
    var all := words + [""];
    assert all[0] == words[0] && all[1..] == rest + [""];
    if rest == [] {
      assert all[1..] == [""];
      EmptyFits(s, i + |words[0]|);
      OnePlaced("", s, i + |words[0]|, i + |words[0]|);
    } else {
      EmptyAtEnd(rest, s, i + |words[0]|);
    }
    PlaceableCons(all, s, from, i);
  }

  /** `h` spells the last word at `i` and the last part at its end. */
  lemma LastWitness(parts: seq<string>, h: string, i: nat) returns (s: string)
    requires |parts| > 1 && StarFree(parts) && '*' !in h && LastWord(MiddleParts(parts)) != ""
    requires var last := parts[|parts| - 1];
             Spells(LastWord(MiddleParts(parts)), h, i) && |last| <= |h| && Spells(last, h, |h| - |last|)
    ensures '*' !in s && FuzzyPath(parts, s) == Answer(true)
    ensures |s| == |parts[0]| + |Concat(BeforeLast(MiddleParts(parts)))| + |h|
  {
    var first, words, last := parts[0], MiddleParts(parts), parts[|parts| - 1];
    assert first in parts && StarFree(words);
    var word, fore := LastWord(words), BeforeLast(words);
    BeforeLastFree(words);
    ConcatFree(fore);
    s := first + (Concat(fore) + h);
    var e := |first| + |Concat(fore)|;
    SpellsOn(first, first, 0, s, 0);
    SpellsOn(word, h, i, s, e);
    SpellsOn(last, h, |h| - |last|, s, e);
    FitsSpells(word, s, e + i);
    assert Written(fore, s, |first|);
    PlaceOneMore(fore, word, s, |first|, e + i);
    PlaceableEarlier(fore + [word], s, |first|, 0);
    LastPlaced(words, s);
    Accepts(parts, s);
  }

  lemma LastShares(parts: seq<string>) returns (s: string)
    requires |parts| > 1 && StarFree(parts)
    requires LastWord(MiddleParts(parts)) != "" && OverlapsLast(LastWord(MiddleParts(parts)), parts[|parts| - 1])
    ensures '*' !in s && |s| < |Concat(parts)| && FuzzyPath(parts, s) == Answer(true)
  {
    var words, last := MiddleParts(parts), parts[|parts| - 1];
    assert last in parts && StarFree(words);
    var word := LastWord(words);
    BeforeLastFree(words);
    var x :| 0 < x <= |last| && Meets(word, x, last, |word|);
    var d := if x < |word| then x else |word|;
    MeetsShifted(word, x, last, |word|, x - d, |word| - d);
    OverlaySpells(word, x - d, last, |word| - d, |word| + |last| - d);
    s := LastWitness(parts, Overlay(word, x - d, last, |word| - d, |word| + |last| - d), x - d);
    LengthOfParts(parts);
  }

  lemma SomePartsShare(parts: seq<string>) returns (s: string)
    requires |parts| > 1 && StarFree(parts) && !Apart(parts)
    ensures '*' !in s && FuzzyPath(parts, s) == Answer(true) && !Matches(Join(parts), s)
  {
    var words := MiddleParts(parts);
    var p := FirstWordAt(words);
    var q := LastWordAt(words);
    if FirstWord(words) == "" {
      s := EndsShare(parts);
    } else if OverlapsFirst(parts[0], FirstWord(words)) {
      s := FirstShares(parts);
    } else {
      s := LastShares(parts);
    }
    if Matches(Join(parts), s) { MeaningIsLong(parts, s); }
  }

  // -------------------------------------------------------------------------
  // The exact condition.
  // -------------------------------------------------------------------------

  /** For a pattern without single stars: over all star-free strings, the matcher accepts
      exactly what the pattern means (`**` standing for any string) iff no part between two
      `**` can share bytes with the first or the last part, and these not with each other. */
  lemma ExactWhenApart(pattern: string)
    requires StarFree(Split(pattern))
    ensures (forall s :: '*' !in s ==> GlobMatch(pattern, s) == Answer(Matches(pattern, s)))
       <==> |Split(pattern)| == 1 || Apart(Split(pattern))
  {
    var parts := Split(pattern);
    if |parts| == 1 {
      forall s | '*' !in s ensures GlobMatch(pattern, s) == Answer(Matches(pattern, s)) { ScanIsExact(pattern, s); }
    } else {
      forall part | part in MiddleParts(parts) ensures part in parts {}
      if Apart(parts) {
        forall s | '*' !in s ensures GlobMatch(pattern, s) == Answer(Matches(pattern, s)) {
          FuzzyPathMeaning(parts, s);
          if Matches(pattern, s) { JoinAccepted(parts, s); }
          if FuzzyPath(parts, s) == Answer(true) { AcceptedHasMeaning(parts, s); }
        }
      } else {
        var s := SomePartsShare(parts);
      }
    }
  }
}
