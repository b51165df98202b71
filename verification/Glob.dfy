/** The glob matcher of internal/filter/matchers.go. `Matches` is the recursive
    meaning of a pattern, `Scan` the specification of the iterative matcher that
    remembers only its last star. Strings are byte strings, one `char` a byte. */
module Glob {

  // -------------------------------------------------------------------------
  // Meaning of a pattern: `*` is any string, `?` is any one byte.
  // -------------------------------------------------------------------------

  predicate Matches(p: string, s: string)
    decreases |p| + |s|
  {
    if p == [] then s == []
    else if p[0] == '*' then Matches(p[1..], s) || (s != [] && Matches(p, s[1..]))
    else s != [] && (p[0] == '?' || p[0] == s[0]) && Matches(p[1..], s[1..])
  }

  /** A star stands for every string: what follows it may match any suffix. */
  lemma {:induction false} StarIsAnyString(p: string, s: string)
    requires p != [] && p[0] == '*'
    ensures Matches(p, s) <==> exists k :: 0 <= k <= |s| && Matches(p[1..], s[k..])
    decreases |s|
  {
    assert s[0..] == s;
    if s != [] {
      StarIsAnyString(p, s[1..]);
      forall k | 0 <= k <= |s[1..]|
        ensures s[1..][k..] == s[k + 1..]
      {}
      if k :| 0 <= k <= |s| && Matches(p[1..], s[k..]) && k > 0 {
        assert s[1..][k - 1..] == s[k..];
      }
    }
  }

  lemma StarAbsorbs(p: string, s: string, k: nat)
    requires p != [] && p[0] == '*' && k <= |s| && Matches(p, s[k..])
    ensures Matches(p, s)
  {
    StarIsAnyString(p, s[k..]);
    var j :| 0 <= j <= |s[k..]| && Matches(p[1..], s[k..][j..]);
    assert s[k..][j..] == s[k + j..];
    StarIsAnyString(p, s);
  }

  /** A star-free head of a pattern consumes exactly its own length. */
  lemma {:induction false} LiteralHead(p: string, s: string, n: nat)
    requires n <= |p| && '*' !in p[..n] && Matches(p, s)
    ensures n <= |s| && Matches(p[n..], s[n..])
  {
    if n > 0 {
      assert p[..n][0] == p[0];
      assert p[1..][..n - 1] == p[..n][1..];
      LiteralHead(p[1..], s[1..], n - 1);
      assert p[1..][n - 1..] == p[n..] && s[1..][n - 1..] == s[n..];
    } else {
      assert p[n..] == p && s[n..] == s;
    }
  }

  // -------------------------------------------------------------------------
  // The iterative matcher.
  // -------------------------------------------------------------------------

  /** Where to resume after a failed attempt: the pattern after the last star and
      the part of the string the star currently stands in front of. */
  datatype Retry = NoStar | LastStar(rest: string, from: string)

  predicate AllStars(p: string) {
    p == [] || (p[0] == '*' && AllStars(p[1..]))
  }

  ghost predicate Resumable(p: string, s: string, retry: Retry) {
    retry.LastStar? ==> |p| <= |retry.rest| && |s| <= |retry.from|
  }

  /** The answer of the matcher when `p` and `s` are still to be consumed. */
  function Scan(p: string, s: string, retry: Retry): bool
    requires Resumable(p, s, retry)
    decreases (if retry.NoStar? then |p| + 1 else |retry.rest|),
              (if retry.NoStar? then 0 else |retry.from|), |p|
  {
    if s == [] then AllStars(p)
    else if p != [] && (p[0] == '?' || p[0] == s[0]) then Scan(p[1..], s[1..], retry)
    else if p != [] && p[0] == '*' then Scan(p[1..], s, LastStar(p[1..], s))
    else if retry.LastStar? then Scan(retry.rest, retry.from[1..], LastStar(retry.rest, retry.from[1..]))
    else false
  }

  function SimpleGlob(pattern: string, str: string): bool {
    Scan(pattern, str, NoStar)
  }

  /** The number of iterations the matcher still needs. */
  ghost function Iterations(p: string, s: string, retry: Retry): nat
    requires Resumable(p, s, retry)
    decreases (if retry.NoStar? then |p| + 1 else |retry.rest|),
              (if retry.NoStar? then 0 else |retry.from|), |p|
  {
    if s == [] then 0
    else if p != [] && (p[0] == '?' || p[0] == s[0]) then 1 + Iterations(p[1..], s[1..], retry)
    else if p != [] && p[0] == '*' then 1 + Iterations(p[1..], s, LastStar(p[1..], s))
    else if retry.LastStar? then 1 + Iterations(retry.rest, retry.from[1..], LastStar(retry.rest, retry.from[1..]))
    else 1
  }

  /** Every attempt costs at most `cost`; each new attempt shortens the pattern
      behind the last star or the string in front of it. */
  lemma {:induction false} IterationsBounded(p: string, s: string, retry: Retry, cost: nat)
    requires Resumable(p, s, retry) && cost > if retry.NoStar? then |p| else |retry.rest|
    ensures Iterations(p, s, retry)
         <= cost * (if retry.NoStar? then |p| + |s| else |retry.rest| + |retry.from|) + |p|
    decreases (if retry.NoStar? then |p| + 1 else |retry.rest|),
              (if retry.NoStar? then 0 else |retry.from|), |p|
  {
    if s == [] {
      MulMonotone(cost, 0, if retry.NoStar? then |p| + |s| else |retry.rest| + |retry.from|);
    } else if p != [] && (p[0] == '?' || p[0] == s[0]) {
      IterationsBounded(p[1..], s[1..], retry, cost);
      MulMonotone(cost, |p[1..]| + |s[1..]|, |p| + |s|);
    } else if p != [] && p[0] == '*' {
      IterationsBounded(p[1..], s, LastStar(p[1..], s), cost);
      MulMonotone(cost, |p[1..]| + |s|, if retry.NoStar? then |p| + |s| else |retry.rest| + |retry.from|);
    } else if retry.LastStar? {
      var from := retry.from[1..];
      IterationsBounded(retry.rest, from, LastStar(retry.rest, from), cost);
      MulStep(cost, |retry.rest| + |from|, |retry.rest| + |retry.from|);
    } else {
      MulMonotone(cost, 1, |p| + |s|);
    }
  }

  lemma MulMonotone(c: nat, x: int, y: int)
    requires x <= y
    ensures c * x <= c * y
  {}

  lemma MulStep(c: nat, x: int, y: int)
    requires x + 1 == y
    ensures c * y == c * x + c
  {}

  lemma {:induction false} IterationsQuadratic(pattern: string, str: string)
    ensures Iterations(pattern, str, NoStar) < (|pattern| + 1) * (|pattern| + |str| + 1)
  {
    IterationsBounded(pattern, str, NoStar, |pattern| + 1);
    MulStep(|pattern| + 1, |pattern| + |str|, |pattern| + |str| + 1);
  }

  method SimpleGlobMatch(pattern: string, str: string) returns (matched: bool, ghost iterations: nat)
    ensures matched == SimpleGlob(pattern, str)
    ensures iterations == Iterations(pattern, str, NoStar)
  {
    var pIdx, sIdx := 0, 0;
    var pLen, sLen := |pattern|, |str|;
    var starIdx, matchIdx := -1, 0;
    iterations := 0;
    ghost var p, s, retry := pattern, str, NoStar;  // what the indices stand for

    while sIdx < sLen
      invariant 0 <= pIdx <= pLen && 0 <= matchIdx <= sIdx <= sLen && -1 <= starIdx < pIdx
      invariant p == pattern[pIdx..] && s == str[sIdx..]
      invariant retry == if starIdx < 0 then NoStar else LastStar(pattern[starIdx + 1..], str[matchIdx..])
      invariant Scan(p, s, retry) == SimpleGlob(pattern, str)
      invariant iterations + Iterations(p, s, retry) == Iterations(pattern, str, NoStar)
      decreases pLen - starIdx, sLen - matchIdx, pLen - pIdx
    {
      if pIdx < pLen && (pattern[pIdx] == '?' || pattern[pIdx] == str[sIdx]) {
        pIdx := pIdx + 1;
        sIdx := sIdx + 1;
        p, s := p[1..], s[1..];
      } else if pIdx < pLen && pattern[pIdx] == '*' {
        starIdx := pIdx;
        matchIdx := sIdx;
        pIdx := pIdx + 1;
        p := p[1..];
        retry := LastStar(p, s);
      } else if starIdx >= 0 {
        pIdx := starIdx + 1;
        matchIdx := matchIdx + 1;
        sIdx := matchIdx;
        p, s := retry.rest, retry.from[1..];
        retry := LastStar(p, s);
      } else {
        return false, iterations + 1;
      }
      iterations := iterations + 1;
    }

    while pIdx < pLen && pattern[pIdx] == '*'
      invariant 0 <= pIdx <= pLen
      invariant AllStars(pattern[pIdx..]) == SimpleGlob(pattern, str)
    {
      pIdx := pIdx + 1;
    }
    return pIdx == pLen, iterations;
  }

  // -------------------------------------------------------------------------
  // Soundness on every string, exactness where no star can meet a star.
  // -------------------------------------------------------------------------

  lemma {:induction false} AllStarsMatchEmpty(p: string)
    ensures AllStars(p) <==> Matches(p, "")
  {
    if p != [] { AllStarsMatchEmpty(p[1..]); }
  }

  /** What a positive answer proves, for the current suffixes and the retry point. */
  lemma {:induction false} ScanSoundFrom(p: string, s: string, retry: Retry)
    requires Resumable(p, s, retry)
    requires Scan(p, s, retry)
    ensures Matches(p, s) || (retry.LastStar? && Matches("*" + retry.rest, retry.from))
    decreases (if retry.NoStar? then |p| + 1 else |retry.rest|),
              (if retry.NoStar? then 0 else |retry.from|), |p|
  {
    if s == [] {
      AllStarsMatchEmpty(p);
    } else if p != [] && (p[0] == '?' || p[0] == s[0]) {
      ScanSoundFrom(p[1..], s[1..], retry);
      if Matches(p[1..], s[1..]) && p[0] == '*' {
        assert Matches(p, s[1..]);
      }
    } else if p != [] && p[0] == '*' {
      ScanSoundFrom(p[1..], s, LastStar(p[1..], s));
      assert "*" + p[1..] == p;
    } else {
      var rest, from := retry.rest, retry.from[1..];
      ScanSoundFrom(rest, from, LastStar(rest, from));
      var star := "*" + rest;
      assert star[1..] == rest;
      assert Matches(star, from);
      StarAbsorbs(star, retry.from, 1);
    }
  }

  lemma ScanIsSound(pattern: string, str: string)
    ensures SimpleGlob(pattern, str) ==> Matches(pattern, str)
  {
    if SimpleGlob(pattern, str) { ScanSoundFrom(pattern, str, NoStar); }
  }

  /** The retry point agrees with the current suffixes: the pattern between the
      last star and `p` is free of stars and was consumed one for one. */
  ghost predicate OneForOne(p: string, s: string, retry: Retry) {
    retry.LastStar? ==>
      var n := |retry.rest| - |p|;
      && 0 <= n <= |retry.from| && '*' !in retry.rest[..n]
      && p == retry.rest[n..] && s == retry.from[n..]
  }

  /** Placing the text between two stars as early as possible loses no match. */
  lemma EarliestPlacement(p: string, s: string, retry: Retry)
    requires retry.LastStar? && OneForOne(p, s, retry)
    requires p != [] && p[0] == '*'
    requires Matches("*" + retry.rest, retry.from)
    ensures Matches(p, s)
  {
    var n := |retry.rest| - |p|;
    var star := "*" + retry.rest;
    assert star[1..] == retry.rest;
    StarIsAnyString(star, retry.from);
    var k :| 0 <= k <= |retry.from| && Matches(retry.rest, retry.from[k..]);
    LiteralHead(retry.rest, retry.from[k..], n);
    assert retry.from[k..][n..] == s[k..];
    StarAbsorbs(p, s, k);
  }

  lemma {:induction false} ScanExactFrom(p: string, s: string, retry: Retry)
    requires Resumable(p, s, retry) && OneForOne(p, s, retry) && '*' !in s
    requires retry.LastStar? ==> '*' !in retry.from
    ensures Scan(p, s, retry) <==> Matches(p, s) || (retry.LastStar? && Matches("*" + retry.rest, retry.from))
    decreases (if retry.NoStar? then |p| + 1 else |retry.rest|),
              (if retry.NoStar? then 0 else |retry.from|), |p|
  {
    if Scan(p, s, retry) {
      ScanSoundFrom(p, s, retry);
    } else if s == [] {
      AllStarsMatchEmpty(p);
      if retry.LastStar? && Matches("*" + retry.rest, retry.from) { RestTooLong(p, s, retry); }
    } else if p != [] && (p[0] == '?' || p[0] == s[0]) {
      ScanExactFrom(p[1..], s[1..], retry);
    } else if p != [] && p[0] == '*' {
      var retry' := LastStar(p[1..], s);
      assert p[1..][0..] == p[1..] && s[0..] == s;
      ScanExactFrom(p[1..], s, retry');
      assert "*" + p[1..] == p;
      if retry.LastStar? && Matches("*" + retry.rest, retry.from) { EarliestPlacement(p, s, retry); }
    } else if retry.LastStar? {
      var rest, from := retry.rest, retry.from[1..];
      assert rest[0..] == rest && from[0..] == from;
      ScanExactFrom(rest, from, LastStar(rest, from));
      NextAttempt(p, s, retry);
    }
  }

  /** When `p` cannot go on with `s`, no match starts where the last star is now. */
  lemma NextAttempt(p: string, s: string, retry: Retry)
    requires retry.LastStar? && OneForOne(p, s, retry)
    requires s != [] && (p == [] || (p[0] != '*' && p[0] != '?' && p[0] != s[0]))
    ensures retry.from != [] && !Matches(p, s)
    ensures Matches("*" + retry.rest, retry.from) ==> Matches("*" + retry.rest, retry.from[1..])
  {
    assert ("*" + retry.rest)[1..] == retry.rest;
    if Matches(retry.rest, retry.from) { LiteralHead(retry.rest, retry.from, |retry.rest| - |p|); }
  }

  /** Once the string is used up, a later placement has no room left. */
  lemma RestTooLong(p: string, s: string, retry: Retry)
    requires retry.LastStar? && OneForOne(p, s, retry) && s == []
    requires Matches("*" + retry.rest, retry.from)
    ensures Matches(p, s)
  {
    var n := |retry.rest| - |p|;
    var star := "*" + retry.rest;
    assert star[1..] == retry.rest;
    StarIsAnyString(star, retry.from);
    var k :| 0 <= k <= |retry.from| && Matches(retry.rest, retry.from[k..]);
    LiteralHead(retry.rest, retry.from[k..], n);
    assert k == 0;
    assert retry.from[0..] == retry.from;
  }

  /** Without a star in the pattern the matcher only compares byte by byte. */
  lemma {:induction false} ScanLiteral(p: string, s: string)
    requires '*' !in p
    ensures Scan(p, s, NoStar) <==> Matches(p, s)
  {
    if s == [] {
      AllStarsMatchEmpty(p);
    } else if p != [] && (p[0] == '?' || p[0] == s[0]) {
      ScanLiteral(p[1..], s[1..]);
    }
  }

  lemma ScanIsExact(pattern: string, str: string)
    requires '*' !in pattern || '*' !in str
    ensures SimpleGlob(pattern, str) <==> Matches(pattern, str)
  {
    if '*' !in pattern { ScanLiteral(pattern, str); } else { ScanExactFrom(pattern, str, NoStar); }
  }

  // -------------------------------------------------------------------------
  // Exactly when the matcher is exact: a star byte in the string is consumed
  // one for one by a star of the pattern, so one family fails on each side.
  // -------------------------------------------------------------------------

  lemma {:induction false} MatchesItself(p: string)
    ensures Matches(p, p)
  {
    if p != [] {
      MatchesItself(p[1..]);
      if p[0] == '*' { assert Matches(p, p[1..]); }
    }
  }

  /** A common head is consumed one for one, stars included. */
  lemma {:induction false} CommonHead(head: string, p: string, s: string)
    ensures Scan(head + p, head + s, NoStar) == Scan(p, s, NoStar)
    ensures Matches(p, s) ==> Matches(head + p, head + s)
  {
    if head == [] {
      assert head + p == p && head + s == s;
    } else {
      CommonHead(head[1..], p, s);
      assert (head + p)[1..] == head[1..] + p && (head + s)[1..] == head[1..] + s;
      if Matches(p, s) && head[0] == '*' {
        assert Matches(head + p, (head + s)[1..]);
      }
    }
  }

  lemma LiteralLength(p: string, s: string)
    requires '*' !in p && Matches(p, s)
    ensures |s| == |p|
  {
    assert p[..|p|] == p;
    LiteralHead(p, s, |p|);
  }

  lemma {:induction false} LastStarOf(s: string) returns (i: nat)
    requires '*' in s
    ensures i < |s| && s[i] == '*' && '*' !in s[i + 1..]
  {
    if '*' in s[1..] {
      i := LastStarOf(s[1..]);
      assert s[1..][i + 1..] == s[i + 2..];
      i := i + 1;
    } else {
      i := 0;
    }
  }

  /** `*?tail` against `*tail`: the star of the string is spent on the star of the
      pattern, and the byte left for `?` is missing. */
  lemma StarMeetsStar(head: string, tail: string, p: string, s: string)
    requires '*' !in tail
    requires || (p == head + "*" + "?" + tail && s == head + "*" + tail)
             || (p == head + "*" + tail && s == head + "*" + "a" + tail)
    ensures Matches(p, s) && !SimpleGlob(p, s)
  {
    var p', s' := p[|head| + 1..], s[|head| + 1..];
    assert p == head + (['*'] + p') && s == head + (['*'] + s');
    assert (['*'] + p')[1..] == p' && (['*'] + s')[1..] == s';
    CommonHead(head, ['*'] + p', ['*'] + s');
    ScanIsExact(p', s');
    if Matches(p', s') { LiteralLength(p', s'); }
    MatchesItself(tail);
    var k := if |p'| > |tail| then 0 else 2;
    assert (['*'] + s')[k..] == if k == 0 then ['*'] + tail else tail;
    assert k == 0 ==> p'[1..] == tail && (['*'] + tail)[1..] == tail;
    assert Matches(p', (['*'] + s')[k..]);
    StarIsAnyString(['*'] + p', ['*'] + s');
  }

  /** Over all patterns: the matcher is exact on `str` iff `str` holds no star. */
  lemma ExactOnString(str: string)
    ensures (forall p :: SimpleGlob(p, str) == Matches(p, str)) <==> '*' !in str
  {
    if '*' !in str {
      forall p ensures SimpleGlob(p, str) == Matches(p, str) { ScanIsExact(p, str); }
    } else {
      var i := LastStarOf(str);
      var head, tail := str[..i], str[i + 1..];
      assert str == head + "*" + tail;
      StarMeetsStar(head, tail, head + "*" + "?" + tail, str);
    }
  }

  /** Over all strings: the matcher is exact for `pattern` iff `pattern` holds no star. */
  lemma ExactOnPattern(pattern: string)
    ensures (forall s :: SimpleGlob(pattern, s) == Matches(pattern, s)) <==> '*' !in pattern
  {
    if '*' !in pattern {
      forall s ensures SimpleGlob(pattern, s) == Matches(pattern, s) { ScanIsExact(pattern, s); }
    } else {
      var i := LastStarOf(pattern);
      var head, tail := pattern[..i], pattern[i + 1..];
      assert pattern == head + "*" + tail;
      StarMeetsStar(head, tail, pattern, head + "*" + "a" + tail);
    }
  }

  // -------------------------------------------------------------------------
  // Path segments: a star that stops at slashes, as the comment on the patterns
  // has it, against the star of the matcher.
  // -------------------------------------------------------------------------

  predicate SegmentMatches(p: string, s: string)
    decreases |p| + |s|
  {
    if p == [] then s == []
    else if p[0] == '*' then SegmentMatches(p[1..], s) || (s != [] && s[0] != '/' && SegmentMatches(p, s[1..]))
    else s != [] && (p[0] == '?' || p[0] == s[0]) && SegmentMatches(p[1..], s[1..])
  }

  /** Such a star stands for every string without a slash. */
  lemma {:induction false} SegmentStar(p: string, s: string)
    requires p != [] && p[0] == '*'
    ensures SegmentMatches(p, s) <==> exists k :: 0 <= k <= |s| && '/' !in s[..k] && SegmentMatches(p[1..], s[k..])
    decreases |s|
  {
    assert s[0..] == s && s[..0] == [];
    if s != [] {
      SegmentStar(p, s[1..]);
      if k :| 0 <= k <= |s[1..]| && '/' !in s[1..][..k] && SegmentMatches(p[1..], s[1..][k..]) && s[0] != '/' {
        assert s[1..][k..] == s[k + 1..] && s[..k + 1] == [s[0]] + s[1..][..k];
      }
      if k :| 0 <= k <= |s| && '/' !in s[..k] && SegmentMatches(p[1..], s[k..]) && k > 0 {
        assert s[1..][k - 1..] == s[k..] && s[..k] == [s[0]] + s[1..][..k - 1];
      }
    }
  }

  lemma {:induction false} OneSegment(p: string, s: string)
    requires '/' !in s
    ensures SegmentMatches(p, s) <==> Matches(p, s)
    decreases |p| + |s|
  {
    if p != [] {
      OneSegment(p[1..], s);
      if s != [] {
        OneSegment(p, s[1..]);
        OneSegment(p[1..], s[1..]);
      }
    }
  }

  lemma {:induction false} WithoutStarsAlike(p: string, s: string)
    requires '*' !in p
    ensures SegmentMatches(p, s) <==> Matches(p, s)
  {
    if p != [] && s != [] { WithoutStarsAlike(p[1..], s[1..]); }
  }

  lemma {:induction false} StarMatchesAll(s: string)
    ensures Matches("*", s)
    ensures SegmentMatches("*", s) <==> '/' !in s
  {
    if s != [] {
      StarMatchesAll(s[1..]);
      assert s == [s[0]] + s[1..];
    }
  }

  lemma {:induction false} SegmentCommonHead(head: string, p: string, s: string)
    requires SegmentMatches(p, s)
    ensures SegmentMatches(head + p, head + s)
  {
    if head == [] {
      assert head + p == p && head + s == s;
    } else {
      SegmentCommonHead(head[1..], p, s);
      assert (head + p)[1..] == head[1..] + p && (head + s)[1..] == head[1..] + s;
      if head[0] == '*' { assert SegmentMatches(head + p, (head + s)[1..]); }
    }
  }

  /** A star that takes nothing, or the two bytes `*a`. */
  lemma {:induction false} StarTakesLittle(tail: string)
    ensures SegmentMatches(tail, tail)
    ensures SegmentMatches(['*', '?'] + tail, ['*'] + tail)
    ensures SegmentMatches(['*'] + tail, ['*', 'a'] + tail)
  {
    SegmentCommonHead(tail, "", "");
    assert tail + "" == tail;
    var p, s, t := ['*', '?'] + tail, ['*', 'a'] + tail, ['*'] + tail;
    assert p[1..][1..] == s[1..][1..] == t[1..] == tail;
    assert SegmentMatches(p[1..], t);
    assert SegmentMatches(t, tail);
    assert SegmentMatches(t, s[1..]);
  }

  /** The two forms of `StarMeetsStar` match by segments, too. */
  lemma StarMeetsStarInSegment(head: string, tail: string)
    ensures SegmentMatches(head + "*" + "?" + tail, head + "*" + tail)
    ensures SegmentMatches(head + "*" + tail, head + "*" + "a" + tail)
  {
    StarTakesLittle(tail);
    assert head + (['*'] + tail) == head + "*" + tail;
    assert head + (['*', '?'] + tail) == head + "*" + "?" + tail;
    assert head + (['*', 'a'] + tail) == head + "*" + "a" + tail;
    SegmentCommonHead(head, ['*', '?'] + tail, ['*'] + tail);
    SegmentCommonHead(head, ['*'] + tail, ['*', 'a'] + tail);
  }

  /** The star of the matcher crosses a slash. */
  lemma StarCrossesSlash()
    ensures SimpleGlob("*", "/") && !SegmentMatches("*", "/")
  {
    StarMatchesAll("/");
    ScanIsExact("*", "/");
  }

  /** Over all patterns: the matcher keeps stars within segments on `str` iff `str` is a
      single segment (and exact at all, that is, without a star byte). */
  lemma SegmentsOnString(str: string)
    ensures (forall p :: SimpleGlob(p, str) == SegmentMatches(p, str)) <==> '/' !in str && '*' !in str
  {
    if '*' in str {
      var i := LastStarOf(str);
      var head, tail := str[..i], str[i + 1..];
      assert str == head + "*" + tail;
      StarMeetsStar(head, tail, head + "*" + "?" + tail, str);
      StarMeetsStarInSegment(head, tail);
    } else if '/' in str {
      StarMatchesAll(str);
      ScanIsExact("*", str);
      assert SimpleGlob("*", str) != SegmentMatches("*", str);
    } else {
      forall p ensures SimpleGlob(p, str) == SegmentMatches(p, str) {
        ScanIsExact(p, str);
        OneSegment(p, str);
      }
    }
  }

  /** Over all star-free strings, such as URLs mostly are: the matcher keeps the stars of
      `pattern` within segments iff there are none. */
  lemma SegmentsOnPattern(pattern: string)
    ensures (forall s :: '*' !in s ==> SimpleGlob(pattern, s) == SegmentMatches(pattern, s)) <==> '*' !in pattern
  {
    if '*' !in pattern {
      forall s ensures SimpleGlob(pattern, s) == SegmentMatches(pattern, s) {
        ScanIsExact(pattern, s);
        WithoutStarsAlike(pattern, s);
      }
    } else {
      var fill := seq(|pattern| + 1, _ => '/');
      var s := Filled(pattern, fill);
      SlashesOfFill(fill);
      FilledMatches(pattern, fill);
      ScanIsExact(pattern, s);
      if SegmentMatches(pattern, s) { SlashesAtMost(pattern, s); }
    }
  }

  function Slashes(s: string): nat {
    if s == [] then 0 else (if s[0] == '/' then 1 else 0) + Slashes(s[1..])
  }

  /** Every slash is consumed by a byte of the pattern that is no star. */
  lemma {:induction false} SlashesAtMost(p: string, s: string)
    requires SegmentMatches(p, s)
    ensures Slashes(s) <= |p|
    decreases |p| + |s|
  {
    if p != [] {
      if p[0] == '*' && SegmentMatches(p[1..], s) {
        SlashesAtMost(p[1..], s);
      } else {
        SlashesAtMost(if p[0] == '*' then p else p[1..], s[1..]);
      }
    }
  }

  lemma {:induction false} SlashesOfFill(fill: string)
    requires forall i :: 0 <= i < |fill| ==> fill[i] == '/'
    ensures Slashes(fill) == |fill|
  {
    if fill != [] {
      SlashesOfFill(fill[1..]);
    }
  }

  /** The pattern with `fill` for every star. */
  function Filled(p: string, fill: string): string {
    if p == [] then [] else (if p[0] == '*' then fill else [p[0]]) + Filled(p[1..], fill)
  }

  lemma {:induction false} SlashesConcat(a: string, b: string)
    ensures Slashes(a + b) == Slashes(a) + Slashes(b)
  {
    if a == [] {
      assert a + b == b;
    } else {
      assert (a + b)[0] == a[0] && (a + b)[1..] == a[1..] + b;
      SlashesConcat(a[1..], b);
    }
  }

  lemma {:induction false} FilledMatches(p: string, fill: string)
    requires '*' !in fill
    ensures Matches(p, Filled(p, fill)) && '*' !in Filled(p, fill)
    ensures '*' in p ==> Slashes(Filled(p, fill)) >= Slashes(fill)
  {
    if p != [] {
      var rest := Filled(p[1..], fill);
      FilledMatches(p[1..], fill);
      assert p == [p[0]] + p[1..];
      if p[0] == '*' {
        SlashesConcat(fill, rest);
        assert (fill + rest)[|fill|..] == rest;
        assert Matches(p, rest);
        StarAbsorbs(p, fill + rest, |fill|);
      } else {
        SlashesConcat([p[0]], rest);
        assert Filled(p, fill)[1..] == rest;
      }
    }
  }
}
