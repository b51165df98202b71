/** Library text operations the program relies on: trimming and lower-casing of
    strings and the byte-wise sort of `sort.Strings`. */
module Text {

  datatype Option<+T> = None | Some(value: T)

  // -------------------------------------------------------------------------
  // White space and trimming. Strings are byte strings, one `char` a byte, so the
  // white space is that of ASCII.
  // -------------------------------------------------------------------------

  predicate IsSpace(c: char) {
    9 <= c as int <= 13 || c == ' '
  }

  /** Tab, line feed, vertical tab, form feed, carriage return, space. */
  lemma SpacesAre(c: char)
    ensures IsSpace(c) <==> c in ['\t', '\n', 11 as char, 12 as char, '\r', ' ']
  {
    var spaces := ['\t', '\n', 11 as char, 12 as char, '\r', ' '];
    assert c in spaces <==> c == spaces[0] || c == spaces[1] || c == spaces[2] || c == spaces[3] || c == spaces[4] || c == spaces[5];
  }

  predicate IsBlank(s: string) {
    forall c :: c in s ==> IsSpace(c)
  }

  /** The first position from `i` on that holds no space. */
  function SkipSpace(s: string, i: nat): (j: nat)
    requires i <= |s|
    ensures i <= j <= |s|
    decreases |s| - i
  {
    if i < |s| && IsSpace(s[i]) then SkipSpace(s, i + 1) else i
  }

  /** The end of `s[lo..hi]` without the spaces behind it. */
  function SkipSpaceBack(s: string, lo: nat, hi: nat): (j: nat)
    requires lo <= hi <= |s|
    ensures lo <= j <= hi
  {
    if lo < hi && IsSpace(s[hi - 1]) then SkipSpaceBack(s, lo, hi - 1) else hi
  }

  function TrimSpace(s: string): string {
    var lo := SkipSpace(s, 0);
    s[lo..SkipSpaceBack(s, lo, |s|)]
  }

  lemma {:induction false} SkipSpaceSkips(s: string, i: nat)
    requires i <= |s|
    ensures var j := SkipSpace(s, i);
            && (forall k :: i <= k < j ==> IsSpace(s[k])) && (j < |s| ==> !IsSpace(s[j]))
    decreases |s| - i
  {
    if i < |s| && IsSpace(s[i]) { SkipSpaceSkips(s, i + 1); }
  }

  lemma {:induction false} SkipSpaceBackSkips(s: string, lo: nat, hi: nat)
    requires lo <= hi <= |s|
    ensures var j := SkipSpaceBack(s, lo, hi);
            && (forall k :: j <= k < hi ==> IsSpace(s[k])) && (lo < j ==> !IsSpace(s[j - 1]))
  {
    if lo < hi && IsSpace(s[hi - 1]) { SkipSpaceBackSkips(s, lo, hi - 1); }
  }

  lemma TrimSpaceBlank(s: string)
    ensures TrimSpace(s) == "" <==> IsBlank(s)
  {
    var lo := SkipSpace(s, 0);
    SkipSpaceSkips(s, 0);
    SkipSpaceBackSkips(s, lo, |s|);
    if lo < |s| { assert s[lo] in s; }
  }

  lemma TrimSpaceEnds(s: string)
    ensures var t := TrimSpace(s); t != "" ==> !IsSpace(t[0]) && !IsSpace(t[|t| - 1])
    ensures TrimSpace(TrimSpace(s)) == TrimSpace(s)
  {
    var t, lo := TrimSpace(s), SkipSpace(s, 0);
    SkipSpaceSkips(s, 0);
    SkipSpaceBackSkips(s, lo, |s|);
    if t != "" {
      assert SkipSpace(t, 0) == 0 && SkipSpaceBack(t, 0, |t|) == |t|;
    }
  }

  // -------------------------------------------------------------------------
  // Lower-casing of ASCII letters.
  // -------------------------------------------------------------------------

  function LowerChar(c: char): char {
    if 'A' <= c <= 'Z' then (c as int + 32) as char else c
  }

  function ToLower(s: string): (t: string)
    ensures |t| == |s| && forall i :: 0 <= i < |s| ==> t[i] == LowerChar(s[i])
  {
    if s == "" then "" else [LowerChar(s[0])] + ToLower(s[1..])
  }

  const UPPER := "ABCDEFGHIJKLMNOPQRSTUVWXYZ"
  const LOWER := "abcdefghijklmnopqrstuvwxyz"

  /** The letters, and everything else unchanged. */
  lemma LettersAreLowered(c: char)
    ensures forall i :: 0 <= i < 26 ==> LowerChar(UPPER[i]) == LOWER[i]
    ensures c !in UPPER ==> LowerChar(c) == c
  {
    forall i | 0 <= i < 26 ensures UPPER[i] == (65 + i) as char && LOWER[i] == (97 + i) as char {}
    if 'A' <= c <= 'Z' { assert UPPER[c as int - 65] == c; }
  }

  lemma ToLowerTwice(s: string)
    ensures ToLower(ToLower(s)) == ToLower(s)
  {}

  // -------------------------------------------------------------------------
  // Sorting.
  // -------------------------------------------------------------------------

  predicate LexLe(a: string, b: string) {
    a == "" || (b != "" && (a[0] < b[0] || (a[0] == b[0] && LexLe(a[1..], b[1..]))))
  }

  lemma {:induction false} LexTotal(a: string, b: string)
    ensures LexLe(a, b) || LexLe(b, a)
    ensures LexLe(a, b) && LexLe(b, a) ==> a == b
  {
    if a != "" && b != "" {
      LexTotal(a[1..], b[1..]);
      assert a == [a[0]] + a[1..] && b == [b[0]] + b[1..];
    }
  }

  lemma {:induction false} LexTransitive(a: string, b: string, c: string)
    requires LexLe(a, b) && LexLe(b, c)
    ensures LexLe(a, c)
  {
    if a != "" && a[0] == b[0] == c[0] { LexTransitive(a[1..], b[1..], c[1..]); }
  }

  ghost predicate Sorted(ss: seq<string>) {
    forall i, j :: 0 <= i < j < |ss| ==> LexLe(ss[i], ss[j])
  }

  function Insert(x: string, ss: seq<string>): (r: seq<string>)
    ensures multiset(r) == multiset([x]) + multiset(ss)
  {
    if ss == [] || LexLe(x, ss[0]) then [x] + ss
    else
      assert ss == [ss[0]] + ss[1..];
      [ss[0]] + Insert(x, ss[1..])
  }

  function Sort(ss: seq<string>): (r: seq<string>)
    ensures multiset(r) == multiset(ss)
  {
    if ss == [] then []
    else
      assert ss == [ss[0]] + ss[1..];
      Insert(ss[0], Sort(ss[1..]))
  }

  lemma {:induction false} InsertSorted(x: string, ss: seq<string>)
    requires Sorted(ss)
    ensures Sorted(Insert(x, ss))
  {
    if ss == [] {
    } else if LexLe(x, ss[0]) {
      forall k | 0 <= k < |ss| ensures LexLe(x, ss[k]) {
        if k > 0 { LexTransitive(x, ss[0], ss[k]); }
      }
    } else {
      var rest := Insert(x, ss[1..]);
      InsertSorted(x, ss[1..]);
      LexTotal(x, ss[0]);
      forall k | 0 <= k < |rest| ensures LexLe(ss[0], rest[k]) {
        assert rest[k] in multiset(rest);
        assert rest[k] == x || rest[k] in ss[1..];
      }
    }
  }

  lemma {:induction false} SortSorted(ss: seq<string>)
    ensures Sorted(Sort(ss))
  {
    if ss != [] {
      SortSorted(ss[1..]);
      InsertSorted(ss[0], Sort(ss[1..]));
    }
  }

  lemma HeadIsLeast(a: seq<string>, x: string)
    requires Sorted(a) && x in multiset(a)
    ensures a != [] && LexLe(a[0], x)
  {
    var i :| 0 <= i < |a| && a[i] == x;
    LexTotal(x, x);
    if i > 0 { assert LexLe(a[0], a[i]); }
  }

  lemma SameHead(a: seq<string>, b: seq<string>)
    requires Sorted(a) && Sorted(b) && multiset(a) == multiset(b) && a != [] && b != []
    ensures a[0] == b[0]
  {
    assert a[0] in multiset(a) && b[0] in multiset(b);
    HeadIsLeast(a, b[0]);
    HeadIsLeast(b, a[0]);
    LexTotal(a[0], b[0]);
  }

  /** Moving one element from the front of what is left to the end of what is done. */
  lemma Shift<T>(done: seq<T>, t: T, rest: seq<T>)
    ensures done + ([t] + rest) == (done + [t]) + rest
  {}

  lemma WithoutHead<T>(a: seq<T>)
    requires a != []
    ensures multiset(a[1..]) == multiset(a) - multiset([a[0]])
  {
    assert a == [a[0]] + a[1..];
  }

  /** A sorted list is determined by what it holds. */
  lemma {:induction false} SortedUnique(a: seq<string>, b: seq<string>)
    requires Sorted(a) && Sorted(b) && multiset(a) == multiset(b)
    ensures a == b
  {
    if a == [] || b == [] {
      assert |a| == |multiset(a)| && |b| == |multiset(b)|;
    } else {
      SameHead(a, b);
      WithoutHead(a);
      WithoutHead(b);
      SortedUnique(a[1..], b[1..]);
      assert a == [a[0]] + a[1..] && b == [b[0]] + b[1..];
    }
  }

  /** `Sort` forgets the order it was given. */
  lemma {:induction false} SortForgetsOrder(a: seq<string>, b: seq<string>)
    requires multiset(a) == multiset(b)
    ensures Sort(a) == Sort(b)
  {
    SortSorted(a);
    SortSorted(b);
    SortedUnique(Sort(a), Sort(b));
  }

  lemma {:induction false} SortTwice(a: seq<string>)
    ensures Sort(Sort(a)) == Sort(a)
  {
    SortForgetsOrder(Sort(a), a);
  }
}
