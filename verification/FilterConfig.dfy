/** Filter configurations: merging them (internal/filter/config.go) and deciding with them
    (internal/filter/engine.go). */
module FilterConfig {
  import opened Text
  import FuzzyGlob
  import Glob
  import GlobOverlap

  /** `Other` is any rule type the engine does not know. */
  datatype RuleType = Extension | Pattern | StatusCode | Other

  datatype Rule = Rule(id: string, ruleType: RuleType, value: string, priority: int, enabled: bool)

  datatype Config = Config(extensions: seq<string>, patterns: seq<string>, statusCodes: seq<int>, rules: seq<Rule>)

  const EMPTY_CONFIG := Config([], [], [], [])

  /** What is decided elsewhere: whether a glob matches a URL, the lower-cased file extension
      of a URL's path ("" when there is none), and the number a text spells. */
  datatype Library = Library(
    glob: (string, string) -> bool, extension: string -> string, atoi: string -> Option<int>)

  // -------------------------------------------------------------------------
  // Merging.
  // -------------------------------------------------------------------------

  function NormalizeExtension(ext: string): string {
    var e := ToLower(TrimSpace(ext));
    if e != "" && e[0] == '.' then e else "." + e
  }

  predicate HasKey<T, K(==,!new)>(ts: seq<T>, key: T -> K, k: K) {
    exists i :: 0 <= i < |ts| && key(ts[i]) == k
  }

  /** Appends what has a new key. */
  function AppendNew<T, K(==,!new)>(dst: seq<T>, src: seq<T>, key: T -> K): seq<T>
    decreases |src|
  {
    if src == [] then dst
    else AppendNew(if HasKey(dst, key, key(src[0])) then dst else dst + [src[0]], src[1..], key)
  }

  const ID_OF := (r: Rule) => r.id

  function Itself<T>(): T -> T {
    (t: T) => t
  }

  function NormalizeEach(exts: seq<string>): seq<string> {
    if exts == [] then [] else [NormalizeExtension(exts[0])] + NormalizeEach(exts[1..])
  }

  function Combine(acc: Config, c: Config): Config {
    Config(AppendNew(acc.extensions, NormalizeEach(c.extensions), Itself()),
           AppendNew(acc.patterns, c.patterns, Itself()),
           AppendNew(acc.statusCodes, c.statusCodes, Itself()),
           AppendNew(acc.rules, c.rules, ID_OF))
  }

  function CombineAll(acc: Config, configs: seq<Option<Config>>): Config
    decreases |configs|
  {
    if configs == [] then acc
    else CombineAll(if configs[0].Some? then Combine(acc, configs[0].value) else acc, configs[1..])
  }

  function Merge(configs: seq<Option<Config>>): Config {
    CombineAll(EMPTY_CONFIG, configs)
  }

  /** `seen` holds the keys of `ts`. */
  ghost predicate Seen<T, K(!new)>(ts: seq<T>, key: T -> K, seen: set<K>) {
    forall k :: k in seen <==> HasKey(ts, key, k)
  }

  lemma SeenOneMore<T, K(!new)>(ts: seq<T>, key: T -> K, seen: set<K>, t: T)
    requires Seen(ts, key, seen)
    ensures Seen(ts + [t], key, seen + {key(t)})
  {
    forall k ensures HasKey(ts + [t], key, k) <==> HasKey(ts, key, k) || k == key(t) {
      if HasKey(ts, key, k) {
        var i :| 0 <= i < |ts| && key(ts[i]) == k;
        assert key((ts + [t])[i]) == k;
      }
      assert (ts + [t])[|ts|] == t;
    }
  }

  method DedupAppend<T, K(==,!new)>(dst: seq<T>, src: seq<T>, key: T -> K, seen: set<K>) returns (r: seq<T>, seen': set<K>)
    requires Seen(dst, key, seen)
    ensures r == AppendNew(dst, src, key) && Seen(r, key, seen')
  {
    r, seen' := dst, seen;
    ghost var rest := src;
    for i := 0 to |src|
      invariant rest == src[i..] && Seen(r, key, seen')
      invariant AppendNew(r, rest, key) == AppendNew(dst, src, key)
    {
      rest := rest[1..];
      if key(src[i]) in seen' { continue; }
      SeenOneMore(r, key, seen', src[i]);
      seen' := seen' + {key(src[i])};
      r := r + [src[i]];
    }
  }

  method MergeConfigs(configs: seq<Option<Config>>) returns (r: Config)
    ensures r == Merge(configs)
  {
    r := EMPTY_CONFIG;
    var seenExtensions: set<string>, seenPatterns: set<string>, seenStatusCodes: set<int>, seenRules: set<string> := {}, {}, {}, {};
    ghost var rest := configs;
    for i := 0 to |configs|
      invariant rest == configs[i..] && CombineAll(r, rest) == Merge(configs)
      invariant Seen(r.extensions, Itself(), seenExtensions) && Seen(r.patterns, Itself(), seenPatterns)
      invariant Seen(r.statusCodes, Itself(), seenStatusCodes) && Seen(r.rules, ID_OF, seenRules)
    {
      rest := rest[1..];
      if configs[i].None? { continue; }
      var c := configs[i].value;
      var extensions, patterns, statusCodes, rules;
      extensions, seenExtensions := DedupAppend(r.extensions, NormalizeEach(c.extensions), Itself(), seenExtensions);
      patterns, seenPatterns := DedupAppend(r.patterns, c.patterns, Itself(), seenPatterns);
      statusCodes, seenStatusCodes := DedupAppend(r.statusCodes, c.statusCodes, Itself(), seenStatusCodes);
      rules, seenRules := DedupAppend(r.rules, c.rules, ID_OF, seenRules);
      r := Config(extensions, patterns, statusCodes, rules);
    }
  }

  // -------------------------------------------------------------------------
  // Merging is associative.
  // -------------------------------------------------------------------------

  lemma {:induction false} LoweringKeepsEnds(s: string)
    requires s != ""
    ensures |ToLower(s)| == |s|
    ensures IsSpace(ToLower(s)[0]) == IsSpace(s[0]) && IsSpace(ToLower(s)[|s| - 1]) == IsSpace(s[|s| - 1])
  {
    if |s| > 1 { LoweringKeepsEnds(s[1..]); }
  }

  /** A text that starts with a dot and has no white space at its end is normal once it is
      in lower case. */
  lemma {:induction false} DottedIsNormal(e: string)
    requires e != "" && e[0] == '.' && !IsSpace(e[|e| - 1]) && ToLower(e) == e
    ensures NormalizeExtension(e) == e
  {}

  lemma LoweredTrimmed(ext: string)
    ensures var e := ToLower(TrimSpace(ext));
            ToLower(e) == e && (e != "" ==> !IsSpace(e[|e| - 1]))
  {
    var t := TrimSpace(ext);
    TrimSpaceEnds(ext);
    if t != "" { LoweringKeepsEnds(t); }
    ToLowerTwice(t);
  }

  /** Normalising an extension twice changes nothing more; the result has its dot, is in lower
      case, and is the trimmed extension in lower case but for the dot. */
  lemma NormalizeTwice(ext: string)
    ensures NormalizeExtension(NormalizeExtension(ext)) == NormalizeExtension(ext)
    ensures NormalizeExtension(ext) != "" && NormalizeExtension(ext)[0] == '.'
    ensures ToLower(NormalizeExtension(ext)) == NormalizeExtension(ext)
    ensures var e, n := ToLower(TrimSpace(ext)), NormalizeExtension(ext); n == e || (n[1..] == e && (e == "" || e[0] != '.'))
  {
    var e, n := ToLower(TrimSpace(ext)), NormalizeExtension(ext);
    LoweredTrimmed(ext);
    if n != e { assert n[1..] == e; }
    assert ToLower(n) == n;
    DottedIsNormal(n);
  }

  ghost predicate AllNormal(exts: seq<string>) {
    forall e :: e in exts ==> NormalizeExtension(e) == e
  }

  lemma {:induction false} NormalizedAreNormal(exts: seq<string>)
    ensures AllNormal(NormalizeEach(exts))
  {
    if exts != [] {
      NormalizeTwice(exts[0]);
      NormalizedAreNormal(exts[1..]);
    }
  }

  lemma {:induction false} NormalStay(exts: seq<string>)
    requires AllNormal(exts)
    ensures NormalizeEach(exts) == exts
  {
    if exts != [] {
      assert exts[0] in exts && forall e :: e in exts[1..] ==> e in exts;
      NormalStay(exts[1..]);
    }
  }

  lemma {:induction false} AppendedFrom<T, K(!new)>(dst: seq<T>, src: seq<T>, key: T -> K, t: T)
    requires t in AppendNew(dst, src, key)
    ensures t in dst || t in src
    decreases |src|
  {
    if src != [] {
      var dst' := if HasKey(dst, key, key(src[0])) then dst else dst + [src[0]];
      AppendedFrom(dst', src[1..], key, t);
    }
  }

  lemma {:induction false} AppendKeeps<T, K(!new)>(dst: seq<T>, src: seq<T>, key: T -> K)
    ensures dst <= AppendNew(dst, src, key)
    decreases |src|
  {
    if src != [] { AppendKeeps(if HasKey(dst, key, key(src[0])) then dst else dst + [src[0]], src[1..], key); }
  }

  lemma {:induction false} EveryKeyIsIn<T, K(!new)>(dst: seq<T>, src: seq<T>, key: T -> K, t: T)
    requires t in dst || t in src
    ensures HasKey(AppendNew(dst, src, key), key, key(t))
    decreases |src|
  {
    if src != [] {
      var dst' := if HasKey(dst, key, key(src[0])) then dst else dst + [src[0]];
      if t in src[1..] || t in dst' {
        EveryKeyIsIn(dst', src[1..], key, t);
      } else {
        AppendKeeps(dst', src[1..], key);
      }
    }
  }

  lemma {:induction false} AppendOneMore<T, K(!new)>(dst: seq<T>, src: seq<T>, key: T -> K, t: T)
    ensures AppendNew(dst, src + [t], key)
         == if HasKey(AppendNew(dst, src, key), key, key(t)) then AppendNew(dst, src, key) else AppendNew(dst, src, key) + [t]
    decreases |src|
  {
    if src == [] {
      assert src + [t] == [t] && [t][1..] == [];
    } else {
      assert (src + [t])[0] == src[0] && (src + [t])[1..] == src[1..] + [t];
      AppendOneMore(if HasKey(dst, key, key(src[0])) then dst else dst + [src[0]], src[1..], key, t);
    }
  }

  lemma {:induction false} AppendAssociative<T, K(!new)>(a: seq<T>, b: seq<T>, c: seq<T>, key: T -> K)
    ensures AppendNew(a, AppendNew(b, c, key), key) == AppendNew(AppendNew(a, b, key), c, key)
    decreases |c|
  {
    if c != [] {
      var b' := if HasKey(b, key, key(c[0])) then b else b + [c[0]];
      AppendAssociative(a, b', c[1..], key);
      if HasKey(b, key, key(c[0])) {
        var i :| 0 <= i < |b| && key(b[i]) == key(c[0]);
        EveryKeyIsIn(a, b, key, b[i]);
      } else {
        AppendOneMore(a, b, key, c[0]);
      }
    }
  }

  /** A merged configuration: nothing twice, extensions normalised. */
  ghost predicate IsMerged(c: Config) {
    && AppendNew([], c.extensions, Itself()) == c.extensions && AllNormal(c.extensions)
    && AppendNew([], c.patterns, Itself()) == c.patterns
    && AppendNew([], c.statusCodes, Itself()) == c.statusCodes
    && AppendNew([], c.rules, ID_OF) == c.rules
  }

  lemma CombineIsMerged(acc: Config, c: Config)
    requires IsMerged(acc)
    ensures IsMerged(Combine(acc, c))
  {
    AppendAssociative([], acc.extensions, NormalizeEach(c.extensions), Itself());
    AppendAssociative([], acc.patterns, c.patterns, Itself());
    AppendAssociative([], acc.statusCodes, c.statusCodes, Itself());
    AppendAssociative([], acc.rules, c.rules, ID_OF);
    NormalizedAreNormal(c.extensions);
    forall e | e in AppendNew(acc.extensions, NormalizeEach(c.extensions), Itself()) ensures NormalizeExtension(e) == e {
      AppendedFrom(acc.extensions, NormalizeEach(c.extensions), Itself(), e);
    }
  }

  lemma CombineAssociative(a: Config, b: Config, c: Config)
    requires IsMerged(b)
    ensures Combine(a, Combine(b, c)) == Combine(Combine(a, b), c)
  {
    CombineIsMerged(b, c);
    NormalStay(b.extensions);
    NormalStay(Combine(b, c).extensions);
    AppendAssociative(a.extensions, b.extensions, NormalizeEach(c.extensions), Itself());
    AppendAssociative(a.patterns, b.patterns, c.patterns, Itself());
    AppendAssociative(a.statusCodes, b.statusCodes, c.statusCodes, Itself());
    AppendAssociative(a.rules, b.rules, c.rules, ID_OF);
  }

  lemma {:induction false} CombineAllIsMerged(acc: Config, configs: seq<Option<Config>>)
    requires IsMerged(acc)
    ensures IsMerged(CombineAll(acc, configs))
    decreases |configs|
  {
    if configs != [] {
      if configs[0].Some? { CombineIsMerged(acc, configs[0].value); }
      CombineAllIsMerged(if configs[0].Some? then Combine(acc, configs[0].value) else acc, configs[1..]);
    }
  }

  lemma {:induction false} CombineAllAt(a: Config, b: Config, configs: seq<Option<Config>>)
    requires IsMerged(b)
    ensures CombineAll(Combine(a, b), configs) == Combine(a, CombineAll(b, configs))
    decreases |configs|
  {
    if configs != [] {
      if configs[0].Some? {
        CombineAssociative(a, b, configs[0].value);
        CombineIsMerged(b, configs[0].value);
        CombineAllAt(a, Combine(b, configs[0].value), configs[1..]);
      } else {
        CombineAllAt(a, b, configs[1..]);
      }
    }
  }

  lemma {:induction false} CombineAllConcat(acc: Config, xs: seq<Option<Config>>, ys: seq<Option<Config>>)
    ensures CombineAll(acc, xs + ys) == CombineAll(CombineAll(acc, xs), ys)
    decreases |xs|
  {
    if xs == [] {
      assert xs + ys == ys;
    } else {
      assert (xs + ys)[0] == xs[0] && (xs + ys)[1..] == xs[1..] + ys;
      CombineAllConcat(if xs[0].Some? then Combine(acc, xs[0].value) else acc, xs[1..], ys);
    }
  }

  lemma {:induction false} CombineEmpty(c: Config)
    requires IsMerged(c)
    ensures Combine(c, EMPTY_CONFIG) == c && Combine(EMPTY_CONFIG, c) == c
  {
    NormalStay(c.extensions);
  }

  /** Merging is associative: a group of configurations can be merged on its own first, at
      either end of the list. */
  lemma MergeAssociative(xs: seq<Option<Config>>, ys: seq<Option<Config>>)
    ensures Merge(xs + ys) == Combine(Merge(xs), Merge(ys))
    ensures Merge([Some(Merge(xs))] + ys) == Merge(xs + ys) == Merge(xs + [Some(Merge(ys))])
  {
    CombineAllIsMerged(EMPTY_CONFIG, xs);
    CombineAllIsMerged(EMPTY_CONFIG, ys);
    CombineEmpty(Merge(xs));
    CombineAllConcat(EMPTY_CONFIG, xs, ys);
    CombineAllAt(Merge(xs), EMPTY_CONFIG, ys);
    assert ([Some(Merge(xs))] + ys)[0] == Some(Merge(xs)) && ([Some(Merge(xs))] + ys)[1..] == ys;
    CombineAllConcat(EMPTY_CONFIG, xs, [Some(Merge(ys))]);
    assert [Some(Merge(ys))][1..] == [];
  }

  // -------------------------------------------------------------------------
  // Which of the rules with one id is kept.
  // -------------------------------------------------------------------------

  /** The rules of all configurations, in order. */
  function AllRules(configs: seq<Option<Config>>): seq<Rule> {
    if configs == [] then [] else (if configs[0].Some? then configs[0].value.rules else []) + AllRules(configs[1..])
  }

  ghost predicate HasId(rules: seq<Rule>, id: string) {
    exists q :: q in rules && q.id == id
  }

  /** `r` is the first of the rules with its id. */
  ghost predicate IsFirst(rules: seq<Rule>, r: Rule) {
    exists i :: 0 <= i < |rules| && rules[i] == r && !HasId(rules[..i], r.id)
  }

  lemma {:induction false} AppendConcat<T, K(!new)>(dst: seq<T>, a: seq<T>, b: seq<T>, key: T -> K)
    ensures AppendNew(dst, a + b, key) == AppendNew(AppendNew(dst, a, key), b, key)
    decreases |a|
  {
    if a == [] {
      assert a + b == b;
    } else {
      assert (a + b)[0] == a[0] && (a + b)[1..] == a[1..] + b;
      AppendConcat(if HasKey(dst, key, key(a[0])) then dst else dst + [a[0]], a[1..], b, key);
    }
  }

  lemma {:induction false} CombineAllRules(acc: Config, configs: seq<Option<Config>>)
    ensures CombineAll(acc, configs).rules == AppendNew(acc.rules, AllRules(configs), ID_OF)
    decreases |configs|
  {
    if configs != [] {
      if configs[0].Some? {
        var c := configs[0].value;
        CombineAllRules(Combine(acc, c), configs[1..]);
        AppendConcat(acc.rules, c.rules, AllRules(configs[1..]), ID_OF);
      } else {
        CombineAllRules(acc, configs[1..]);
        assert [] + AllRules(configs[1..]) == AllRules(configs[1..]);
      }
    }
  }

  /** The rules with every later one of an id left out. */
  function Winners(rules: seq<Rule>): seq<Rule> {
    AppendNew([], rules, ID_OF)
  }

  lemma WinnerIds(rules: seq<Rule>, id: string)
    ensures HasKey(Winners(rules), ID_OF, id) <==> HasId(rules, id)
  {
    if HasKey(Winners(rules), ID_OF, id) {
      var i :| 0 <= i < |Winners(rules)| && ID_OF(Winners(rules)[i]) == id;
      AppendedFrom([], rules, ID_OF, Winners(rules)[i]);
      assert Winners(rules)[i] in rules;
    }
    if q :| q in rules && q.id == id { EveryKeyIsIn([], rules, ID_OF, q); }
  }

  lemma OneMoreFirst(rules: seq<Rule>, t: Rule, r: Rule)
    ensures IsFirst(rules + [t], r) <==> IsFirst(rules, r) || (r == t && !HasId(rules, t.id))
  {
    var all := rules + [t];
    if i :| 0 <= i < |all| && all[i] == r && !HasId(all[..i], r.id) {
      assert all[..i] == rules[..i];
      if i == |rules| { assert rules[..i] == rules; }
    }
    if i :| 0 <= i < |rules| && rules[i] == r && !HasId(rules[..i], r.id) { assert all[i] == r && all[..i] == rules[..i]; }
    if r == t && !HasId(rules, t.id) { assert all[|rules|] == r && all[..|rules|] == rules; }
  }

  lemma {:induction false} WinnersAreFirst(rules: seq<Rule>, r: Rule)
    ensures r in Winners(rules) <==> IsFirst(rules, r)
    decreases |rules|
  {
    if rules != [] {
      var init, t := rules[..|rules| - 1], rules[|rules| - 1];
      assert rules == init + [t];
      WinnersAreFirst(init, r);
      AppendOneMore([], init, ID_OF, t);
      WinnerIds(init, t.id);
      OneMoreFirst(init, t, r);
    }
  }

  /** Of the rules with one id, in all configurations together, the first one is kept. */
  lemma FirstRuleIsKept(configs: seq<Option<Config>>, r: Rule)
    ensures r in Merge(configs).rules <==> IsFirst(AllRules(configs), r)
  {
    CombineAllRules(EMPTY_CONFIG, configs);
    WinnersAreFirst(AllRules(configs), r);
  }

  lemma {:induction false} AllRulesConcat(xs: seq<Option<Config>>, ys: seq<Option<Config>>)
    ensures AllRules(xs + ys) == AllRules(xs) + AllRules(ys)
  {
    if xs == [] {
      assert xs + ys == ys;
    } else {
      assert (xs + ys)[0] == xs[0] && (xs + ys)[1..] == xs[1..] + ys;
      AllRulesConcat(xs[1..], ys);
    }
  }

  lemma FirstOfConcat(a: seq<Rule>, b: seq<Rule>, r: Rule)
    ensures IsFirst(a + b, r) <==> IsFirst(a, r) || (IsFirst(b, r) && !HasId(a, r.id))
  {
    var all := a + b;
    if i :| 0 <= i < |all| && all[i] == r && !HasId(all[..i], r.id) {
      if i < |a| {
        assert all[..i] == a[..i];
      } else {
        assert all[..i] == a + b[..i - |a|];
        assert b[i - |a|] == r;
      }
    }
    if i :| 0 <= i < |a| && a[i] == r && !HasId(a[..i], r.id) { assert all[i] == r && all[..i] == a[..i]; }
    if i :| 0 <= i < |b| && b[i] == r && !HasId(b[..i], r.id) && !HasId(a, r.id) {
      assert all[|a| + i] == r && all[..|a| + i] == a + b[..i];
    }
  }

  /** So a rule of a later configuration is kept iff no earlier one has its id, or the first
      that has is equal. */
  lemma LaterRuleIsKept(earlier: seq<Option<Config>>, c: Config, r: Rule)
    requires IsFirst(c.rules, r)
    ensures r in Merge(earlier + [Some(c)]).rules <==> !HasId(AllRules(earlier), r.id) || IsFirst(AllRules(earlier), r)
  {
    FirstRuleIsKept(earlier + [Some(c)], r);
    AllRulesConcat(earlier, [Some(c)]);
    assert [Some(c)][1..] == [] && AllRules([Some(c)]) == c.rules + [] == c.rules;
    FirstOfConcat(AllRules(earlier), c.rules, r);
  }

  /** The later configuration takes precedence iff its rules do not clash with earlier ones. */
  lemma LaterTakesPrecedenceExactly(earlier: seq<Option<Config>>, c: Config)
    ensures (forall r :: IsFirst(c.rules, r) ==> r in Merge(earlier + [Some(c)]).rules)
       <==> (forall r, q :: IsFirst(c.rules, r) && IsFirst(AllRules(earlier), q) && q.id == r.id ==> q == r)
  {
    forall r | IsFirst(c.rules, r)
      ensures r in Merge(earlier + [Some(c)]).rules <==> (forall q :: IsFirst(AllRules(earlier), q) && q.id == r.id ==> q == r)
    {
      LaterRuleIsKept(earlier, c, r);
      if HasId(AllRules(earlier), r.id) { var q := FirstWithId(AllRules(earlier), r.id); }
      forall q, q' | IsFirst(AllRules(earlier), q) && IsFirst(AllRules(earlier), q') && q.id == q'.id ensures q == q' {
        OneFirst(AllRules(earlier), q, q');
      }
    }
  }

  lemma {:induction false} FirstWithId(rules: seq<Rule>, id: string) returns (r: Rule)
    requires HasId(rules, id)
    ensures IsFirst(rules, r) && r.id == id
  {
    var init, t := rules[..|rules| - 1], rules[|rules| - 1];
    assert rules == init + [t];
    if HasId(init, id) { r := FirstWithId(init, id); } else { r := t; }
    OneMoreFirst(init, t, r);
  }

  lemma OneFirst(rules: seq<Rule>, q: Rule, r: Rule)
    requires IsFirst(rules, q) && IsFirst(rules, r) && q.id == r.id
    ensures q == r
  {
    var i :| 0 <= i < |rules| && rules[i] == q && !HasId(rules[..i], q.id);
    var j :| 0 <= j < |rules| && rules[j] == r && !HasId(rules[..j], r.id);
  }

  /** Two configurations with different rules of one id: the later rule is dropped. */
  lemma EarlierRuleWins()
    ensures var a, b := Rule("id", Pattern, "*/media/*", 0, true), Rule("id", Pattern, "*/media/*", 0, false);
            Merge([Some(Config([], [], [], [a])), Some(Config([], [], [], [b]))]).rules == [a]
  {
    var a, b := Rule("id", Pattern, "*/media/*", 0, true), Rule("id", Pattern, "*/media/*", 0, false);
    var configs := [Some(Config([], [], [], [a])), Some(Config([], [], [], [b]))];
    assert configs[1..] == [configs[1]] && [configs[1]][1..] == [];
    assert AllRules([configs[1]]) == [b] + [] == [b];
    assert AllRules(configs) == [a] + [b] == [a, b];
    CombineAllRules(EMPTY_CONFIG, configs);
    assert [a, b][1..] == [b] && [b][1..] == [];
    assert AppendNew([], [a, b], ID_OF) == AppendNew([a], [b], ID_OF) by { assert [] + [a] == [a]; }
    assert ID_OF([a][0]) == ID_OF(b);
  }

  // -------------------------------------------------------------------------
  // Rules as a configuration.
  // -------------------------------------------------------------------------

  /** The values of the enabled rules of a type. */
  function ValuesOf(rules: seq<Rule>, ruleType: RuleType): seq<string> {
    if rules == [] then []
    else (if rules[0].enabled && rules[0].ruleType == ruleType then [rules[0].value] else []) + ValuesOf(rules[1..], ruleType)
  }

  function Numbers(lib: Library, values: seq<string>): seq<int> {
    if values == [] then []
    else (match lib.atoi(values[0]) case Some(n) => [n] case None => []) + Numbers(lib, values[1..])
  }

  function FromRules(lib: Library, rules: seq<Rule>): Config {
    Config(ValuesOf(rules, Extension), ValuesOf(rules, Pattern), Numbers(lib, ValuesOf(rules, StatusCode)), rules)
  }

  lemma {:induction false} ValuesConcat(a: seq<Rule>, b: seq<Rule>, ruleType: RuleType)
    ensures ValuesOf(a + b, ruleType) == ValuesOf(a, ruleType) + ValuesOf(b, ruleType)
  {
    if a == [] {
      assert a + b == b;
    } else {
      assert (a + b)[0] == a[0] && (a + b)[1..] == a[1..] + b;
      ValuesConcat(a[1..], b, ruleType);
    }
  }

  lemma {:induction false} NumbersConcat(lib: Library, a: seq<string>, b: seq<string>)
    ensures Numbers(lib, a + b) == Numbers(lib, a) + Numbers(lib, b)
  {
    if a == [] {
      assert a + b == b;
    } else {
      assert (a + b)[0] == a[0] && (a + b)[1..] == a[1..] + b;
      NumbersConcat(lib, a[1..], b);
    }
  }

  lemma NumbersOneMore(lib: Library, values: seq<string>, v: string)
    ensures Numbers(lib, values + [v])
         == if lib.atoi(v).Some? then Numbers(lib, values) + [lib.atoi(v).value] else Numbers(lib, values)
  {
    NumbersConcat(lib, values, [v]);
    assert [v][1..] == [];
    assert Numbers(lib, [v]) == match lib.atoi(v) case Some(n) => [n] case None => [];
  }

  lemma OneRuleMore(rules: seq<Rule>, rule: Rule, t: RuleType)
    ensures ValuesOf(rules + [rule], t)
         == if rule.enabled && rule.ruleType == t then ValuesOf(rules, t) + [rule.value] else ValuesOf(rules, t)
  {
    ValuesConcat(rules, [rule], t);
    assert [rule][1..] == [];
    assert ValuesOf([rule], t) == if rule.enabled && rule.ruleType == t then [rule.value] else [];
  }

  method RulesToConfig(lib: Library, rules: seq<Rule>) returns (c: Config)
    ensures c == FromRules(lib, rules)
  {
    c := Config([], [], [], rules);
    for i := 0 to |rules|
      invariant c == FromRules(lib, rules[..i]).(rules := rules)
    {
      var rule := rules[i];
      assert rules[..i + 1] == rules[..i] + [rule];
      OneRuleMore(rules[..i], rule, Extension);
      OneRuleMore(rules[..i], rule, Pattern);
      OneRuleMore(rules[..i], rule, StatusCode);
      if !rule.enabled { continue; }
      match rule.ruleType {
        case Extension => c := c.(extensions := c.extensions + [rule.value]);
        case Pattern => c := c.(patterns := c.patterns + [rule.value]);
        case StatusCode =>
          NumbersOneMore(lib, ValuesOf(rules[..i], StatusCode), rule.value);
          var n := lib.atoi(rule.value);
          if n.Some? {
            c := c.(statusCodes := c.statusCodes + [n.value]);
          }
        case Other =>
      }
    }
    assert rules[..|rules|] == rules;
  }

  // -------------------------------------------------------------------------
  // Deciding.
  // -------------------------------------------------------------------------

  datatype Result = Result(filtered: bool, reason: string)

  const PASSES := Result(false, "")

  function TypeName(t: RuleType): string {
    match t
    case Extension => "extension"
    case Pattern => "pattern"
    case StatusCode => "status_code"
    case Other => ""
  }

  predicate IsEmpty(c: Config) {
    c.extensions == [] && c.patterns == [] && c.statusCodes == [] && c.rules == []
  }

  function MatchPattern(lib: Library, url: string, patterns: seq<string>): Option<string> {
    if patterns == [] then None
    else if lib.glob(patterns[0], url) then Some(patterns[0])
    else MatchPattern(lib, url, patterns[1..])
  }

  function MatchExtension(lib: Library, url: string, exts: seq<string>): Option<string> {
    if exts == [] || lib.extension(url) == "" then None
    else if NormalizeExtension(exts[0]) == lib.extension(url) then Some(lib.extension(url))
    else MatchExtension(lib, url, exts[1..])
  }

  predicate RuleMatches(lib: Library, url: string, rule: Rule) {
    rule.enabled &&
    match rule.ruleType
    case Pattern => MatchPattern(lib, url, [rule.value]).Some?
    case Extension => MatchExtension(lib, url, [rule.value]).Some?
    case StatusCode => false
    case Other => false
  }

  function FirstRule(lib: Library, url: string, rules: seq<Rule>): Option<Rule> {
    if rules == [] then None
    else if RuleMatches(lib, url, rules[0]) then Some(rules[0])
    else FirstRule(lib, url, rules[1..])
  }

  /** The decision when the sort of the rules has left them in `order`. */
  function Decision(lib: Library, c: Config, order: seq<Rule>, url: string): Result {
    var rule, pattern, ext := FirstRule(lib, url, order), MatchPattern(lib, url, c.patterns), MatchExtension(lib, url, c.extensions);
    if rule.Some? then Result(true, TypeName(rule.value.ruleType) + ":" + rule.value.value)
    else if pattern.Some? then Result(true, "pattern:" + pattern.value)
    else if ext.Some? then Result(true, "extension:" + ext.value)
    else PASSES
  }

  /** A copy of the rules, highest priority first, and those of equal priority in any order. */
  ghost predicate IsSorting(rules: seq<Rule>, order: seq<Rule>) {
    && multiset(order) == multiset(rules)
    && forall i, j :: 0 <= i < j < |order| ==> order[i].priority >= order[j].priority
  }

  class Engine {
    const lib: Library
    const config: Config

    constructor (lib: Library, config: Config)
      ensures this.lib == lib && this.config == config
    {
      this.lib, this.config := lib, config;
    }

    /** `order` is what sort.Slice makes of the configuration's rules. */
    method ShouldFilter(url: string, order: seq<Rule>) returns (r: Result)
      requires IsSorting(config.rules, order)
      ensures r == Decision(lib, config, order, url)
    {
      if IsEmpty(config) {
        assert |multiset(order)| == |order|;
        return PASSES;
      }
      ghost var rest := order;
      for i := 0 to |order|
        invariant rest == order[i..] && FirstRule(lib, url, rest) == FirstRule(lib, url, order)
      {
        rest := rest[1..];
        var rule := order[i];
        if !rule.enabled { continue; }
        var matched := false;
        match rule.ruleType {
          case Pattern => matched := MatchPattern(lib, url, [rule.value]).Some?;
          case Extension => matched := MatchExtension(lib, url, [rule.value]).Some?;
          case StatusCode => continue;
          case Other =>
        }
        if matched { return Result(true, TypeName(rule.ruleType) + ":" + rule.value); }
      }
      var pattern := MatchPattern(lib, url, config.patterns);
      if pattern.Some? { return Result(true, "pattern:" + pattern.value); }
      var ext := MatchExtension(lib, url, config.extensions);
      if ext.Some? { return Result(true, "extension:" + ext.value); }
      return PASSES;
    }

    method ShouldFilterStatus(code: int) returns (filtered: bool)
      ensures filtered <==> BlocksStatus(lib, config, code)
    {
      if IsEmpty(config) { return false; }
      for i := 0 to |config.rules|
        invariant forall j :: 0 <= j < i ==> !RuleNames(lib, config.rules[j], code)
      {
        var rule := config.rules[i];
        if !rule.enabled || rule.ruleType != StatusCode { continue; }
        var n := lib.atoi(rule.value);
        if n.None? { continue; }
        if code == n.value {
          assert rule in config.rules && RuleNames(lib, rule, code);
          return true;
        }
      }
      return code in config.statusCodes;
    }
  }

  predicate RuleNames(lib: Library, rule: Rule, code: int) {
    rule.enabled && rule.ruleType == StatusCode && lib.atoi(rule.value) == Some(code)
  }

  ghost predicate BlocksStatus(lib: Library, c: Config, code: int) {
    code in c.statusCodes || exists rule :: rule in c.rules && RuleNames(lib, rule, code)
  }

  // -------------------------------------------------------------------------
  // Priorities affect only the reason.
  // -------------------------------------------------------------------------

  ghost predicate HasExtension(lib: Library, url: string, ext: string) {
    lib.extension(url) != "" && NormalizeExtension(ext) == lib.extension(url)
  }

  ghost predicate ByRule(lib: Library, rules: seq<Rule>, url: string) {
    exists rule :: rule in rules && RuleMatches(lib, url, rule)
  }

  ghost predicate ByPattern(lib: Library, patterns: seq<string>, url: string) {
    exists pattern :: pattern in patterns && lib.glob(pattern, url)
  }

  ghost predicate ByExtension(lib: Library, exts: seq<string>, url: string) {
    exists ext :: ext in exts && HasExtension(lib, url, ext)
  }

  /** The plain disjunction over everything a configuration lists. */
  ghost predicate Blocks(lib: Library, c: Config, url: string) {
    ByRule(lib, c.rules, url) || ByPattern(lib, c.patterns, url) || ByExtension(lib, c.extensions, url)
  }

  lemma {:induction false} PatternFound(lib: Library, url: string, patterns: seq<string>)
    ensures MatchPattern(lib, url, patterns).Some? <==> exists pattern :: pattern in patterns && lib.glob(pattern, url)
  {
    if patterns != [] {
      PatternFound(lib, url, patterns[1..]);
      assert patterns == [patterns[0]] + patterns[1..];
    }
  }

  lemma {:induction false} ExtensionFound(lib: Library, url: string, exts: seq<string>)
    ensures MatchExtension(lib, url, exts).Some? ==> exists ext :: ext in exts && HasExtension(lib, url, ext)
    ensures MatchExtension(lib, url, exts).None? ==> forall ext :: ext in exts ==> !HasExtension(lib, url, ext)
  {
    if exts != [] {
      assert exts == [exts[0]] + exts[1..];
      ExtensionFound(lib, url, exts[1..]);
      if HasExtension(lib, url, exts[0]) {
        assert exts[0] in exts;
      } else if MatchExtension(lib, url, exts[1..]).Some? {
        var ext :| ext in exts[1..] && HasExtension(lib, url, ext);
        assert ext in exts;
      }
    }
  }

  lemma {:induction false} RuleFound(lib: Library, url: string, rules: seq<Rule>)
    ensures FirstRule(lib, url, rules).Some? <==> exists rule :: rule in rules && RuleMatches(lib, url, rule)
  {
    if rules != [] {
      RuleFound(lib, url, rules[1..]);
      assert rules == [rules[0]] + rules[1..];
    }
  }

  /** The empty configuration is the one that lists nothing, and it filters nothing. */
  lemma EmptyFiltersNothing(lib: Library, c: Config, url: string, code: int)
    ensures IsEmpty(c) <==> c == Config([], [], [], [])
    ensures IsEmpty(c) ==> !Blocks(lib, c, url) && !BlocksStatus(lib, c, code)
  {}

  /** Whatever the priorities and whatever order the unstable sort leaves, a URL is filtered
      exactly when some enabled rule, pattern or extension of the configuration matches. */
  lemma FlagIsDisjunction(lib: Library, c: Config, order: seq<Rule>, url: string)
    requires multiset(order) == multiset(c.rules)
    ensures Decision(lib, c, order, url).filtered <==> Blocks(lib, c, url)
  {
    PatternFound(lib, url, c.patterns);
    ExtensionFound(lib, url, c.extensions);
    RuleFound(lib, url, order);
    forall rule ensures rule in order <==> rule in c.rules {
      assert rule in multiset(order) <==> rule in multiset(c.rules);
    }
  }

  lemma {:induction false} FirstIsFirst(lib: Library, url: string, rules: seq<Rule>) returns (i: nat)
    requires FirstRule(lib, url, rules).Some?
    ensures i < |rules| && rules[i] == FirstRule(lib, url, rules).value && RuleMatches(lib, url, rules[i])
    ensures forall j :: 0 <= j < i ==> !RuleMatches(lib, url, rules[j])
  {
    if RuleMatches(lib, url, rules[0]) {
      i := 0;
    } else {
      i := FirstIsFirst(lib, url, rules[1..]);
      i := i + 1;
    }
  }

  /** What the priorities do decide: the reason names a matching rule of the highest priority. */
  lemma ReasonHasHighestPriority(lib: Library, c: Config, order: seq<Rule>, url: string, other: Rule)
    requires IsSorting(c.rules, order) && other in c.rules && RuleMatches(lib, url, other)
    ensures exists rule :: rule in c.rules && RuleMatches(lib, url, rule) && rule.priority >= other.priority
                           && (rule.ruleType == Pattern || rule.ruleType == Extension)
                           && Decision(lib, c, order, url)
                              == Result(true, (if rule.ruleType == Pattern then "pattern:" else "extension:") + rule.value)
  {
    assert other in multiset(order);
    RuleFound(lib, url, order);
    var i := FirstIsFirst(lib, url, order);
    assert order[i] in multiset(c.rules);
    var j :| 0 <= j < |order| && order[j] == other;
    assert order[i].priority >= other.priority;
    assert "pattern" + ":" == "pattern:" && "extension" + ":" == "extension:";
  }

  /** Where no rule matches, the first matching pattern is the reason, and without one the
      extension of the URL. */
  lemma ReasonOfLists(lib: Library, c: Config, order: seq<Rule>, url: string)
    requires multiset(order) == multiset(c.rules) && !ByRule(lib, c.rules, url)
    ensures forall i :: 0 <= i < |c.patterns| && lib.glob(c.patterns[i], url) && !ByPattern(lib, c.patterns[..i], url) ==>
              Decision(lib, c, order, url) == Result(true, "pattern:" + c.patterns[i])
    ensures !ByPattern(lib, c.patterns, url) && ByExtension(lib, c.extensions, url) ==>
              Decision(lib, c, order, url) == Result(true, "extension:" + lib.extension(url))
    ensures !ByPattern(lib, c.patterns, url) && !ByExtension(lib, c.extensions, url) ==>
              Decision(lib, c, order, url) == Result(false, "")
  {
    NoRuleIn(lib, c, order, url);
    PatternFound(lib, url, c.patterns);
    ExtensionFound(lib, url, c.extensions);
    ExtensionIsOfUrl(lib, url, c.extensions);
    forall i | 0 <= i < |c.patterns| && lib.glob(c.patterns[i], url) && !ByPattern(lib, c.patterns[..i], url)
      ensures MatchPattern(lib, url, c.patterns) == Some(c.patterns[i])
    {
      PatternIsFirst(lib, url, c.patterns, i);
    }
  }

  lemma NoRuleIn(lib: Library, c: Config, order: seq<Rule>, url: string)
    requires multiset(order) == multiset(c.rules) && !ByRule(lib, c.rules, url)
    ensures FirstRule(lib, url, order).None?
  {
    RuleFound(lib, url, order);
    forall rule | rule in order ensures rule in c.rules { assert rule in multiset(order); }
  }

  lemma {:induction false} PatternIsFirst(lib: Library, url: string, patterns: seq<string>, i: nat)
    requires i < |patterns| && lib.glob(patterns[i], url) && !ByPattern(lib, patterns[..i], url)
    ensures MatchPattern(lib, url, patterns) == Some(patterns[i])
  {
    if i > 0 {
      assert patterns[..i][0] == patterns[0] && patterns[..i] == [patterns[0]] + patterns[1..][..i - 1];
      PatternIsFirst(lib, url, patterns[1..], i - 1);
    }
  }

  lemma {:induction false} ExtensionIsOfUrl(lib: Library, url: string, exts: seq<string>)
    ensures MatchExtension(lib, url, exts).Some? ==> MatchExtension(lib, url, exts) == Some(lib.extension(url))
  {
    if exts != [] { ExtensionIsOfUrl(lib, url, exts[1..]); }
  }

  // -------------------------------------------------------------------------
  // ... also through merging.
  // -------------------------------------------------------------------------

  lemma KeptValues<T(!new)>(dst: seq<T>, src: seq<T>, t: T)
    ensures t in AppendNew(dst, src, Itself()) <==> t in dst || t in src
  {
    if t in AppendNew(dst, src, Itself()) { AppendedFrom(dst, src, Itself(), t); }
    if t in dst || t in src { EveryKeyIsIn(dst, src, Itself(), t); }
  }

  lemma PatternsCombine(lib: Library, dst: seq<string>, src: seq<string>, url: string)
    ensures ByPattern(lib, AppendNew(dst, src, Itself()), url) <==> ByPattern(lib, dst, url) || ByPattern(lib, src, url)
  {
    forall p ensures p in AppendNew(dst, src, Itself()) <==> p in dst || p in src { KeptValues(dst, src, p); }
  }

  lemma {:induction false} NormalizingKeepsMatches(lib: Library, exts: seq<string>, url: string)
    ensures ByExtension(lib, NormalizeEach(exts), url) <==> ByExtension(lib, exts, url)
  {
    if exts != [] {
      var n, rest := NormalizeExtension(exts[0]), exts[1..];
      NormalizingKeepsMatches(lib, rest, url);
      NormalizeTwice(exts[0]);
      ExtensionConsed(lib, exts[0], rest, url);
      ExtensionConsed(lib, n, NormalizeEach(rest), url);
      assert exts == [exts[0]] + rest;
    }
  }

  lemma ExtensionConsed(lib: Library, ext: string, exts: seq<string>, url: string)
    ensures ByExtension(lib, [ext] + exts, url) <==> HasExtension(lib, url, ext) || ByExtension(lib, exts, url)
  {
    if HasExtension(lib, url, ext) { assert ext in [ext] + exts; }
    if ByExtension(lib, exts, url) {
      var e :| e in exts && HasExtension(lib, url, e);
      assert e in [ext] + exts;
    }
  }

  lemma ExtensionsCombine(lib: Library, dst: seq<string>, src: seq<string>, url: string)
    ensures ByExtension(lib, AppendNew(dst, NormalizeEach(src), Itself()), url)
       <==> ByExtension(lib, dst, url) || ByExtension(lib, src, url)
  {
    var all := AppendNew(dst, NormalizeEach(src), Itself());
    forall e ensures e in all <==> e in dst || e in NormalizeEach(src) { KeptValues(dst, NormalizeEach(src), e); }
    NormalizingKeepsMatches(lib, src, url);
    if ByExtension(lib, all, url) {
      var e :| e in all && HasExtension(lib, url, e);
      assert e in dst || e in NormalizeEach(src);
    }
  }

  ghost predicate IdsIdentify(a: seq<Rule>, b: seq<Rule>) {
    forall r, r' :: (r in a || r in b) && (r' in a || r' in b) && r.id == r'.id ==> r == r'
  }

  lemma KeptRules(dst: seq<Rule>, src: seq<Rule>)
    ensures forall r :: r in AppendNew(dst, src, ID_OF) ==> r in dst || r in src
    ensures forall r :: r in dst ==> r in AppendNew(dst, src, ID_OF)
    ensures IdsIdentify(dst, src) ==> forall r :: r in src ==> r in AppendNew(dst, src, ID_OF)
  {
    var all := AppendNew(dst, src, ID_OF);
    forall r | r in all ensures r in dst || r in src { AppendedFrom(dst, src, ID_OF, r); }
    AppendKeeps(dst, src, ID_OF);
    if IdsIdentify(dst, src) {
      forall r | r in src ensures r in all {
        EveryKeyIsIn(dst, src, ID_OF, r);
        var i :| 0 <= i < |all| && ID_OF(all[i]) == r.id;
        assert all[i] in all;
      }
    }
  }

  lemma RulesCombine(lib: Library, dst: seq<Rule>, src: seq<Rule>, url: string)
    ensures ByRule(lib, AppendNew(dst, src, ID_OF), url) ==> ByRule(lib, dst, url) || ByRule(lib, src, url)
    ensures ByRule(lib, dst, url) ==> ByRule(lib, AppendNew(dst, src, ID_OF), url)
    ensures IdsIdentify(dst, src) && ByRule(lib, src, url) ==> ByRule(lib, AppendNew(dst, src, ID_OF), url)
  {
    KeptRules(dst, src);
  }

  /** What the skip lists of a configuration match. */
  ghost predicate ByLists(lib: Library, c: Config, url: string) {
    ByPattern(lib, c.patterns, url) || ByExtension(lib, c.extensions, url)
  }

  ghost predicate SomeByLists(lib: Library, configs: seq<Option<Config>>, url: string) {
    exists i :: 0 <= i < |configs| && configs[i].Some? && ByLists(lib, configs[i].value, url)
  }

  ghost predicate SomeBlocks(lib: Library, configs: seq<Option<Config>>, url: string) {
    exists i :: 0 <= i < |configs| && configs[i].Some? && Blocks(lib, configs[i].value, url)
  }

  lemma CombineLists(lib: Library, acc: Config, c: Config, url: string)
    ensures ByLists(lib, Combine(acc, c), url) <==> ByLists(lib, acc, url) || ByLists(lib, c, url)
  {
    PatternsCombine(lib, acc.patterns, c.patterns, url);
    ExtensionsCombine(lib, acc.extensions, c.extensions, url);
  }

  lemma {:induction false} CombineAllLists(lib: Library, acc: Config, configs: seq<Option<Config>>, url: string)
    ensures ByLists(lib, CombineAll(acc, configs), url) <==> ByLists(lib, acc, url) || SomeByLists(lib, configs, url)
    decreases |configs|
  {
    if configs != [] {
      if configs[0].Some? {
        CombineLists(lib, acc, configs[0].value, url);
        CombineAllLists(lib, Combine(acc, configs[0].value), configs[1..], url);
      } else {
        CombineAllLists(lib, acc, configs[1..], url);
      }
    }
  }

  lemma {:induction false} RulesOfSome(lib: Library, configs: seq<Option<Config>>, url: string)
    ensures SomeBlocks(lib, configs, url) <==> SomeByLists(lib, configs, url) || ByRule(lib, AllRules(configs), url)
  {
    if configs != [] { RulesOfSome(lib, configs[1..], url); }
  }

  /** Merging keeps the decision, in any order of the rules: the merged configuration filters
      a URL exactly when a skip list of one of the merged ones does, or a rule that is the
      first with its id; so where ids identify rules, exactly when one of them filters it. */
  lemma MergedDecision(lib: Library, configs: seq<Option<Config>>, order: seq<Rule>, url: string)
    requires multiset(order) == multiset(Merge(configs).rules)
    ensures Decision(lib, Merge(configs), order, url).filtered
       <==> SomeByLists(lib, configs, url) || ByRule(lib, Winners(AllRules(configs)), url)
    ensures IdsIdentify([], AllRules(configs)) ==>
              (Decision(lib, Merge(configs), order, url).filtered <==> SomeBlocks(lib, configs, url))
  {
    FlagIsDisjunction(lib, Merge(configs), order, url);
    CombineAllLists(lib, EMPTY_CONFIG, configs, url);
    CombineAllRules(EMPTY_CONFIG, configs);
    RulesCombine(lib, [], AllRules(configs), url);
    RulesOfSome(lib, configs, url);
  }

  lemma {:induction false} ValueIsOfRule(rules: seq<Rule>, t: RuleType, v: string)
    ensures v in ValuesOf(rules, t) <==> exists r :: r in rules && r.enabled && r.ruleType == t && r.value == v
  {
    if rules != [] {
      ValueIsOfRule(rules[1..], t, v);
      assert rules == [rules[0]] + rules[1..];
    }
  }

  lemma OneValue(lib: Library, url: string, rule: Rule)
    ensures RuleMatches(lib, url, rule) <==>
              (rule.enabled && ((rule.ruleType == Pattern && lib.glob(rule.value, url))
                                || (rule.ruleType == Extension && HasExtension(lib, url, rule.value))))
  {
    assert rule.value in [rule.value];
    PatternFound(lib, url, [rule.value]);
    ExtensionFound(lib, url, [rule.value]);
  }

  /** The skip lists made of rules match exactly what the rules match. */
  lemma ListsAreRules(lib: Library, rules: seq<Rule>, url: string)
    ensures ByPattern(lib, ValuesOf(rules, Pattern), url) || ByExtension(lib, ValuesOf(rules, Extension), url) <==> ByRule(lib, rules, url)
  {
    if ByPattern(lib, ValuesOf(rules, Pattern), url) {
      var v :| v in ValuesOf(rules, Pattern) && lib.glob(v, url);
      ValueIsOfRule(rules, Pattern, v);
      var r :| r in rules && r.enabled && r.ruleType == Pattern && r.value == v;
      OneValue(lib, url, r);
    }
    if ByExtension(lib, ValuesOf(rules, Extension), url) {
      var v :| v in ValuesOf(rules, Extension) && HasExtension(lib, url, v);
      ValueIsOfRule(rules, Extension, v);
      var r :| r in rules && r.enabled && r.ruleType == Extension && r.value == v;
      OneValue(lib, url, r);
    }
    if ByRule(lib, rules, url) {
      var r :| r in rules && RuleMatches(lib, url, r);
      OneValue(lib, url, r);
      ValueIsOfRule(rules, r.ruleType, r.value);
    }
  }

  /** Whether the rules are those of a list of three configurations. */
  lemma RulesOfThree(a: Config, b: Config, c: Config)
    ensures AllRules([Some(a), Some(b), Some(c)]) == (a.rules + b.rules) + c.rules
  {
    var all := [Some(a), Some(b), Some(c)];
    assert all[1..] == [Some(b), Some(c)] && all[1..][1..] == [Some(c)] && [Some(c)][1..] == [];
    assert AllRules([Some(c)]) == c.rules + [] == c.rules;
    assert AllRules(all[1..]) == b.rules + c.rules;
  }

  /** Rules that come last, and are in the skip lists besides, may lose their ids. */
  lemma LastRules(lib: Library, own: seq<Rule>, rules: seq<Rule>, url: string)
    ensures ByRule(lib, Winners(own + rules), url) || ByRule(lib, rules, url)
       <==> ByRule(lib, Winners(own), url) || ByRule(lib, rules, url)
  {
    AppendConcat([], own, rules, ID_OF);
    RulesCombine(lib, Winners(own), rules, url);
  }

  /** The configuration of a website as it is loaded: a URL is filtered exactly when a skip
      list, a rule of the website, or a rule of one of the configurations that is the first
      with its id matches; neither priorities nor the order of the rules matter, nor do ids,
      unless the two configurations have different rules of one id. */
  lemma LoadedDecision(lib: Library, global: Config, website: Config, rules: seq<Rule>, order: seq<Rule>, url: string)
    requires multiset(order) == multiset(Merge([Some(global), Some(website), Some(FromRules(lib, rules))]).rules)
    ensures Decision(lib, Merge([Some(global), Some(website), Some(FromRules(lib, rules))]), order, url).filtered
       <==> ByLists(lib, global, url) || ByLists(lib, website, url) || ByRule(lib, rules, url)
            || ByRule(lib, Winners(global.rules + website.rules), url)
    ensures IdsIdentify(global.rules, website.rules) ==>
              (Decision(lib, Merge([Some(global), Some(website), Some(FromRules(lib, rules))]), order, url).filtered
               <==> Blocks(lib, global, url) || Blocks(lib, website, url) || ByRule(lib, rules, url))
  {
    var c := FromRules(lib, rules);
    var all, own := [Some(global), Some(website), Some(c)], global.rules + website.rules;
    MergedDecision(lib, all, order, url);
    RulesOfThree(global, website, c);
    LastRules(lib, own, rules, url);
    ListsAreRules(lib, rules, url);
    ListsOfThree(lib, global, website, c, url);
    OwnRules(lib, global.rules, website.rules, url);
  }

  lemma ListsOfThree(lib: Library, a: Config, b: Config, c: Config, url: string)
    ensures SomeByLists(lib, [Some(a), Some(b), Some(c)], url) <==> ByLists(lib, a, url) || ByLists(lib, b, url) || ByLists(lib, c, url)
  {
    var all := [Some(a), Some(b), Some(c)];
    assert all[0] == Some(a) && all[1] == Some(b) && all[2] == Some(c);
  }

  /** Where ids identify rules, none loses its id to another. */
  lemma OwnRules(lib: Library, a: seq<Rule>, b: seq<Rule>, url: string)
    ensures IdsIdentify(a, b) ==> (ByRule(lib, Winners(a + b), url) <==> ByRule(lib, a, url) || ByRule(lib, b, url))
  {
    RulesCombine(lib, [], a + b, url);
    if IdsIdentify(a, b) {
      forall r ensures r in a + b <==> r in a || r in b {}
      assert IdsIdentify([], a + b);
    }
  }

  // -------------------------------------------------------------------------
  // Status codes.
  // -------------------------------------------------------------------------

  lemma {:induction false} NumberIsOfValue(lib: Library, values: seq<string>, n: int)
    ensures n in Numbers(lib, values) <==> exists v :: v in values && lib.atoi(v) == Some(n)
  {
    if values != [] {
      NumberIsOfValue(lib, values[1..], n);
      assert values == [values[0]] + values[1..];
    }
  }

  ghost predicate NamesStatus(lib: Library, rules: seq<Rule>, code: int) {
    exists rule :: rule in rules && RuleNames(lib, rule, code)
  }

  ghost predicate SomeListsStatus(configs: seq<Option<Config>>, code: int) {
    exists i :: 0 <= i < |configs| && configs[i].Some? && code in configs[i].value.statusCodes
  }

  lemma {:induction false} CombineAllCodes(acc: Config, configs: seq<Option<Config>>, code: int)
    ensures code in CombineAll(acc, configs).statusCodes <==> code in acc.statusCodes || SomeListsStatus(configs, code)
    decreases |configs|
  {
    if configs != [] {
      if configs[0].Some? {
        KeptValues(acc.statusCodes, configs[0].value.statusCodes, code);
        CombineAllCodes(Combine(acc, configs[0].value), configs[1..], code);
      } else {
        CombineAllCodes(acc, configs[1..], code);
      }
    }
  }

  lemma NamesCombine(lib: Library, dst: seq<Rule>, src: seq<Rule>, code: int)
    ensures NamesStatus(lib, AppendNew(dst, src, ID_OF), code) ==> NamesStatus(lib, dst, code) || NamesStatus(lib, src, code)
    ensures NamesStatus(lib, dst, code) ==> NamesStatus(lib, AppendNew(dst, src, ID_OF), code)
    ensures IdsIdentify(dst, src) && NamesStatus(lib, src, code) ==> NamesStatus(lib, AppendNew(dst, src, ID_OF), code)
  {
    KeptRules(dst, src);
  }

  lemma {:induction false} CodesOfSome(lib: Library, configs: seq<Option<Config>>, code: int)
    ensures (exists i :: 0 <= i < |configs| && configs[i].Some? && BlocksStatus(lib, configs[i].value, code))
       <==> SomeListsStatus(configs, code) || NamesStatus(lib, AllRules(configs), code)
  {
    if configs != [] { CodesOfSome(lib, configs[1..], code); }
  }

  /** Merging keeps the decision about a status code, too. */
  lemma MergedStatusDecision(lib: Library, configs: seq<Option<Config>>, code: int)
    ensures BlocksStatus(lib, Merge(configs), code)
       <==> SomeListsStatus(configs, code) || NamesStatus(lib, Winners(AllRules(configs)), code)
    ensures IdsIdentify([], AllRules(configs)) ==>
              (BlocksStatus(lib, Merge(configs), code)
               <==> exists i :: 0 <= i < |configs| && configs[i].Some? && BlocksStatus(lib, configs[i].value, code))
  {
    CombineAllCodes(EMPTY_CONFIG, configs, code);
    CombineAllRules(EMPTY_CONFIG, configs);
    NamesCombine(lib, [], AllRules(configs), code);
    CodesOfSome(lib, configs, code);
  }

  /** And loading a website's configuration. */
  lemma LoadedStatusDecision(lib: Library, global: Config, website: Config, rules: seq<Rule>, code: int)
    ensures BlocksStatus(lib, Merge([Some(global), Some(website), Some(FromRules(lib, rules))]), code)
       <==> code in global.statusCodes || code in website.statusCodes || NamesStatus(lib, rules, code)
            || NamesStatus(lib, Winners(global.rules + website.rules), code)
    ensures IdsIdentify(global.rules, website.rules) ==>
              (BlocksStatus(lib, Merge([Some(global), Some(website), Some(FromRules(lib, rules))]), code)
               <==> BlocksStatus(lib, global, code) || BlocksStatus(lib, website, code) || NamesStatus(lib, rules, code))
  {
    var c := FromRules(lib, rules);
    var all, own := [Some(global), Some(website), Some(c)], global.rules + website.rules;
    MergedStatusDecision(lib, all, code);
    RulesOfThree(global, website, c);
    AppendConcat([], own, rules, ID_OF);
    NamesCombine(lib, Winners(own), rules, code);
    CodesAreRules(lib, rules, code);
    assert all[0] == Some(global) && all[1] == Some(website) && all[2] == Some(c);
    assert SomeListsStatus(all, code) <==> code in global.statusCodes || code in website.statusCodes || code in c.statusCodes;
    NamesCombine(lib, [], own, code);
  }

  lemma CodesAreRules(lib: Library, rules: seq<Rule>, code: int)
    ensures code in FromRules(lib, rules).statusCodes <==> NamesStatus(lib, rules, code)
  {
    NumberIsOfValue(lib, ValuesOf(rules, StatusCode), code);
    if v :| v in ValuesOf(rules, StatusCode) && lib.atoi(v) == Some(code) {
      ValueIsOfRule(rules, StatusCode, v);
      var r :| r in rules && r.enabled && r.ruleType == StatusCode && r.value == v;
      assert RuleNames(lib, r, code);
    }
    if r :| r in rules && RuleNames(lib, r, code) {
      ValueIsOfRule(rules, StatusCode, r.value);
    }
  }

  // -------------------------------------------------------------------------
  // Patterns are globs.
  // -------------------------------------------------------------------------

  /** The library's glob is the matcher, wherever that one does not panic. */
  ghost predicate UsesMatcher(lib: Library) {
    forall pattern, url :: FuzzyGlob.GlobMatch(pattern, url).Answer? ==>
      lib.glob(pattern, url) == FuzzyGlob.GlobMatch(pattern, url).matched
  }

  /** What a pattern rule filters: the URLs that its pattern matches, read as a glob. With
      `**` and no star between two of them it filters all of these, and without single stars
      no others iff the parts cannot share bytes. In general, where the matcher does not panic,
      the first and the last part have to match a prefix and a suffix, and the parts between
      to be found in turn. */
  lemma PatternRuleIsGlob(lib: Library, url: string, rule: Rule)
    requires UsesMatcher(lib) && '*' !in url && rule.enabled && rule.ruleType == Pattern
    ensures |FuzzyGlob.Split(rule.value)| == 1 ==> (RuleMatches(lib, url, rule) <==> Glob.Matches(rule.value, url))
    ensures FuzzyGlob.StarFree(FuzzyGlob.MiddleParts(FuzzyGlob.Split(rule.value))) && Glob.Matches(rule.value, url) ==>
              RuleMatches(lib, url, rule)
    ensures FuzzyGlob.StarFree(FuzzyGlob.Split(rule.value))
            && (|FuzzyGlob.Split(rule.value)| == 1 || GlobOverlap.Apart(FuzzyGlob.Split(rule.value))) ==>
              (RuleMatches(lib, url, rule) <==> Glob.Matches(rule.value, url))
    ensures var parts := FuzzyGlob.Split(rule.value);
            |parts| > 1 && FuzzyGlob.GlobMatch(rule.value, url).Answer? ==>
              (RuleMatches(lib, url, rule) <==>
                 && FuzzyGlob.SomePrefix(parts[0], url) && FuzzyGlob.SomeSuffix(parts[|parts| - 1], url)
                 && FuzzyGlob.CanBeFound(FuzzyGlob.MiddleParts(parts), url, 0))
  {
    OneValue(lib, url, rule);
    var parts := FuzzyGlob.Split(rule.value);
    FuzzyGlob.FuzzyPathAccepts(parts, url);
    if |parts| == 1 { Glob.ScanIsExact(rule.value, url); }
    if FuzzyGlob.StarFree(FuzzyGlob.MiddleParts(parts)) && Glob.Matches(rule.value, url) {
      FuzzyGlob.GlobAcceptsMeaning(rule.value, url);
    }
    if FuzzyGlob.StarFree(parts) { GlobOverlap.ExactWhenApart(rule.value); }
  }
}
