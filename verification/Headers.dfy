/** Header normalisation and the header diff of internal/tracker/helpers.go.
    A Go map is visited in no fixed order; `order` is the order of one visit. */
module Headers {
  import opened Text

  type Header = map<string, seq<string>>

  const REDACTED := ["[REDACTED]"]

  predicate IsSensitive(name: string) {
    ToLower(name) in {"authorization", "cookie", "set-cookie", "proxy-authorization",
                      "www-authenticate", "proxy-authenticate", "x-api-key", "x-auth-token"}
  }

  predicate IsOrderSensitive(name: string) {
    ToLower(name) in {"set-cookie", "www-authenticate", "proxy-authenticate"}
  }

  // -------------------------------------------------------------------------
  // Normalisation.
  // -------------------------------------------------------------------------

  /** `order` visits every key once. */
  ghost predicate Visits(order: seq<string>, keys: set<string>) {
    && (forall i, j :: 0 <= i < j < |order| ==> order[i] != order[j])
    && (forall n :: n in order <==> n in keys)
  }

  lemma HeadIsIn(s: seq<string>)
    ensures s != [] ==> s[0] in s
  {}

  function Trimmed(values: seq<string>): seq<string> {
    if values == [] then []
    else if TrimSpace(values[0]) == "" then Trimmed(values[1..])
    else [TrimSpace(values[0])] + Trimmed(values[1..])
  }

  /** The values of every spelling of `name`, in visit order. */
  function Collected(h: Header, order: seq<string>, name: string): seq<string>
    requires forall n :: n in order ==> n in h
  {
    if order == [] then []
    else if ToLower(order[0]) == name then Trimmed(h[order[0]]) + Collected(h, order[1..], name)
    else Collected(h, order[1..], name)
  }

  function Canonical(name: string, values: seq<string>, redact: bool): seq<string> {
    if redact && IsSensitive(name) then REDACTED
    else if IsOrderSensitive(name) then values
    else Sort(values)
  }

  function LowerNames(order: seq<string>): set<string> {
    if order == [] then {} else {ToLower(order[0])} + LowerNames(order[1..])
  }

  ghost function Gathered(h: Header, order: seq<string>): Header
    requires forall n :: n in order ==> n in h
  {
    map name | name in LowerNames(order) && Collected(h, order, name) != [] :: Collected(h, order, name)
  }

  ghost function Normalized(h: Header, order: seq<string>, redact: bool): Header
    requires forall n :: n in order ==> n in h
  {
    var g := Gathered(h, order);
    map name | name in g :: Canonical(name, g[name], redact)
  }

  lemma {:induction false} CollectedSnoc(h: Header, order: seq<string>, last: string, name: string)
    requires forall n :: n in order + [last] ==> n in h
    requires forall n :: n in order ==> n in h
    ensures Collected(h, order + [last], name)
         == if ToLower(last) == name then Collected(h, order, name) + Trimmed(h[last]) else Collected(h, order, name)
  {
    if order == [] {
      assert order + [last] == [last] && [last][1..] == [];
      assert Trimmed(h[last]) + [] == [] + Trimmed(h[last]);
    } else {
      assert (order + [last])[0] == order[0] && (order + [last])[1..] == order[1..] + [last];
      CollectedSnoc(h, order[1..], last, name);
    }
  }

  lemma TrimmedStep(done: seq<string>, values: seq<string>)
    requires values != []
    ensures done + Trimmed(values)
         == (if TrimSpace(values[0]) == "" then done else done + [TrimSpace(values[0])]) + Trimmed(values[1..])
  {
    Shift(done, TrimSpace(values[0]), Trimmed(values[1..]));
  }

  function Get(h: Header, name: string): seq<string> {
    if name in h then h[name] else []
  }

  /** The map under construction holds what the visited keys have contributed. */
  ghost predicate HoldsCollected(norm: Header, h: Header, order: seq<string>)
    requires forall n :: n in order ==> n in h
  {
    && (forall name :: Get(norm, name) == Collected(h, order, name))
    && (forall name :: name in norm ==> norm[name] != [])
  }

  lemma {:induction false} CollectedSource(h: Header, order: seq<string>, name: string)
    requires forall n :: n in order ==> n in h
    ensures Collected(h, order, name) != [] ==> name in LowerNames(order)
    ensures name in LowerNames(order) ==> exists raw :: raw in order && ToLower(raw) == name
  {
    if order != [] {
      CollectedSource(h, order[1..], name);
      assert order[0] in order;
    }
  }

  lemma HoldsCollectedIsGathered(norm: Header, h: Header, order: seq<string>)
    requires forall n :: n in order ==> n in h
    requires HoldsCollected(norm, h, order)
    ensures norm == Gathered(h, order)
  {
    var g := Gathered(h, order);
    forall name ensures (name in norm <==> name in g) && (name in norm ==> norm[name] == g[name]) {
      assert Get(norm, name) == Collected(h, order, name);
      CollectedSource(h, order, name);
    }
  }

  lemma {:induction false} HoldsOneMore(norm: Header, norm': Header, h: Header, order: seq<string>, name: string)
    requires name in h && forall n :: n in order ==> n in h
    requires HoldsCollected(norm, h, order)
    requires forall n :: n in norm' ==> norm'[n] != []
    requires forall n :: n != ToLower(name) ==> Get(norm', n) == Get(norm, n)
    requires Get(norm', ToLower(name)) == Get(norm, ToLower(name)) + Trimmed(h[name])
    ensures (forall n :: n in order + [name] ==> n in h) && HoldsCollected(norm', h, order + [name])
  {
    forall n ensures Get(norm', n) == Collected(h, order + [name], n) {
      CollectedSnoc(h, order, name, n);
      assert Get(norm, n) == Collected(h, order, n);
    }
  }

  lemma VisitsOneMore(order: seq<string>, keys: set<string>, todo: set<string>, name: string)
    requires todo <= keys && name in keys - todo && Visits(order, keys - todo - {name})
    ensures Visits(order + [name], keys - todo)
  {}

  method AppendTrimmed(norm: Header, normName: string, values: seq<string>) returns (norm': Header)
    requires forall n :: n in norm ==> norm[n] != []
    ensures forall n :: n in norm' ==> norm'[n] != []
    ensures forall n :: n != normName ==> Get(norm', n) == Get(norm, n)
    ensures Get(norm', normName) == Get(norm, normName) + Trimmed(values)
  {
    norm' := norm;
    ghost var rest := values;
    for i := 0 to |values|
      invariant rest == values[i..]
      invariant forall n :: n in norm' ==> norm'[n] != []
      invariant forall n :: n != normName ==> Get(norm', n) == Get(norm, n)
      invariant Get(norm', normName) + Trimmed(rest) == Get(norm, normName) + Trimmed(values)
    {
      TrimmedStep(Get(norm', normName), rest);
      rest := rest[1..];
      var trimmed := TrimSpace(values[i]);
      if trimmed != "" {
        norm' := norm'[normName := Get(norm', normName) + [trimmed]];
      }
    }
  }

  /** First pass: collect the trimmed values of every lower-cased name. */
  method GatherHeaders(h: Header) returns (norm: Header, ghost order: seq<string>)
    ensures Visits(order, h.Keys) && norm == Gathered(h, order)
  {
    norm := map[];
    order := [];
    var todo := h.Keys;
    while todo != {}
      invariant todo <= h.Keys && Visits(order, h.Keys - todo)
      invariant forall n :: n in order ==> n in h
      invariant HoldsCollected(norm, h, order)
      decreases todo
    {
      var name :| name in todo;
      var norm' := AppendTrimmed(norm, ToLower(name), h[name]);
      HoldsOneMore(norm, norm', h, order, name);
      norm := norm';
      todo := todo - {name};
      assert h.Keys - todo - {name} == h.Keys - (todo + {name});
      VisitsOneMore(order, h.Keys, todo, name);
      order := order + [name];
    }
    HoldsCollectedIsGathered(norm, h, order);
  }

  method CanonicalValues(name: string, values: seq<string>, redact: bool) returns (r: seq<string>)
    ensures r == Canonical(name, values, redact)
  {
    r := values;
    if redact && IsSensitive(name) {
      r := REDACTED;
    } else if !IsOrderSensitive(name) {
      r := Sort(values);
    }
  }

  lemma IsNormalized(norm: Header, gathered: Header, h: Header, order: seq<string>, redact: bool)
    requires (forall n :: n in order ==> n in h) && gathered == Gathered(h, order) && norm.Keys == gathered.Keys
    requires forall n :: n in norm ==> norm[n] == Canonical(n, gathered[n], redact)
    ensures norm == Normalized(h, order, redact)
  {
    forall n ensures n in norm <==> n in Normalized(h, order, redact) {
      assert n in norm.Keys <==> n in gathered.Keys;
    }
  }

  method NormalizeHeaders(h: Header, redact: bool) returns (norm: Header, ghost order: seq<string>)
    ensures Visits(order, h.Keys) && norm == Normalized(h, order, redact)
  {
    norm, order := GatherHeaders(h);
    ghost var gathered := norm;
    var names := norm.Keys;
    while names != {}
      invariant names <= gathered.Keys == norm.Keys
      invariant forall n :: n in names ==> norm[n] == gathered[n]
      invariant forall n :: n in norm && n !in names ==> norm[n] == Canonical(n, gathered[n], redact)
      decreases names
    {
      var normName :| normName in names;
      names := names - {normName};
      var values := CanonicalValues(normName, norm[normName], redact);
      norm := norm[normName := values];
    }
    IsNormalized(norm, gathered, h, order, redact);
  }

  // -------------------------------------------------------------------------
  // Normalisation does not depend on the visit order or on the value order,
  // except for headers whose order is significant.
  // -------------------------------------------------------------------------

  function Without(order: seq<string>, i: nat): seq<string>
    requires i < |order|
  {
    order[..i] + order[i + 1..]
  }

  lemma {:induction false} CollectedExtract(h: Header, order: seq<string>, i: nat, name: string)
    requires i < |order| && forall n :: n in order ==> n in h
    ensures multiset(Collected(h, order, name))
         == multiset(if ToLower(order[i]) == name then Trimmed(h[order[i]]) else [])
            + multiset(Collected(h, Without(order, i), name))
  {
    if i == 0 {
      assert Without(order, 0) == order[1..];
    } else {
      assert Without(order, i)[1..] == Without(order[1..], i - 1);
      CollectedExtract(h, order[1..], i - 1, name);
    }
  }

  ghost predicate SameUpToValueOrder(h: Header, h': Header) {
    h.Keys == h'.Keys && forall n :: n in h ==> multiset(h[n]) == multiset(h'[n])
  }

  lemma {:induction false} TrimmedExtract(values: seq<string>, i: nat)
    requires i < |values|
    ensures multiset(Trimmed(values))
         == multiset(if TrimSpace(values[i]) == "" then [] else [TrimSpace(values[i])])
            + multiset(Trimmed(Without(values, i)))
  {
    if i == 0 {
      assert Without(values, 0) == values[1..];
    } else {
      assert Without(values, i)[1..] == Without(values[1..], i - 1);
      TrimmedExtract(values[1..], i - 1);
    }
  }

  lemma {:induction false} TrimmedForgetsOrder(a: seq<string>, b: seq<string>)
    requires multiset(a) == multiset(b)
    ensures multiset(Trimmed(a)) == multiset(Trimmed(b))
  {
    if a == [] {
      assert |multiset(b)| == 0;
      assert b == [];
    } else {
      assert a == [a[0]] + a[1..];
      assert a[0] in multiset(b);
      var i :| 0 <= i < |b| && b[i] == a[0];
      assert b == b[..i] + [b[i]] + b[i + 1..];
      assert multiset(Without(b, i)) == multiset(b) - multiset([a[0]]);
      TrimmedForgetsOrder(a[1..], Without(b, i));
      TrimmedExtract(b, i);
      assert Without(a, 0) == a[1..];
      TrimmedExtract(a, 0);
    }
  }

  lemma VisitsWithout(order: seq<string>, keys: set<string>, i: nat)
    requires Visits(order, keys) && i < |order|
    ensures Visits(Without(order, i), keys - {order[i]})
  {
    var w := Without(order, i);
    forall n ensures n in w <==> n in keys - {order[i]} {
      if n in order && n != order[i] {
        var j :| 0 <= j < |order| && order[j] == n;
        assert w[if j < i then j else j - 1] == n;
      }
      if n in w {
        var j :| 0 <= j < |w| && w[j] == n;
        assert order[if j < i then j else j + 1] == n;
      }
    }
  }

  lemma {:induction false} CollectedForgetsOrder(h: Header, order: seq<string>, h': Header, order': seq<string>,
                                                 keys: set<string>, name: string)
    requires SameUpToValueOrder(h, h') && keys <= h.Keys
    requires Visits(order, keys) && Visits(order', keys)
    ensures multiset(Collected(h, order, name)) == multiset(Collected(h', order', name))
    decreases |order|
  {
    if order == [] {
      assert forall n :: n in order' ==> n in order;
      HeadIsIn(order');
    } else {
      var first := order[0];
      assert first in order';
      var i :| 0 <= i < |order'| && order'[i] == first;
      VisitsWithout(order, keys, 0);
      VisitsWithout(order', keys, i);
      assert Without(order, 0) == order[1..];
      CollectedForgetsOrder(h, order[1..], h', Without(order', i), keys - {first}, name);
      CollectedExtract(h', order', i, name);
      TrimmedForgetsOrder(h[first], h'[first]);
    }
  }

  /** Two visits of headers that differ only in value order normalise alike,
      wherever order is not significant (or the values are redacted). */
  lemma {:induction false} NormalizedForgetsOrder(h: Header, order: seq<string>, h': Header, order': seq<string>, redact: bool)
    requires SameUpToValueOrder(h, h') && Visits(order, h.Keys) && Visits(order', h.Keys)
    ensures Normalized(h, order, redact).Keys == Normalized(h', order', redact).Keys
    ensures forall name | name in Normalized(h, order, redact) ::
              !IsOrderSensitive(name) || (redact && IsSensitive(name)) ==>
              Normalized(h, order, redact)[name] == Normalized(h', order', redact)[name]
  {
    var g, g' := Gathered(h, order), Gathered(h', order');
    forall name
      ensures name in g <==> name in g'
      ensures name in g && name in g' && !IsOrderSensitive(name) ==> Sort(g[name]) == Sort(g'[name])
    {
      var c, c' := Collected(h, order, name), Collected(h', order', name);
      CollectedForgetsOrder(h, order, h', order', h.Keys, name);
      assert |c| == |multiset(c)| && |c'| == |multiset(c')|;
      CollectedSource(h, order, name);
      CollectedSource(h', order', name);
      SortForgetsOrder(c, c');
    }
  }

  // -------------------------------------------------------------------------
  // Normalisation is idempotent, whatever the second visit order.
  // -------------------------------------------------------------------------

  ghost predicate Clean(values: seq<string>) {
    forall v :: v in values ==> v != "" && TrimSpace(v) == v
  }

  lemma {:induction false} TrimmedIsClean(values: seq<string>)
    ensures Clean(Trimmed(values))
  {
    if values != [] {
      TrimmedIsClean(values[1..]);
      TrimSpaceEnds(values[0]);
    }
  }

  lemma {:induction false} CleanTrimmed(values: seq<string>)
    requires Clean(values)
    ensures Trimmed(values) == values
  {
    if values != [] {
      assert values[0] in values && forall v :: v in values[1..] ==> v in values;
      CleanTrimmed(values[1..]);
    }
  }

  lemma {:induction false} CollectedIsClean(h: Header, order: seq<string>, name: string)
    requires forall n :: n in order ==> n in h
    ensures Clean(Collected(h, order, name))
  {
    if order != [] {
      CollectedIsClean(h, order[1..], name);
      TrimmedIsClean(h[order[0]]);
    }
  }

  lemma CanonicalIsClean(name: string, values: seq<string>, redact: bool)
    requires Clean(values)
    ensures Clean(Canonical(name, values, redact))
    ensures Canonical(name, Canonical(name, values, redact), redact) == Canonical(name, values, redact)
  {
    RedactedIsClean();
    SortTwice(values);
    forall v | v in Sort(values) ensures v in values {
      assert v in multiset(Sort(values));
    }
  }

  lemma RedactedIsClean()
    ensures Clean(REDACTED)
  {
    var r := "[REDACTED]";
    assert !IsSpace(r[0]) && !IsSpace(r[|r| - 1]);
    assert SkipSpace(r, 0) == 0 && SkipSpaceBack(r, 0, |r|) == |r|;
    assert r[0..|r|] == r;
  }

  /** Lower-case keys are not merged: each collects its own values only. */
  lemma {:induction false} CollectedLower(h: Header, order: seq<string>, keys: set<string>, name: string)
    requires Visits(order, keys) && keys <= h.Keys
    requires forall n :: n in keys ==> ToLower(n) == n && Clean(h[n])
    ensures Collected(h, order, name) == if name in keys then h[name] else []
    decreases |order|
  {
    if order != [] {
      VisitsWithout(order, keys, 0);
      assert Without(order, 0) == order[1..];
      assert order[0] in keys;
      CollectedLower(h, order[1..], keys - {order[0]}, name);
      CleanTrimmed(h[order[0]]);
    }
  }

  /** What normalisation yields: lower-case names with clean, non-empty values. */
  ghost predicate IsNormal(n: Header) {
    forall name :: name in n ==> ToLower(name) == name && Clean(n[name]) && n[name] != []
  }

  lemma {:induction false} NormalizedIsNormal(h: Header, order: seq<string>, redact: bool)
    requires forall n :: n in order ==> n in h
    ensures IsNormal(Normalized(h, order, redact))
    ensures forall name :: name in Normalized(h, order, redact) ==>
              Canonical(name, Normalized(h, order, redact)[name], redact) == Normalized(h, order, redact)[name]
  {
    var g := Gathered(h, order);
    forall name | name in g
      ensures ToLower(name) == name && Clean(Canonical(name, g[name], redact)) && Canonical(name, g[name], redact) != []
      ensures Canonical(name, Canonical(name, g[name], redact), redact) == Canonical(name, g[name], redact)
    {
      CollectedSource(h, order, name);
      var raw :| raw in order && ToLower(raw) == name;
      ToLowerTwice(raw);
      CollectedIsClean(h, order, name);
      CanonicalIsClean(name, g[name], redact);
      assert |multiset(Sort(g[name]))| == |multiset(g[name])|;
    }
  }

  /** Headers that are normal already are gathered as they are. */
  lemma NormalIsGathered(n: Header, order: seq<string>)
    requires IsNormal(n) && Visits(order, n.Keys)
    ensures Gathered(n, order) == n
  {
    forall name ensures Get(n, name) == Collected(n, order, name) {
      CollectedLower(n, order, n.Keys, name);
    }
    HoldsCollectedIsGathered(n, n, order);
  }

  lemma NormalizedTwice(h: Header, order: seq<string>, order': seq<string>, redact: bool)
    requires Visits(order, h.Keys) && Visits(order', Normalized(h, order, redact).Keys)
    ensures var n := Normalized(h, order, redact);
            Normalized(n, order', redact) == n
  {
    NormalizedIsNormal(h, order, redact);
    NormalIsGathered(Normalized(h, order, redact), order');
  }

  /** What the normalised values of a name are: a sensitive name is redacted if asked for, and
      nothing else is; the others have the trimmed values of all spellings of the name, in
      the order of the visit where order is significant, and sorted where it is not. A name
      is there when one of its spellings has a value that is not blank. */
  lemma NormalizedValues(h: Header, order: seq<string>, redact: bool, name: string)
    requires forall n :: n in order ==> n in h
    ensures name in Normalized(h, order, redact) <==>
              exists raw :: raw in order && ToLower(raw) == name && Trimmed(h[raw]) != []
    ensures name in Normalized(h, order, redact) ==>
              var values, all := Normalized(h, order, redact)[name], Collected(h, order, name);
              if redact && IsSensitive(name) then values == REDACTED
              else multiset(values) == multiset(all) && if IsOrderSensitive(name) then values == all else Sorted(values)
  {
    CollectedSome(h, order, name);
    SortSorted(Collected(h, order, name));
    if name in Gathered(h, order) { assert Gathered(h, order)[name] == Collected(h, order, name); }
    if Collected(h, order, name) != [] { LowerNameOf(order, name); }
  }

  lemma {:induction false} CollectedSome(h: Header, order: seq<string>, name: string)
    requires forall n :: n in order ==> n in h
    ensures Collected(h, order, name) != [] <==> exists raw :: raw in order && ToLower(raw) == name && Trimmed(h[raw]) != []
  {
    if order != [] {
      CollectedSome(h, order[1..], name);
      assert order == [order[0]] + order[1..];
    }
  }

  lemma {:induction false} LowerNameOf(order: seq<string>, name: string)
    ensures name in LowerNames(order) <==> exists raw :: raw in order && ToLower(raw) == name
  {
    if order != [] {
      LowerNameOf(order[1..], name);
      assert order == [order[0]] + order[1..];
      assert order[0] in order;
      if raw :| raw in order[1..] && ToLower(raw) == name { assert raw in order; }
    }
  }

  // -------------------------------------------------------------------------
  // The header diff.
  // -------------------------------------------------------------------------

  datatype Change = Change(from: seq<string>, to: seq<string>)
  datatype HeaderDiff = HeaderDiff(added: Header, removed: Header, changed: map<string, Change>, redacted: seq<string>)

  predicate IsRedacted(values: seq<string>) {
    values == REDACTED
  }

  ghost predicate RedactedName(base: Header, head: Header, name: string) {
    (name in head && IsRedacted(head[name])) || (name in base && name !in head && IsRedacted(base[name]))
  }

  ghost predicate IsAdded(base: Header, head: Header, n: string) {
    n in head && n !in base && !IsRedacted(head[n])
  }

  ghost predicate IsChanged(base: Header, head: Header, n: string) {
    n in head && n in base && !IsRedacted(head[n]) && base[n] != head[n]
  }

  /** What the diff of two normalised headers is to hold. */
  ghost predicate IsHeaderDiff(d: HeaderDiff, base: Header, head: Header) {
    && (forall n :: n in d.added <==> IsAdded(base, head, n))
    && (forall n :: n in d.added ==> d.added[n] == Get(head, n))
    && (forall n :: n in d.removed <==> IsAdded(head, base, n))
    && (forall n :: n in d.removed ==> d.removed[n] == Get(base, n))
    && (forall n :: n in d.changed <==> IsChanged(base, head, n))
    && (forall n :: n in d.changed ==> d.changed[n] == Change(Get(base, n), Get(head, n)))
    && Sorted(d.redacted)
    && (forall i, j :: 0 <= i < j < |d.redacted| ==> d.redacted[i] != d.redacted[j])
    && (forall n :: n in d.redacted <==> RedactedName(base, head, n))
  }

  /** The keys of a set as a sorted list, by a visit in any order. */
  method SortedKeys(keys: set<string>) returns (sorted: seq<string>)
    ensures Sorted(sorted)
    ensures forall i, j :: 0 <= i < j < |sorted| ==> sorted[i] != sorted[j]
    ensures forall n :: n in sorted <==> n in keys
  {
    var list := [];
    var todo := keys;
    while todo != {}
      invariant todo <= keys && Visits(list, keys - todo)
      decreases todo
    {
      var name :| name in todo;
      list := list + [name];
      todo := todo - {name};
    }
    sorted := Sort(list);
    SortSorted(list);
    forall n ensures n in sorted <==> n in keys {
      assert n in sorted <==> n in multiset(sorted);
      assert n in list <==> n in multiset(list);
    }
    DistinctByCount(list, sorted);
  }

  lemma {:induction false} OccursOnce(list: seq<string>)
    ensures (forall i, j :: 0 <= i < j < |list| ==> list[i] != list[j]) <==> forall n :: multiset(list)[n] <= 1
  {
    if list != [] {
      var rest := list[1..];
      OccursOnce(rest);
      assert list == [list[0]] + rest;
      if forall n :: multiset(list)[n] <= 1 {
        forall n ensures multiset(rest)[n] <= 1 { assert multiset(list)[n] <= 1; }
        forall i, j | 0 <= i < j < |list| ensures list[i] != list[j] {
          assert multiset(list)[list[0]] <= 1;
          if i == 0 { assert list[j] == rest[j - 1]; } else { assert rest[i - 1] != rest[j - 1]; }
        }
      }
      if forall i, j :: 0 <= i < j < |list| ==> list[i] != list[j] {
        forall i, j | 0 <= i < j < |rest| ensures rest[i] != rest[j] {
          assert list[i + 1] != list[j + 1];
        }
        forall n ensures multiset(list)[n] <= 1 {
          assert multiset(rest)[n] <= 1;
          forall j | 0 <= j < |rest| ensures rest[j] != list[0] { assert list[j + 1] == rest[j]; }
        }
      }
    }
  }

  lemma DistinctByCount(a: seq<string>, b: seq<string>)
    requires multiset(a) == multiset(b)
    requires forall i, j :: 0 <= i < j < |a| ==> a[i] != a[j]
    ensures forall i, j :: 0 <= i < j < |b| ==> b[i] != b[j]
  {
    OccursOnce(a);
    OccursOnce(b);
  }

  /** Find added and changed headers, and those redacted in head. */
  method VisitHead(base: Header, head: Header)
    returns (added: Header, changed: map<string, Change>, redactedSet: set<string>)
    ensures forall n :: n in added <==> IsAdded(base, head, n)
    ensures forall n :: n in added ==> added[n] == Get(head, n)
    ensures forall n :: n in changed <==> IsChanged(base, head, n)
    ensures forall n :: n in changed ==> changed[n] == Change(Get(base, n), Get(head, n))
    ensures forall n :: n in redactedSet <==> n in head && IsRedacted(head[n])
  {
    added, changed, redactedSet := map[], map[], {};
    var todo := head.Keys;
    while todo != {}
      invariant todo <= head.Keys
      invariant forall n :: n in added <==> IsAdded(base, head, n) && n !in todo
      invariant forall n :: n in added ==> added[n] == Get(head, n)
      invariant forall n :: n in changed <==> IsChanged(base, head, n) && n !in todo
      invariant forall n :: n in changed ==> changed[n] == Change(Get(base, n), Get(head, n))
      invariant forall n :: n in redactedSet <==> n in head && n !in todo && IsRedacted(head[n])
      decreases todo
    {
      var name :| name in todo;
      todo := todo - {name};
      if IsRedacted(head[name]) {
        redactedSet := redactedSet + {name};
      } else if name !in base {
        added := added[name := head[name]];
      } else if base[name] != head[name] {
        changed := changed[name := Change(base[name], head[name])];
      }
    }
  }

  /** Find removed headers, and those that were redacted in base and are gone. */
  method VisitBase(base: Header, head: Header) returns (removed: Header, redactedSet: set<string>)
    ensures forall n :: n in removed <==> IsAdded(head, base, n)
    ensures forall n :: n in removed ==> removed[n] == Get(base, n)
    ensures forall n :: n in redactedSet <==> n in base && n !in head && IsRedacted(base[n])
  {
    removed, redactedSet := map[], {};
    var todo := base.Keys;
    while todo != {}
      invariant todo <= base.Keys
      invariant forall n :: n in removed <==> IsAdded(head, base, n) && n !in todo
      invariant forall n :: n in removed ==> removed[n] == Get(base, n)
      invariant forall n :: n in redactedSet <==> n in base && n !in todo && n !in head && IsRedacted(base[n])
      decreases todo
    {
      var name :| name in todo;
      todo := todo - {name};
      if IsRedacted(base[name]) {
        if name !in head { redactedSet := redactedSet + {name}; }
      } else if name !in head {
        removed := removed[name := base[name]];
      }
    }
  }

  method DiffNormalized(base: Header, head: Header) returns (d: HeaderDiff)
    ensures IsHeaderDiff(d, base, head)
  {
    var added, changed, redactedInHead := VisitHead(base, head);
    var removed, redactedAndGone := VisitBase(base, head);
    var redacted := SortedKeys(redactedInHead + redactedAndGone);
    d := HeaderDiff(added, removed, changed, redacted);
  }

  method DiffHeaders(base: Header, head: Header, redact: bool)
    returns (d: HeaderDiff, baseNorm: Header, headNorm: Header,
             ghost baseOrder: seq<string>, ghost headOrder: seq<string>)
    ensures Visits(baseOrder, base.Keys) && baseNorm == Normalized(base, baseOrder, redact)
    ensures Visits(headOrder, head.Keys) && headNorm == Normalized(head, headOrder, redact)
    ensures IsHeaderDiff(d, baseNorm, headNorm)
  {
    baseNorm, baseOrder := NormalizeHeaders(base, redact);
    headNorm, headOrder := NormalizeHeaders(head, redact);
    d := DiffNormalized(baseNorm, headNorm);
  }

  /** Apply a diff: drop what was removed, overwrite what changed, add the rest. */
  ghost function Applied(base: Header, d: HeaderDiff): Header {
    (base - d.removed.Keys) + (map n | n in d.changed :: d.changed[n].to) + d.added
  }

  /** Outside the redacted names the diff turns base into head. */
  lemma DiffAppliesToHead(d: HeaderDiff, base: Header, head: Header)
    requires IsHeaderDiff(d, base, head)
    ensures forall n :: n !in d.redacted ==>
              (n in Applied(base, d) <==> n in head) && (n in head ==> Applied(base, d)[n] == head[n])
    ensures forall n :: n in d.redacted <==>
              (n in head && head[n] == ["[REDACTED]"]) || (n in base && n !in head && base[n] == ["[REDACTED]"])
    ensures d.added.Keys !! d.removed.Keys !! d.changed.Keys
  {
    forall n | n !in d.redacted
      ensures n in Applied(base, d) <==> n in head
      ensures n in head ==> Applied(base, d)[n] == head[n]
    {
      assert !RedactedName(base, head, n);
    }
  }

  /** The diff is empty exactly when the headers agree and nothing is redacted. */
  lemma EmptyDiffMeansEqual(d: HeaderDiff, base: Header, head: Header)
    requires IsHeaderDiff(d, base, head)
    ensures d == HeaderDiff(map[], map[], map[], [])
       <==> base == head && forall n :: n in head ==> !IsRedacted(head[n])
  {
    if d == HeaderDiff(map[], map[], map[], []) {
      forall n
        ensures (n in base <==> n in head) && (n in head ==> base[n] == head[n] && !IsRedacted(head[n]))
      {
        assert n !in d.redacted && n !in d.added && n !in d.removed && n !in d.changed;
        assert !RedactedName(base, head, n);
      }
    }
    if base == head && forall n :: n in head ==> !IsRedacted(head[n]) {
      assert forall n :: !RedactedName(base, head, n) && !IsAdded(base, head, n) && !IsChanged(base, head, n);
      HeadIsIn(d.redacted);
      assert d.added == map[] && d.removed == map[] && d.changed == map[];
    }
  }
}
