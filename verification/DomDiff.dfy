/** The tree diff of frontend/components/analysis/DOMParser.ts: parsed pages get per-tag
    indices, and two trees are compared child by child under these. */
module DomDiff {
  import opened Text

  datatype Change = Same | Added | Removed | Changed(attributes: bool, classes: bool, id: bool)

  datatype Node = Node(
    tag: string, domIndex: nat, id: Option<string>, classes: Option<seq<string>>,
    attributes: Option<map<string, string>>, text: Option<string>, change: Change, children: seq<Node>)

  // -------------------------------------------------------------------------
  // Keys.
  // -------------------------------------------------------------------------

  function Decimal(n: nat): string {
    if n < 10 then [DIGITS[n]] else Decimal(n / 10) + [DIGITS[n % 10]]
  }

  const DIGITS := "0123456789"

  function KeyOf(tag: string, domIndex: nat): string {
    tag + "-" + Decimal(domIndex)
  }

  function Key(n: Node): string {
    KeyOf(n.tag, n.domIndex)
  }

  lemma {:induction false} DecimalHasNoDash(n: nat)
    ensures Decimal(n) != "" && '-' !in Decimal(n)
  {
    if n >= 10 { DecimalHasNoDash(n / 10); }
  }

  lemma SameEnds<T>(s: seq<T>, x: T, t: seq<T>, y: T)
    requires s + [x] == t + [y]
    ensures s == t && x == y
  {
    assert (s + [x])[|s|] == x && (t + [y])[|t|] == y;
    assert (s + [x])[..|s|] == s && (t + [y])[..|t|] == t;
  }

  lemma {:induction false} DecimalInjective(m: nat, n: nat)
    requires Decimal(m) == Decimal(n)
    ensures m == n
  {
    DecimalHasNoDash(m / 10);
    DecimalHasNoDash(n / 10);
    if m >= 10 && n >= 10 {
      SameEnds(Decimal(m / 10), DIGITS[m % 10], Decimal(n / 10), DIGITS[n % 10]);
      DecimalInjective(m / 10, n / 10);
    }
  }

  lemma LastDash(t: string, d: string)
    requires '-' !in d
    ensures (t + "-" + d)[|t|] == '-' && forall k :: |t| < k < |t + "-" + d| ==> (t + "-" + d)[k] != '-'
  {
    forall k | |t| < k < |t + "-" + d| ensures (t + "-" + d)[k] != '-' {
      assert (t + "-" + d)[k] == d[k - |t| - 1];
    }
  }

  /** The key tells tag and index apart, even for tags with dashes and digits. */
  lemma KeyIsInjective(t: string, i: nat, t': string, i': nat)
    requires KeyOf(t, i) == KeyOf(t', i')
    ensures t == t' && i == i'
  {
    DecimalHasNoDash(i);
    DecimalHasNoDash(i');
    LastDash(t, Decimal(i));
    LastDash(t', Decimal(i'));
    assert KeyOf(t, i)[..|t|] == t && KeyOf(t', i')[..|t'|] == t';
    assert KeyOf(t, i)[|t| + 1..] == Decimal(i) && KeyOf(t', i')[|t'| + 1..] == Decimal(i');
    DecimalInjective(i, i');
  }

  // -------------------------------------------------------------------------
  // Comparing two trees.
  // -------------------------------------------------------------------------

  /** Some(a) == Some(b) as the code decides it: same number of keys, and each value equal. */
  predicate SameAttributes(a: Option<map<string, string>>, b: Option<map<string, string>>) {
    match (a, b)
    case (None, None) => true
    case (Some(x), Some(y)) => |x.Keys| == |y.Keys| && forall key :: key in x ==> key in y && x[key] == y[key]
    case (None, Some(_)) => false
    case (Some(_), None) => false
  }

  predicate SameArray(a: Option<seq<string>>, b: Option<seq<string>>) {
    match (a, b)
    case (None, None) => true
    case (Some(x), Some(y)) => |x| == |y| && forall i :: 0 <= i < |x| ==> x[i] == y[i]
    case (None, Some(_)) => false
    case (Some(_), None) => false
  }

  function ChangeOf(base: Node, head: Node): Change {
    var attributes := !SameAttributes(base.attributes, head.attributes);
    var classes := !SameArray(base.classes, head.classes);
    var id := base.id != head.id;
    if attributes || classes || id then Changed(attributes, classes, id) else Same
  }

  function MarkAll(n: Node, change: Change): Node {
    n.(change := change, children := MarkEach(n.children, change))
  }

  function MarkEach(ns: seq<Node>, change: Change): seq<Node> {
    if ns == [] then [] else [MarkAll(ns[0], change)] + MarkEach(ns[1..], change)
  }

  /** What the map of children holds: the last child with the key. */
  function Find(ns: seq<Node>, key: string): (r: Option<Node>)
    ensures r.Some? ==> r.value in ns && Key(r.value) == key
  {
    if ns == [] then None
    else
      var later := Find(ns[1..], key);
      if later.Some? then later else if Key(ns[0]) == key then Some(ns[0]) else None
  }

  function Compare(base: Node, head: Node): Node
    decreases head
  {
    head.(change := ChangeOf(base, head),
          children := CompareEach(base.children, head.children) + Gone(base.children, head.children))
  }

  function CompareEach(base: seq<Node>, head: seq<Node>): seq<Node>
    decreases head
  {
    if head == [] then []
    else
      var child := match Find(base, Key(head[0]))
                   case Some(b) => Compare(b, head[0])
                   case None => MarkAll(head[0], Added);
      [child] + CompareEach(base, head[1..])
  }

  function Gone(base: seq<Node>, head: seq<Node>): seq<Node>
    decreases base
  {
    if base == [] then []
    else (if Find(head, Key(base[0])).None? then [MarkAll(base[0], Removed)] else []) + Gone(base[1..], head)
  }

  function DiffTrees(base: Option<Node>, head: Option<Node>): Option<Node> {
    match (base, head)
    case (None, None) => None
    case (None, Some(h)) => Some(MarkAll(h, Added))
    case (Some(b), None) => Some(MarkAll(b, Removed))
    case (Some(b), Some(h)) => Some(Compare(b, h))
  }

  lemma SubsetOfSameSize<T>(x: set<T>, y: set<T>)
    requires x <= y && |x| == |y|
    ensures x == y
  {
    assert |y - x| == |y| - |x|;
  }

  /** Attribute lists are the same exactly when they are equal. */
  lemma SameAttributesIsEquality(a: Option<map<string, string>>, b: Option<map<string, string>>)
    ensures SameAttributes(a, b) <==> a == b
  {
    if a.Some? && b.Some? && SameAttributes(a, b) {
      SubsetOfSameSize(a.value.Keys, b.value.Keys);
      assert forall key :: key in b.value <==> key in b.value.Keys;
      assert a.value == b.value;
    }
  }

  lemma SameArrayIsEquality(a: Option<seq<string>>, b: Option<seq<string>>)
    ensures SameArray(a, b) <==> a == b
  {
    if a.Some? && b.Some? && SameArray(a, b) { assert a.value == b.value; }
  }

  /** A node is marked changed exactly when its own attributes, classes or id differ. */
  lemma {:induction false} ChangedExactlyWhenDifferent(base: Node, head: Node)
    ensures Compare(base, head).change == Same <==>
              base.attributes == head.attributes && base.classes == head.classes && base.id == head.id
  {
    SameAttributesIsEquality(base.attributes, head.attributes);
    SameArrayIsEquality(base.classes, head.classes);
  }

  // -------------------------------------------------------------------------
  // The diff shows head.
  // -------------------------------------------------------------------------

  /** The tree without what is removed, and without any marks. */
  function Strip(n: Node): Node {
    n.(change := Same, children := StripEach(n.children))
  }

  function StripEach(ns: seq<Node>): seq<Node> {
    if ns == [] then []
    else (if ns[0].change.Removed? then [] else [Strip(ns[0])]) + StripEach(ns[1..])
  }

  predicate Plain(n: Node) {
    n.change.Same? && PlainEach(n.children)
  }

  predicate PlainEach(ns: seq<Node>) {
    ns == [] || (Plain(ns[0]) && PlainEach(ns[1..]))
  }

  lemma {:induction false} StripConcat(a: seq<Node>, b: seq<Node>)
    ensures StripEach(a + b) == StripEach(a) + StripEach(b)
  {
    if a == [] {
      assert a + b == b;
    } else {
      assert (a + b)[0] == a[0] && (a + b)[1..] == a[1..] + b;
      StripConcat(a[1..], b);
    }
  }

  lemma {:induction false} StripGone(base: seq<Node>, head: seq<Node>)
    ensures StripEach(Gone(base, head)) == []
    decreases base
  {
    if base != [] {
      StripGone(base[1..], head);
      if Find(head, Key(base[0])).None? {
        assert Gone(base, head)[1..] == Gone(base[1..], head);
      } else {
        assert Gone(base, head) == Gone(base[1..], head);
      }
    }
  }

  lemma {:induction false} StripMarked(n: Node)
    requires Plain(n)
    ensures Strip(MarkAll(n, Added)) == n
    decreases n
  {
    StripMarkedEach(n.children);
  }

  lemma {:induction false} StripMarkedEach(ns: seq<Node>)
    requires PlainEach(ns)
    ensures StripEach(MarkEach(ns, Added)) == ns
    decreases ns
  {
    if ns != [] {
      StripMarked(ns[0]);
      StripMarkedEach(ns[1..]);
      assert ns == [ns[0]] + ns[1..];
    }
  }

  lemma {:induction false} StripCompare(base: Node, head: Node)
    requires Plain(head)
    ensures Strip(Compare(base, head)) == head
    decreases head
  {
    StripCompareEach(base.children, head.children);
    StripGone(base.children, head.children);
    StripConcat(CompareEach(base.children, head.children), Gone(base.children, head.children));
  }

  lemma {:induction false} StripCompareEach(base: seq<Node>, head: seq<Node>)
    requires PlainEach(head)
    ensures StripEach(CompareEach(base, head)) == head
    decreases head
  {
    if head != [] {
      var found := Find(base, Key(head[0]));
      var child := if found.Some? then Compare(found.value, head[0]) else MarkAll(head[0], Added);
      if found.Some? { StripCompare(found.value, head[0]); } else { StripMarked(head[0]); }
      StripCompareEach(base, head[1..]);
      assert head == [head[0]] + head[1..];
    }
  }

  /** Dropping the removed subtrees and the marks from a diff gives the head tree, in order. */
  lemma DiffShowsHead(base: Option<Node>, head: Option<Node>)
    requires head.Some? ==> Plain(head.value)
    ensures head.Some? ==> DiffTrees(base, head).Some? && Strip(DiffTrees(base, head).value) == head.value
    ensures head.None? ==> match DiffTrees(base, head) case None => base.None? case Some(d) => d.change.Removed?
  {
    if head.Some? {
      if base.Some? { StripCompare(base.value, head.value); } else { StripMarked(head.value); }
    }
  }

  // -------------------------------------------------------------------------
  // Nodes are conserved.
  // -------------------------------------------------------------------------

  function Size(n: Node): nat {
    1 + SizeEach(n.children)
  }

  function SizeEach(ns: seq<Node>): nat {
    if ns == [] then 0 else Size(ns[0]) + SizeEach(ns[1..])
  }

  /** How many nodes carry a mark. */
  function Count(n: Node, marked: Change -> bool): nat {
    (if marked(n.change) then 1 else 0) + CountEach(n.children, marked)
  }

  function CountEach(ns: seq<Node>, marked: Change -> bool): nat {
    if ns == [] then 0 else Count(ns[0], marked) + CountEach(ns[1..], marked)
  }

  const IS_ADDED := (c: Change) => c.Added?
  const IS_REMOVED := (c: Change) => c.Removed?
  const IS_CHANGED := (c: Change) => c.Changed?

  /** getChangeSummary. */
  class ChangeSummary {
    var added: nat
    var removed: nat
    var changed: nat

    constructor (n: Node)
      ensures added == Count(n, IS_ADDED) && removed == Count(n, IS_REMOVED) && changed == Count(n, IS_CHANGED)
    {
      added, removed, changed := 0, 0, 0;
      new;
      Visit(n);
    }

    method Visit(n: Node)
      modifies this
      ensures added == old(added) + Count(n, IS_ADDED)
      ensures removed == old(removed) + Count(n, IS_REMOVED)
      ensures changed == old(changed) + Count(n, IS_CHANGED)
      decreases n, 0
    {
      if n.change.Added? {
        added := added + 1;
      } else if n.change.Removed? {
        removed := removed + 1;
      } else if n.change.Changed? {
        changed := changed + 1;
      }
      VisitEach(n.children);
    }

    method VisitEach(ns: seq<Node>)
      modifies this
      ensures added == old(added) + CountEach(ns, IS_ADDED)
      ensures removed == old(removed) + CountEach(ns, IS_REMOVED)
      ensures changed == old(changed) + CountEach(ns, IS_CHANGED)
      decreases ns
    {
      ghost var rest := ns;
      for i := 0 to |ns|
        invariant rest == ns[i..]
        invariant added + CountEach(rest, IS_ADDED) == old(added) + CountEach(ns, IS_ADDED)
        invariant removed + CountEach(rest, IS_REMOVED) == old(removed) + CountEach(ns, IS_REMOVED)
        invariant changed + CountEach(rest, IS_CHANGED) == old(changed) + CountEach(ns, IS_CHANGED)
      {
        Visit(ns[i]);
        rest := rest[1..];
      }
    }
  }

  /** No two siblings, anywhere in the tree, have the same key. */
  ghost predicate UniqueSiblings(n: Node) {
    DistinctKeys(n.children) && UniqueEach(n.children)
  }

  ghost predicate UniqueEach(ns: seq<Node>) {
    ns == [] || (UniqueSiblings(ns[0]) && UniqueEach(ns[1..]))
  }

  ghost predicate DistinctKeys(ns: seq<Node>) {
    ns == [] || (Find(ns[1..], Key(ns[0])).None? && DistinctKeys(ns[1..]))
  }

  lemma {:induction false} CountConcat(a: seq<Node>, b: seq<Node>, marked: Change -> bool)
    ensures CountEach(a + b, marked) == CountEach(a, marked) + CountEach(b, marked)
  {
    if a == [] {
      assert a + b == b;
    } else {
      assert (a + b)[0] == a[0] && (a + b)[1..] == a[1..] + b;
      CountConcat(a[1..], b, marked);
    }
  }

  lemma {:induction false} CountMarked(n: Node, change: Change, marked: Change -> bool)
    ensures Count(MarkAll(n, change), marked) == if marked(change) then Size(n) else 0
    decreases n
  {
    CountMarkedEach(n.children, change, marked);
  }

  lemma {:induction false} CountMarkedEach(ns: seq<Node>, change: Change, marked: Change -> bool)
    ensures CountEach(MarkEach(ns, change), marked) == if marked(change) then SizeEach(ns) else 0
    decreases ns
  {
    if ns != [] {
      CountMarked(ns[0], change, marked);
      CountMarkedEach(ns[1..], change, marked);
      assert MarkEach(ns, change)[1..] == MarkEach(ns[1..], change);
    }
  }

  function FoundSize(base: seq<Node>, key: string): nat {
    match Find(base, key) case Some(b) => Size(b) case None => 0
  }

  /** The size of the base children that head children are compared with. */
  function KeptSize(base: seq<Node>, head: seq<Node>): nat {
    if head == [] then 0 else FoundSize(base, Key(head[0])) + KeptSize(base, head[1..])
  }

  function GoneSize(base: seq<Node>, head: seq<Node>): nat {
    if base == [] then 0 else (if Find(head, Key(base[0])).None? then Size(base[0]) else 0) + GoneSize(base[1..], head)
  }

  /** One head child more: at most one base child is no longer gone. */
  lemma {:induction false} OneFound(base: seq<Node>, h: Node, head: seq<Node>)
    requires DistinctKeys(base) && Find(head, Key(h)).None?
    ensures GoneSize(base, [h] + head) + FoundSize(base, Key(h)) == GoneSize(base, head)
    decreases base
  {
    assert ([h] + head)[0] == h && ([h] + head)[1..] == head;
    if base != [] {
      OneFound(base[1..], h, head);
    }
  }

  /** Every base child is compared with one head child, or gone. */
  lemma {:induction false} KeptOrGone(base: seq<Node>, head: seq<Node>)
    requires DistinctKeys(base) && DistinctKeys(head)
    ensures KeptSize(base, head) + GoneSize(base, head) == SizeEach(base)
    decreases head
  {
    if head == [] {
      AllGone(base);
    } else {
      KeptOrGone(base, head[1..]);
      OneFound(base, head[0], head[1..]);
      assert head == [head[0]] + head[1..];
    }
  }

  lemma {:induction false} AllGone(base: seq<Node>)
    ensures GoneSize(base, []) == SizeEach(base)
  {
    if base != [] { AllGone(base[1..]); }
  }

  lemma {:induction false} CountGone(base: seq<Node>, head: seq<Node>)
    ensures CountEach(Gone(base, head), IS_ADDED) == 0
    ensures CountEach(Gone(base, head), IS_REMOVED) == GoneSize(base, head)
    decreases base
  {
    if base != [] {
      CountGone(base[1..], head);
      if Find(head, Key(base[0])).None? {
        CountMarked(base[0], Removed, IS_ADDED);
        CountMarked(base[0], Removed, IS_REMOVED);
        assert Gone(base, head)[1..] == Gone(base[1..], head);
      } else {
        assert Gone(base, head) == Gone(base[1..], head);
      }
    }
  }

  lemma {:induction false} FoundIsUnique(ns: seq<Node>, key: string)
    requires UniqueEach(ns) && Find(ns, key).Some?
    ensures UniqueSiblings(Find(ns, key).value)
  {
    if Find(ns[1..], key).Some? { FoundIsUnique(ns[1..], key); }
  }

  lemma {:induction false} Conserved(base: Node, head: Node)
    requires UniqueSiblings(base) && UniqueSiblings(head)
    ensures Size(head) + Count(Compare(base, head), IS_REMOVED) == Size(base) + Count(Compare(base, head), IS_ADDED)
    decreases head
  {
    var compared, gone := CompareEach(base.children, head.children), Gone(base.children, head.children);
    ConservedEach(base.children, head.children);
    KeptOrGone(base.children, head.children);
    CountGone(base.children, head.children);
    CountConcat(compared, gone, IS_ADDED);
    CountConcat(compared, gone, IS_REMOVED);
  }

  lemma {:induction false} ConservedEach(base: seq<Node>, head: seq<Node>)
    requires UniqueEach(base) && UniqueEach(head)
    ensures SizeEach(head) + CountEach(CompareEach(base, head), IS_REMOVED)
         == KeptSize(base, head) + CountEach(CompareEach(base, head), IS_ADDED)
    decreases head
  {
    if head != [] {
      var found := Find(base, Key(head[0]));
      if found.Some? {
        FoundIsUnique(base, Key(head[0]));
        Conserved(found.value, head[0]);
      } else {
        CountMarked(head[0], Added, IS_ADDED);
        CountMarked(head[0], Added, IS_REMOVED);
      }
      ConservedEach(base, head[1..]);
      assert CompareEach(base, head)[1..] == CompareEach(base, head[1..]);
    }
  }

  /** Conservation: what is left of head without the added nodes is as much as what is left
      of base without the removed ones. */
  lemma DiffConservesNodes(base: Node, head: Node)
    requires UniqueSiblings(base) && UniqueSiblings(head)
    ensures var d := Compare(base, head);
            Size(head) - Count(d, IS_ADDED) == Size(base) - Count(d, IS_REMOVED)
  {
    Conserved(base, head);
  }

  // -------------------------------------------------------------------------
  // A tree compared with itself.
  // -------------------------------------------------------------------------

  lemma {:induction false} FindsItself(ns: seq<Node>, n: Node)
    requires DistinctKeys(ns) && n in ns
    ensures Find(ns, Key(n)) == Some(n)
  {
    assert ns == [ns[0]] + ns[1..];
    if n in ns[1..] { FindsItself(ns[1..], n); }
  }

  lemma {:induction false} NoneGone(ns: seq<Node>, head: seq<Node>)
    requires forall n :: n in ns ==> Find(head, Key(n)).Some?
    ensures Gone(ns, head) == []
  {
    if ns != [] {
      assert ns[0] in ns;
      NoneGone(ns[1..], head);
    }
  }

  lemma {:induction false} SelfSame(n: Node)
    requires Plain(n) && UniqueSiblings(n)
    ensures Compare(n, n) == n
    decreases n
  {
    SameAttributesIsEquality(n.attributes, n.attributes);
    SameArrayIsEquality(n.classes, n.classes);
    forall child | child in n.children ensures Find(n.children, Key(child)) == Some(child) {
      FindsItself(n.children, child);
    }
    SelfSameEach(n.children, n.children);
    NoneGone(n.children, n.children);
  }

  lemma {:induction false} SelfSameEach(all: seq<Node>, ns: seq<Node>)
    requires PlainEach(ns) && UniqueEach(ns) && forall n :: n in ns ==> Find(all, Key(n)) == Some(n)
    ensures CompareEach(all, ns) == ns
    decreases ns
  {
    if ns != [] {
      assert ns[0] in ns;
      SelfSame(ns[0]);
      SelfSameEach(all, ns[1..]);
      assert ns == [ns[0]] + ns[1..];
    }
  }

  lemma {:induction false} PlainHasNoMarks(n: Node, marked: Change -> bool)
    requires Plain(n) && !marked(Same)
    ensures Count(n, marked) == 0
    decreases n
  {
    PlainEachHasNoMarks(n.children, marked);
  }

  lemma {:induction false} PlainEachHasNoMarks(ns: seq<Node>, marked: Change -> bool)
    requires PlainEach(ns) && !marked(Same)
    ensures CountEach(ns, marked) == 0
    decreases ns
  {
    if ns != [] {
      PlainHasNoMarks(ns[0], marked);
      PlainEachHasNoMarks(ns[1..], marked);
    }
  }

  /** Comparing a tree with itself shows no change. */
  lemma SelfDiffIsSilent(n: Node)
    requires Plain(n) && UniqueSiblings(n)
    ensures var d := Compare(n, n);
            d == n && Count(d, IS_ADDED) == 0 && Count(d, IS_REMOVED) == 0 && Count(d, IS_CHANGED) == 0
  {
    SelfSame(n);
    PlainHasNoMarks(n, IS_ADDED);
    PlainHasNoMarks(n, IS_REMOVED);
    PlainHasNoMarks(n, IS_CHANGED);
  }

  // -------------------------------------------------------------------------
  // What a silent diff means.
  // -------------------------------------------------------------------------

  predicate SameLabel(b: Node, h: Node) {
    b.tag == h.tag && b.domIndex == h.domIndex
  }

  /** Same attributes, classes and id, and children with the same tags and indices that are
      alike themselves, in any order; neither text nor the tag of the root matters. */
  ghost predicate Alike(b: Node, h: Node)
    decreases h, 0
  {
    && b.attributes == h.attributes && b.classes == h.classes && b.id == h.id
    && (forall i :: 0 <= i < |h.children| ==> HasAlike(b.children, h.children[i]))
    && (forall j :: 0 <= j < |b.children| ==> AlikeIn(h.children, b.children[j]))
  }

  ghost predicate HasAlike(bs: seq<Node>, n: Node)
    decreases n, 1
  {
    exists j :: 0 <= j < |bs| && SameLabel(bs[j], n) && Alike(bs[j], n)
  }

  ghost predicate AlikeIn(hs: seq<Node>, m: Node)
    decreases hs, 1
  {
    exists i :: 0 <= i < |hs| && SameLabel(m, hs[i]) && Alike(m, hs[i])
  }

  predicate IsSilent(d: Node) {
    Count(d, IS_ADDED) == 0 && Count(d, IS_REMOVED) == 0 && Count(d, IS_CHANGED) == 0
  }

  lemma {:induction false} SilentIsPlain(n: Node)
    ensures IsSilent(n) <==> Plain(n)
  {
    if Plain(n) {
      PlainHasNoMarks(n, IS_ADDED);
      PlainHasNoMarks(n, IS_REMOVED);
      PlainHasNoMarks(n, IS_CHANGED);
    }
    if IsSilent(n) { NoMarksIsPlain(n); }
  }

  lemma {:induction false} NoMarksIsPlain(n: Node)
    requires Count(n, IS_ADDED) == 0 && Count(n, IS_REMOVED) == 0 && Count(n, IS_CHANGED) == 0
    ensures Plain(n)
    decreases n
  {
    NoMarksIsPlainEach(n.children);
  }

  lemma {:induction false} NoMarksIsPlainEach(ns: seq<Node>)
    requires CountEach(ns, IS_ADDED) == 0 && CountEach(ns, IS_REMOVED) == 0 && CountEach(ns, IS_CHANGED) == 0
    ensures PlainEach(ns)
    decreases ns
  {
    if ns != [] {
      NoMarksIsPlain(ns[0]);
      NoMarksIsPlainEach(ns[1..]);
    }
  }

  lemma {:induction false} PlainConcat(a: seq<Node>, b: seq<Node>)
    ensures PlainEach(a + b) <==> PlainEach(a) && PlainEach(b)
  {
    if a == [] {
      assert a + b == b;
    } else {
      assert (a + b)[0] == a[0] && (a + b)[1..] == a[1..] + b;
      PlainConcat(a[1..], b);
    }
  }

  ghost predicate MatchedSilently(base: seq<Node>, h: Node) {
    Find(base, Key(h)).Some? && Plain(Compare(Find(base, Key(h)).value, h))
  }

  lemma {:induction false} EachMatched(base: seq<Node>, head: seq<Node>)
    ensures PlainEach(CompareEach(base, head)) <==> forall i :: 0 <= i < |head| ==> MatchedSilently(base, head[i])
  {
    if head != [] {
      EachMatched(base, head[1..]);
      assert CompareEach(base, head)[1..] == CompareEach(base, head[1..]);
      forall i | 0 < i < |head| ensures head[1..][i - 1] == head[i] {}
      if forall i :: 0 <= i < |head[1..]| ==> MatchedSilently(base, head[1..][i]) {
        forall i | 0 < i < |head| ensures MatchedSilently(base, head[i]) { assert MatchedSilently(base, head[1..][i - 1]); }
      }
    }
  }

  lemma {:induction false} NothingGone(base: seq<Node>, head: seq<Node>)
    ensures PlainEach(Gone(base, head)) <==> forall j :: 0 <= j < |base| ==> Find(head, Key(base[j])).Some?
    decreases base
  {
    if base != [] {
      NothingGone(base[1..], head);
      if Find(head, Key(base[0])).None? {
        assert Gone(base, head)[0].change.Removed?;
      } else {
        assert Gone(base, head) == Gone(base[1..], head);
        forall j | 0 < j < |base| ensures base[1..][j - 1] == base[j] {}
      }
    }
  }

  lemma {:induction false} FindsAt(ns: seq<Node>, key: string)
    ensures Find(ns, key).Some? <==> exists i :: 0 <= i < |ns| && Key(ns[i]) == key
  {
    if ns != [] {
      FindsAt(ns[1..], key);
      if i :| 0 <= i < |ns| && Key(ns[i]) == key && i > 0 { assert Key(ns[1..][i - 1]) == key; }
    }
  }

  lemma {:induction false} EachIsUnique(ns: seq<Node>, i: nat)
    requires UniqueEach(ns) && i < |ns|
    ensures UniqueSiblings(ns[i])
  {
    if i > 0 { EachIsUnique(ns[1..], i - 1); }
  }

  /** What is found for a child's key is the child with the same tag and index. */
  lemma FoundByLabel(ns: seq<Node>, n: Node, m: Node)
    requires DistinctKeys(ns) && m in ns
    ensures SameLabel(m, n) <==> Find(ns, Key(n)) == Some(m)
  {
    if SameLabel(m, n) { FindsItself(ns, m); }
    if Find(ns, Key(n)) == Some(m) { KeyIsInjective(m.tag, m.domIndex, n.tag, n.domIndex); }
  }

  /** A child of head is matched silently exactly when base has a child like it. */
  lemma {:induction false} MatchedIsAlike(bs: seq<Node>, n: Node)
    requires DistinctKeys(bs) && UniqueEach(bs) && UniqueSiblings(n)
    ensures MatchedSilently(bs, n) <==> HasAlike(bs, n)
    decreases n, 1
  {
    if j :| 0 <= j < |bs| && SameLabel(bs[j], n) {
      EachIsUnique(bs, j);
      FoundByLabel(bs, n, bs[j]);
      SilentExactly(bs[j], n);
      forall j' | 0 <= j' < |bs| && SameLabel(bs[j'], n) ensures bs[j'] == bs[j] { FoundByLabel(bs, n, bs[j']); }
    } else if Find(bs, Key(n)).Some? {
      FoundByLabel(bs, n, Find(bs, Key(n)).value);
    }
  }

  lemma {:induction false} SilentExactly(b: Node, h: Node)
    requires UniqueSiblings(b) && UniqueSiblings(h)
    ensures Plain(Compare(b, h)) <==> Alike(b, h)
    decreases h, 0
  {
    forall i | 0 <= i < |h.children|
      ensures MatchedSilently(b.children, h.children[i]) <==> HasAlike(b.children, h.children[i])
    {
      EachIsUnique(h.children, i);
      MatchedIsAlike(b.children, h.children[i]);
    }
    PlainByParts(b, h);
    if forall i :: 0 <= i < |h.children| ==> HasAlike(b.children, h.children[i]) {
      forall j | 0 <= j < |b.children|
        ensures Find(h.children, Key(b.children[j])).Some? <==> AlikeIn(h.children, b.children[j])
      {
        BaseChildMatched(b, h, j);
      }
    }
  }

  lemma PlainByParts(b: Node, h: Node)
    ensures Plain(Compare(b, h)) <==>
              && b.attributes == h.attributes && b.classes == h.classes && b.id == h.id
              && (forall i :: 0 <= i < |h.children| ==> MatchedSilently(b.children, h.children[i]))
              && (forall j :: 0 <= j < |b.children| ==> Find(h.children, Key(b.children[j])).Some?)
  {
    ChangedExactlyWhenDifferent(b, h);
    PlainConcat(CompareEach(b.children, h.children), Gone(b.children, h.children));
    EachMatched(b.children, h.children);
    NothingGone(b.children, h.children);
  }

  lemma BaseChildMatched(b: Node, h: Node, j: nat)
    requires UniqueSiblings(b) && UniqueSiblings(h) && j < |b.children|
    requires forall i :: 0 <= i < |h.children| ==> HasAlike(b.children, h.children[i])
    ensures Find(h.children, Key(b.children[j])).Some? <==> AlikeIn(h.children, b.children[j])
  {
    var m := b.children[j];
    FindsAt(h.children, Key(m));
    if i :| 0 <= i < |h.children| && Key(h.children[i]) == Key(m) {
      var n := h.children[i];
      KeyIsInjective(n.tag, n.domIndex, m.tag, m.domIndex);
      assert HasAlike(b.children, n);
      var k :| 0 <= k < |b.children| && SameLabel(b.children[k], n) && Alike(b.children[k], n);
      FoundByLabel(b.children, n, b.children[k]);
      FoundByLabel(b.children, n, m);
    }
  }

  /** A diff shows no change exactly when the trees are equal up to the order of siblings,
      texts, and the tag of the root. */
  lemma SilentExactlyWhenAlike(b: Node, h: Node)
    requires UniqueSiblings(b) && UniqueSiblings(h)
    ensures IsSilent(Compare(b, h)) <==> Alike(b, h)
  {
    SilentIsPlain(Compare(b, h));
    SilentExactly(b, h);
  }

  // -------------------------------------------------------------------------
  // Parsing: the tag counter.
  // -------------------------------------------------------------------------

  /** An element of the page: its name in lower case, its id ("" when absent), class list,
      other attributes (cut to 50 characters) and direct text. */
  datatype Element = Element(
    tag: string, id: string, classes: seq<string>, attributes: map<string, string>, text: Option<string>, children: seq<Element>)

  function Counter(counters: map<string, nat>, tag: string): nat {
    if tag in counters then counters[tag] else 0
  }

  function Counted(counters: map<string, nat>, tag: string): map<string, nat> {
    counters[tag := Counter(counters, tag) + 1]
  }

  function Attributes(e: Element): Option<map<string, string>> {
    if e.attributes == map[] then None else Some(e.attributes)
  }

  predicate IsOpaque(e: Element) {
    e.tag == "script" || e.tag == "style"
  }

  function Leaf(e: Element, domIndex: nat): Node {
    Node(e.tag, domIndex, None, None, Attributes(e), None, Same, [])
  }

  function Inner(e: Element, domIndex: nat, children: seq<Node>): Node {
    Node(e.tag, domIndex, if e.id == "" then None else Some(e.id), if e.classes == [] then None else Some(e.classes),
         Attributes(e), e.text, Same, children)
  }

  /** The children are numbered before their parent; nothing deeper than `maxDepth` is kept. */
  function Parse(e: Element, depth: nat, maxDepth: nat, counters: map<string, nat>): (Option<Node>, map<string, nat>)
    decreases e
  {
    if depth > maxDepth then (None, counters)
    else if IsOpaque(e) then (Some(Leaf(e, Counter(counters, e.tag))), Counted(counters, e.tag))
    else
      var (children, after) := ParseEach(e.children, 0, depth + 1, maxDepth, counters);
      (Some(Inner(e, Counter(after, e.tag), children)), Counted(after, e.tag))
  }

  function ParseEach(es: seq<Element>, i: nat, depth: nat, maxDepth: nat, counters: map<string, nat>): (seq<Node>, map<string, nat>)
    requires i <= |es|
    decreases es, |es| - i
  {
    if i == |es| then ([], counters)
    else
      var (first, between) := Parse(es[i], depth, maxDepth, counters);
      var (rest, after) := ParseEach(es, i + 1, depth, maxDepth, between);
      (Listed(first) + rest, after)
  }

  function Listed(n: Option<Node>): seq<Node> {
    if n.Some? then [n.value] else []
  }

  class HtmlParser {
    const maxDepth: nat
    var tagCounters: map<string, nat>

    constructor (maxDepth: nat)
      ensures this.maxDepth == maxDepth && tagCounters == map[]
    {
      this.maxDepth, tagCounters := maxDepth, map[];
    }

    method GetTagIndex(tag: string) returns (index: nat)
      modifies this
      ensures index == Counter(old(tagCounters), tag) && tagCounters == Counted(old(tagCounters), tag)
    {
      index := if tag in tagCounters then tagCounters[tag] else 0;
      tagCounters := tagCounters[tag := index + 1];
    }

    method ParseNode(e: Element, depth: nat) returns (r: Option<Node>)
      modifies this
      ensures (r, tagCounters) == Parse(e, depth, maxDepth, old(tagCounters))
      decreases e, 0
    {
      if depth > maxDepth { return None; }
      if IsOpaque(e) {
        var index := GetTagIndex(e.tag);
        return Some(Leaf(e, index));
      }
      var children := ParseChildren(e.children, depth + 1);
      var index := GetTagIndex(e.tag);
      return Some(Inner(e, index, children));
    }

    method ParseChildren(es: seq<Element>, depth: nat) returns (children: seq<Node>)
      modifies this
      ensures (children, tagCounters) == ParseEach(es, 0, depth, maxDepth, old(tagCounters))
      decreases es
    {
      children := [];
      ghost var all := ParseEach(es, 0, depth, maxDepth, tagCounters);
      for i := 0 to |es|
        invariant children + ParseEach(es, i, depth, maxDepth, tagCounters).0 == all.0
        invariant ParseEach(es, i, depth, maxDepth, tagCounters).1 == all.1
      {
        var parsed := ParseNode(es[i], depth);
        ghost var more := ParseEach(es, i + 1, depth, maxDepth, tagCounters).0;
        ghost var before := children;
        if parsed.Some? {
          children := children + [parsed.value];
        }
        assert before + (Listed(parsed) + more) == children + more;
      }
      assert children + [] == children;
    }
  }

  /** Tag and index of every node of a tree. */
  function Labels(n: Node): seq<(string, nat)> {
    [(n.tag, n.domIndex)] + LabelsEach(n.children)
  }

  function LabelsEach(ns: seq<Node>): seq<(string, nat)> {
    if ns == [] then [] else Labels(ns[0]) + LabelsEach(ns[1..])
  }

  ghost predicate Distinct<T(!new)>(s: seq<T>) {
    forall i, j :: 0 <= i < j < |s| ==> s[i] != s[j]
  }

  ghost predicate Apart<T(!new)>(a: seq<T>, b: seq<T>) {
    forall x :: x in a ==> x !in b
  }

  lemma DistinctJoin<T(!new)>(a: seq<T>, b: seq<T>)
    requires Distinct(a) && Distinct(b) && Apart(a, b)
    ensures Distinct(a + b)
  {
    forall i, j | 0 <= i < j < |a + b| ensures (a + b)[i] != (a + b)[j] {
      if i < |a| <= j { assert a[i] in a && b[j - |a|] in b; }
    }
  }

  lemma DistinctSplit<T(!new)>(a: seq<T>, b: seq<T>)
    requires Distinct(a + b)
    ensures Distinct(a) && Distinct(b) && Apart(a, b)
  {
    forall i, j | 0 <= i < j < |a| ensures a[i] != a[j] { assert (a + b)[i] == a[i] && (a + b)[j] == a[j]; }
    forall i, j | 0 <= i < j < |b| ensures b[i] != b[j] { assert (a + b)[|a| + i] == b[i] && (a + b)[|a| + j] == b[j]; }
    forall i, j | 0 <= i < |a| && 0 <= j < |b| ensures a[i] != b[j] { assert (a + b)[i] == a[i] && (a + b)[|a| + j] == b[j]; }
  }

  /** The labels are exactly the numbers handed out between two states of the counters. */
  ghost predicate Numbers(labels: seq<(string, nat)>, counters: map<string, nat>, after: map<string, nat>) {
    && (forall t :: Counter(counters, t) <= Counter(after, t))
    && (forall t, i: nat :: (t, i) in labels <==> Counter(counters, t) <= i < Counter(after, t))
    && Distinct(labels)
  }

  lemma NumbersConcat(a: seq<(string, nat)>, b: seq<(string, nat)>, c: map<string, nat>, c': map<string, nat>, c'': map<string, nat>)
    requires Numbers(a, c, c') && Numbers(b, c', c'')
    ensures Numbers(a + b, c, c'')
  {
    forall x | x in a ensures x !in b { assert (x.0, x.1) in a; }
    DistinctJoin(a, b);
    forall t ensures Counter(c, t) <= Counter(c'', t) {
      assert Counter(c, t) <= Counter(c', t) <= Counter(c'', t);
    }
    forall t, i: nat ensures (t, i) in a + b <==> Counter(c, t) <= i < Counter(c'', t) {
      assert Counter(c, t) <= Counter(c', t) <= Counter(c'', t);
      assert (t, i) in a + b <==> (t, i) in a || (t, i) in b;
    }
  }

  lemma NumbersOne(t: string, c: map<string, nat>)
    ensures Numbers([(t, Counter(c, t))], c, Counted(c, t))
  {}

  /** A node is numbered after its children but listed before them. */
  lemma NumbersSwap(a: seq<(string, nat)>, b: seq<(string, nat)>, c: map<string, nat>, c': map<string, nat>)
    requires Numbers(a + b, c, c')
    ensures Numbers(b + a, c, c')
  {
    DistinctSplit(a, b);
    DistinctJoin(b, a);
    forall t, i: nat ensures (t, i) in b + a <==> (t, i) in a + b {}
  }

  lemma {:induction false} ParseNumbers(e: Element, depth: nat, maxDepth: nat, counters: map<string, nat>)
    ensures var (r, after) := Parse(e, depth, maxDepth, counters);
            Numbers(if r.Some? then Labels(r.value) else [], counters, after) && (r.Some? ==> Plain(r.value))
    decreases e
  {
    if depth > maxDepth {
    } else if IsOpaque(e) {
      NumbersOne(e.tag, counters);
      assert Labels(Leaf(e, Counter(counters, e.tag))) == [(e.tag, Counter(counters, e.tag))];
    } else {
      var (children, after) := ParseEach(e.children, 0, depth + 1, maxDepth, counters);
      ParseEachNumbers(e.children, 0, depth + 1, maxDepth, counters);
      NumbersOne(e.tag, after);
      NumbersConcat(LabelsEach(children), [(e.tag, Counter(after, e.tag))], counters, after, Counted(after, e.tag));
      NumbersSwap(LabelsEach(children), [(e.tag, Counter(after, e.tag))], counters, Counted(after, e.tag));
    }
  }

  lemma {:induction false} ParseEachNumbers(es: seq<Element>, i: nat, depth: nat, maxDepth: nat, counters: map<string, nat>)
    requires i <= |es|
    ensures var (rs, after) := ParseEach(es, i, depth, maxDepth, counters);
            Numbers(LabelsEach(rs), counters, after) && PlainEach(rs)
    decreases es, |es| - i
  {
    if i < |es| {
      var (first, between) := Parse(es[i], depth, maxDepth, counters);
      var (rest, after) := ParseEach(es, i + 1, depth, maxDepth, between);
      ParseNumbers(es[i], depth, maxDepth, counters);
      ParseEachNumbers(es, i + 1, depth, maxDepth, between);
      if first.Some? {
        NumbersConcat(Labels(first.value), LabelsEach(rest), counters, between, after);
        assert (Listed(first) + rest)[1..] == rest;
      } else {
        NumbersConcat([], LabelsEach(rest), counters, between, after);
        assert Listed(first) + rest == rest && [] + LabelsEach(rest) == LabelsEach(rest);
      }
    }
  }

  lemma {:induction false} OwnLabel(ns: seq<Node>, n: Node)
    requires n in ns
    ensures (n.tag, n.domIndex) in LabelsEach(ns)
  {
    assert ns == [ns[0]] + ns[1..];
    if n == ns[0] { assert Labels(n)[0] == (n.tag, n.domIndex); } else { OwnLabel(ns[1..], n); }
  }

  lemma {:induction false} DistinctLabelsUnique(n: Node)
    requires Distinct(Labels(n))
    ensures UniqueSiblings(n)
    decreases n
  {
    DistinctSplit([(n.tag, n.domIndex)], LabelsEach(n.children));
    DistinctLabelsUniqueEach(n.children);
  }

  lemma {:induction false} DistinctLabelsUniqueEach(ns: seq<Node>)
    requires Distinct(LabelsEach(ns))
    ensures DistinctKeys(ns) && UniqueEach(ns)
    decreases ns
  {
    if ns != [] {
      var n := ns[0];
      DistinctSplit(Labels(n), LabelsEach(ns[1..]));
      assert Labels(n)[0] in Labels(n);
      DistinctLabelsUnique(n);
      DistinctLabelsUniqueEach(ns[1..]);
      var found := Find(ns[1..], Key(n));
      if found.Some? {
        KeyIsInjective(n.tag, n.domIndex, found.value.tag, found.value.domIndex);
        OwnLabel(ns[1..], found.value);
      }
    }
  }

  /** The counter makes (tag, index) unique over the whole tree, and hands out, for every
      tag, the numbers from 0 on without a gap; so siblings have different keys. */
  lemma ParsedLabelsAreUnique(e: Element, maxDepth: nat)
    ensures var (r, after) := Parse(e, 0, maxDepth, map[]);
            && r.Some? && Plain(r.value) && UniqueSiblings(r.value) && Distinct(Labels(r.value))
            && forall t, i: nat :: (t, i) in Labels(r.value) <==> i < Counter(after, t)
  {
    ParseNumbers(e, 0, maxDepth, map[]);
    DistinctLabelsUnique(Parse(e, 0, maxDepth, map[]).0.value);
  }

  /** `n` shows `e`: a script or style only its tag and attributes, any other element also its
      id, classes and text, and its children in order, down to the depth limit. */
  ghost predicate Shows(n: Node, e: Element, depth: nat, maxDepth: nat)
    decreases e
  {
    && n.tag == e.tag && n.change == Same
    && n.attributes == (if e.attributes == map[] then None else Some(e.attributes))
    && if e.tag == "script" || e.tag == "style" then
         n.id == None && n.classes == None && n.text == None && n.children == []
       else
         && n.id == (if e.id == "" then None else Some(e.id))
         && n.classes == (if e.classes == [] then None else Some(e.classes)) && n.text == e.text
         && |n.children| == (if depth < maxDepth then |e.children| else 0)
         && forall i :: 0 <= i < |n.children| ==> Shows(n.children[i], e.children[i], depth + 1, maxDepth)
  }

  lemma {:induction false} ParseShows(e: Element, depth: nat, maxDepth: nat, counters: map<string, nat>)
    requires depth <= maxDepth
    ensures Parse(e, depth, maxDepth, counters).0.Some? && Shows(Parse(e, depth, maxDepth, counters).0.value, e, depth, maxDepth)
    decreases e
  {
    if !IsOpaque(e) { ParseEachShows(e.children, 0, depth + 1, maxDepth, counters); }
  }

  lemma {:induction false} ParseEachShows(es: seq<Element>, i: nat, depth: nat, maxDepth: nat, counters: map<string, nat>)
    requires i <= |es|
    ensures var ns := ParseEach(es, i, depth, maxDepth, counters).0;
            && |ns| == (if depth <= maxDepth then |es| - i else 0)
            && forall j :: 0 <= j < |ns| ==> Shows(ns[j], es[i + j], depth, maxDepth)
    decreases es, |es| - i
  {
    if i < |es| {
      var (first, between) := Parse(es[i], depth, maxDepth, counters);
      ParseEachShows(es, i + 1, depth, maxDepth, between);
      if depth <= maxDepth {
        ParseShows(es[i], depth, maxDepth, counters);
        var rest := ParseEach(es, i + 1, depth, maxDepth, between).0;
        forall j | 0 < j <= |rest| ensures ([first.value] + rest)[j] == rest[j - 1] && es[i + j] == es[i + 1 + (j - 1)] {}
      }
    }
  }

  /** The parsed tree shows the page. */
  lemma ParsedShowsPage(e: Element, maxDepth: nat)
    ensures Parse(e, 0, maxDepth, map[]).0.Some? && Shows(Parse(e, 0, maxDepth, map[]).0.value, e, 0, maxDepth)
  {
    ParseShows(e, 0, maxDepth, map[]);
  }

  /** All of it for two pages: the diff shows the head page, conserves nodes, and is silent
      exactly when the pages are alike, so when they are the same. */
  lemma PagesDiff(base: Element, head: Element, maxDepth: nat)
    ensures var b, h := Parse(base, 0, maxDepth, map[]).0, Parse(head, 0, maxDepth, map[]).0;
            && b.Some? && h.Some?
            && var d := Compare(b.value, h.value);
               && Strip(d) == h.value
               && Size(h.value) - Count(d, IS_ADDED) == Size(b.value) - Count(d, IS_REMOVED)
               && (IsSilent(d) <==> Alike(b.value, h.value))
               && (base == head ==> d == h.value)
  {
    ParsedLabelsAreUnique(base, maxDepth);
    ParsedLabelsAreUnique(head, maxDepth);
    var b, h := Parse(base, 0, maxDepth, map[]).0.value, Parse(head, 0, maxDepth, map[]).0.value;
    StripCompare(b, h);
    DiffConservesNodes(b, h);
    SilentExactlyWhenAlike(b, h);
    SelfSame(h);
  }
}
