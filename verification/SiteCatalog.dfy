/** The catalog of per-site components of internal/app/site_components_catalog.go: a cache
    filled on first use under a per-site lock that is itself deleted again. */
module SiteCatalog {
  import opened Text

  /** The two maps of the catalog. Bundles and locks are named by numbers. */
  datatype Catalog = Catalog(cache: map<string, nat>, initLocks: map<string, nat>)

  function Forget<T>(m: map<string, T>, web: string): (r: map<string, T>)
    ensures web !in r && forall w :: w != web ==> (w in r <==> w in m) && (w in m ==> r[w] == m[w])
  {
    map w | w in m && w != web :: m[w]
  }

  // -------------------------------------------------------------------------
  // The catalog itself: each method is one critical section.
  // -------------------------------------------------------------------------

  class SiteComponentsCatalog {
    var cache: map<string, nat>
    var initLocks: map<string, nat>
    var made: nat

    constructor ()
      ensures Now() == Catalog(map[], map[]) && made == 0
    {
      cache, initLocks, made := map[], map[], 0;
    }

    function Now(): Catalog
      reads this
    {
      Catalog(cache, initLocks)
    }

    method Get(web: string) returns (r: Option<nat>)
      ensures r == if web in cache then Some(cache[web]) else None
    {
      if web in cache { return Some(cache[web]); }
      return None;
    }

    method InitLock(web: string) returns (lock: nat)
      modifies this
      ensures lock == if web in old(initLocks) then old(initLocks)[web] else old(made)
      ensures cache == old(cache) && initLocks == old(initLocks)[web := lock]
      ensures made == if web in old(initLocks) then old(made) else old(made) + 1
    {
      if web !in initLocks {
        initLocks := initLocks[web := made];
        made := made + 1;
      }
      lock := initLocks[web];
      assert initLocks == old(initLocks)[web := lock];
    }

    method Put(web: string, bundle: nat)
      modifies this
      ensures cache == old(cache)[web := bundle] && initLocks == old(initLocks) && made == old(made)
    {
      cache := cache[web := bundle];
    }

    method DropInitLock(web: string)
      modifies this
      ensures cache == old(cache) && initLocks == Forget(old(initLocks), web) && made == old(made)
    {
      initLocks := Forget(initLocks, web);
    }

    method Evict(web: string) returns (r: Option<nat>)
      modifies this
      ensures r == if web in old(cache) then Some(old(cache)[web]) else None
      ensures cache == Forget(old(cache), web) && initLocks == old(initLocks) && made == old(made)
    {
      r := None;
      if web in cache {
        r := Some(cache[web]);
      }
      cache := Forget(cache, web);
    }

    /** Closes every bundle once and empties the cache. */
    method CloseAll() returns (closed: map<string, nat>)
      modifies this
      ensures closed == old(cache) && cache == map[] && initLocks == old(initLocks) && made == old(made)
    {
      closed := map[];
      while cache != map[]
        invariant initLocks == old(initLocks) && made == old(made)
        invariant forall w :: w in old(cache) <==> w in cache || w in closed
        invariant forall w :: w in cache ==> w !in closed && cache[w] == old(cache)[w]
        invariant forall w :: w in closed ==> w in old(cache) && closed[w] == old(cache)[w]
        decreases |cache|
      {
        var web :| web in cache;
        closed := closed[web := cache[web]];
        ghost var before := cache;
        cache := Forget(cache, web);
        assert cache.Keys == before.Keys - {web} && |cache| == |cache.Keys| && |before| == |before.Keys|;
      }
    }

    /** A call nobody interferes with; `build` is what building gives. */
    method ComponentsFor(web: string, build: Option<nat>) returns (r: Option<nat>)
      modifies this
      ensures web in old(cache) ==> r == Some(old(cache)[web]) && Now() == old(Now())
      ensures web !in old(cache) ==> r == build
      ensures web !in old(cache) && build.Some? ==>
                cache == old(cache)[web := build.value] && initLocks == Forget(old(initLocks), web)
      ensures web !in old(cache) && build.None? ==>
                cache == old(cache) && web in initLocks && Forget(initLocks, web) == Forget(old(initLocks), web)
    {
      r := Get(web);
      if r.Some? { return; }
      var lock := InitLock(web);
      r := Get(web);
      if r.Some? { return; }
      r := build;
      if build.None? { return; }
      Put(web, build.value);
      DropInitLock(web);
    }
  }

  // -------------------------------------------------------------------------
  // Many calls at once.
  // -------------------------------------------------------------------------

  /** Where a call to componentsFor stands. `Built` is between a successful build and
      storing it, `Stored` between storing it and deleting the lock's entry, `Leaving`
      just before the deferred unlock. */
  datatype Pc =
    | Idle
    | Missed
    | Waiting(lock: nat)
    | Locked(lock: nat)
    | Building(lock: nat)
    | Built(lock: nat, bundle: nat)
    | Stored(lock: nat, bundle: nat)
    | Leaving(lock: nat, outcome: Option<nat>)
    | Done(result: Option<nat>)

  datatype Call = Call(web: string, pc: Pc)

  /** `held` gives the call that holds a lock, `locks` the site every lock was made for,
      and `builds` the site of every successful build so far. */
  datatype State = State(
    catalog: Catalog, held: map<nat, nat>, locks: seq<string>, builds: seq<string>, calls: seq<Call>)

  datatype Action = Step(call: nat, succeeds: bool) | Evict(web: string) | Put(web: string, bundle: nat) | CloseAll

  /** What happens to the cache besides the calls: nothing, evictions and the like only while
      they are harmless, or anything at any time. */
  datatype Others = Absent | Considerate | Anytime

  predicate UsesLock(pc: Pc) {
    pc.Waiting? || Holds(pc)
  }

  predicate Holds(pc: Pc) {
    pc.Locked? || pc.Building? || pc.Built? || pc.Stored? || pc.Leaving?
  }

  predicate IsBuilding(c: Call, web: string) {
    c.web == web && (c.pc.Building? || c.pc.Built?)
  }

  predicate CanStep(s: State, i: nat) {
    i < |s.calls| && !s.calls[i].pc.Done? && (s.calls[i].pc.Waiting? ==> s.calls[i].pc.lock !in s.held)
  }

  ghost predicate Unused(s: State, web: string) {
    forall i :: 0 <= i < |s.calls| && s.calls[i].web == web ==> !UsesLock(s.calls[i].pc)
  }

  /** May still build, or delete the lock's entry. */
  predicate MayBuild(pc: Pc) {
    UsesLock(pc) && !pc.Leaving?
  }

  /** All calls of the site that may still build use the lock in the table, and none is about
      to delete its entry. */
  ghost predicate Harmless(s: State, web: string) {
    forall i :: 0 <= i < |s.calls| && s.calls[i].web == web && MayBuild(s.calls[i].pc) ==>
      !s.calls[i].pc.Stored? && web in s.catalog.initLocks && s.catalog.initLocks[web] == s.calls[i].pc.lock
  }

  ghost predicate NobodyBuilds(s: State, web: string) {
    forall i :: 0 <= i < |s.calls| ==> !IsBuilding(s.calls[i], web)
  }

  ghost predicate Enabled(others: Others, s: State, a: Action) {
    match a
    case Step(i, _) => CanStep(s, i)
    case Evict(web) => others.Anytime? || (others.Considerate? && Harmless(s, web))
    case Put(web, _) => others.Anytime? || (others.Considerate? && NobodyBuilds(s, web))
    case CloseAll => others.Anytime? || (others.Considerate? && forall web :: web in s.catalog.cache ==> Harmless(s, web))
  }

  function Goto(s: State, i: nat, pc: Pc): State
    requires i < |s.calls|
  {
    s.(calls := s.calls[i := Call(s.calls[i].web, pc)])
  }

  function Asked(s: State, i: nat): State
    requires i < |s.calls|
  {
    var c, web := s.catalog, s.calls[i].web;
    if web in c.initLocks then Goto(s, i, Waiting(c.initLocks[web]))
    else
      Goto(s.(catalog := c.(initLocks := c.initLocks[web := |s.locks|]), locks := s.locks + [web]), i, Waiting(|s.locks|))
  }

  function Release(held: map<nat, nat>, lock: nat): (r: map<nat, nat>)
    ensures lock !in r && forall l :: l != lock ==> (l in r <==> l in held) && (l in held ==> r[l] == held[l])
  {
    map l | l in held && l != lock :: held[l]
  }

  function StepCall(s: State, i: nat, succeeds: bool): State
    requires CanStep(s, i)
  {
    var c, web := s.catalog, s.calls[i].web;
    match s.calls[i].pc
    case Idle => Goto(s, i, if web in c.cache then Done(Some(c.cache[web])) else Missed)
    case Missed => Asked(s, i)
    case Waiting(l) => Goto(s.(held := s.held[l := i]), i, Locked(l))
    case Locked(l) => Goto(s, i, if web in c.cache then Leaving(l, Some(c.cache[web])) else Building(l))
    case Building(l) =>
      if succeeds then Goto(s.(builds := s.builds + [web]), i, Built(l, |s.builds|)) else Goto(s, i, Leaving(l, None))
    case Built(l, b) => Goto(s.(catalog := c.(cache := c.cache[web := b])), i, Stored(l, b))
    case Stored(l, b) => Goto(s.(catalog := c.(initLocks := Forget(c.initLocks, web))), i, Leaving(l, Some(b)))
    case Leaving(l, outcome) => Goto(s.(held := Release(s.held, l)), i, Done(outcome))
  }

  ghost function Apply(others: Others, s: State, a: Action): State
    requires Enabled(others, s, a)
  {
    match a
    case Step(i, succeeds) => StepCall(s, i, succeeds)
    case Evict(web) => s.(catalog := s.catalog.(cache := Forget(s.catalog.cache, web)))
    case Put(web, b) => s.(catalog := s.catalog.(cache := s.catalog.cache[web := b]))
    case CloseAll => s.(catalog := s.catalog.(cache := map[]))
  }

  function Init(webs: seq<string>): State {
    State(Catalog(map[], map[]), map[], [], [], seq(|webs|, i requires 0 <= i < |webs| => Call(webs[i], Idle)))
  }

  ghost predicate Leads(others: Others, s: State, actions: seq<Action>, s': State)
    decreases |actions|
  {
    if actions == [] then s == s'
    else Enabled(others, s, actions[0]) && Leads(others, Apply(others, s, actions[0]), actions[1..], s')
  }

  // -------------------------------------------------------------------------
  // What every step keeps.
  // -------------------------------------------------------------------------

  ghost predicate HeldBy(s: State, l: nat, i: nat) {
    i < |s.calls| && Holds(s.calls[i].pc) && s.calls[i].pc.lock == l
  }

  ghost predicate HeldIsHeld(s: State) {
    forall l :: l in s.held ==> HeldBy(s, l, s.held[l])
  }

  ghost predicate HoldersHold(s: State) {
    forall i :: 0 <= i < |s.calls| && Holds(s.calls[i].pc) ==> s.calls[i].pc.lock in s.held && s.held[s.calls[i].pc.lock] == i
  }

  /** A held lock has one holder. */
  ghost predicate Excluding(s: State) {
    HeldIsHeld(s) && HoldersHold(s)
  }

  ghost predicate LockOf(s: State, l: nat, web: string) {
    l < |s.locks| && s.locks[l] == web
  }

  /** Every lock serves one site. */
  ghost predicate OwnLocks(s: State) {
    && (forall i :: 0 <= i < |s.calls| && UsesLock(s.calls[i].pc) ==> LockOf(s, s.calls[i].pc.lock, s.calls[i].web))
    && (forall web :: web in s.catalog.initLocks ==> LockOf(s, s.catalog.initLocks[web], web))
  }

  /** Until a site is cached, all its calls that may build use the one lock in the table. */
  ghost predicate OneLock(s: State) {
    forall i :: 0 <= i < |s.calls| && MayBuild(s.calls[i].pc) && s.calls[i].web !in s.catalog.cache ==>
      s.calls[i].web in s.catalog.initLocks && s.catalog.initLocks[s.calls[i].web] == s.calls[i].pc.lock
  }

  ghost predicate BuildsUncached(s: State) {
    forall i :: 0 <= i < |s.calls| && (s.calls[i].pc.Building? || s.calls[i].pc.Built?) ==>
      s.calls[i].web !in s.catalog.cache
  }

  ghost predicate StoredIsCached(s: State) {
    forall i :: 0 <= i < |s.calls| && s.calls[i].pc.Stored? ==> s.calls[i].web in s.catalog.cache
  }

  ghost predicate Guarded(s: State) {
    Excluding(s) && OwnLocks(s) && OneLock(s) && BuildsUncached(s) && StoredIsCached(s)
  }

  /** A build in progress excludes every other one of its site. */
  lemma SameBuilder(s: State, i: nat, j: nat, web: string)
    requires Guarded(s) && i < |s.calls| && j < |s.calls|
    requires IsBuilding(s.calls[i], web) && IsBuilding(s.calls[j], web)
    ensures i == j
  {
    assert UsesLock(s.calls[i].pc) && UsesLock(s.calls[j].pc);
    assert s.held[s.calls[i].pc.lock] == i && s.held[s.calls[j].pc.lock] == j;
  }

  lemma StepKeepsHeld(s: State, i: nat, succeeds: bool)
    requires Excluding(s) && CanStep(s, i)
    ensures HeldIsHeld(StepCall(s, i, succeeds))
  {
    var s' := StepCall(s, i, succeeds);
    forall l | l in s'.held ensures HeldBy(s', l, s'.held[l]) {
      assert l in s.held ==> HeldBy(s, l, s.held[l]);
    }
  }

  lemma StepKeepsHolders(s: State, i: nat, succeeds: bool)
    requires Excluding(s) && CanStep(s, i)
    ensures HoldersHold(StepCall(s, i, succeeds))
  {}

  lemma StepKeepsOwnLocks(s: State, i: nat, succeeds: bool)
    requires OwnLocks(s) && CanStep(s, i)
    ensures OwnLocks(StepCall(s, i, succeeds))
  {}

  lemma StepKeepsOneLock(s: State, i: nat, succeeds: bool)
    requires Guarded(s) && CanStep(s, i)
    ensures OneLock(StepCall(s, i, succeeds))
  {}

  lemma StepKeepsUncached(s: State, i: nat, succeeds: bool)
    requires Guarded(s) && CanStep(s, i)
    ensures BuildsUncached(StepCall(s, i, succeeds)) && StoredIsCached(StepCall(s, i, succeeds))
  {
    var s' := StepCall(s, i, succeeds);
    var web := s.calls[i].web;
    forall j | 0 <= j < |s'.calls| && (s'.calls[j].pc.Building? || s'.calls[j].pc.Built?)
      ensures s'.calls[j].web !in s'.catalog.cache
    {
      if s.calls[i].pc.Built? && s.calls[j].web == web && j != i {
        SameBuilder(s, i, j, web);
      }
    }
  }

  lemma OthersKeepGuarded(others: Others, s: State, a: Action)
    requires Guarded(s) && !a.Step? && !others.Anytime? && Enabled(others, s, a)
    ensures Guarded(Apply(others, s, a))
  {
    var s' := Apply(others, s, a);
    forall i | 0 <= i < |s'.calls| && MayBuild(s'.calls[i].pc) && s'.calls[i].web !in s'.catalog.cache
      ensures s'.calls[i].web in s'.catalog.initLocks && s'.catalog.initLocks[s'.calls[i].web] == s'.calls[i].pc.lock
    {}
  }

  lemma StepKeepsGuarded(others: Others, s: State, a: Action)
    requires Guarded(s) && !others.Anytime? && Enabled(others, s, a)
    ensures Guarded(Apply(others, s, a))
  {
    match a {
      case Step(i, succeeds) =>
        StepKeepsHeld(s, i, succeeds);
        StepKeepsHolders(s, i, succeeds);
        StepKeepsOwnLocks(s, i, succeeds);
        StepKeepsOneLock(s, i, succeeds);
        StepKeepsUncached(s, i, succeeds);
      case Evict(_) => OthersKeepGuarded(others, s, a);
      case Put(_, _) => OthersKeepGuarded(others, s, a);
      case CloseAll => OthersKeepGuarded(others, s, a);
    }
  }

  lemma {:induction false} LeadsKeepsGuarded(others: Others, s: State, actions: seq<Action>, s': State)
    requires Guarded(s) && !others.Anytime? && Leads(others, s, actions, s')
    ensures Guarded(s')
    decreases |actions|
  {
    if actions != [] {
      StepKeepsGuarded(others, s, actions[0]);
      LeadsKeepsGuarded(others, Apply(others, s, actions[0]), actions[1..], s');
    }
  }

  /** Single flight: however calls interleave, and even though the lock's entry is deleted
      while waiters still hold it, at most one build of a site is in progress, as long as
      the cache is emptied from outside only while that is harmless, and filled only while
      the site is not being built. */
  lemma SingleFlight(others: Others, webs: seq<string>, actions: seq<Action>, s: State, i: nat, j: nat, web: string)
    requires !others.Anytime? && Leads(others, Init(webs), actions, s)
    requires i < |s.calls| && j < |s.calls|
    requires IsBuilding(s.calls[i], web) && IsBuilding(s.calls[j], web)
    ensures i == j && web !in s.catalog.cache
  {
    LeadsKeepsGuarded(others, Init(webs), actions, s);
    SameBuilder(s, i, j, web);
  }

  // -------------------------------------------------------------------------
  // Without outside interference a site is built once.
  // -------------------------------------------------------------------------

  ghost predicate BuiltBy(s: State, b: nat, web: string) {
    exists i :: 0 <= i < |s.calls| && s.calls[i].pc.Built? && s.calls[i].pc.bundle == b && s.calls[i].web == web
  }

  /** What a call has been given is what is cached. */
  ghost predicate Given(s: State, c: Call) {
    && (c.pc.Built? ==> c.pc.bundle < |s.builds| && s.builds[c.pc.bundle] == c.web)
    && (c.pc.Stored? ==> c.web in s.catalog.cache && s.catalog.cache[c.web] == c.pc.bundle)
    && (c.pc.Leaving? && c.pc.outcome.Some? ==> c.web in s.catalog.cache && s.catalog.cache[c.web] == c.pc.outcome.value)
    && (c.pc.Done? && c.pc.result.Some? ==> c.web in s.catalog.cache && s.catalog.cache[c.web] == c.pc.result.value)
  }

  ghost predicate CachedIsBuilt(s: State) {
    forall web :: web in s.catalog.cache ==> s.catalog.cache[web] < |s.builds| && s.builds[s.catalog.cache[web]] == web
  }

  /** The bundle of every successful build is cached, or about to be. */
  ghost predicate NoneLost(s: State) {
    forall b :: 0 <= b < |s.builds| ==>
      (s.builds[b] in s.catalog.cache && s.catalog.cache[s.builds[b]] == b) || BuiltBy(s, b, s.builds[b])
  }

  ghost predicate BuiltOnce(s: State) {
    forall b, b' :: 0 <= b < b' < |s.builds| ==> s.builds[b] != s.builds[b']
  }

  ghost predicate AllGiven(s: State) {
    forall i :: 0 <= i < |s.calls| ==> Given(s, s.calls[i])
  }

  ghost predicate Once(s: State) {
    CachedIsBuilt(s) && NoneLost(s) && BuiltOnce(s) && AllGiven(s)
  }

  lemma StepKeepsCachedIsBuilt(s: State, i: nat, succeeds: bool)
    requires CachedIsBuilt(s) && CanStep(s, i) && Given(s, s.calls[i])
    ensures CachedIsBuilt(StepCall(s, i, succeeds))
  {}

  lemma StepKeepsGiven(s: State, i: nat, succeeds: bool)
    requires Guarded(s) && AllGiven(s) && CanStep(s, i)
    ensures AllGiven(StepCall(s, i, succeeds))
  {
    var s' := StepCall(s, i, succeeds);
    forall j | 0 <= j < |s.calls| && j != i ensures Given(s', s'.calls[j]) {
      assert Given(s, s.calls[j]) && s'.calls[j] == s.calls[j];
    }
    assert Given(s, s.calls[i]);
    assert Given(s', s'.calls[i]);
  }

  lemma StaysBuilt(s: State, i: nat, succeeds: bool, b: nat)
    requires BuildsUncached(s) && NoneLost(s) && CanStep(s, i) && b < |s.builds|
    ensures var s' := StepCall(s, i, succeeds);
            (s.builds[b] in s'.catalog.cache && s'.catalog.cache[s.builds[b]] == b) || BuiltBy(s', b, s.builds[b])
  {
    var s' := StepCall(s, i, succeeds);
    if BuiltBy(s, b, s.builds[b]) {
      var j :| 0 <= j < |s.calls| && s.calls[j].pc.Built? && s.calls[j].pc.bundle == b && s.calls[j].web == s.builds[b];
      if j != i { assert s'.calls[j] == s.calls[j]; }
    }
  }

  lemma StepKeepsNoneLost(s: State, i: nat, succeeds: bool)
    requires BuildsUncached(s) && NoneLost(s) && CanStep(s, i)
    ensures NoneLost(StepCall(s, i, succeeds))
  {
    var s' := StepCall(s, i, succeeds);
    forall b | 0 <= b < |s'.builds|
      ensures (s'.builds[b] in s'.catalog.cache && s'.catalog.cache[s'.builds[b]] == b) || BuiltBy(s', b, s'.builds[b])
    {
      if b < |s.builds| { StaysBuilt(s, i, succeeds, b); } else { assert s'.calls[i].pc.Built?; }
    }
  }

  /** A build that succeeds is the first of its site. */
  lemma StepKeepsBuiltOnce(s: State, i: nat, succeeds: bool)
    requires Guarded(s) && Once(s) && CanStep(s, i)
    ensures BuiltOnce(StepCall(s, i, succeeds))
  {
    var web := s.calls[i].web;
    forall b | 0 <= b < |s.builds| && s.calls[i].pc.Building? ensures s.builds[b] != web {
      if s.builds[b] == web {
        assert BuiltBy(s, b, web);
        var j :| 0 <= j < |s.calls| && s.calls[j].pc.Built? && s.calls[j].pc.bundle == b && s.calls[j].web == web;
        SameBuilder(s, i, j, web);
      }
    }
  }

  lemma StepKeepsOnce(s: State, i: nat, succeeds: bool)
    requires Guarded(s) && Once(s) && CanStep(s, i)
    ensures Once(StepCall(s, i, succeeds))
  {
    StepKeepsCachedIsBuilt(s, i, succeeds);
    StepKeepsGiven(s, i, succeeds);
    StepKeepsNoneLost(s, i, succeeds);
    StepKeepsBuiltOnce(s, i, succeeds);
  }

  lemma {:induction false} LeadsKeepsOnce(s: State, actions: seq<Action>, s': State)
    requires Guarded(s) && Once(s) && Leads(Absent, s, actions, s')
    ensures Guarded(s') && Once(s')
    decreases |actions|
  {
    if actions != [] {
      var a := actions[0];
      StepKeepsGuarded(Absent, s, a);
      StepKeepsOnce(s, a.call, a.succeeds);
      LeadsKeepsOnce(Apply(Absent, s, a), actions[1..], s');
    }
  }

  /** In the run, call `i` makes a build that fails. */
  ghost predicate BuildFails(others: Others, s: State, actions: seq<Action>, i: nat)
    decreases |actions|
  {
    actions != [] && Enabled(others, s, actions[0]) &&
    ((actions[0] == Step(i, false) && s.calls[i].pc.Building?) || BuildFails(others, Apply(others, s, actions[0]), actions[1..], i))
  }

  predicate HasFailed(pc: Pc) {
    pc == Done(None) || (pc.Leaving? && pc.outcome.None?)
  }

  lemma {:induction false} CallsStay(others: Others, s: State, actions: seq<Action>, s': State)
    requires Leads(others, s, actions, s')
    ensures |s'.calls| == |s.calls| && forall i :: 0 <= i < |s.calls| ==> s'.calls[i].web == s.calls[i].web
    decreases |actions|
  {
    if actions != [] { CallsStay(others, Apply(others, s, actions[0]), actions[1..], s'); }
  }

  /** A call fails exactly when its own build does, whatever happens to the cache. */
  lemma {:induction false} FailsWithItsBuild(others: Others, s: State, actions: seq<Action>, s': State, i: nat)
    requires Leads(others, s, actions, s') && i < |s.calls|
    ensures |s'.calls| == |s.calls|
    ensures HasFailed(s'.calls[i].pc) <==> HasFailed(s.calls[i].pc) || BuildFails(others, s, actions, i)
    decreases |actions|
  {
    if actions != [] { FailsWithItsBuild(others, Apply(others, s, actions[0]), actions[1..], s', i); }
  }

  /** With calls only, at most one build of a site ever succeeds; a call that has returned
      gives an error exactly when its own build has failed, and otherwise the bundle of the
      site's one successful build. */
  lemma OneBundlePerSite(webs: seq<string>, actions: seq<Action>, s: State)
    requires Leads(Absent, Init(webs), actions, s)
    ensures forall b, b' :: 0 <= b < |s.builds| && 0 <= b' < |s.builds| && s.builds[b] == s.builds[b'] ==> b == b'
    ensures forall i :: 0 <= i < |s.calls| && s.calls[i].pc.Done? && s.calls[i].pc.result.Some? ==>
              s.calls[i].pc.result.value < |s.builds| && s.builds[s.calls[i].pc.result.value] == s.calls[i].web
    ensures |s.calls| == |webs| && forall i :: 0 <= i < |s.calls| ==> s.calls[i].web == webs[i]
    ensures forall i :: 0 <= i < |s.calls| && s.calls[i].pc.Done? ==>
              (s.calls[i].pc.result.None? <==> BuildFails(Absent, Init(webs), actions, i))
  {
    LeadsKeepsOnce(Init(webs), actions, s);
    CallsStay(Absent, Init(webs), actions, s);
    forall i | 0 <= i < |s.calls| ensures HasFailed(s.calls[i].pc) <==> BuildFails(Absent, Init(webs), actions, i) {
      FailsWithItsBuild(Absent, Init(webs), actions, s, i);
    }
    forall i | 0 <= i < |s.calls| && s.calls[i].pc.Done? && s.calls[i].pc.result.Some?
      ensures s.calls[i].pc.result.value < |s.builds| && s.builds[s.calls[i].pc.result.value] == s.calls[i].web
    {
      assert Given(s, s.calls[i]);
    }
  }

  // -------------------------------------------------------------------------
  // Every call returns, and failures stay retryable.
  // -------------------------------------------------------------------------

  /** A call that waits is waiting for one that can go on. */
  lemma NoDeadlock(s: State, i: nat) returns (j: nat)
    requires Guarded(s) && i < |s.calls| && !s.calls[i].pc.Done?
    ensures CanStep(s, j)
  {
    j := i;
    if s.calls[i].pc.Waiting? && s.calls[i].pc.lock in s.held {
      j := s.held[s.calls[i].pc.lock];
      assert HeldBy(s, s.calls[i].pc.lock, j);
    }
  }

  function StepsLeft(pc: Pc): nat {
    match pc
    case Idle => 8
    case Missed => 7
    case Waiting(_) => 6
    case Locked(_) => 5
    case Building(_) => 4
    case Built(_, _) => 3
    case Stored(_, _) => 2
    case Leaving(_, _) => 1
    case Done(_) => 0
  }

  function Remaining(calls: seq<Call>, n: nat): nat
    requires n <= |calls|
  {
    if n == 0 then 0 else StepsLeft(calls[n - 1].pc) + Remaining(calls, n - 1)
  }

  lemma {:induction false} OneCallLess(calls: seq<Call>, calls': seq<Call>, i: nat, n: nat)
    requires i < |calls| == |calls'| && calls' == calls[i := calls'[i]] && StepsLeft(calls'[i].pc) < StepsLeft(calls[i].pc)
    requires n <= |calls|
    ensures Remaining(calls', n) <= Remaining(calls, n)
    ensures i < n ==> Remaining(calls', n) < Remaining(calls, n)
  {
    if n > 0 { OneCallLess(calls, calls', i, n - 1); }
  }

  lemma {:induction false} RemainingAtMost(calls: seq<Call>, n: nat)
    requires n <= |calls|
    ensures Remaining(calls, n) <= 8 * n
  {
    if n > 0 { RemainingAtMost(calls, n - 1); }
  }

  lemma {:induction false} StepsAreUsedUp(s: State, actions: seq<Action>, s': State)
    requires Leads(Absent, s, actions, s')
    ensures |s'.calls| == |s.calls| && |actions| <= Remaining(s.calls, |s.calls|)
    decreases |actions|
  {
    if actions != [] {
      var a := actions[0];
      var s1 := Apply(Absent, s, a);
      OneCallLess(s.calls, s1.calls, a.call, |s.calls|);
      StepsAreUsedUp(s1, actions[1..], s');
    }
  }

  /** No call hangs: `n` calls take at most `8 * n` steps together, and as long as one of
      them has not returned, some call can make a step. */
  lemma CallsReturn(webs: seq<string>, actions: seq<Action>, s: State)
    requires Leads(Absent, Init(webs), actions, s)
    ensures |actions| <= 8 * |webs|
    ensures (forall j :: !CanStep(s, j)) ==> forall i :: 0 <= i < |s.calls| ==> s.calls[i].pc.Done?
  {
    StepsAreUsedUp(Init(webs), actions, s);
    RemainingAtMost(Init(webs).calls, |webs|);
    LeadsKeepsGuarded(Absent, Init(webs), actions, s);
    forall i | 0 <= i < |s.calls| && !s.calls[i].pc.Done? ensures exists j :: CanStep(s, j) {
      var j := NoDeadlock(s, i);
    }
  }

  lemma {:induction false} OneMore(others: Others, s: State, actions: seq<Action>, s': State, a: Action)
    requires Leads(others, s, actions, s') && Enabled(others, s', a)
    ensures Leads(others, s, actions + [a], Apply(others, s', a))
    decreases |actions|
  {
    if actions == [] {
      assert Leads(others, Apply(others, s, a), [], Apply(others, s, a));
    } else {
      OneMore(others, Apply(others, s, actions[0]), actions[1..], s', a);
      assert (actions + [a])[1..] == actions[1..] + [a];
    }
  }

  /** One step further along a run. */
  lemma Go(others: Others, s0: State, actions: seq<Action>, s: State, i: nat) returns (actions': seq<Action>, s': State)
    requires Leads(others, s0, actions, s) && CanStep(s, i)
    ensures s' == StepCall(s, i, true) && Leads(others, s0, actions', s')
  {
    actions', s' := actions + [Step(i, true)], StepCall(s, i, true);
    OneMore(others, s0, actions, s, Step(i, true));
  }

  lemma UnusedLockIsFree(s: State, web: string, l: nat)
    requires Guarded(s) && Unused(s, web) && (l < |s.locks| ==> s.locks[l] == web)
    ensures l !in s.held
  {}

  lemma TakesTheLock(s: State, i: nat) returns (actions: seq<Action>, s': State)
    requires Guarded(s) && i < |s.calls| && s.calls[i].pc.Idle?
    requires s.calls[i].web !in s.catalog.cache && Unused(s, s.calls[i].web)
    ensures Leads(Absent, s, actions, s') && |s'.calls| == |s.calls| && s'.calls[i].pc.Locked? && s'.calls[i].web == s.calls[i].web
    ensures s'.catalog.cache == s.catalog.cache && s'.builds == s.builds
  {
    actions, s' := Go(Absent, s, [], s, i);
    actions, s' := Go(Absent, s, actions, s', i);
    UnusedLockIsFree(s, s.calls[i].web, s'.calls[i].pc.lock);
    actions, s' := Go(Absent, s, actions, s', i);
  }

  lemma Leaves(s0: State, actions: seq<Action>, s: State, i: nat) returns (actions': seq<Action>, s': State)
    requires Leads(Absent, s0, actions, s) && i < |s.calls| && s.calls[i].pc.Built?
    ensures Leads(Absent, s0, actions', s') && |s'.calls| == |s.calls| && s'.builds == s.builds
    ensures s'.calls[i].pc == Done(Some(s.calls[i].pc.bundle))
    ensures s'.catalog.cache == s.catalog.cache[s.calls[i].web := s.calls[i].pc.bundle]
  {
    actions', s' := Go(Absent, s0, actions, s, i);
    actions', s' := LeavesStored(s0, actions', s', i);
  }

  lemma LeavesStored(s0: State, actions: seq<Action>, s: State, i: nat) returns (actions': seq<Action>, s': State)
    requires Leads(Absent, s0, actions, s) && i < |s.calls| && s.calls[i].pc.Stored?
    ensures Leads(Absent, s0, actions', s') && |s'.calls| == |s.calls| && s'.builds == s.builds
    ensures s'.calls[i].pc == Done(Some(s.calls[i].pc.bundle)) && s'.catalog.cache == s.catalog.cache
  {
    actions', s' := Go(Absent, s0, actions, s, i);
    actions', s' := Go(Absent, s0, actions', s', i);
  }

  /** A failed build is not remembered: whatever happened before, a new call for a site that
      is not cached and that nobody is working on can build it, and then it is cached. */
  lemma FailureIsRetryable(s: State, i: nat) returns (actions: seq<Action>, s': State)
    requires Guarded(s) && i < |s.calls| && s.calls[i].pc.Idle?
    requires s.calls[i].web !in s.catalog.cache && Unused(s, s.calls[i].web)
    ensures Leads(Absent, s, actions, s') && |s'.calls| == |s.calls|
    ensures s'.calls[i].pc == Done(Some(|s.builds|)) && s'.builds == s.builds + [s.calls[i].web]
    ensures s'.catalog.cache == s.catalog.cache[s.calls[i].web := |s.builds|]
  {
    actions, s' := TakesTheLock(s, i);
    actions, s' := Go(Absent, s, actions, s', i);
    actions, s' := Go(Absent, s, actions, s', i);
    assert s'.calls[i].pc == Built(s'.calls[i].pc.lock, |s.builds|) && s'.catalog.cache == s.catalog.cache;
    actions, s' := Leaves(s, actions, s', i);
  }

  // -------------------------------------------------------------------------
  // An eviction at the wrong moment.
  // -------------------------------------------------------------------------

  const SITES := ["site", "site", "site"]

  lemma OneLocksOneWaits() returns (actions: seq<Action>, s: State)
    ensures Leads(Anytime, Init(SITES), actions, s)
    ensures s == State(Catalog(map[], map["site" := 0]), map[0 := 0], ["site"], [],
                       [Call("site", Locked(0)), Call("site", Waiting(0)), Call("site", Idle)])
  {
    var init := Init(SITES);
    actions, s := Go(Anytime, init, [], init, 1);
    actions, s := Go(Anytime, init, actions, s, 1);
    actions, s := Go(Anytime, init, actions, s, 0);
    actions, s := Go(Anytime, init, actions, s, 0);
    actions, s := Go(Anytime, init, actions, s, 0);
  }

  /** The first call builds and caches the site while the second waits for its lock, and
      the lock's entry is deleted. */
  lemma OneBuildsOneWaits() returns (actions: seq<Action>, s: State)
    ensures Leads(Anytime, Init(SITES), actions, s)
    ensures s == State(Catalog(map["site" := 0], map[]), map[], ["site"], ["site"],
                       [Call("site", Done(Some(0))), Call("site", Waiting(0)), Call("site", Idle)])
  {
    actions, s := OneLocksOneWaits();
    actions, s := Go(Anytime, Init(SITES), actions, s, 0);
    actions, s := Go(Anytime, Init(SITES), actions, s, 0);
    actions, s := Go(Anytime, Init(SITES), actions, s, 0);
    actions, s := Go(Anytime, Init(SITES), actions, s, 0);
    actions, s := Go(Anytime, Init(SITES), actions, s, 0);
  }

  /** Without the condition on evictions single flight fails: when the site is evicted while
      a call still waits for the deleted lock, the next call makes a second lock and both build. */
  lemma EvictionLetsTwoBuild() returns (actions: seq<Action>, s: State)
    ensures Leads(Anytime, Init(SITES), actions, s)
    ensures |s.calls| == 3 && IsBuilding(s.calls[1], "site") && IsBuilding(s.calls[2], "site")
  {
    var init := Init(SITES);
    actions, s := OneBuildsOneWaits();
    OneMore(Anytime, init, actions, s, Evict("site"));
    actions, s := actions + [Evict("site")], Apply(Anytime, s, Evict("site"));
    actions, s := Go(Anytime, init, actions, s, 1);
    actions, s := Go(Anytime, init, actions, s, 1);
    actions, s := Go(Anytime, init, actions, s, 2);
    actions, s := Go(Anytime, init, actions, s, 2);
    actions, s := Go(Anytime, init, actions, s, 2);
    actions, s := Go(Anytime, init, actions, s, 2);
  }

  // -------------------------------------------------------------------------
  // Exactly which evictions are harmless.
  // -------------------------------------------------------------------------

  /** After an eviction: what locks are for, and a site that is neither cached nor built. */
  ghost predicate Evicted(s: State, web: string) {
    Excluding(s) && OwnLocks(s) && web !in s.catalog.cache
  }

  lemma StepKeepsEvicted(s: State, i: nat, web: string)
    requires Evicted(s, web) && CanStep(s, i) && !s.calls[i].pc.Built?
    ensures Evicted(StepCall(s, i, true), web)
  {
    StepKeepsHeld(s, i, true);
    StepKeepsOwnLocks(s, i, true);
  }

  /** One step of a call along a run. */
  lemma GoOn(s0: State, actions: seq<Action>, s: State, i: nat, web: string) returns (actions': seq<Action>, s': State)
    requires Leads(Considerate, s0, actions, s) && CanStep(s, i) && Evicted(s, web) && !s.calls[i].pc.Built?
    ensures s' == StepCall(s, i, true) && Leads(Considerate, s0, actions', s') && Evicted(s', web)
  {
    actions', s' := Go(Considerate, s0, actions, s, i);
    StepKeepsEvicted(s, i, web);
  }

  ghost predicate Registered(s: State, web: string, l: nat) {
    web in s.catalog.initLocks && s.catalog.initLocks[web] == l
  }

  /** A call that has stored its bundle, or leaves, gets out of the way. */
  lemma GetsOut(s0: State, actions: seq<Action>, s: State, k: nat, web: string) returns (actions': seq<Action>, s': State)
    requires Leads(Considerate, s0, actions, s) && Evicted(s, web) && k < |s.calls| && s.calls[k].web == web
    requires s.calls[k].pc.Stored? || s.calls[k].pc.Leaving?
    ensures Leads(Considerate, s0, actions', s') && Evicted(s', web) && |s'.calls| == |s.calls|
    ensures forall j :: 0 <= j < |s.calls| && j != k ==> s'.calls[j] == s.calls[j]
    ensures s.calls[k].pc.lock !in s'.held && s'.calls[k].web == web && s'.calls[k].pc.Done?
    ensures forall l :: l in s'.held ==> l in s.held && s'.held[l] == s.held[l]
    ensures forall l :: Registered(s', web, l) ==> Registered(s, web, l)
  {
    actions', s' := actions, s;
    if s.calls[k].pc.Stored? { actions', s' := GoOn(s0, actions', s', k, web); }
    actions', s' := GoOn(s0, actions', s', k, web);
  }

  /** The lock a call of the site waits for comes to be held, ready to build: by another
      call that has it already, or by this one when the holder got out of the way. */
  lemma LockIsTaken(s0: State, actions: seq<Action>, s: State, i: nat, web: string)
    returns (actions': seq<Action>, s': State, a: nat)
    requires Leads(Considerate, s0, actions, s) && Evicted(s, web) && NobodyBuilds(s, web)
    requires i < |s.calls| && s.calls[i].web == web && s.calls[i].pc.Waiting?
    ensures Leads(Considerate, s0, actions', s') && Evicted(s', web) && |s'.calls| == |s.calls|
    ensures a < |s'.calls| && s'.calls[a] == Call(web, Locked(s.calls[i].pc.lock))
    ensures forall j :: 0 <= j < |s.calls| && j != a ==> s'.calls[j] == s.calls[j] || s'.calls[j].pc.Done?
    ensures forall j :: 0 <= j < |s.calls| && s.calls[j].pc.Idle? ==> s'.calls[j] == s.calls[j]
    ensures forall l :: Registered(s', web, l) ==> Registered(s, web, l)
  {
    var l := s.calls[i].pc.lock;
    actions', s', a := actions, s, i;
    if l in s.held {
      var k := s.held[l];
      assert HeldBy(s, l, k) && s.calls[k].web == web;
      if s.calls[k].pc.Locked? { return actions, s, k; }
      assert !IsBuilding(s.calls[k], web);
      actions', s' := GetsOut(s0, actions', s', k, web);
    }
    actions', s' := GoOn(s0, actions', s', i, web);
  }

  /** The holder of a lock of the site, or the call that waits for it, comes to build. */
  lemma OneBuilds(s0: State, actions: seq<Action>, s: State, i: nat, web: string)
    returns (actions': seq<Action>, s': State, a: nat)
    requires Leads(Considerate, s0, actions, s) && Evicted(s, web) && NobodyBuilds(s, web)
    requires i < |s.calls| && s.calls[i].web == web && (s.calls[i].pc.Waiting? || s.calls[i].pc.Locked?)
    ensures Leads(Considerate, s0, actions', s') && Evicted(s', web) && |s'.calls| == |s.calls|
    ensures a < |s'.calls| && s'.calls[a] == Call(web, Building(s.calls[i].pc.lock))
    ensures forall j :: 0 <= j < |s.calls| && j != a ==> s'.calls[j] == s.calls[j] || s'.calls[j].pc.Done?
    ensures forall j :: 0 <= j < |s.calls| && s.calls[j].pc.Idle? ==> s'.calls[j] == s.calls[j]
    ensures forall l :: Registered(s', web, l) ==> Registered(s, web, l)
  {
    actions', s', a := actions, s, i;
    if s.calls[i].pc.Waiting? { actions', s', a := LockIsTaken(s0, actions, s, i, web); }
    actions', s' := GoOn(s0, actions', s', a, web);
  }

  /** An idle call, or the one that holds the lock in the table, comes to build as well. */
  lemma AnotherBuilds(s0: State, actions: seq<Action>, s: State, a: nat, j: nat, web: string)
    returns (actions': seq<Action>, s': State, b: nat)
    requires Leads(Considerate, s0, actions, s) && Evicted(s, web)
    requires a < |s.calls| && s.calls[a].web == web && s.calls[a].pc.Building? && !Registered(s, web, s.calls[a].pc.lock)
    requires forall k :: 0 <= k < |s.calls| && k != a ==> !IsBuilding(s.calls[k], web)
    requires j < |s.calls| && s.calls[j] == Call(web, Idle)
    ensures Leads(Considerate, s0, actions', s') && |s'.calls| == |s.calls| && a != b && b < |s.calls|
    ensures IsBuilding(s'.calls[a], web) && IsBuilding(s'.calls[b], web)
  {
    actions', s', b := actions, s, j;
    if web in s.catalog.initLocks && s.catalog.initLocks[web] in s.held {
      var l := s.catalog.initLocks[web];
      var m := s.held[l];
      assert HeldBy(s, l, m) && LockOf(s, l, web);
      assert m != a && !IsBuilding(s.calls[m], web);
      if s.calls[m].pc.Locked? {
        actions', s' := GoOn(s0, actions', s', m, web);
        b := m;
        return;
      }
      actions', s' := GetsOut(s0, actions', s', m, web);
    }
    actions', s' := IdleBuilds(s0, actions', s', j, web);
  }

  lemma IdleBuilds(s0: State, actions: seq<Action>, s: State, j: nat, web: string) returns (actions': seq<Action>, s': State)
    requires Leads(Considerate, s0, actions, s) && Evicted(s, web) && j < |s.calls| && s.calls[j] == Call(web, Idle)
    requires forall l :: Registered(s, web, l) ==> l !in s.held
    ensures Leads(Considerate, s0, actions', s') && |s'.calls| == |s.calls| && IsBuilding(s'.calls[j], web)
    ensures forall k :: 0 <= k < |s.calls| && k != j ==> s'.calls[k] == s.calls[k]
  {
    actions', s' := GoOn(s0, actions, s, j, web);
    assert |s.locks| !in s.held;
    assert web in s.catalog.initLocks ==> Registered(s, web, s.catalog.initLocks[web]);
    actions', s' := GoOn(s0, actions', s', j, web);
    actions', s' := GoOn(s0, actions', s', j, web);
    actions', s' := GoOn(s0, actions', s', j, web);
  }

  ghost predicate TwoBuild(s: State, web: string) {
    exists a, b :: 0 <= a < |s.calls| && 0 <= b < |s.calls| && a != b && IsBuilding(s.calls[a], web) && IsBuilding(s.calls[b], web)
  }

  function EvictedState(s: State, web: string): State {
    s.(catalog := s.catalog.(cache := Forget(s.catalog.cache, web)))
  }

  /** Whatever happens next, short of another harmful change, the site is built once at a time. */
  ghost predicate KeepsSingleFlight(s: State, web: string) {
    forall actions, s' :: Leads(Considerate, s, actions, s') ==> !TwoBuild(s', web)
  }

  /** A call that waits for a lock that is not in the table, or holds it, is not alone. */
  lemma UnregisteredIsNotAlone(s0: State, actions: seq<Action>, s: State, i: nat, j: nat, web: string)
    requires Leads(Considerate, s0, actions, s) && Evicted(s, web) && NobodyBuilds(s, web)
    requires i < |s.calls| && s.calls[i].web == web && (s.calls[i].pc.Waiting? || s.calls[i].pc.Locked?)
    requires !Registered(s, web, s.calls[i].pc.lock) && j < |s.calls| && s.calls[j] == Call(web, Idle)
    ensures !KeepsSingleFlight(s0, web)
  {
    var actions', s1, a := OneBuilds(s0, actions, s, i, web);
    forall k | 0 <= k < |s1.calls| && k != a ensures !IsBuilding(s1.calls[k], web) {
      assert !IsBuilding(s.calls[k], web);
    }
    var actions'', s2, b := AnotherBuilds(s0, actions', s1, a, j, web);
    assert TwoBuild(s2, web);
  }

  lemma EvictionStart(s: State, web: string)
    requires Guarded(s) && web in s.catalog.cache
    ensures var s0 := EvictedState(s, web);
            && s0.calls == s.calls && s0.catalog.initLocks == s.catalog.initLocks
            && Evicted(s0, web) && NobodyBuilds(s0, web) && Leads(Considerate, s0, [], s0)
  {}

  /** An eviction while a call is about to delete the lock's entry lets two calls build. */
  lemma EvictedWhileStored(s: State, k: nat, i: nat, j: nat, web: string)
    requires Guarded(s) && web in s.catalog.cache && k < |s.calls| && s.calls[k].web == web && s.calls[k].pc.Stored?
    requires i < |s.calls| && s.calls[i].web == web && (s.calls[i].pc.Waiting? || s.calls[i].pc.Locked?)
    requires j < |s.calls| && s.calls[j] == Call(web, Idle)
    ensures !KeepsSingleFlight(EvictedState(s, web), web)
  {
    var s0 := EvictedState(s, web);
    EvictionStart(s, web);
    var actions, s1 := GoOn(s0, [], s0, k, web);
    forall m | 0 <= m < |s1.calls| ensures !IsBuilding(s1.calls[m], web) { assert !IsBuilding(s0.calls[m], web); }
    UnregisteredIsNotAlone(s0, actions, s1, i, j, web);
  }

  /** An eviction that is not harmless lets two calls build. */
  lemma HarmfulEviction(s: State, i: nat, j: nat, web: string)
    requires Guarded(s) && web in s.catalog.cache && !Harmless(s, web)
    requires i < |s.calls| && s.calls[i].web == web && (s.calls[i].pc.Waiting? || s.calls[i].pc.Locked?)
    requires j < |s.calls| && s.calls[j] == Call(web, Idle)
    ensures !KeepsSingleFlight(EvictedState(s, web), web)
  {
    var k :| 0 <= k < |s.calls| && s.calls[k].web == web && MayBuild(s.calls[k].pc)
             && (s.calls[k].pc.Stored? || !Registered(s, web, s.calls[k].pc.lock));
    if s.calls[k].pc.Stored? {
      EvictedWhileStored(s, k, i, j, web);
    } else {
      var s0 := EvictedState(s, web);
      EvictionStart(s, web);
      assert !IsBuilding(s0.calls[k], web);
      assert !Registered(s, web, s.calls[k].pc.lock);
      assert s0.catalog.initLocks == s.catalog.initLocks;
      UnregisteredIsNotAlone(s0, [], s0, k, j, web);
    }
  }

  /** Exactly which evictions keep single flight: from any state that does, with one call of
      the cached site waiting for its lock or just past it and another one not begun, all
      that can happen after the eviction keeps it iff the eviction is harmless. */
  lemma SafeEvictionExactly(s: State, i: nat, j: nat, web: string)
    requires Guarded(s) && web in s.catalog.cache
    requires i < |s.calls| && s.calls[i].web == web && (s.calls[i].pc.Waiting? || s.calls[i].pc.Locked?)
    requires j < |s.calls| && s.calls[j] == Call(web, Idle)
    ensures KeepsSingleFlight(EvictedState(s, web), web) <==> Harmless(s, web)
  {
    if Harmless(s, web) {
      StepKeepsGuarded(Considerate, s, Evict(web));
      forall actions, s' | Leads(Considerate, EvictedState(s, web), actions, s') ensures !TwoBuild(s', web) {
        LeadsKeepsGuarded(Considerate, EvictedState(s, web), actions, s');
        if a, b :| 0 <= a < |s'.calls| && 0 <= b < |s'.calls| && a != b && IsBuilding(s'.calls[a], web) && IsBuilding(s'.calls[b], web) {
          SameBuilder(s', a, b, web);
        }
      }
    } else {
      HarmfulEviction(s, i, j, web);
    }
  }
}
