/** The statuses of a site's endpoints (internal/indexer/indexer.go) and the reset and
    re-apply of the filter rules (internal/server/filter_handlers.go). */
module FilterApply {
  import opened Text
  import F = FilterConfig

  datatype Status = New | Pending | Fetched | Failed | Filtered

  /** A row of the endpoints table; `reason` and `lastError` are kept in its meta column. */
  datatype Endpoint = Endpoint(url: string, status: Status, version: string, reason: Option<string>, lastError: Option<string>)

  // -------------------------------------------------------------------------
  // What the statements do to a row.
  // -------------------------------------------------------------------------

  function Reset(): Endpoint -> Endpoint {
    (r: Endpoint) => if r.status.Filtered? then r.(status := Pending, reason := None) else r
  }

  function ReasonFor(reasons: map<string, string>, url: string): string {
    if url in reasons && reasons[url] != "" then reasons[url] else "unknown"
  }

  function WithReason(reasons: map<string, string>): Endpoint -> Endpoint {
    (r: Endpoint) => r.(status := Filtered, reason := Some(ReasonFor(reasons, r.url)))
  }

  function WithError(reasons: map<string, string>): Endpoint -> Endpoint {
    (r: Endpoint) => r.(status := Failed, lastError := Some(if r.url in reasons then reasons[r.url] else ""))
  }

  function WithVersion(version: string): Endpoint -> Endpoint {
    (r: Endpoint) => if r.status.Filtered? then r else r.(status := Fetched, version := version)
  }

  function AsPending(): Endpoint -> Endpoint {
    (r: Endpoint) => if r.status.Filtered? then r else r.(status := Pending)
  }

  /** An update of the rows with these URLs. */
  function Update(rows: seq<Endpoint>, urls: seq<string>, change: Endpoint -> Endpoint): (s: seq<Endpoint>)
    ensures |s| == |rows|
    ensures forall i :: 0 <= i < |s| ==> s[i] == if rows[i].url in urls then change(rows[i]) else rows[i]
  {
    seq(|rows|, i requires 0 <= i < |rows| => if rows[i].url in urls then change(rows[i]) else rows[i])
  }

  /** A change that keeps the URL and does nothing the second time. */
  ghost predicate Settles(change: Endpoint -> Endpoint) {
    forall r :: change(r).url == r.url && change(change(r)) == change(r)
  }

  // -------------------------------------------------------------------------
  // The index.
  // -------------------------------------------------------------------------

  const BATCH: nat := 500

  /** Which endpoints a listing asks for: all, the unfiltered ones, or those of one status. */
  datatype Listing = All | Unfiltered | WithStatus(status: Status)

  predicate IsListed(listing: Listing, r: Endpoint) {
    match listing
    case All => true
    case Unfiltered => !r.status.Filtered?
    case WithStatus(status) => r.status == status
  }

  function Select(listing: Listing, rows: seq<Endpoint>): seq<Endpoint> {
    if rows == [] then []
    else if IsListed(listing, rows[0]) then [rows[0]] + Select(listing, rows[1..])
    else Select(listing, rows[1..])
  }

  /** The prefix that a batched operation has processed when batch `failing` fails. */
  function Processed(urls: seq<string>, failing: Option<nat>): seq<string> {
    if failing.Some? && failing.value * BATCH < |urls| then urls[..failing.value * BATCH] else urls
  }

  predicate Succeeds(urls: seq<string>, failing: Option<nat>) {
    failing.None? || failing.value * BATCH >= |urls|
  }

  class Index {
    /** In the order in which listings return them. */
    var rows: seq<Endpoint>

    constructor (rows: seq<Endpoint>)
      ensures this.rows == rows
    {
      this.rows := rows;
    }

    method ListEndpoints(listing: Listing, limit: int) returns (r: seq<Endpoint>)
      ensures r == if 0 < limit < |Select(listing, rows)| then Select(listing, rows)[..limit] else Select(listing, rows)
    {
      r := Select(listing, rows);
      if 0 < limit < |r| {
        r := r[..limit];
      }
    }

    method MarkPendingBatch(urls: seq<string>)
      modifies this
      ensures rows == Update(old(rows), urls, AsPending())
    {
      if |urls| == 0 { return; }
      rows := Update(rows, urls, AsPending());
    }

    method MarkFetchedBatch(urls: seq<string>, version: string)
      modifies this
      ensures rows == Update(old(rows), urls, WithVersion(version))
    {
      if |urls| == 0 { return; }
      rows := Update(rows, urls, WithVersion(version));
    }

    /** One transaction with a statement for every URL: all of it or nothing. */
    method UpdateEach(batch: seq<string>, change: Endpoint -> Endpoint, fails: bool) returns (ok: bool)
      requires Settles(change)
      modifies this
      ensures ok == !fails && rows == if ok then Update(old(rows), batch, change) else old(rows)
    {
      var tx := rows;
      for j := 0 to |batch|
        invariant rows == old(rows) && tx == Update(rows, batch[..j], change)
      {
        assert batch[..j] + [batch[j]] == batch[..j + 1];
        tx := Update(tx, [batch[j]], change);
      }
      assert batch[..|batch|] == batch;
      if fails { return false; }
      rows := tx;
      return true;
    }

    /** The loop of the three batched operations; batch `failing` fails, if there is one. */
    method UpdateInBatches(urls: seq<string>, change: Endpoint -> Endpoint, failing: Option<nat>) returns (ok: bool)
      requires Settles(change)
      modifies this
      ensures ok == Succeeds(urls, failing) && rows == Update(old(rows), Processed(urls, failing), change)
    {
      ghost var done: seq<string> := [];
      var i, k := 0, 0;
      while i < |urls|
        invariant i == k * BATCH && done == urls[..if i < |urls| then i else |urls|]
        invariant failing.None? || failing.value >= k
        invariant rows == Update(old(rows), done, change)
        decreases |urls| - i
      {
        var end := if i + BATCH > |urls| then |urls| else i + BATCH;
        var batch := urls[i..end];
        assert done + batch == urls[..end];
        ok := UpdateEach(batch, change, failing == Some(k));
        if !ok { return; }
        done := urls[..end];
        i, k := i + BATCH, k + 1;
      }
      ok := true;
      assert urls[..|urls|] == urls;
    }

    method MarkFailedBatch(urls: seq<string>, reasons: map<string, string>, failing: Option<nat>) returns (ok: bool)
      modifies this
      ensures ok == Succeeds(urls, failing) && rows == Update(old(rows), Processed(urls, failing), WithError(reasons))
    {
      ok := UpdateInBatches(urls, WithError(reasons), failing);
    }

    method MarkFilteredBatch(urls: seq<string>, reasons: map<string, string>, failing: Option<nat>) returns (ok: bool)
      modifies this
      ensures ok == Succeeds(urls, failing) && rows == Update(old(rows), Processed(urls, failing), WithReason(reasons))
    {
      ok := UpdateInBatches(urls, WithReason(reasons), failing);
    }

    method UnfilterBatch(urls: seq<string>, failing: Option<nat>) returns (ok: bool)
      modifies this
      ensures ok == Succeeds(urls, failing) && rows == Update(old(rows), Processed(urls, failing), Reset())
    {
      ok := UpdateInBatches(urls, Reset(), failing);
    }

    /** The loop of ListEndpointsFiltered. */
    method Separate(endpoints: seq<Endpoint>, decide: string -> F.Result)
      returns (unfiltered: seq<Endpoint>, urls: seq<string>, reasons: map<string, string>)
      ensures unfiltered == Passing(endpoints, decide) && urls == Hits(endpoints, decide) && ReasonsAre(urls, reasons, decide)
    {
      unfiltered, urls, reasons := [], [], map[];
      for i := 0 to |endpoints|
        invariant unfiltered + PassingFrom(endpoints, i, decide) == Passing(endpoints, decide)
        invariant urls + HitsFrom(endpoints, i, decide) == Hits(endpoints, decide)
        invariant ReasonsAre(urls, reasons, decide)
      {
        var endpoint := endpoints[i];
        var result := decide(endpoint.url);
        if result.filtered {
          Shift(urls, endpoint.url, HitsFrom(endpoints, i + 1, decide));
          urls := urls + [endpoint.url];
          reasons := reasons[endpoint.url := result.reason];
        } else {
          Shift(unfiltered, endpoint, PassingFrom(endpoints, i + 1, decide));
          unfiltered := unfiltered + [endpoint];
        }
      }
      assert unfiltered + [] == unfiltered && urls + [] == urls;
    }

    method ListEndpointsFiltered(listing: Listing, limit: int, c: F.Config, decide: string -> F.Result, failing: Option<nat>)
      returns (r: seq<Endpoint>)
      modifies this
      ensures F.IsEmpty(c) ==> rows == old(rows) && r == Limited(Select(listing, rows), limit)
      ensures !F.IsEmpty(c) ==>
                && r == Limited(Passing(Select(listing, old(rows)), decide), limit)
                && rows == Update(old(rows), Processed(Hits(Select(listing, old(rows)), decide), failing), Deciding(decide))
    {
      var endpoints := ListEndpoints(listing, 0);
      if F.IsEmpty(c) { return Limited(endpoints, limit); }
      var unfiltered, urls, reasons := Separate(endpoints, decide);
      if |urls| > 0 {
        var ok := MarkFilteredBatch(urls, reasons, failing);
        SameReasons(old(rows), urls, Processed(urls, failing), reasons, decide);
      }
      return Limited(unfiltered, limit);
    }

    /** The first step of handleApplyFilters. */
    method ResetFiltered(failing: Option<nat>) returns (ok: bool)
      modifies this
      ensures |rows| == |old(rows)|
      ensures ok ==> forall i :: 0 <= i < |rows| ==> rows[i] == Reset()(old(rows)[i])
      ensures forall i :: 0 <= i < |rows| ==> rows[i] == old(rows)[i] || rows[i] == Reset()(old(rows)[i])
    {
      var filteredEndpoints := ListEndpoints(WithStatus(Filtered), 0);
      var toUnfilter := UrlsOf(filteredEndpoints);
      ResetIsTotal(rows);
      ok := true;
      if |toUnfilter| > 0 {
        ok := UnfilterBatch(toUnfilter, failing);
      }
    }

    /** The second step: which endpoints match, and why. */
    method FindMatching(endpoints: seq<Endpoint>, decide: string -> F.Result) returns (urls: seq<string>, reasons: map<string, string>)
      ensures urls == Hits(endpoints, decide) && ReasonsAre(urls, reasons, decide)
    {
      urls, reasons := [], map[];
      for i := 0 to |endpoints|
        invariant urls + HitsFrom(endpoints, i, decide) == Hits(endpoints, decide)
        invariant ReasonsAre(urls, reasons, decide)
      {
        var url := endpoints[i].url;
        var result := decide(url);
        if result.filtered {
          Shift(urls, url, HitsFrom(endpoints, i + 1, decide));
          urls := urls + [url];
          reasons := reasons[url := result.reason];
        }
      }
      assert urls + [] == urls;
    }

    /** handleApplyFilters: `resetFailing` and `markFailing` are the batches that fail. */
    method ApplyFilters(c: F.Config, decide: string -> F.Result, resetFailing: Option<nat>, markFailing: Option<nat>)
      returns (ok: bool, filtered: nat)
      modifies this
      ensures ok ==> rows == AfterApply(c, old(rows), decide)
      ensures if F.IsEmpty(c) then ok && filtered == 0 else ok ==> filtered == |Hits(old(rows), decide)|
      ensures !ok ==> HalfApplied(old(rows), rows, decide)
    {
      if F.IsEmpty(c) { return true, 0; }
      ok := ResetFiltered(resetFailing);
      if !ok { return false, 0; }
      ghost var between := rows;
      var endpoints := ListEndpoints(All, 0);
      AllAreListed(rows);
      var toFilter, reasons := FindMatching(endpoints, decide);
      HitsKeepUrls(old(rows), between, decide);
      MarkIsTotal(old(rows), between, decide);
      if |toFilter| == 0 {
        return true, 0;
      }
      ok := MarkFilteredBatch(toFilter, reasons, markFailing);
      SameReasons(between, toFilter, Processed(toFilter, markFailing), reasons, decide);
      SomeAreMarked(old(rows), between, Processed(toFilter, markFailing), decide);
      filtered := |toFilter|;
    }
  }

  // -------------------------------------------------------------------------
  // What applying the rules means.
  // -------------------------------------------------------------------------

  function Limited(es: seq<Endpoint>, limit: int): seq<Endpoint> {
    if 0 < limit < |es| then es[..limit] else es
  }

  /** The endpoints from the `i`-th on that the engine lets pass. */
  function PassingFrom(es: seq<Endpoint>, i: nat, decide: string -> F.Result): seq<Endpoint>
    requires i <= |es|
    decreases |es| - i
  {
    if i == |es| then []
    else if decide(es[i].url).filtered then PassingFrom(es, i + 1, decide)
    else [es[i]] + PassingFrom(es, i + 1, decide)
  }

  /** The URLs of the others. */
  function HitsFrom(es: seq<Endpoint>, i: nat, decide: string -> F.Result): seq<string>
    requires i <= |es|
    decreases |es| - i
  {
    if i == |es| then []
    else if decide(es[i].url).filtered then [es[i].url] + HitsFrom(es, i + 1, decide)
    else HitsFrom(es, i + 1, decide)
  }

  function Passing(es: seq<Endpoint>, decide: string -> F.Result): seq<Endpoint> {
    PassingFrom(es, 0, decide)
  }

  function Hits(es: seq<Endpoint>, decide: string -> F.Result): seq<string> {
    HitsFrom(es, 0, decide)
  }

  function UrlsOf(es: seq<Endpoint>): seq<string> {
    if es == [] then [] else [es[0].url] + UrlsOf(es[1..])
  }

  /** Filtered, for the reason the engine gives. */
  function Deciding(decide: string -> F.Result): Endpoint -> Endpoint {
    (r: Endpoint) =>
      r.(status := Filtered, reason := Some(if decide(r.url).reason != "" then decide(r.url).reason else "unknown"))
  }

  function AppliedRow(r: Endpoint, decide: string -> F.Result): Endpoint {
    if decide(r.url).filtered then Deciding(decide)(r) else Reset()(r)
  }

  function Applied(rows: seq<Endpoint>, decide: string -> F.Result): (s: seq<Endpoint>)
    ensures |s| == |rows| && forall i :: 0 <= i < |rows| ==> s[i] == AppliedRow(rows[i], decide)
  {
    seq(|rows|, i requires 0 <= i < |rows| => AppliedRow(rows[i], decide))
  }

  /** An empty configuration changes nothing, not even what is filtered. */
  function AfterApply(c: F.Config, rows: seq<Endpoint>, decide: string -> F.Result): seq<Endpoint> {
    if F.IsEmpty(c) then rows else Applied(rows, decide)
  }

  /** After a failure every row is as it was, reset, or done. */
  ghost predicate HalfApplied(rows: seq<Endpoint>, now: seq<Endpoint>, decide: string -> F.Result) {
    |now| == |rows|
    && forall i :: 0 <= i < |rows| ==> now[i] == rows[i] || now[i] == Reset()(rows[i]) || now[i] == AppliedRow(rows[i], decide)
  }

  ghost predicate ReasonsAre(urls: seq<string>, reasons: map<string, string>, decide: string -> F.Result) {
    forall url :: url in urls ==> url in reasons && reasons[url] == decide(url).reason
  }

  lemma SameReasons(rows: seq<Endpoint>, urls: seq<string>, some: seq<string>, reasons: map<string, string>, decide: string -> F.Result)
    requires ReasonsAre(urls, reasons, decide) && forall url :: url in some ==> url in urls
    ensures Update(rows, some, WithReason(reasons)) == Update(rows, some, Deciding(decide))
  {}

  lemma {:induction false} SelectedUrls(listing: Listing, rows: seq<Endpoint>, i: nat)
    requires i < |rows| && IsListed(listing, rows[i])
    ensures rows[i].url in UrlsOf(Select(listing, rows))
  {
    if i == 0 {
      assert rows[0].url in [rows[0].url];
    } else {
      SelectedUrls(listing, rows[1..], i - 1);
      var rest := Select(listing, rows[1..]);
      assert UrlsOf([rows[0]] + rest) == [rows[0].url] + UrlsOf(rest) by { assert ([rows[0]] + rest)[1..] == rest; }
      assert [] + rest == rest;
    }
  }

  lemma {:induction false} ResetIsTotal(rows: seq<Endpoint>)
    ensures var now := Update(rows, UrlsOf(Select(WithStatus(Filtered), rows)), Reset());
            forall i :: 0 <= i < |rows| ==> now[i] == Reset()(rows[i])
  {
    forall i | 0 <= i < |rows| && rows[i].status.Filtered?
      ensures rows[i].url in UrlsOf(Select(WithStatus(Filtered), rows))
    {
      SelectedUrls(WithStatus(Filtered), rows, i);
    }
  }

  lemma {:induction false} AllAreListed(rows: seq<Endpoint>)
    ensures Select(All, rows) == rows
  {
    if rows != [] {
      AllAreListed(rows[1..]);
      assert rows == [rows[0]] + rows[1..];
    }
  }

  lemma HitsKeepUrls(rows: seq<Endpoint>, now: seq<Endpoint>, decide: string -> F.Result)
    requires |now| == |rows| && forall i :: 0 <= i < |rows| ==> now[i].url == rows[i].url
    ensures Hits(now, decide) == Hits(rows, decide)
  {
    HitsKeepUrlsFrom(rows, now, 0, decide);
  }

  lemma {:induction false} HitsKeepUrlsFrom(rows: seq<Endpoint>, now: seq<Endpoint>, i: nat, decide: string -> F.Result)
    requires |now| == |rows| && forall j :: 0 <= j < |rows| ==> now[j].url == rows[j].url
    requires i <= |rows|
    ensures HitsFrom(now, i, decide) == HitsFrom(rows, i, decide)
    decreases |rows| - i
  {
    if i < |rows| { HitsKeepUrlsFrom(rows, now, i + 1, decide); }
  }

  lemma {:induction false} HitsAreHits(es: seq<Endpoint>, i: nat, decide: string -> F.Result, url: string)
    requires i <= |es|
    ensures url in HitsFrom(es, i, decide) <==> decide(url).filtered && exists j :: i <= j < |es| && es[j].url == url
    decreases |es| - i
  {
    if i < |es| {
      HitsAreHits(es, i + 1, decide, url);
      assert url in HitsFrom(es, i, decide) <==> (decide(es[i].url).filtered && url == es[i].url) || url in HitsFrom(es, i + 1, decide);
    }
  }

  lemma MarkIsTotal(rows: seq<Endpoint>, between: seq<Endpoint>, decide: string -> F.Result)
    requires |between| == |rows| && forall i :: 0 <= i < |rows| ==> between[i] == Reset()(rows[i])
    ensures Update(between, Hits(rows, decide), Deciding(decide)) == Applied(rows, decide)
  {
    forall i | 0 <= i < |rows| ensures between[i].url in Hits(rows, decide) <==> decide(rows[i].url).filtered {
      HitsAreHits(rows, 0, decide, rows[i].url);
    }
    assert Update(between, Hits(rows, decide), Deciding(decide)) == Applied(rows, decide);
  }

  lemma SomeAreMarked(rows: seq<Endpoint>, between: seq<Endpoint>, some: seq<string>, decide: string -> F.Result)
    requires |between| == |rows| && forall i :: 0 <= i < |rows| ==> between[i] == Reset()(rows[i])
    requires forall url :: url in some ==> url in Hits(rows, decide)
    ensures HalfApplied(rows, Update(between, some, Deciding(decide)), decide)
  {
    forall i | 0 <= i < |rows| && rows[i].url in some ensures decide(rows[i].url).filtered {
      HitsAreHits(rows, 0, decide, rows[i].url);
    }
  }

  /** The engine of a configuration decides; its unstable sort may leave the rules in another
      order at every call. */
  ghost predicate IsEngine(decide: string -> F.Result, lib: F.Library, c: F.Config, order: string -> seq<F.Rule>) {
    forall url :: multiset(order(url)) == multiset(c.rules) && decide(url) == F.Decision(lib, c, order(url), url)
  }

  /** Applying is exact: afterwards an endpoint is filtered if and only if a rule, pattern or
      extension matches its URL; one that was filtered and no longer matches is pending; all
      other rows that do not match are untouched. */
  lemma ApplyingIsExact(rows: seq<Endpoint>, decide: string -> F.Result, lib: F.Library, c: F.Config, order: string -> seq<F.Rule>, i: nat)
    requires IsEngine(decide, lib, c, order) && i < |rows|
    ensures var was, now := rows[i], Applied(rows, decide)[i];
            && (now.status == Filtered <==> F.Blocks(lib, c, was.url))
            && (now.status != Filtered && was.status == Filtered ==> now == was.(status := Pending, reason := None))
            && (now.status != Filtered && was.status != Filtered ==> now == was)
            && now.url == was.url && now.version == was.version && now.lastError == was.lastError
  {
    F.FlagIsDisjunction(lib, c, order(rows[i].url), rows[i].url);
  }

  /** Whatever the configuration, what is filtered after a successful apply is what matches,
      iff there is something to apply or nothing was filtered: removing the last rule does
      not take effect. */
  lemma {:induction false} AppliesExactly(rows: seq<Endpoint>, decide: string -> F.Result, lib: F.Library, c: F.Config, order: string -> seq<F.Rule>)
    requires IsEngine(decide, lib, c, order)
    ensures (forall i :: 0 <= i < |rows| ==> (AfterApply(c, rows, decide)[i].status == Filtered <==> F.Blocks(lib, c, rows[i].url)))
       <==> !F.IsEmpty(c) || forall i :: 0 <= i < |rows| ==> rows[i].status != Filtered
  {
    forall i | 0 <= i < |rows| && !F.IsEmpty(c)
      ensures AfterApply(c, rows, decide)[i].status == Filtered <==> F.Blocks(lib, c, rows[i].url)
    {
      ApplyingIsExact(rows, decide, lib, c, order, i);
    }
  }

  /** An endpoint that stays filtered without a rule. */
  lemma RemovedRuleLingers(decide: string -> F.Result)
    ensures var rows := [Endpoint("u", Filtered, "", Some("pattern:*"), None)];
            AfterApply(F.EMPTY_CONFIG, rows, decide)[0].status == Filtered
  {}

  /** Applying again changes no status, however the rules are ordered the second time. */
  lemma {:induction false} ApplyingTwice(
    rows: seq<Endpoint>, decide: string -> F.Result, again: string -> F.Result, lib: F.Library, c: F.Config,
    order: string -> seq<F.Rule>, order': string -> seq<F.Rule>, i: nat)
    requires IsEngine(decide, lib, c, order) && IsEngine(again, lib, c, order') && i < |rows|
    ensures Applied(Applied(rows, decide), again)[i].status == Applied(rows, decide)[i].status
    ensures Applied(Applied(rows, decide), decide) == Applied(rows, decide)
  {
    F.FlagIsDisjunction(lib, c, order(rows[i].url), rows[i].url);
    F.FlagIsDisjunction(lib, c, order'(rows[i].url), rows[i].url);
    assert Applied(rows, decide)[i].url == rows[i].url;
  }

  // -------------------------------------------------------------------------
  // Filtered endpoints stay filtered - unless they are marked as failed.
  // -------------------------------------------------------------------------

  ghost predicate KeepsFiltered(rows: seq<Endpoint>, now: seq<Endpoint>)
    requires |now| == |rows|
  {
    forall i :: 0 <= i < |rows| && rows[i].status == Filtered ==> now[i].status == Filtered
  }

  /** Marking as pending or fetched leaves filtered rows alone. Marking as failed has no such
      guard: it keeps them filtered exactly when none of them is in its list. */
  lemma FilteredStays(rows: seq<Endpoint>, urls: seq<string>, version: string, reasons: map<string, string>)
    ensures KeepsFiltered(rows, Update(rows, urls, AsPending())) && KeepsFiltered(rows, Update(rows, urls, WithVersion(version)))
    ensures KeepsFiltered(rows, Update(rows, urls, WithError(reasons)))
       <==> forall i :: 0 <= i < |rows| && rows[i].status == Filtered ==> rows[i].url !in urls
  {
    var now := Update(rows, urls, WithError(reasons));
    forall i | 0 <= i < |rows| && rows[i].status == Filtered
      ensures now[i].status == Filtered <==> rows[i].url !in urls
    {}
  }

  /** The status machine, row by row: what is listed becomes pending or fetched unless it is
      filtered, becomes failed or filtered whatever it was, and becomes pending again only if
      it is filtered; nothing else about it changes but what goes with the status. */
  lemma MarkingsExactly(rows: seq<Endpoint>, urls: seq<string>, version: string, reasons: map<string, string>, i: nat)
    requires i < |rows|
    ensures var was, given := rows[i], if rows[i].url in reasons then reasons[rows[i].url] else "";
            if was.url !in urls then
              && Update(rows, urls, AsPending())[i] == Update(rows, urls, WithVersion(version))[i] == was
              && Update(rows, urls, WithError(reasons))[i] == Update(rows, urls, WithReason(reasons))[i] == was
              && Update(rows, urls, Reset())[i] == was
            else
              && Update(rows, urls, AsPending())[i]
                 == (if was.status == Filtered then was else Endpoint(was.url, Pending, was.version, was.reason, was.lastError))
              && Update(rows, urls, WithVersion(version))[i]
                 == (if was.status == Filtered then was else Endpoint(was.url, Fetched, version, was.reason, was.lastError))
              && Update(rows, urls, WithError(reasons))[i] == Endpoint(was.url, Failed, was.version, was.reason, Some(given))
              && Update(rows, urls, WithReason(reasons))[i]
                 == Endpoint(was.url, Filtered, was.version, Some(if given == "" then "unknown" else given), was.lastError)
              && Update(rows, urls, Reset())[i]
                 == (if was.status == Filtered then Endpoint(was.url, Pending, was.version, None, was.lastError) else was)
  {}

  /** A batched operation succeeds exactly when the failing batch, if any, is beyond its last
      one, and then all is processed; otherwise what comes before the failing batch is. */
  lemma ProcessedExactly(urls: seq<string>, failing: Option<nat>)
    ensures Succeeds(urls, failing) <==> Processed(urls, failing) == urls
    ensures !Succeeds(urls, failing) ==> failing.Some? && Processed(urls, failing) < urls && |Processed(urls, failing)| == 500 * failing.value
  {
    if !Succeeds(urls, failing) { assert |Processed(urls, failing)| < |urls|; }
  }

  /** A limit that is not positive is none. */
  lemma LimitedExactly(es: seq<Endpoint>, limit: int)
    ensures Limited(es, limit) <= es
    ensures |Limited(es, limit)| == if limit > 0 && limit < |es| then limit else |es|
  {}

  /** The input that shows it: one filtered endpoint, marked as failed. */
  lemma FailedOverridesFiltered()
    ensures var rows := [Endpoint("u", Filtered, "", Some("pattern:*"), None)];
            Update(rows, ["u"], WithError(map["u" := "timeout"]))[0].status == Failed
  {
    assert "u" in ["u"];
  }

  // -------------------------------------------------------------------------
  // A filtered listing.
  // -------------------------------------------------------------------------

  ghost predicate UniqueUrls(rows: seq<Endpoint>) {
    forall i, j :: 0 <= i < j < |rows| ==> rows[i].url != rows[j].url
  }

  /** Rows that match are no longer listed as unfiltered, all others still are. */
  lemma {:induction false} ListedAreTheUnfiltered(rows: seq<Endpoint>, now: seq<Endpoint>, decide: string -> F.Result)
    requires |now| == |rows|
    requires forall i :: 0 <= i < |rows| ==>
               now[i] == if rows[i].status != Filtered && decide(rows[i].url).filtered then Deciding(decide)(rows[i]) else rows[i]
    ensures Select(Unfiltered, now) == Passing(Select(Unfiltered, rows), decide)
  {
    if rows != [] {
      ListedAreTheUnfiltered(rows[1..], now[1..], decide);
      if rows[0].status != Filtered {
        PassingConsed(rows[0], Select(Unfiltered, rows[1..]), decide);
      }
    }
  }

  lemma PassingConsed(e: Endpoint, es: seq<Endpoint>, decide: string -> F.Result)
    ensures Passing([e] + es, decide) == if decide(e.url).filtered then Passing(es, decide) else [e] + Passing(es, decide)
  {
    PassingShifted(e, es, 0, decide);
  }

  lemma {:induction false} PassingShifted(e: Endpoint, es: seq<Endpoint>, i: nat, decide: string -> F.Result)
    requires i <= |es|
    ensures PassingFrom([e] + es, i + 1, decide) == PassingFrom(es, i, decide)
    decreases |es| - i
  {
    if i < |es| {
      PassingShifted(e, es, i + 1, decide);
      assert ([e] + es)[i + 1] == es[i];
    }
  }

  lemma {:induction false} SelectedAre(listing: Listing, rows: seq<Endpoint>, e: Endpoint)
    ensures e in Select(listing, rows) <==> e in rows && IsListed(listing, e)
  {
    if rows != [] {
      SelectedAre(listing, rows[1..], e);
      assert rows == [rows[0]] + rows[1..];
    }
  }

  /** What a filtered listing of the unfiltered endpoints returns is what is still unfiltered
      afterwards: exactly the listed endpoints the engine lets pass, in their order. */
  lemma {:induction false} FilteredListingAgrees(rows: seq<Endpoint>, decide: string -> F.Result)
    requires UniqueUrls(rows)
    ensures var listed := Select(Unfiltered, rows);
            Select(Unfiltered, Update(rows, Hits(listed, decide), Deciding(decide))) == Passing(listed, decide)
  {
    var listed := Select(Unfiltered, rows);
    var now := Update(rows, Hits(listed, decide), Deciding(decide));
    forall i | 0 <= i < |rows|
      ensures rows[i].url in Hits(listed, decide) <==> rows[i].status != Filtered && decide(rows[i].url).filtered
    {
      HitsAreHits(listed, 0, decide, rows[i].url);
      SelectedAre(Unfiltered, rows, rows[i]);
      if j :| 0 <= j < |listed| && listed[j].url == rows[i].url {
        SelectedAre(Unfiltered, rows, listed[j]);
        assert listed[j] in listed;
      }
    }
    ListedAreTheUnfiltered(rows, now, decide);
  }
}
