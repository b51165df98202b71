/** The fetch of internal/fetcher/fetcher.go as a transition system: a feeder (the
    main goroutine), workers, a collector and a batcher over channels, with
    cancellation and a pending commit of the tracker. An action is one atomic step
    of one goroutine; every interleaving is a run. */
module FetchPipeline {
  import opened Text
  import opened Tracker

  // -------------------------------------------------------------------------
  // State, one part per goroutine.
  // -------------------------------------------------------------------------

  datatype Config = Config(urls: seq<string>, maxConcurrency: nat, commitSize: nat, statusFilter: bool,
                           env: Env, store: Store, versionID: string)

  datatype Worker =
    | Idle                         // at the receive from urlQueue
    | Got(url: string)             // before the context check
    | Fetching(url: string)
    | SendFailed(url: string)      // at the send on failedCh
    | SendFiltered(url: string)    // at the send on filteredCh
    | SendSnap(snap: Snapshot)     // at the send on snapCh
    | Sent(failure: bool)          // before processed is incremented
    | CountFailed                  // before failed is incremented
    | Exited

  datatype Main =
    | Feeding | WaitWorkers | CloseSnap | CloseFiltered | CloseFailed | WaitCollector | WaitBatcher
    | Returned(error: Option<Error>)

  datatype Error = TrackerError | AllFailed

  /** A channel variable that is not `open` has been set to nil. */
  datatype Collector = Collector(filteredCh: seq<string>, failedCh: seq<string>,
                                 filteredOpen: bool, failedOpen: bool,
                                 filteredURLs: seq<string>, failedURLs: seq<string>)

  datatype Phase =
    | Begin | Receiving | AddFull | AddFinal | AddCanceled | Finish | Failing | Closing | Stopped

  /** What the SQL commit has done to the store. */
  datatype Outcome = NotCommitted | Committed(diff: Option<VersionDiff>, headWritten: bool)

  datatype Batcher = Batcher(phase: Phase, batch: seq<Snapshot>, added: seq<Snapshot>,
                             tx: Option<seq<Row>>, store: Store, outcome: Outcome,
                             verdict: Option<Error>, errCh: seq<Error>, sends: nat)

  datatype State = State(canceled: bool, main: Main, fed: nat, queue: seq<string>,
                         workers: seq<Worker>, dropped: seq<string>, processed: nat, failed: nat,
                         col: Collector, bat: Batcher)

  function Init(c: Config): State {
    State(false, Feeding, 0, [], seq(c.maxConcurrency, _ => Idle), [], 0, 0,
          Collector([], [], true, true, [], []),
          Batcher(Begin, [], [], None, c.store, NotCommitted, None, [], 0))
  }

  predicate SnapClosed(m: Main) {
    !m.Feeding? && !m.WaitWorkers? && !m.CloseSnap?
  }

  predicate FilteredClosed(m: Main) {
    SnapClosed(m) && !m.CloseFiltered?
  }

  predicate FailedClosed(m: Main) {
    FilteredClosed(m) && !m.CloseFailed?
  }

  predicate AllExited(workers: seq<Worker>) {
    forall w :: w in workers ==> w.Exited?
  }

  predicate TrackerFailed(s: State) {
    s.bat.verdict == Some(TrackerError)
  }

  /** Main has returned and the batcher has closed its channel. */
  predicate Final(s: State) {
    s.main.Returned? && s.bat.phase.Stopped?
  }

  // -------------------------------------------------------------------------
  // Actions.
  // -------------------------------------------------------------------------

  datatype MainAction =
    | Feed | StopFeeding | AwaitWorkers | DoCloseSnap | DoCloseFiltered | DoCloseFailed | AwaitCollector | AwaitBatcher

  datatype Response = HttpError | StatusFiltered | Page(file: File)

  datatype WorkerAction =
    | Receive | Exit | CheckContext | Respond(response: Response) | Abandon
    | DeliverFailed | DeliverFiltered | DeliverSnap | CountProcessed | CountFailure

  datatype CollectorAction = CollectFiltered | CollectFailed | SeeFilteredClosed | SeeFailedClosed

  datatype BatcherAction =
    | BeginOk | BeginFails | SeeCanceled | SeeSnapClosed | AddOk | AddFails(inserted: nat) | NoSnapshots
    | Finalize(result: FinalizeOutcome, diff: Option<VersionDiff>) | SendError | StopBatcher

  datatype Action =
    | Cancel | Main(m: MainAction) | Work(w: nat, k: WorkerAction) | Collect(q: CollectorAction) | Batch(b: BatcherAction)

  predicate AtSend(w: Worker) {
    w.SendFailed? || w.SendFiltered? || w.SendSnap?
  }

  function UrlOf(w: Worker): seq<string> {
    match w
    case Got(u) => [u]
    case Fetching(u) => [u]
    case SendFailed(u) => [u]
    case SendFiltered(u) => [u]
    case SendSnap(snap) => [snap.url]
    case _ => []
  }

  predicate IsAdding(p: Phase) {
    p.AddFull? || p.AddFinal? || p.AddCanceled?
  }

  function BatchRows(c: Config, snapshots: seq<Snapshot>): seq<Row> {
    Insertable(c.env, c.versionID, snapshots, false, |snapshots|)
  }

  predicate MainEnabled(c: Config, s: State, m: MainAction) {
    match m
    case Feed => s.main.Feeding? && s.fed < |c.urls| && |s.queue| < 2 * c.maxConcurrency
    case StopFeeding => s.main.Feeding? && (s.canceled || s.fed == |c.urls|)
    case AwaitWorkers => s.main.WaitWorkers? && AllExited(s.workers)
    case DoCloseSnap => s.main.CloseSnap?
    case DoCloseFiltered => s.main.CloseFiltered?
    case DoCloseFailed => s.main.CloseFailed?
    case AwaitCollector => s.main.WaitCollector? && !s.col.filteredOpen && !s.col.failedOpen
    case AwaitBatcher => s.main.WaitBatcher? && (s.bat.errCh != [] || s.bat.phase.Stopped?)
  }

  function MainStep(c: Config, s: State, m: MainAction): State
    requires MainEnabled(c, s, m)
  {
    match m
    case Feed => s.(fed := s.fed + 1, queue := s.queue + [c.urls[s.fed]])
    case StopFeeding => s.(main := WaitWorkers)
    case AwaitWorkers => s.(main := CloseSnap)
    case DoCloseSnap => s.(main := CloseFiltered)
    case DoCloseFiltered => s.(main := CloseFailed)
    case DoCloseFailed => s.(main := WaitCollector)
    case AwaitCollector => s.(main := WaitBatcher)
    case AwaitBatcher =>
      if s.bat.errCh == [] then s.(main := Returned(None))
      else s.(main := Returned(Some(s.bat.errCh[0])), bat := s.bat.(errCh := s.bat.errCh[1..]))
  }

  predicate WorkEnabled(c: Config, s: State, w: Worker, k: WorkerAction) {
    match k
    case Receive => w.Idle? && s.queue != []
    case Exit => w.Idle? && s.queue == [] && !s.main.Feeding?
    case CheckContext => w.Got?
    case Respond(r) => w.Fetching? && (r.StatusFiltered? ==> c.statusFilter)
    case Abandon => AtSend(w) && s.canceled
    case DeliverFailed => w.SendFailed? && |s.col.failedCh| < c.maxConcurrency
    case DeliverFiltered => w.SendFiltered? && |s.col.filteredCh| < c.maxConcurrency
    case DeliverSnap => w.SendSnap? && s.bat.phase.Receiving?
    case CountProcessed => w.Sent?
    case CountFailure => w.CountFailed?
  }

  /** What becomes of the worker. */
  function NextWorker(c: Config, s: State, w: Worker, k: WorkerAction): Worker
    requires WorkEnabled(c, s, w, k)
  {
    match k
    case Receive => Got(s.queue[0])
    case Exit => Exited
    case CheckContext => if s.canceled then Exited else Fetching(w.url)
    case Respond(r) =>
      (match r
       case HttpError => SendFailed(w.url)
       case StatusFiltered => SendFiltered(w.url)
       case Page(file) => SendSnap(Snapshot(w.url, file)))
    case Abandon => Exited
    case DeliverFailed => Sent(true)
    case DeliverFiltered => Sent(false)
    case DeliverSnap => Sent(false)
    case CountProcessed => if w.failure then CountFailed else Idle
    case CountFailure => Idle
  }

  /** What becomes of everything but the worker. */
  function WorkEffect(c: Config, s: State, w: Worker, k: WorkerAction): State
    requires WorkEnabled(c, s, w, k)
  {
    match k
    case Receive => s.(queue := s.queue[1..])
    case CheckContext => if s.canceled then s.(dropped := s.dropped + UrlOf(w)) else s
    case Abandon => s.(dropped := s.dropped + UrlOf(w))
    case DeliverFailed => s.(col := s.col.(failedCh := s.col.failedCh + UrlOf(w)))
    case DeliverFiltered => s.(col := s.col.(filteredCh := s.col.filteredCh + UrlOf(w)))
    case DeliverSnap =>
      var batch := s.bat.batch + [w.snap];
      s.(bat := s.bat.(batch := batch, phase := if |batch| == c.commitSize then AddFull else Receiving))
    case CountProcessed => s.(processed := s.processed + 1)
    case CountFailure => s.(failed := s.failed + 1)
    case _ => s
  }

  function WorkStep(c: Config, s: State, w: nat, k: WorkerAction): State
    requires w < |s.workers| && WorkEnabled(c, s, s.workers[w], k)
  {
    WorkEffect(c, s, s.workers[w], k).(workers := s.workers[w := NextWorker(c, s, s.workers[w], k)])
  }

  predicate CollectEnabled(m: Main, q: Collector, a: CollectorAction) {
    match a
    case CollectFiltered => q.filteredOpen && q.filteredCh != []
    case CollectFailed => q.failedOpen && q.failedCh != []
    case SeeFilteredClosed => q.filteredOpen && q.filteredCh == [] && FilteredClosed(m)
    case SeeFailedClosed => q.failedOpen && q.failedCh == [] && FailedClosed(m)
  }

  function CollectStep(m: Main, q: Collector, a: CollectorAction): Collector
    requires CollectEnabled(m, q, a)
  {
    match a
    case CollectFiltered => q.(filteredURLs := q.filteredURLs + [q.filteredCh[0]], filteredCh := q.filteredCh[1..])
    case CollectFailed => q.(failedURLs := q.failedURLs + [q.failedCh[0]], failedCh := q.failedCh[1..])
    case SeeFilteredClosed => q.(filteredOpen := false)
    case SeeFailedClosed => q.(failedOpen := false)
  }

  ghost predicate BatchEnabled(c: Config, s: State, a: BatcherAction) {
    var b := s.bat;
    match a
    case BeginOk => b.phase.Begin? && !s.canceled && c.versionID !in Ids(b.store.versions)
    case BeginFails => b.phase.Begin?
    case SeeCanceled => b.phase.Receiving? && s.canceled
    case SeeSnapClosed => b.phase.Receiving? && SnapClosed(s.main)
    case AddOk =>
      IsAdding(b.phase) && b.tx.Some? && (b.batch == [] || (!s.canceled && |BatchRows(c, b.batch)| == |b.batch|))
    case AddFails(k) => IsAdding(b.phase) && b.tx.Some? && b.batch != [] && k <= |b.batch|
    case NoSnapshots => b.phase.Finish? && b.tx == Some([])
    case Finalize(r, diff) =>
      && b.phase.Finish? && b.tx.Some? && b.tx.value != []
      && (r != CommitFailed ==> !s.canceled)
      && (diff.Some? ==> IsDiff(c.env, b.store.rows + b.tx.value, b.store.head, c.versionID, diff.value))
    case SendError => b.phase.Failing? && b.errCh == []
    case StopBatcher => b.phase.Closing?
  }

  function Fail(b: Batcher, e: Error): Batcher {
    b.(phase := Failing, verdict := Some(e))
  }

  function Verdict(b: Batcher): seq<Error> {
    if b.verdict.Some? then [b.verdict.value] else []
  }

  function AfterAdd(p: Phase): Phase {
    match p case AddFull => Receiving case AddFinal => Finish case _ => Closing
  }

  ghost function BatchStep(c: Config, s: State, a: BatcherAction): Batcher
    requires BatchEnabled(c, s, a)
  {
    var b := s.bat;
    match a
    case BeginOk => b.(phase := Receiving, tx := Some([]))
    case BeginFails => Fail(b, TrackerError)
    case SeeCanceled => b.(phase := AddCanceled)
    case SeeSnapClosed => b.(phase := AddFinal)
    case AddOk =>
      if b.batch == [] then b.(phase := AfterAdd(b.phase))
      else b.(phase := AfterAdd(b.phase), batch := [], added := b.added + b.batch,
              tx := Some(b.tx.value + BatchRows(c, b.batch)))
    case AddFails(k) =>
      var b' := b.(tx := Some(b.tx.value + Insertable(c.env, c.versionID, b.batch, false, k)));
      if b.phase.AddCanceled? then b'.(phase := Closing) else Fail(b', TrackerError)
    case NoSnapshots =>
      if |c.urls| > 0 && s.failed == |c.urls| then Fail(b, AllFailed) else b.(phase := Closing)
    case Finalize(r, diff) =>
      if r == CommitFailed then Fail(b, TrackerError)
      else
        var v := Version(c.versionID, b.store.head);
        var b' := b.(store := Publish(b.store, v, b.tx.value, diff, r == Finalized), tx := None,
                     outcome := Committed(diff, r == Finalized));
        if r == Finalized then b'.(phase := Closing) else Fail(b', TrackerError)
    case SendError => b.(phase := Closing, errCh := Verdict(b), sends := b.sends + 1)
    case StopBatcher => b.(phase := Stopped, tx := None)
  }

  ghost predicate Enabled(c: Config, s: State, a: Action) {
    match a
    case Cancel => !s.canceled
    case Main(m) => MainEnabled(c, s, m)
    case Work(w, k) => w < |s.workers| && WorkEnabled(c, s, s.workers[w], k)
    case Collect(q) => CollectEnabled(s.main, s.col, q)
    case Batch(b) => BatchEnabled(c, s, b)
  }

  /** The state after an action. */
  ghost function Apply(c: Config, s: State, a: Action): State
    requires Enabled(c, s, a)
  {
    match a
    case Cancel => s.(canceled := true)
    case Main(m) => MainStep(c, s, m)
    case Work(w, k) => WorkStep(c, s, w, k)
    case Collect(q) => s.(col := CollectStep(s.main, s.col, q))
    case Batch(b) => s.(bat := BatchStep(c, s, b))
  }

  // -------------------------------------------------------------------------
  // Invariant.
  // -------------------------------------------------------------------------

  /** Who has stopped, and what the channels can hold. */
  ghost predicate Control(c: Config, s: State) {
    && |s.workers| == c.maxConcurrency && s.fed <= |c.urls| && |s.queue| <= 2 * c.maxConcurrency
    && (!s.main.Feeding? ==> s.canceled || s.fed == |c.urls|)
    && (Exited in s.workers ==> s.canceled || (!s.main.Feeding? && s.queue == []))
    && (!s.main.Feeding? && !s.main.WaitWorkers? ==> AllExited(s.workers))
  }

  ghost predicate Collecting(c: Config, m: Main, q: Collector) {
    && |q.failedCh| <= c.maxConcurrency && |q.filteredCh| <= c.maxConcurrency
    && (!q.filteredOpen ==> FilteredClosed(m) && q.filteredCh == [])
    && (!q.failedOpen ==> FailedClosed(m) && q.failedCh == [])
    && (m.WaitBatcher? || m.Returned? ==> !q.filteredOpen && !q.failedOpen)
  }

  predicate Ended(p: Phase) {
    p.Failing? || p.Closing? || p.Stopped?
  }

  /** The batcher's verdict and its way through the capacity-1 error channel. */
  ghost predicate Verdicts(canceled: bool, m: Main, b: Batcher) {
    && (b.verdict.Some? ==> Ended(b.phase))
    && (b.phase.Failing? ==> b.verdict.Some?)
    && b.sends == (if (b.phase.Closing? || b.phase.Stopped?) && b.verdict.Some? then 1 else 0)
    && b.errCh == (if b.sends == 0 || m.Returned? then [] else Verdict(b))
    && (m.Returned? ==> m.error == b.verdict && (b.sends == 1 || b.phase.Stopped?))
    && (b.phase.AddFinal? || b.phase.Finish? ==> SnapClosed(m))
    && (b.phase.AddCanceled? ==> canceled)
    && (Ended(b.phase) ==> SnapClosed(m) || canceled || b.verdict == Some(TrackerError))
  }

  function Urls(snapshots: seq<Snapshot>): seq<string> {
    if snapshots == [] then [] else [snapshots[0].url] + Urls(snapshots[1..])
  }

  function Sum(workers: seq<Worker>, weight: Worker -> nat): nat {
    if workers == [] then 0 else weight(workers[0]) + Sum(workers[1..], weight)
  }

  function NotCounted(w: Worker): nat {
    if w.Sent? then 1 else 0
  }

  function FailureNotCounted(w: Worker): nat {
    if w == Sent(true) || w.CountFailed? then 1 else 0
  }

  /** `multiset(t)[url]` (see CountIsMultiplicity), taken apart at the front. */
  function Count(t: seq<string>, url: string): nat {
    if t == [] then 0 else (if t[0] == url then 1 else 0) + Count(t[1..], url)
  }

  /** `Count(Urls(snapshots), url)` (see CountSnapsUrls). */
  function CountSnaps(snapshots: seq<Snapshot>, url: string): nat {
    if snapshots == [] then 0 else (if snapshots[0].url == url then 1 else 0) + CountSnaps(snapshots[1..], url)
  }

  function Holds(url: string): Worker -> nat {
    w => Count(UrlOf(w), url)
  }

  function InCollector(q: Collector, url: string): nat {
    Count(q.filteredCh, url) + Count(q.filteredURLs, url) + Count(q.failedCh, url) + Count(q.failedURLs, url)
  }

  function InBatcher(b: Batcher, url: string): nat {
    CountSnaps(b.batch, url) + CountSnaps(b.added, url)
  }

  /** How often a URL occurs: unfed, queued, given up, in the collector, batched,
      added (everywhere but in the hands of a worker). */
  function Elsewhere(c: Config, s: State, url: string): nat
    requires s.fed <= |c.urls|
  {
    Count(c.urls[s.fed..], url) + Count(s.queue, url) + Count(s.dropped, url)
    + InCollector(s.col, url) + InBatcher(s.bat, url)
  }

  /** No URL is lost or doubled. */
  ghost predicate Conserved(c: Config, s: State) {
    && s.fed <= |c.urls|
    && (forall url :: Elsewhere(c, s, url) + Sum(s.workers, Holds(url)) == Count(c.urls, url))
    && (s.dropped != [] ==> s.canceled)
  }

  /** The atomic counters lag behind the sends by the workers about to count. */
  ghost predicate Counted(s: State) {
    && s.processed + Sum(s.workers, NotCounted)
       == |s.col.filteredCh| + |s.col.filteredURLs| + |s.col.failedCh| + |s.col.failedURLs|
          + |s.bat.batch| + |s.bat.added|
    && s.failed + Sum(s.workers, FailureNotCounted) == |s.col.failedCh| + |s.col.failedURLs|
  }

  predicate InTransaction(p: Phase) {
    !p.Begin? && !Ended(p)
  }

  function NewVersion(c: Config): Version {
    Version(c.versionID, c.store.head)
  }

  /** The transaction holds the rows of what was added; the store is as it was or
      has one version more. */
  ghost predicate Stored(c: Config, b: Batcher) {
    && (b.phase.Begin? ==> b.tx.None? && b.batch == [] && b.added == [])
    && (b.phase.Finish? ==> b.batch == [])
    && (InTransaction(b.phase) ==>
          b.tx == Some(BatchRows(c, b.added)) && b.outcome.NotCommitted? && c.versionID !in Ids(c.store.versions))
    && |BatchRows(c, b.added)| == |b.added|
    && match b.outcome
       case NotCommitted => b.store == c.store
       case Committed(diff, headWritten) =>
         && Ended(b.phase) && b.tx.None? && b.added != [] && b.batch == []
         && b.verdict == (if headWritten then None else Some(TrackerError))
         && Publishable(c.env, c.store, NewVersion(c), BatchRows(c, b.added), diff)
         && b.store == Publish(c.store, NewVersion(c), BatchRows(c, b.added), diff, headWritten)
  }

  /** What an undisturbed batcher has decided by the time it ends. */
  ghost predicate Decided(c: Config, s: State) {
    && (s.bat.verdict == Some(AllFailed) ==> s.bat.added == [] && s.bat.outcome.NotCommitted? && SnapClosed(s.main))
    && (Ended(s.bat.phase) && !s.canceled && !TrackerFailed(s) ==>
          && s.bat.batch == [] && (s.bat.added != [] <==> s.bat.outcome.Committed?)
          && (s.bat.verdict == Some(AllFailed) <==> s.bat.added == [] && |c.urls| > 0 && s.failed == |c.urls|))
  }

  /** Nothing is committed before every URL has been fetched and handed on, and nothing is
      given up afterwards. */
  ghost predicate Drained(c: Config, s: State) {
    s.bat.outcome.Committed? ==>
      SnapClosed(s.main) && s.fed == |c.urls| && s.queue == [] && s.dropped == [] && AllExited(s.workers)
  }

  ghost predicate PipelineInv(c: Config, s: State) {
    && Control(c, s) && Collecting(c, s.main, s.col) && Verdicts(s.canceled, s.main, s.bat)
    && Conserved(c, s) && Counted(s) && Stored(c, s.bat) && Decided(c, s) && Drained(c, s)
  }

  lemma {:induction false} SumIdle(n: nat, weight: Worker -> nat)
    requires weight(Idle) == 0
    ensures Sum(seq(n, _ => Idle), weight) == 0
  {
    if n > 0 {
      assert seq(n, _ => Idle)[1..] == seq(n - 1, _ => Idle);
      SumIdle(n - 1, weight);
    }
  }

  lemma {:induction false} SumSet(workers: seq<Worker>, w: nat, x: Worker, weight: Worker -> nat)
    requires w < |workers|
    ensures Sum(workers[w := x], weight) == Sum(workers, weight) - weight(workers[w]) + weight(x)
  {
    if w == 0 {
      assert workers[w := x][1..] == workers[1..];
    } else {
      assert workers[w := x][1..] == workers[1..][w - 1 := x];
      SumSet(workers[1..], w - 1, x, weight);
    }
  }

  lemma {:induction false} CountSnapsConcat(a: seq<Snapshot>, b: seq<Snapshot>, url: string)
    ensures CountSnaps(a + b, url) == CountSnaps(a, url) + CountSnaps(b, url)
  {
    if a == [] {
      assert a + b == b;
    } else {
      assert (a + b)[1..] == a[1..] + b;
      CountSnapsConcat(a[1..], b, url);
    }
  }

  lemma {:induction false} CountSnapsUrls(snapshots: seq<Snapshot>, url: string)
    ensures CountSnaps(snapshots, url) == Count(Urls(snapshots), url)
  {
    if snapshots != [] {
      CountSnapsUrls(snapshots[1..], url);
      assert Urls(snapshots)[1..] == Urls(snapshots[1..]);
    }
  }

  lemma InitHolds(c: Config)
    ensures PipelineInv(c, Init(c))
  {
    SumIdle(c.maxConcurrency, NotCounted);
    SumIdle(c.maxConcurrency, FailureNotCounted);
    assert c.urls[0..] == c.urls;
    forall url ensures Elsewhere(c, Init(c), url) + Sum(Init(c).workers, Holds(url)) == Count(c.urls, url) {
      SumIdle(c.maxConcurrency, Holds(url));
    }
  }

  // -------------------------------------------------------------------------
  // Every step keeps the invariant.
  // -------------------------------------------------------------------------

  lemma StepKeepsControl(c: Config, s: State, a: Action)
    requires Control(c, s) && Enabled(c, s, a)
    ensures Control(c, Apply(c, s, a))
  {
    if a.Work? {
      assert s.workers[a.w] in s.workers;
      var s' := Apply(c, s, a);
      assert s'.workers[a.w] == NextWorker(c, s, s.workers[a.w], a.k);
      forall i | 0 <= i < |s.workers| && i != a.w ensures s'.workers[i] == s.workers[i] && s.workers[i] in s.workers {}
    }
  }

  lemma StepKeepsCollecting(c: Config, s: State, a: Action)
    requires Control(c, s) && Collecting(c, s.main, s.col) && Enabled(c, s, a)
    ensures Collecting(c, Apply(c, s, a).main, Apply(c, s, a).col)
  {
    if a.Work? { assert s.workers[a.w] in s.workers; }
  }

  lemma BatchKeepsVerdicts(c: Config, s: State, a: BatcherAction)
    requires Verdicts(s.canceled, s.main, s.bat) && BatchEnabled(c, s, a)
    ensures Verdicts(s.canceled, s.main, BatchStep(c, s, a))
  {}

  lemma StepKeepsVerdicts(c: Config, s: State, a: Action)
    requires Verdicts(s.canceled, s.main, s.bat) && Enabled(c, s, a)
    ensures Verdicts(Apply(c, s, a).canceled, Apply(c, s, a).main, Apply(c, s, a).bat)
  {
    if a.Batch? { BatchKeepsVerdicts(c, s, a.b); }
  }

  lemma AddedRows(c: Config, added: seq<Snapshot>, batch: seq<Snapshot>)
    requires |BatchRows(c, added)| == |added| && |BatchRows(c, batch)| == |batch|
    ensures BatchRows(c, added + batch) == BatchRows(c, added) + BatchRows(c, batch)
  {
    InsertableConcat(c.env, c.versionID, added, batch, false, |batch|);
  }

  lemma BatchKeepsStored(c: Config, s: State, a: BatcherAction)
    requires Inv(c.env, c.store)
    requires Stored(c, s.bat) && BatchEnabled(c, s, a) && Verdicts(s.canceled, s.main, s.bat)
    ensures Stored(c, BatchStep(c, s, a))
  {
    if a.AddOk? && s.bat.batch != [] { AddedRows(c, s.bat.added, s.bat.batch); }
    if a.Finalize? { InsertableVersion(c.env, c.versionID, s.bat.added, false, |s.bat.added|); }
  }

  lemma BatchKeepsDecided(c: Config, s: State, a: BatcherAction)
    requires Stored(c, s.bat) && Verdicts(s.canceled, s.main, s.bat) && Decided(c, s) && BatchEnabled(c, s, a)
    ensures Decided(c, s.(bat := BatchStep(c, s, a)))
  {}

  lemma MainKeepsDecided(c: Config, s: State, m: MainAction)
    requires Decided(c, s) && MainEnabled(c, s, m)
    ensures Decided(c, MainStep(c, s, m))
  {}

  lemma WorkKeepsDecided(c: Config, s: State, w: nat, k: WorkerAction)
    requires Control(c, s) && Verdicts(s.canceled, s.main, s.bat) && Decided(c, s)
    requires w < |s.workers| && WorkEnabled(c, s, s.workers[w], k)
    ensures Decided(c, WorkStep(c, s, w, k))
  {
    assert s.workers[w] in s.workers;
    assert !AllExited(s.workers);
  }

  lemma StepKeepsDecided(c: Config, s: State, a: Action)
    requires Control(c, s) && Verdicts(s.canceled, s.main, s.bat) && Stored(c, s.bat) && Decided(c, s)
    requires Enabled(c, s, a)
    ensures Decided(c, Apply(c, s, a))
  {
    match a {
      case Main(m) => MainKeepsDecided(c, s, m);
      case Work(w, k) => WorkKeepsDecided(c, s, w, k);
      case Batch(b) => BatchKeepsDecided(c, s, b);
      case _ =>
    }
  }

  // Conservation of URLs.

  lemma TakeFirst(t: seq<string>, url: string)
    requires t != []
    ensures Count(t, url) == Count([t[0]], url) + Count(t[1..], url)
  {}

  lemma {:induction false} CountConcat(a: seq<string>, b: seq<string>, url: string)
    ensures Count(a + b, url) == Count(a, url) + Count(b, url)
  {
    if a == [] {
      assert a + b == b;
    } else {
      assert (a + b)[1..] == a[1..] + b;
      CountConcat(a[1..], b, url);
    }
  }

  lemma {:induction false} CountIsMultiplicity(t: seq<string>, url: string)
    ensures Count(t, url) == multiset(t)[url]
  {
    if t != [] {
      CountIsMultiplicity(t[1..], url);
      assert t == [t[0]] + t[1..];
    }
  }

  lemma DeliverResultConserves(c: Config, s: State, w: Worker, k: WorkerAction, url: string)
    requires (k.DeliverFailed? || k.DeliverFiltered?) && WorkEnabled(c, s, w, k)
    ensures InCollector(WorkEffect(c, s, w, k).col, url) == InCollector(s.col, url) + Count(UrlOf(w), url)
  {
    if k.DeliverFailed? {
      CountConcat(s.col.failedCh, UrlOf(w), url);
    } else {
      CountConcat(s.col.filteredCh, UrlOf(w), url);
    }
  }

  lemma WorkConserves(c: Config, s: State, w: Worker, k: WorkerAction, url: string)
    requires s.fed <= |c.urls| && WorkEnabled(c, s, w, k)
    ensures Elsewhere(c, WorkEffect(c, s, w, k), url) + Count(UrlOf(NextWorker(c, s, w, k)), url)
         == Elsewhere(c, s, url) + Count(UrlOf(w), url)
  {
    if k.DeliverFailed? || k.DeliverFiltered? {
      DeliverResultConserves(c, s, w, k, url);
    } else if k.DeliverSnap? {
      DeliverConserves(c, s, w, url);
    } else if k.Receive? {
      TakeFirst(s.queue, url);
    } else {
      CountConcat(s.dropped, UrlOf(w), url);
    }
  }

  lemma DeliverConserves(c: Config, s: State, w: Worker, url: string)
    requires WorkEnabled(c, s, w, DeliverSnap)
    ensures InBatcher(WorkEffect(c, s, w, DeliverSnap).bat, url) == InBatcher(s.bat, url) + Count(UrlOf(w), url)
  {
    CountSnapsConcat(s.bat.batch, [w.snap], url);
    assert CountSnaps([w.snap], url) == Count([w.snap.url], url);
  }

  lemma MainConserves(c: Config, s: State, m: MainAction, url: string)
    requires s.fed <= |c.urls| && MainEnabled(c, s, m)
    ensures Elsewhere(c, MainStep(c, s, m), url) == Elsewhere(c, s, url)
  {
    if m.Feed? {
      TakeFirst(c.urls[s.fed..], url);
      assert c.urls[s.fed..][1..] == c.urls[s.fed + 1..];
      CountConcat(s.queue, [c.urls[s.fed]], url);
    }
  }

  lemma CollectConserves(m: Main, q: Collector, a: CollectorAction, url: string)
    requires CollectEnabled(m, q, a)
    ensures InCollector(CollectStep(m, q, a), url) == InCollector(q, url)
  {
    if a.CollectFiltered? {
      TakeFirst(q.filteredCh, url);
      CountConcat(q.filteredURLs, [q.filteredCh[0]], url);
    }
    if a.CollectFailed? {
      TakeFirst(q.failedCh, url);
      CountConcat(q.failedURLs, [q.failedCh[0]], url);
    }
  }

  lemma BatchConserves(c: Config, s: State, a: BatcherAction, url: string)
    requires BatchEnabled(c, s, a)
    ensures InBatcher(BatchStep(c, s, a), url) == InBatcher(s.bat, url)
  {
    if a.AddOk? { CountSnapsConcat(s.bat.added, s.bat.batch, url); }
  }

  lemma StepKeepsConserved(c: Config, s: State, a: Action)
    requires Conserved(c, s) && Enabled(c, s, a)
    ensures Conserved(c, Apply(c, s, a))
  {
    var s' := Apply(c, s, a);
    forall url ensures Elsewhere(c, s', url) + Sum(s'.workers, Holds(url)) == Count(c.urls, url) {
      assert Elsewhere(c, s, url) + Sum(s.workers, Holds(url)) == Count(c.urls, url);
      match a {
        case Cancel =>
        case Main(m) => MainConserves(c, s, m, url);
        case Work(w, k) =>
          WorkConserves(c, s, s.workers[w], k, url);
          SumSet(s.workers, w, NextWorker(c, s, s.workers[w], k), Holds(url));
        case Collect(q) => CollectConserves(s.main, s.col, q, url);
        case Batch(b) => BatchConserves(c, s, b, url);
      }
    }
  }

  lemma WorkKeepsCounted(c: Config, s: State, w: nat, k: WorkerAction)
    requires Counted(s) && w < |s.workers| && WorkEnabled(c, s, s.workers[w], k)
    ensures Counted(WorkStep(c, s, w, k))
  {
    var x := NextWorker(c, s, s.workers[w], k);
    SumSet(s.workers, w, x, NotCounted);
    SumSet(s.workers, w, x, FailureNotCounted);
  }

  lemma StepKeepsCounted(c: Config, s: State, a: Action)
    requires Counted(s) && Enabled(c, s, a)
    ensures Counted(Apply(c, s, a))
  {
    if a.Work? { WorkKeepsCounted(c, s, a.w, a.k); }
  }

  lemma WorkKeepsDrained(c: Config, s: State, w: nat, k: WorkerAction)
    requires Drained(c, s) && Enabled(c, s, Work(w, k))
    ensures Drained(c, WorkStep(c, s, w, k))
  {
    assert s.workers[w] in s.workers;
  }

  lemma StepKeepsDrained(c: Config, s: State, a: Action)
    requires Control(c, s) && Verdicts(s.canceled, s.main, s.bat) && Conserved(c, s) && Drained(c, s) && Enabled(c, s, a)
    ensures Drained(c, Apply(c, s, a))
  {
    match a {
      case Work(w, k) => WorkKeepsDrained(c, s, w, k);
      case Batch(b) => if b.Finalize? && |s.workers| > 0 { assert s.workers[0] in s.workers; }
      case _ =>
    }
  }

  lemma StepKeepsInv(c: Config, s: State, a: Action)
    requires Inv(c.env, c.store) && PipelineInv(c, s) && Enabled(c, s, a)
    ensures PipelineInv(c, Apply(c, s, a))
  {
    StepKeepsControl(c, s, a);
    StepKeepsCollecting(c, s, a);
    StepKeepsVerdicts(c, s, a);
    StepKeepsConserved(c, s, a);
    StepKeepsCounted(c, s, a);
    if a.Batch? { BatchKeepsStored(c, s, a.b); }
    StepKeepsDecided(c, s, a);
    StepKeepsDrained(c, s, a);
  }

  // -------------------------------------------------------------------------
  // Runs.
  // -------------------------------------------------------------------------

  /** A run, one action after the other. */
  ghost predicate Leads(c: Config, s: State, actions: seq<Action>, s': State)
    decreases |actions|
  {
    if actions == [] then s == s'
    else Enabled(c, s, actions[0]) && Leads(c, Apply(c, s, actions[0]), actions[1..], s')
  }

  ghost predicate Reachable(c: Config, s: State) {
    exists actions :: Leads(c, Init(c), actions, s)
  }

  lemma {:induction false} LeadsKeepsInv(c: Config, s: State, actions: seq<Action>, s': State)
    requires Inv(c.env, c.store) && PipelineInv(c, s) && Leads(c, s, actions, s')
    ensures PipelineInv(c, s')
    decreases |actions|
  {
    if actions != [] {
      StepKeepsInv(c, s, actions[0]);
      LeadsKeepsInv(c, Apply(c, s, actions[0]), actions[1..], s');
    }
  }

  lemma ReachableHolds(c: Config, s: State)
    requires Inv(c.env, c.store) && Reachable(c, s)
    ensures PipelineInv(c, s)
  {
    var actions :| Leads(c, Init(c), actions, s);
    InitHolds(c);
    LeadsKeepsInv(c, Init(c), actions, s);
  }

  function HeldUrls(workers: seq<Worker>): seq<string> {
    if workers == [] then [] else UrlOf(workers[0]) + HeldUrls(workers[1..])
  }

  lemma {:induction false} HeldUrlsCount(workers: seq<Worker>, url: string)
    ensures Sum(workers, Holds(url)) == Count(HeldUrls(workers), url)
  {
    if workers != [] {
      HeldUrlsCount(workers[1..], url);
      CountConcat(UrlOf(workers[0]), HeldUrls(workers[1..]), url);
    }
  }

  /** The URLs in all places, taken together. */
  function Everywhere(c: Config, s: State): multiset<string>
    requires s.fed <= |c.urls|
  {
    multiset(c.urls[s.fed..]) + multiset(s.queue) + multiset(HeldUrls(s.workers)) + multiset(s.dropped)
    + multiset(s.col.filteredCh) + multiset(s.col.filteredURLs)
    + multiset(s.col.failedCh) + multiset(s.col.failedURLs)
    + multiset(Urls(s.bat.batch)) + multiset(Urls(s.bat.added))
  }

  /** In every reachable state every URL is in as many places as it has in the input; none
      is given up unless the fetch is canceled. */
  lemma UrlsAreConserved(c: Config, s: State)
    requires Inv(c.env, c.store) && Reachable(c, s)
    ensures s.fed <= |c.urls| && multiset(c.urls) == Everywhere(c, s)
    ensures !s.canceled ==> s.dropped == []
  {
    ReachableHolds(c, s);
    forall url ensures multiset(c.urls)[url] == Everywhere(c, s)[url] { UrlIsConserved(c, s, url); }
  }

  lemma UrlIsConserved(c: Config, s: State, url: string)
    requires Conserved(c, s)
    ensures multiset(c.urls)[url] == Everywhere(c, s)[url]
  {
    assert Elsewhere(c, s, url) + Sum(s.workers, Holds(url)) == Count(c.urls, url);
    PlacesCounted(c, s, url);
    CountIsMultiplicity(c.urls, url);
  }

  lemma PlacesCounted(c: Config, s: State, url: string)
    requires s.fed <= |c.urls|
    ensures Everywhere(c, s)[url] == Elsewhere(c, s, url) + Sum(s.workers, Holds(url))
  {
    HeldUrlsCount(s.workers, url);
    CountSnapsUrls(s.bat.batch, url);
    CountSnapsUrls(s.bat.added, url);
    CountIsMultiplicity(c.urls[s.fed..], url);
    CountIsMultiplicity(s.queue, url);
    CountIsMultiplicity(HeldUrls(s.workers), url);
    CountIsMultiplicity(s.dropped, url);
    CountIsMultiplicity(s.col.filteredCh, url);
    CountIsMultiplicity(s.col.filteredURLs, url);
    CountIsMultiplicity(s.col.failedCh, url);
    CountIsMultiplicity(s.col.failedURLs, url);
    CountIsMultiplicity(Urls(s.bat.batch), url);
    CountIsMultiplicity(Urls(s.bat.added), url);
  }

  lemma {:induction false} ExitedHoldNothing(workers: seq<Worker>, weight: Worker -> nat)
    requires AllExited(workers) && weight(Exited) == 0
    ensures Sum(workers, weight) == 0 && HeldUrls(workers) == []
  {
    if workers != [] {
      assert workers[0] in workers && forall w :: w in workers[1..] ==> w in workers;
      ExitedHoldNothing(workers[1..], weight);
    }
  }

  /** What has drained by the end of an undisturbed run. */
  lemma UndisturbedDrains(c: Config, s: State)
    requires PipelineInv(c, s) && Final(s) && !s.canceled && !TrackerFailed(s)
    ensures s.fed == |c.urls| && s.queue == [] && s.dropped == [] && AllExited(s.workers)
    ensures s.bat.batch == [] && s.col.failedCh == [] && s.col.filteredCh == []
    ensures s.processed == |s.col.filteredURLs| + |s.col.failedURLs| + |s.bat.added|
    ensures s.failed == |s.col.failedURLs|
  {
    ExitedHoldNothing(s.workers, NotCounted);
    ExitedHoldNothing(s.workers, FailureNotCounted);
    if |s.workers| > 0 { assert s.workers[0] in s.workers; }
  }

  /** Once nothing is underway every URL has failed, been filtered, or been added. */
  lemma FatesOfDrained(c: Config, s: State)
    requires Inv(c.env, c.store) && Reachable(c, s)
    requires s.fed == |c.urls| && s.queue == [] && s.dropped == [] && AllExited(s.workers) && s.bat.batch == []
    ensures multiset(c.urls)
         == multiset(s.col.failedURLs) + multiset(s.col.failedCh)
            + multiset(s.col.filteredURLs) + multiset(s.col.filteredCh) + multiset(Urls(s.bat.added))
  {
    ExitedHoldNothing(s.workers, NotCounted);
    assert c.urls[s.fed..] == [];
    UrlsAreConserved(c, s);
  }

  // What the pages answered.

  datatype Answer = Answer(url: string, response: Response)

  function AnswerOf(s: State, a: Action): seq<Answer> {
    if a.Work? && a.k.Respond? && a.w < |s.workers| && s.workers[a.w].Fetching? then [Answer(s.workers[a.w].url, a.k.response)]
    else []
  }

  /** The answers to all requests of a run, in the order of the run. */
  ghost function Answers(c: Config, s: State, actions: seq<Action>): seq<Answer>
    decreases |actions|
  {
    if actions == [] || !Enabled(c, s, actions[0]) then []
    else AnswerOf(s, actions[0]) + Answers(c, Apply(c, s, actions[0]), actions[1..])
  }

  function TimesAnswered(answers: seq<Answer>, x: Answer): nat {
    if answers == [] then 0 else (if answers[0] == x then 1 else 0) + TimesAnswered(answers[1..], x)
  }

  function TimesTaken(snapshots: seq<Snapshot>, snap: Snapshot): nat {
    if snapshots == [] then 0 else (if snapshots[0] == snap then 1 else 0) + TimesTaken(snapshots[1..], snap)
  }

  /** The worker that is about to hand on this answer. */
  function Carrying(x: Answer): Worker {
    match x.response
    case HttpError => SendFailed(x.url)
    case StatusFiltered => SendFiltered(x.url)
    case Page(file) => SendSnap(Snapshot(x.url, file))
  }

  function Carries(x: Answer): Worker -> nat {
    w => if w == Carrying(x) then 1 else 0
  }

  /** How often the answer is where it belongs: failed requests with the failures, filtered
      ones with the filtered, and pages, with their contents, with the batcher. */
  function Kept(q: Collector, b: Batcher, x: Answer): nat {
    match x.response
    case HttpError => Count(q.failedCh, x.url) + Count(q.failedURLs, x.url)
    case StatusFiltered => Count(q.filteredCh, x.url) + Count(q.filteredURLs, x.url)
    case Page(file) => TimesTaken(b.batch, Snapshot(x.url, file)) + TimesTaken(b.added, Snapshot(x.url, file))
  }

  lemma {:induction false} TakenConcat(a: seq<Snapshot>, b: seq<Snapshot>, snap: Snapshot)
    ensures TimesTaken(a + b, snap) == TimesTaken(a, snap) + TimesTaken(b, snap)
  {
    if a == [] {
      assert a + b == b;
    } else {
      assert (a + b)[1..] == a[1..] + b;
      TakenConcat(a[1..], b, snap);
    }
  }

  lemma WorkKeepsAnswer(c: Config, s: State, w: nat, k: WorkerAction, x: Answer)
    requires w < |s.workers| && WorkEnabled(c, s, s.workers[w], k)
    requires WorkEffect(c, s, s.workers[w], k).dropped == s.dropped
    ensures var s', v, v' := WorkEffect(c, s, s.workers[w], k), s.workers[w], NextWorker(c, s, s.workers[w], k);
            Kept(s'.col, s'.bat, x) + Carries(x)(v')
            == Kept(s.col, s.bat, x) + Carries(x)(v) + TimesAnswered(AnswerOf(s, Work(w, k)), x)
  {
    var v := s.workers[w];
    match k {
      case DeliverFailed => CountConcat(s.col.failedCh, UrlOf(v), x.url);
      case DeliverFiltered => CountConcat(s.col.filteredCh, UrlOf(v), x.url);
      case DeliverSnap => if x.response.Page? { TakenConcat(s.bat.batch, [v.snap], Snapshot(x.url, x.response.file)); }
      case _ =>
    }
  }

  lemma CollectKeepsAnswer(m: Main, q: Collector, b: Batcher, a: CollectorAction, x: Answer)
    requires CollectEnabled(m, q, a)
    ensures Kept(CollectStep(m, q, a), b, x) == Kept(q, b, x)
  {
    CollectConserves(m, q, a, x.url);
    if a.CollectFiltered? {
      TakeFirst(q.filteredCh, x.url);
      CountConcat(q.filteredURLs, [q.filteredCh[0]], x.url);
    }
    if a.CollectFailed? {
      TakeFirst(q.failedCh, x.url);
      CountConcat(q.failedURLs, [q.failedCh[0]], x.url);
    }
  }

  lemma BatchKeepsAnswer(c: Config, s: State, a: BatcherAction, x: Answer)
    requires BatchEnabled(c, s, a)
    ensures Kept(s.col, BatchStep(c, s, a), x) == Kept(s.col, s.bat, x)
  {
    if a.AddOk? && x.response.Page? { TakenConcat(s.bat.added, s.bat.batch, Snapshot(x.url, x.response.file)); }
  }

  lemma StepKeepsAnswer(c: Config, s: State, a: Action, x: Answer)
    requires Enabled(c, s, a) && Apply(c, s, a).dropped == s.dropped
    ensures var s' := Apply(c, s, a);
            Kept(s'.col, s'.bat, x) + Sum(s'.workers, Carries(x))
            == Kept(s.col, s.bat, x) + Sum(s.workers, Carries(x)) + TimesAnswered(AnswerOf(s, a), x)
  {
    match a {
      case Work(w, k) =>
        WorkKeepsAnswer(c, s, w, k, x);
        SumSet(s.workers, w, NextWorker(c, s, s.workers[w], k), Carries(x));
      case Collect(q) => CollectKeepsAnswer(s.main, s.col, s.bat, q, x);
      case Batch(b) => BatchKeepsAnswer(c, s, b, x);
      case Cancel =>
      case Main(_) =>
    }
  }

  lemma OnlyMoreDropped(c: Config, s: State, a: Action)
    requires Enabled(c, s, a)
    ensures s.dropped <= Apply(c, s, a).dropped
  {}

  lemma {:induction false} AnsweredConcat(a: seq<Answer>, b: seq<Answer>, x: Answer)
    ensures TimesAnswered(a + b, x) == TimesAnswered(a, x) + TimesAnswered(b, x)
  {
    if a == [] {
      assert a + b == b;
    } else {
      assert (a + b)[1..] == a[1..] + b;
      AnsweredConcat(a[1..], b, x);
    }
  }

  lemma {:induction false} LeadsKeepsAnswers(c: Config, s: State, actions: seq<Action>, s': State, x: Answer)
    requires Leads(c, s, actions, s') && s'.dropped == []
    ensures s.dropped == []
    ensures Kept(s'.col, s'.bat, x) + Sum(s'.workers, Carries(x))
         == Kept(s.col, s.bat, x) + Sum(s.workers, Carries(x)) + TimesAnswered(Answers(c, s, actions), x)
    decreases |actions|
  {
    if actions != [] {
      var a, s1 := actions[0], Apply(c, s, actions[0]);
      LeadsKeepsAnswers(c, s1, actions[1..], s', x);
      OnlyMoreDropped(c, s, a);
      StepKeepsAnswer(c, s, a, x);
      AnsweredConcat(AnswerOf(s, a), Answers(c, s1, actions[1..]), x);
    }
  }

  /** The URLs that were answered with `r`. */
  function AnsweredWith(answers: seq<Answer>, r: Response): seq<string> {
    if answers == [] then []
    else if answers[0].response == r then [answers[0].url] + AnsweredWith(answers[1..], r)
    else AnsweredWith(answers[1..], r)
  }

  /** The pages that were answered, each with what came. */
  function PagesOf(answers: seq<Answer>): seq<Snapshot> {
    if answers == [] then []
    else if answers[0].response.Page? then [Snapshot(answers[0].url, answers[0].response.file)] + PagesOf(answers[1..])
    else PagesOf(answers[1..])
  }

  lemma {:induction false} AnsweredWithCounts(answers: seq<Answer>, r: Response, url: string)
    ensures Count(AnsweredWith(answers, r), url) == TimesAnswered(answers, Answer(url, r))
  {
    if answers != [] {
      AnsweredWithCounts(answers[1..], r, url);
      CountConcat([answers[0].url], AnsweredWith(answers[1..], r), url);
    }
  }

  lemma {:induction false} PagesOfCounts(answers: seq<Answer>, snap: Snapshot)
    ensures TimesTaken(PagesOf(answers), snap) == TimesAnswered(answers, Answer(snap.url, Page(snap.file)))
  {
    if answers != [] {
      PagesOfCounts(answers[1..], snap);
      if answers[0].response.Page? {
        TakenConcat([Snapshot(answers[0].url, answers[0].response.file)], PagesOf(answers[1..]), snap);
      }
    }
  }

  lemma {:induction false} TakenIsMultiplicity(snapshots: seq<Snapshot>, snap: Snapshot)
    ensures TimesTaken(snapshots, snap) == multiset(snapshots)[snap]
  {
    if snapshots != [] {
      TakenIsMultiplicity(snapshots[1..], snap);
      assert snapshots == [snapshots[0]] + snapshots[1..];
    }
  }

  /** Nothing given up, nobody at work: the answers are where they belong. */
  lemma AnswersArrive(c: Config, actions: seq<Action>, s: State, x: Answer)
    requires Leads(c, Init(c), actions, s) && s.dropped == [] && AllExited(s.workers)
    ensures Kept(s.col, s.bat, x) == TimesAnswered(Answers(c, Init(c), actions), x)
  {
    LeadsKeepsAnswers(c, Init(c), actions, s, x);
    SumIdle(c.maxConcurrency, Carries(x));
    ExitedHoldNothing(s.workers, Carries(x));
  }

  lemma UrlsArrive(c: Config, actions: seq<Action>, s: State)
    requires Leads(c, Init(c), actions, s) && s.dropped == [] && AllExited(s.workers)
    ensures var answers := Answers(c, Init(c), actions);
            && multiset(s.col.failedCh) + multiset(s.col.failedURLs) == multiset(AnsweredWith(answers, HttpError))
            && multiset(s.col.filteredCh) + multiset(s.col.filteredURLs) == multiset(AnsweredWith(answers, StatusFiltered))
  {
    var answers := Answers(c, Init(c), actions);
    forall url
      ensures multiset(s.col.failedCh)[url] + multiset(s.col.failedURLs)[url] == multiset(AnsweredWith(answers, HttpError))[url]
      ensures multiset(s.col.filteredCh)[url] + multiset(s.col.filteredURLs)[url]
           == multiset(AnsweredWith(answers, StatusFiltered))[url]
    {
      AnswersArrive(c, actions, s, Answer(url, HttpError));
      AnswersArrive(c, actions, s, Answer(url, StatusFiltered));
      AnsweredWithCounts(answers, HttpError, url);
      AnsweredWithCounts(answers, StatusFiltered, url);
      CountIsMultiplicity(s.col.failedCh, url);
      CountIsMultiplicity(s.col.failedURLs, url);
      CountIsMultiplicity(s.col.filteredCh, url);
      CountIsMultiplicity(s.col.filteredURLs, url);
      CountIsMultiplicity(AnsweredWith(answers, HttpError), url);
      CountIsMultiplicity(AnsweredWith(answers, StatusFiltered), url);
    }
  }

  lemma PagesArrive(c: Config, actions: seq<Action>, s: State)
    requires Leads(c, Init(c), actions, s) && s.dropped == [] && AllExited(s.workers) && s.bat.batch == []
    ensures multiset(s.bat.added) == multiset(PagesOf(Answers(c, Init(c), actions)))
  {
    var answers := Answers(c, Init(c), actions);
    forall snap ensures multiset(s.bat.added)[snap] == multiset(PagesOf(answers))[snap] {
      AnswersArrive(c, actions, s, Answer(snap.url, Page(snap.file)));
      PagesOfCounts(answers, snap);
      TakenIsMultiplicity(s.bat.added, snap);
      TakenIsMultiplicity(PagesOf(answers), snap);
    }
  }

  lemma {:induction false} AnswersSplit(answers: seq<Answer>)
    ensures |answers| == |AnsweredWith(answers, HttpError)| + |AnsweredWith(answers, StatusFiltered)| + |PagesOf(answers)|
    ensures |AnsweredWith(answers, HttpError)| == |answers| <==> forall x :: x in answers ==> x.response.HttpError?
  {
    if answers != [] {
      AnswersSplit(answers[1..]);
      assert answers == [answers[0]] + answers[1..];
    }
  }

  /** At the end of an uncanceled run whose tracker calls succeed every URL has been answered
      once; those that answered with an error are the failed ones, those whose status is
      filtered the filtered ones, and the pages, with the contents that came, the added ones.
      The counters are exact; the all-failed error is returned exactly when there is a URL
      and every answer was an error; and the store has one version more, with HEAD on it,
      exactly when some page was fetched. */
  lemma UndisturbedFetch(c: Config, actions: seq<Action>, s: State)
    requires Inv(c.env, c.store) && Leads(c, Init(c), actions, s) && Final(s) && !s.canceled && !TrackerFailed(s)
    ensures multiset(c.urls)
         == multiset(s.col.failedURLs) + multiset(s.col.filteredURLs) + multiset(Urls(s.bat.added))
    ensures var answers := Answers(c, Init(c), actions);
            && |answers| == |c.urls|
            && multiset(s.col.failedURLs) == multiset(AnsweredWith(answers, HttpError))
            && multiset(s.col.filteredURLs) == multiset(AnsweredWith(answers, StatusFiltered))
            && multiset(s.bat.added) == multiset(PagesOf(answers))
            && s.main == Returned(if c.urls != [] && forall x :: x in answers ==> x.response.HttpError? then Some(AllFailed) else None)
    ensures s.processed == |c.urls| && s.failed == |s.col.failedURLs|
    ensures s.bat.added == [] ==> s.bat.store == c.store
    ensures s.bat.added != [] ==>
              exists diff :: Publishable(c.env, c.store, NewVersion(c), BatchRows(c, s.bat.added), diff)
                && s.bat.store == Publish(c.store, NewVersion(c), BatchRows(c, s.bat.added), diff, true)
  {
    UndisturbedVerdict(c, s);
    UndisturbedAnswers(c, actions, s);
  }

  lemma UndisturbedAnswers(c: Config, actions: seq<Action>, s: State)
    requires Inv(c.env, c.store) && Leads(c, Init(c), actions, s) && Final(s) && !s.canceled && !TrackerFailed(s)
    ensures var answers := Answers(c, Init(c), actions);
            && |answers| == |c.urls|
            && multiset(s.col.failedURLs) == multiset(AnsweredWith(answers, HttpError))
            && multiset(s.col.filteredURLs) == multiset(AnsweredWith(answers, StatusFiltered))
            && multiset(s.bat.added) == multiset(PagesOf(answers))
            && (|s.col.failedURLs| == |c.urls| <==> forall x :: x in answers ==> x.response.HttpError?)
  {
    var answers := Answers(c, Init(c), actions);
    ReachableHolds(c, s);
    UndisturbedDrains(c, s);
    UrlsArrive(c, actions, s);
    PagesArrive(c, actions, s);
    assert multiset(s.col.failedCh) == multiset{} == multiset(s.col.filteredCh);
    SameSize(s.col.failedURLs, AnsweredWith(answers, HttpError));
    SameSize(s.col.filteredURLs, AnsweredWith(answers, StatusFiltered));
    SameSize(s.bat.added, PagesOf(answers));
    AnswersSplit(answers);
    UndisturbedCount(c, s);
  }

  lemma SameSize<T>(a: seq<T>, b: seq<T>)
    requires multiset(a) == multiset(b)
    ensures |a| == |b|
  {
    assert |multiset(a)| == |a| && |multiset(b)| == |b|;
  }

  lemma UndisturbedCount(c: Config, s: State)
    requires Inv(c.env, c.store) && Reachable(c, s) && Final(s) && !s.canceled && !TrackerFailed(s)
    ensures |c.urls| == |s.col.failedURLs| + |s.col.filteredURLs| + |s.bat.added|
  {
    ReachableHolds(c, s);
    UndisturbedDrains(c, s);
    FatesOfDrained(c, s);
    UrlsLength(s.bat.added);
    assert |c.urls| == |multiset(c.urls)|;
  }

  lemma UndisturbedVerdict(c: Config, s: State)
    requires Inv(c.env, c.store) && Reachable(c, s) && Final(s) && !s.canceled && !TrackerFailed(s)
    ensures multiset(c.urls)
         == multiset(s.col.failedURLs) + multiset(s.col.filteredURLs) + multiset(Urls(s.bat.added))
    ensures s.processed == |c.urls| && s.failed == |s.col.failedURLs|
    ensures s.main == Returned(if |c.urls| > 0 && |s.col.failedURLs| == |c.urls| then Some(AllFailed) else None)
    ensures s.bat.added == [] ==> s.bat.store == c.store
    ensures s.bat.added != [] ==>
              exists diff :: Publishable(c.env, c.store, NewVersion(c), BatchRows(c, s.bat.added), diff)
                && s.bat.store == Publish(c.store, NewVersion(c), BatchRows(c, s.bat.added), diff, true)
  {
    ReachableHolds(c, s);
    UndisturbedDrains(c, s);
    FatesOfDrained(c, s);
    UndisturbedCount(c, s);
    assert s.main.error == s.bat.verdict;
    assert s.bat.verdict.Some? ==> s.bat.verdict.value.TrackerError? || s.bat.verdict.value.AllFailed?;
    assert |s.col.failedURLs| == |c.urls| ==> s.bat.added == [];
  }

  lemma {:induction false} UrlsLength(snapshots: seq<Snapshot>)
    ensures |Urls(snapshots)| == |snapshots|
  {
    if snapshots != [] { UrlsLength(snapshots[1..]); }
  }

  /** At every moment of every run, canceled or not: the store is untouched, or it
      has exactly one version more, made of all that was added, which is every page
      but those that failed or were filtered, with the contents that came; HEAD names it,
      unless a call after the SQL commit failed, and then HEAD is where it was. */
  lemma OneVersionOrNothing(c: Config, actions: seq<Action>, s: State)
    requires Inv(c.env, c.store) && Leads(c, Init(c), actions, s)
    ensures s.bat.outcome.NotCommitted? ==> s.bat.store == c.store
    ensures s.bat.outcome.Committed? ==>
              && s.bat.added != [] && s.bat.batch == []
              && s.bat.store.versions == c.store.versions + [NewVersion(c)]
              && s.bat.store.rows == c.store.rows + BatchRows(c, s.bat.added)
              && |BatchRows(c, s.bat.added)| == |s.bat.added|
              && s.bat.store.head == (if s.bat.verdict.None? then Some(c.versionID) else c.store.head)
              && (s.bat.verdict.None? || TrackerFailed(s))
    ensures s.bat.outcome.Committed? ==>
              multiset(c.urls)
              == multiset(s.col.failedURLs) + multiset(s.col.failedCh)
                 + multiset(s.col.filteredURLs) + multiset(s.col.filteredCh) + multiset(Urls(s.bat.added))
    ensures s.bat.outcome.Committed? ==> multiset(s.bat.added) == multiset(PagesOf(Answers(c, Init(c), actions)))
  {
    ReachableHolds(c, s);
    if s.bat.outcome.Committed? {
      FatesOfDrained(c, s);
      PagesArrive(c, actions, s);
    }
  }

  /** No worker is at a send once channels are being closed, and the error channel
      of capacity 1 is sent to at most once. */
  lemma NoSendOnClosedChannel(c: Config, s: State, w: nat)
    requires Inv(c.env, c.store) && Reachable(c, s) && w < |s.workers| && AtSend(s.workers[w])
    ensures s.main.Feeding? || s.main.WaitWorkers?
    ensures !SnapClosed(s.main) && !FilteredClosed(s.main) && !FailedClosed(s.main)
  {
    ReachableHolds(c, s);
    assert s.workers[w] in s.workers;
  }

  lemma ErrorSentAtMostOnce(c: Config, s: State)
    requires Inv(c.env, c.store) && Reachable(c, s)
    ensures s.bat.sends <= 1 && |s.bat.errCh| <= 1
    ensures s.bat.phase.Failing? ==> s.bat.sends == 0
    ensures s.main.Returned? ==> s.main.error == s.bat.verdict
  {
    ReachableHolds(c, s);
  }

  // -------------------------------------------------------------------------
  // The batcher's errors, its batches, and the order in which things are closed.
  // -------------------------------------------------------------------------

  predicate IsTrackerFault(a: Action) {
    a.Batch? && (a.b.BeginFails? || a.b.AddFails? || (a.b.Finalize? && a.b.result != Finalized))
  }

  /** A fault of the tracker in the run, other than one while a canceled batch is saved. */
  ghost predicate FaultCounts(c: Config, s: State, actions: seq<Action>)
    decreases |actions|
  {
    actions != [] && Enabled(c, s, actions[0]) &&
    ((IsTrackerFault(actions[0]) && !s.bat.phase.AddCanceled?) || FaultCounts(c, Apply(c, s, actions[0]), actions[1..]))
  }

  lemma StepFaults(c: Config, s: State, a: Action)
    requires Verdicts(s.canceled, s.main, s.bat) && Enabled(c, s, a)
    ensures TrackerFailed(Apply(c, s, a)) <==> TrackerFailed(s) || (IsTrackerFault(a) && !s.bat.phase.AddCanceled?)
  {}

  lemma {:induction false} LeadsFaults(c: Config, s: State, actions: seq<Action>, s': State)
    requires Verdicts(s.canceled, s.main, s.bat) && Leads(c, s, actions, s')
    ensures TrackerFailed(s') <==> TrackerFailed(s) || FaultCounts(c, s, actions)
    decreases |actions|
  {
    if actions != [] {
      StepFaults(c, s, actions[0]);
      StepKeepsVerdicts(c, s, actions[0]);
      LeadsFaults(c, Apply(c, s, actions[0]), actions[1..], s');
    }
  }

  /** The fetch has a tracker error exactly when a call of the tracker failed, unless it was
      the one that saves the last batch of a canceled fetch. */
  lemma TrackerErrorExactly(c: Config, actions: seq<Action>, s: State)
    requires Leads(c, Init(c), actions, s)
    ensures TrackerFailed(s) <==> FaultCounts(c, Init(c), actions)
  {
    LeadsFaults(c, Init(c), actions, s);
  }

  /** A batch that has reached the commit size is added before the next page is taken, and
      no transaction is left open behind. */
  ghost predicate Tidy(c: Config, b: Batcher) {
    && (c.commitSize > 0 ==> |b.batch| <= c.commitSize)
    && (c.commitSize > 0 && (b.phase.Begin? || b.phase.Receiving?) ==> |b.batch| < c.commitSize)
    && (b.phase.AddFull? ==> |b.batch| == c.commitSize > 0)
    && (b.phase.Stopped? ==> b.tx.None?)
  }

  lemma StepKeepsTidy(c: Config, s: State, a: Action)
    requires Tidy(c, s.bat) && Enabled(c, s, a)
    ensures Tidy(c, Apply(c, s, a).bat)
  {}

  lemma {:induction false} LeadsKeepsTidy(c: Config, s: State, actions: seq<Action>, s': State)
    requires Tidy(c, s.bat) && Leads(c, s, actions, s')
    ensures Tidy(c, s'.bat)
    decreases |actions|
  {
    if actions != [] {
      StepKeepsTidy(c, s, actions[0]);
      LeadsKeepsTidy(c, Apply(c, s, actions[0]), actions[1..], s');
    }
  }

  /** Batches are cut at the commit size: a batch never outgrows it, one is added before the
      channel is closed only when it has reached it, and a batcher that has stopped leaves no
      transaction open. */
  lemma BatchesAreCut(c: Config, actions: seq<Action>, s: State)
    requires Leads(c, Init(c), actions, s)
    ensures c.commitSize > 0 ==> |s.bat.batch| <= c.commitSize
    ensures c.commitSize > 0 && s.bat.phase.Receiving? ==> |s.bat.batch| < c.commitSize
    ensures s.bat.phase.AddFull? ==> |s.bat.batch| == c.commitSize > 0
    ensures s.bat.phase.Stopped? ==> s.bat.tx.None?
  {
    LeadsKeepsTidy(c, Init(c), actions, s);
  }

  function MainStage(m: Main): nat {
    match m
    case Feeding => 0 case WaitWorkers => 1 case CloseSnap => 2 case CloseFiltered => 3
    case CloseFailed => 4 case WaitCollector => 5 case WaitBatcher => 6 case Returned(_) => 7
  }

  /** The main goroutine skips nothing: it feeds, waits for the workers, closes the three
      channels one by one, waits for the collector and then for the batcher. */
  lemma NothingIsSkipped(c: Config, s: State, m: MainAction)
    requires MainEnabled(c, s, m)
    ensures MainStage(MainStep(c, s, m).main) == MainStage(s.main) + if m.Feed? then 0 else 1
    ensures m.AwaitWorkers? ==> AllExited(s.workers)
    ensures m.AwaitCollector? ==> !s.col.filteredOpen && !s.col.failedOpen
  {}

  // -------------------------------------------------------------------------
  // Termination: every step lowers a measure.
  // -------------------------------------------------------------------------

  function WorkerWork(w: Worker): nat {
    match w
    case Idle => 1
    case Got(_) => 7
    case Fetching(_) => 6
    case SendFailed(_) => 5
    case SendFiltered(_) => 5
    case SendSnap(_) => 5
    case Sent(_) => 3
    case CountFailed => 2
    case Exited => 0
  }

  function MainWork(m: Main): nat {
    match m
    case Feeding => 7 case WaitWorkers => 6 case CloseSnap => 5 case CloseFiltered => 4
    case CloseFailed => 3 case WaitCollector => 2 case WaitBatcher => 1 case Returned(_) => 0
  }

  function PhaseWork(p: Phase): nat {
    match p
    case Begin => 7 case AddFull => 6 case Receiving => 5 case AddFinal => 4 case AddCanceled => 4
    case Finish => 3 case Failing => 2 case Closing => 1 case Stopped => 0
  }

  function CollectorWork(q: Collector): nat {
    |q.filteredCh| + |q.failedCh| + (if q.filteredOpen then 1 else 0) + (if q.failedOpen then 1 else 0)
  }

  function Measure(c: Config, s: State): nat
    requires s.fed <= |c.urls|
  {
    8 * (|c.urls| - s.fed) + 7 * |s.queue| + Sum(s.workers, WorkerWork)
    + MainWork(s.main) + PhaseWork(s.bat.phase) + CollectorWork(s.col) + (if s.canceled then 0 else 1)
  }

  lemma WorkLowersMeasure(c: Config, s: State, w: nat, k: WorkerAction)
    requires s.fed <= |c.urls| && w < |s.workers| && WorkEnabled(c, s, s.workers[w], k)
    ensures WorkStep(c, s, w, k).fed == s.fed
    ensures Measure(c, WorkStep(c, s, w, k)) < Measure(c, s)
  {
    SumSet(s.workers, w, NextWorker(c, s, s.workers[w], k), WorkerWork);
  }

  lemma MainLowersMeasure(c: Config, s: State, m: MainAction)
    requires s.fed <= |c.urls| && MainEnabled(c, s, m)
    ensures MainStep(c, s, m).fed <= |c.urls| && Measure(c, MainStep(c, s, m)) < Measure(c, s)
  {}

  lemma BatchLowersMeasure(c: Config, s: State, b: BatcherAction)
    requires BatchEnabled(c, s, b)
    ensures PhaseWork(BatchStep(c, s, b).phase) < PhaseWork(s.bat.phase)
  {
    match b {
      case AddOk => assert PhaseWork(AfterAdd(s.bat.phase)) < PhaseWork(s.bat.phase);
      case AddFails(_) =>
      case Finalize(_, _) =>
      case _ =>
    }
  }

  lemma StepLowersMeasure(c: Config, s: State, a: Action)
    requires s.fed <= |c.urls| && Enabled(c, s, a)
    ensures Apply(c, s, a).fed <= |c.urls| && Measure(c, Apply(c, s, a)) < Measure(c, s)
  {
    match a {
      case Cancel =>
      case Main(m) => MainLowersMeasure(c, s, m);
      case Work(w, k) => WorkLowersMeasure(c, s, w, k);
      case Collect(q) => assert CollectorWork(CollectStep(s.main, s.col, q)) < CollectorWork(s.col);
      case Batch(b) => BatchLowersMeasure(c, s, b);
    }
  }

  lemma {:induction false} SumConstant(n: nat)
    ensures Sum(seq(n, _ => Idle), WorkerWork) == n
  {
    if n > 0 {
      assert seq(n, _ => Idle)[1..] == seq(n - 1, _ => Idle);
      SumConstant(n - 1);
    }
  }

  lemma {:induction false} MeasureIsUsedUp(c: Config, s: State, actions: seq<Action>, s': State)
    requires s.fed <= |c.urls| && Leads(c, s, actions, s')
    ensures s'.fed <= |c.urls| && |actions| + Measure(c, s') <= Measure(c, s)
    decreases |actions|
  {
    if actions != [] {
      StepLowersMeasure(c, s, actions[0]);
      MeasureIsUsedUp(c, Apply(c, s, actions[0]), actions[1..], s');
    }
  }

  /** Every run is finite, whatever the interleaving. */
  lemma RunsAreBounded(c: Config, actions: seq<Action>, s: State)
    requires Leads(c, Init(c), actions, s)
    ensures |actions| <= 8 * |c.urls| + c.maxConcurrency + 17
  {
    MeasureIsUsedUp(c, Init(c), actions, s);
    SumConstant(c.maxConcurrency);
  }

  // -------------------------------------------------------------------------
  // Progress: unless the batcher has failed on the tracker, something can move.
  // -------------------------------------------------------------------------

  /** The tracker accepts what it is given: a fresh version id, URLs that parse. */
  ghost predicate Cooperates(c: Config) {
    c.versionID !in Ids(c.store.versions) && forall url :: c.env.pathOf(url).Some?
  }

  /** `a` is a step some goroutine can take, and no avoidable failure. */
  ghost predicate Moves(c: Config, s: State, a: Action) {
    Enabled(c, s, a) && !a.Cancel? && (Cooperates(c) && !s.canceled ==> !IsTrackerFault(a))
  }

  lemma {:induction false} AllInsertable(env: Env, version: string, snapshots: seq<Snapshot>)
    requires forall url :: env.pathOf(url).Some?
    ensures |Insertable(env, version, snapshots, false, |snapshots|)| == |snapshots|
  {
    if snapshots != [] { AllInsertable(env, version, snapshots[1..]); }
  }

  lemma BatcherMoves(c: Config, s: State) returns (a: Action)
    requires Verdicts(s.canceled, s.main, s.bat) && Stored(c, s.bat) && !s.bat.phase.Stopped?
    requires s.bat.phase.Receiving? ==> s.canceled || SnapClosed(s.main)
    ensures Moves(c, s, a)
  {
    var b := s.bat;
    if Cooperates(c) { AllInsertable(c.env, c.versionID, b.batch); }
    match b.phase {
      case Begin => a := Batch(if !s.canceled && c.versionID !in Ids(b.store.versions) then BeginOk else BeginFails);
      case Receiving => a := Batch(if s.canceled then SeeCanceled else SeeSnapClosed);
      case Finish =>
        a := Batch(if b.tx == Some([]) then NoSnapshots
                   else Finalize(if s.canceled then CommitFailed else Finalized, None));
      case Failing => a := Batch(SendError);
      case Closing => a := Batch(StopBatcher);
      case Stopped => a := Cancel;
      case AddFull | AddFinal | AddCanceled =>
        var accepted := b.batch == [] || (!s.canceled && |BatchRows(c, b.batch)| == |b.batch|);
        a := Batch(if accepted then AddOk else AddFails(0));
    }
  }

  /** A worker that has something to do can do it, or its receiver can move. */
  lemma WorkerMoves(c: Config, s: State, w: nat) returns (a: Action)
    requires PipelineInv(c, s) && (s.canceled || !TrackerFailed(s))
    requires w < |s.workers| && !s.workers[w].Exited?
    requires s.workers[w].Idle? ==> s.queue != [] || !s.main.Feeding?
    ensures Moves(c, s, a)
  {
    var x := s.workers[w];
    NoSendAfterClose(c, s, w);
    match x {
      case Idle => a := Work(w, if s.queue != [] then Receive else Exit);
      case Got(_) => a := Work(w, CheckContext);
      case Fetching(_) => a := Work(w, Respond(HttpError));
      case SendFailed(_) =>
        a := if |s.col.failedCh| < c.maxConcurrency then Work(w, DeliverFailed) else Collect(CollectFailed);
      case SendFiltered(_) =>
        a := if |s.col.filteredCh| < c.maxConcurrency then Work(w, DeliverFiltered) else Collect(CollectFiltered);
      case SendSnap(_) =>
        if s.canceled {
          a := Work(w, Abandon);
        } else if s.bat.phase.Receiving? {
          a := Work(w, DeliverSnap);
        } else {
          a := BatcherMoves(c, s);
        }
      case Sent(_) => a := Work(w, CountProcessed);
      case CountFailed => a := Work(w, CountFailure);
    }
  }

  lemma NoSendAfterClose(c: Config, s: State, w: nat)
    requires PipelineInv(c, s) && w < |s.workers| && !s.workers[w].Exited?
    ensures s.main.Feeding? || s.main.WaitWorkers?
    ensures s.col.failedOpen && s.col.filteredOpen
    ensures Ended(s.bat.phase) ==> s.canceled || TrackerFailed(s)
  {
    assert s.workers[w] in s.workers;
  }

  lemma FeederMoves(c: Config, s: State) returns (a: Action)
    requires PipelineInv(c, s) && (s.canceled || !TrackerFailed(s)) && c.maxConcurrency >= 1 && s.main.Feeding?
    ensures Moves(c, s, a)
  {
    if s.canceled || s.fed == |c.urls| {
      a := Main(StopFeeding);
    } else if |s.queue| < 2 * c.maxConcurrency {
      a := Main(Feed);
    } else {
      assert s.workers[0] in s.workers;
      a := WorkerMoves(c, s, 0);
    }
  }

  lemma CloserMoves(c: Config, s: State) returns (a: Action)
    requires PipelineInv(c, s) && (s.canceled || !TrackerFailed(s)) && !s.main.Feeding? && !Final(s)
    ensures Moves(c, s, a)
  {
    match s.main {
      case WaitWorkers =>
        if AllExited(s.workers) {
          a := Main(AwaitWorkers);
        } else {
          var x :| x in s.workers && !x.Exited?;
          var w :| 0 <= w < |s.workers| && s.workers[w] == x;
          a := WorkerMoves(c, s, w);
        }
      case CloseSnap => a := Main(DoCloseSnap);
      case CloseFiltered => a := Main(DoCloseFiltered);
      case CloseFailed => a := Main(DoCloseFailed);
      case WaitCollector =>
        a := if s.col.filteredOpen then Collect(if s.col.filteredCh != [] then CollectFiltered else SeeFilteredClosed)
             else if s.col.failedOpen then Collect(if s.col.failedCh != [] then CollectFailed else SeeFailedClosed)
             else Main(AwaitCollector);
      case _ =>
        if s.main.WaitBatcher? && (s.bat.errCh != [] || s.bat.phase.Stopped?) {
          a := Main(AwaitBatcher);
        } else {
          a := BatcherMoves(c, s);
        }
    }
  }

  lemma SomethingMoves(c: Config, s: State) returns (a: Action)
    requires PipelineInv(c, s) && c.maxConcurrency >= 1
    requires (s.canceled || !TrackerFailed(s)) && !Final(s)
    ensures Moves(c, s, a)
  {
    if s.main.Feeding? { a := FeederMoves(c, s); } else { a := CloserMoves(c, s); }
  }

  /** No deadlock: with at least one worker, while the fetch is not over and the
      batcher has not failed on the tracker (or the context is canceled), some
      goroutine can take a step, and one that is no failure if the tracker allows. */
  lemma NoDeadlock(c: Config, s: State) returns (a: Action)
    requires Inv(c.env, c.store) && Reachable(c, s) && c.maxConcurrency >= 1
    requires (s.canceled || !TrackerFailed(s)) && !Final(s)
    ensures Moves(c, s, a)
  {
    ReachableHolds(c, s);
    a := SomethingMoves(c, s);
  }

  // -------------------------------------------------------------------------
  // Exactly when the fetch is stuck.
  // -------------------------------------------------------------------------

  /** Only a cancellation can still happen. */
  ghost predicate Stuck(c: Config, s: State) {
    !Final(s) && forall a :: Enabled(c, s, a) ==> a.Cancel?
  }

  /** The batcher is gone after a tracker error, every worker that is left wants to
      send it a snapshot, and the feeder waits for them. */
  ghost predicate Starved(c: Config, s: State) {
    && !s.canceled && TrackerFailed(s) && s.bat.phase.Stopped?
    && s.col.filteredCh == [] && s.col.failedCh == []
    && (forall w :: w in s.workers ==> w.Exited? || w.SendSnap?)
    && ((s.main.Feeding? && s.fed < |c.urls| && |s.queue| == 2 * c.maxConcurrency)
        || (s.main.WaitWorkers? && !AllExited(s.workers)))
  }

  lemma StarvedIsStuck(c: Config, s: State)
    requires PipelineInv(c, s) && Starved(c, s)
    ensures Stuck(c, s)
  {
    forall w | 0 <= w < |s.workers| ensures s.workers[w].Exited? || s.workers[w].SendSnap? {
      assert s.workers[w] in s.workers;
    }
  }

  lemma StuckHasFailed(c: Config, s: State)
    requires PipelineInv(c, s) && c.maxConcurrency >= 1 && Stuck(c, s)
    ensures !s.canceled && TrackerFailed(s)
  {
    if s.canceled || !TrackerFailed(s) { var a := SomethingMoves(c, s); }
  }

  lemma StuckIsStarved(c: Config, s: State)
    requires PipelineInv(c, s) && c.maxConcurrency >= 1 && Stuck(c, s)
    ensures Starved(c, s)
  {
    StuckHasFailed(c, s);
    StuckBatcher(c, s);
    StuckCollector(c, s);
    forall w | 0 <= w < |s.workers| ensures s.workers[w].Exited? || s.workers[w].SendSnap? || s.workers[w].Idle? {
      StuckWorker(c, s, w);
    }
    assert !Enabled(c, s, Main(StopFeeding)) && !Enabled(c, s, Main(Feed)) && !Enabled(c, s, Main(AwaitWorkers));
    assert !Enabled(c, s, Main(DoCloseSnap)) && !Enabled(c, s, Main(DoCloseFiltered)) && !Enabled(c, s, Main(DoCloseFailed));
    assert !Enabled(c, s, Main(AwaitCollector)) && !Enabled(c, s, Main(AwaitBatcher));
    assert !Enabled(c, s, Collect(SeeFilteredClosed)) && !Enabled(c, s, Collect(SeeFailedClosed));
    assert s.main.Feeding? || s.main.WaitWorkers?;
    forall w | 0 <= w < |s.workers| ensures !s.workers[w].Idle? {
      assert !Enabled(c, s, Work(w, Receive)) && !Enabled(c, s, Work(w, Exit));
    }
  }

  lemma StuckBatcher(c: Config, s: State)
    requires PipelineInv(c, s) && Stuck(c, s) && TrackerFailed(s)
    ensures s.bat.phase.Stopped?
  {
    assert !Enabled(c, s, Batch(SendError)) && !Enabled(c, s, Batch(StopBatcher));
  }

  lemma StuckCollector(c: Config, s: State)
    requires PipelineInv(c, s) && Stuck(c, s)
    ensures s.col.filteredCh == [] && s.col.failedCh == []
  {
    assert !Enabled(c, s, Collect(CollectFiltered)) && !Enabled(c, s, Collect(CollectFailed));
  }

  lemma StuckWorker(c: Config, s: State, w: nat)
    requires PipelineInv(c, s) && c.maxConcurrency >= 1 && Stuck(c, s) && w < |s.workers|
    ensures s.workers[w].Exited? || s.workers[w].SendSnap? || s.workers[w].Idle?
  {
    StuckCollector(c, s);
    assert !Enabled(c, s, Work(w, CheckContext)) && !Enabled(c, s, Work(w, Respond(HttpError)));
    assert !Enabled(c, s, Work(w, DeliverFailed)) && !Enabled(c, s, Work(w, DeliverFiltered));
    assert !Enabled(c, s, Work(w, CountProcessed)) && !Enabled(c, s, Work(w, CountFailure));
  }

  /** The deadlocks of the fetch are exactly the starved states. */
  lemma StuckExactlyWhenStarved(c: Config, s: State)
    requires Inv(c.env, c.store) && Reachable(c, s) && c.maxConcurrency >= 1
    ensures Stuck(c, s) <==> Starved(c, s)
  {
    ReachableHolds(c, s);
    if Starved(c, s) { StarvedIsStuck(c, s); }
    if Stuck(c, s) { StuckIsStarved(c, s); }
  }

  lemma {:induction false} OneMore(c: Config, s: State, actions: seq<Action>, s': State, a: Action)
    requires Leads(c, s, actions, s') && Enabled(c, s', a)
    ensures Leads(c, s, actions + [a], Apply(c, s', a))
    decreases |actions|
  {
    if actions == [] {
      assert Leads(c, Apply(c, s, a), [], Apply(c, s, a));
    } else {
      OneMore(c, Apply(c, s, actions[0]), actions[1..], s', a);
      assert (actions + [a])[1..] == actions[1..] + [a];
    }
  }

  lemma ReachableStep(c: Config, s: State, a: Action)
    requires Reachable(c, s) && Enabled(c, s, a)
    ensures Reachable(c, Apply(c, s, a))
  {
    var actions :| Leads(c, Init(c), actions, s);
    OneMore(c, Init(c), actions, s, a);
  }

  lemma BatcherGivesUp(c: Config) returns (s: State)
    ensures Reachable(c, s)
    ensures s == Init(c).(bat := Batcher(Stopped, [], [], None, c.store, NotCommitted, Some(TrackerError), [TrackerError], 1))
  {
    s := Init(c);
    assert Leads(c, Init(c), [], Init(c));
    ReachableStep(c, s, Batch(BeginFails));
    s := Apply(c, s, Batch(BeginFails));
    ReachableStep(c, s, Batch(SendError));
    s := Apply(c, s, Batch(SendError));
    ReachableStep(c, s, Batch(StopBatcher));
    s := Apply(c, s, Batch(StopBatcher));
  }

  lemma FeedsOnePage(c: Config, s: State) returns (s': State)
    requires Reachable(c, s) && |c.urls| == 1 && c.maxConcurrency == 1
    requires s.main.Feeding? && s.fed == 0 && s.queue == [] && s.workers == [Idle]
    ensures Reachable(c, s') && s' == s.(main := WaitWorkers, fed := 1, workers := [Got(c.urls[0])])
  {
    ReachableStep(c, s, Main(Feed));
    s' := Apply(c, s, Main(Feed));
    ReachableStep(c, s', Main(StopFeeding));
    s' := Apply(c, s', Main(StopFeeding));
    ReachableStep(c, s', Work(0, Receive));
    s' := Apply(c, s', Work(0, Receive));
  }

  /** The starved states are real: one page is fetched while BeginCommit fails. */
  lemma DeadlockIsReachable(env: Env, file: File)
    ensures var c := Config(["page"], 1, 10, false, env, EMPTY_STORE, "v1");
            exists s :: Reachable(c, s) && Starved(c, s)
  {
    var c := Config(["page"], 1, 10, false, env, EMPTY_STORE, "v1");
    var s := BatcherGivesUp(c);
    s := FeedsOnePage(c, s);
    ReachableStep(c, s, Work(0, CheckContext));
    s := Apply(c, s, Work(0, CheckContext));
    ReachableStep(c, s, Work(0, Respond(Page(file))));
    s := Apply(c, s, Work(0, Respond(Page(file))));
    assert s.workers == [SendSnap(Snapshot("page", file))];
    assert s.workers[0] in s.workers;
    assert Starved(c, s);
  }
}
