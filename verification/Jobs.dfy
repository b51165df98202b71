/** The job table of internal/app/job_manager.go, the life of a job in
    internal/app/job_runner.go, and the two operations of internal/app/orchestrator.go
    that wait for jobs: deleting a website and closing. */
module Jobs {
  import opened Text

  datatype Status = Pending | Running | Complete | Failed | Canceled

  predicate IsTerminal(status: Status) {
    status.Complete? || status.Failed? || status.Canceled?
  }

  /** `endedAt` is None until the job is finished. */
  datatype Job = Job(project: string, website: string, status: Status, error: string, endedAt: Option<int>)

  /** `cancels` are the jobs with a registered cancel function, `canceled` those whose
      context is done. */
  datatype Table = Table(jobs: map<string, Job>, cancels: set<string>, canceled: set<string>)

  predicate Targets(job: Job, project: string, website: string) {
    job.project == project && job.website == website
  }

  // -------------------------------------------------------------------------
  // The table's operations.
  // -------------------------------------------------------------------------

  function Recorded(t: Table, id: string, status: Status, error: Option<string>): Table {
    if id !in t.jobs then t
    else
      var job := t.jobs[id].(status := status);
      t.(jobs := t.jobs[id := if error.Some? then job.(error := error.value) else job])
  }

  predicate Expired(job: Job, retention: int, now: int) {
    retention > 0 && IsTerminal(job.status) && job.endedAt.Some? && now - job.endedAt.value > retention
  }

  function Pruned(jobs: map<string, Job>, retention: int, now: int): (r: map<string, Job>)
    ensures forall id :: id in r <==> id in jobs && !Expired(jobs[id], retention, now)
    ensures forall id :: id in r ==> r[id] == jobs[id]
  {
    map id | id in jobs && !Expired(jobs[id], retention, now) :: jobs[id]
  }

  function Stamped(jobs: map<string, Job>, id: string, now: int): map<string, Job> {
    if id in jobs then jobs[id := jobs[id].(endedAt := Some(now))] else jobs
  }

  function Finished(t: Table, id: string, retention: int, now: int): Table {
    t.(jobs := Pruned(Stamped(t.jobs, id, now), retention, now), cancels := t.cancels - {id})
  }

  function CanceledOne(t: Table, id: string): Table {
    if id in t.cancels then t.(canceled := t.canceled + {id}) else t
  }

  function CanceledFor(t: Table, project: string, website: string): Table {
    t.(canceled := t.canceled + set id | id in t.jobs && Targets(t.jobs[id], project, website) && id in t.cancels)
  }

  function ShutDown(t: Table, retention: int, now: int): Table {
    Table(Pruned(t.jobs, retention, now), {}, t.canceled + t.cancels)
  }

  predicate HasActive(t: Table, project: string, website: string) {
    exists id :: id in t.jobs && Targets(t.jobs[id], project, website) && !IsTerminal(t.jobs[id].status)
  }

  class JobManager {
    var jobs: map<string, Job>
    var cancels: set<string>
    var canceled: set<string>
    const retention: int

    constructor (retention: int)
      ensures Now() == Table(map[], {}, {}) && this.retention == retention
    {
      jobs, cancels, canceled := map[], {}, {};
      this.retention := retention;
    }

    function Now(): Table
      reads this
    {
      Table(jobs, cancels, canceled)
    }

    method Set(id: string, job: Job)
      modifies this
      ensures Now() == old(Now()).(jobs := old(jobs)[id := job])
    {
      jobs := jobs[id := job];
    }

    method Get(id: string) returns (r: Option<Job>)
      ensures r == if id in jobs then Some(jobs[id]) else None
    {
      if id !in jobs { return None; }
      return Some(jobs[id]);
    }

    /** setStatus, and without an error setResult and setScanResult. */
    method SetStatus(id: string, status: Status, error: Option<string>)
      modifies this
      ensures Now() == Recorded(old(Now()), id, status, error)
    {
      if id in jobs {
        jobs := jobs[id := jobs[id].(status := status)];
        if error.Some? {
          jobs := jobs[id := jobs[id].(error := error.value)];
        }
        assert jobs == Recorded(old(Now()), id, status, error).jobs;
      }
    }

    method RegisterCancel(id: string)
      modifies this
      ensures Now() == old(Now()).(cancels := old(cancels) + {id})
    {
      cancels := cancels + {id};
    }

    method Cancel(id: string)
      modifies this
      ensures Now() == CanceledOne(old(Now()), id)
    {
      if id in cancels {
        canceled := canceled + {id};
      }
    }

    method Finish(id: string, now: int)
      modifies this
      ensures Now() == Finished(old(Now()), id, retention, now)
    {
      if id in jobs {
        jobs := jobs[id := jobs[id].(endedAt := Some(now))];
      }
      CleanupFinished(now);
      cancels := cancels - {id};
    }

    method CleanupFinished(now: int)
      modifies this
      ensures Now() == old(Now()).(jobs := Pruned(old(jobs), retention, now))
    {
      if retention <= 0 {
        assert jobs == Pruned(jobs, retention, now);
        return;
      }
      var ids := jobs.Keys;
      while ids != {}
        invariant cancels == old(cancels) && canceled == old(canceled) && ids <= jobs.Keys <= old(jobs).Keys
        invariant forall id :: id in jobs ==> jobs[id] == old(jobs)[id]
        invariant forall id :: id in old(jobs) && id !in ids ==> (id in jobs <==> !Expired(old(jobs)[id], retention, now))
        decreases ids
      {
        var id :| id in ids;
        ids := ids - {id};
        if !IsTerminal(jobs[id].status) { continue; }
        if jobs[id].endedAt.None? { continue; }
        if now - jobs[id].endedAt.value > retention {
          jobs := map i | i in jobs && i != id :: jobs[i];
        }
      }
      assert jobs == Pruned(old(jobs), retention, now);
    }

    method CancelWebsiteJobs(project: string, website: string)
      modifies this
      ensures Now() == CanceledFor(old(Now()), project, website)
    {
      var ids := jobs.Keys;
      while ids != {}
        invariant jobs == old(jobs) && cancels == old(cancels) && ids <= jobs.Keys
        invariant forall id :: id in canceled <==>
          (id in old(canceled) || (id in jobs && id !in ids && Targets(jobs[id], project, website) && id in cancels))
        decreases ids
      {
        var id :| id in ids;
        ids := ids - {id};
        if Targets(jobs[id], project, website) && id in cancels {
          canceled := canceled + {id};
        }
      }
      assert canceled == CanceledFor(old(Now()), project, website).canceled;
    }

    method HasActiveWebsiteJobs(project: string, website: string) returns (active: bool)
      ensures active == HasActive(Now(), project, website)
    {
      var ids := jobs.Keys;
      while ids != {}
        invariant ids <= jobs.Keys
        invariant forall id :: id in jobs && Targets(jobs[id], project, website) && !IsTerminal(jobs[id].status) ==> id in ids
        decreases ids
      {
        var id :| id in ids;
        if Targets(jobs[id], project, website) && !IsTerminal(jobs[id].status) { return true; }
        ids := ids - {id};
      }
      return false;
    }

    method Shutdown(now: int)
      modifies this
      ensures Now() == ShutDown(old(Now()), retention, now)
    {
      while cancels != {}
        invariant jobs == old(jobs) && canceled + cancels == old(canceled) + old(cancels)
        decreases cancels
      {
        var id :| id in cancels;
        canceled := canceled + {id};
        cancels := cancels - {id};
      }
      CleanupFinished(now);
    }
  }

  /** Pruning removes what is finished, stamped and older than the retention time, so never an
      active job, and nothing at all without a retention time. */
  lemma PruningKeepsActive(jobs: map<string, Job>, retention: int, now: int, id: string)
    requires id in jobs
    ensures id !in Pruned(jobs, retention, now) <==>
              && jobs[id].status in {Complete, Failed, Canceled} && jobs[id].endedAt.Some?
              && now > jobs[id].endedAt.value + retention > jobs[id].endedAt.value
  {}

  // -------------------------------------------------------------------------
  // Jobs running at the same time.
  // -------------------------------------------------------------------------

  datatype Ending = Success | Error | Panic

  /** Where a job stands: `Submitted` has passed the closed check, `Listed` is in the table,
      `Cancelable` has its cancel function registered, `Spawned` its goroutine started. The
      body is executing while the job is `Working`. `Settling` is about to record a
      terminal status, `Committing` about to call the commit closure, `Relapsing` was told
      done by a commit closure that then panicked. `Ended` has only the wait group to tell. */
  datatype Phase =
    | Submitted
    | Listed
    | Cancelable
    | Spawned
    | Working
    | Returned(ending: Ending)
    | Settling(status: Status)
    | Committing
    | Relapsing
    | Settled
    | Ended
    | Gone

  /** `relapsed`: the commit closure panicked after recording its result. `history` lists
      the statuses recorded so far. */
  datatype Runner = Runner(project: string, website: string, phase: Phase, relapsed: bool, history: seq<Status>)

  /** DeleteWebsite: after the wait, `seen` are the jobs that had been listed by then, also
      those that had been pruned again. */
  datatype Deletion = NotAsked | Awaiting | Unused(seen: set<string>) | Evicted(seen: set<string>) | GaveUp

  /** Close: after the wait, `seen` are the jobs whose goroutine had been started; None when
      the wait timed out. */
  datatype Closing = Open | Refusing | Stopping | Waited(seen: Option<set<string>>) | SitesClosed(seen: Option<set<string>>)

  /** `inFlight` are the jobs the wait group counts. */
  datatype State = State(
    table: Table, inFlight: set<string>, runners: map<string, Runner>, deletion: Deletion, closing: Closing)

  /** The website that is deleted, and the retention time. */
  datatype Config = Config(project: string, website: string, retention: int)

  datatype Action =
    | Submit(id: string, project: string, website: string)
    | Advance(id: string, now: int)
    | WorkReturns(id: string, ending: Ending)
    | CommitPanics(id: string, recorded: bool)
    | CancelJob(id: string)
    | ContextEnds(id: string)
    | Delete
    | GiveUp
    | Close(now: int)
    | TimeOut

  predicate Started(phase: Phase) {
    !phase.Submitted? && !phase.Listed? && !phase.Cancelable?
  }

  /** The body has returned and a terminal status is recorded. */
  predicate IsOver(phase: Phase) {
    phase.Relapsing? || phase.Settled? || phase.Ended? || phase.Gone?
  }

  predicate Enabled(c: Config, s: State, a: Action) {
    match a
    case Submit(id, _, _) => s.closing.Open? && id !in s.runners
    case Advance(id, _) => id in s.runners && !s.runners[id].phase.Working? && !s.runners[id].phase.Gone?
    case WorkReturns(id, _) => id in s.runners && s.runners[id].phase.Working?
    case CommitPanics(id, _) => id in s.runners && s.runners[id].phase.Committing?
    case CancelJob(_) => true
    case ContextEnds(_) => true
    case Delete =>
      s.deletion.NotAsked? || s.deletion.Unused? || (s.deletion.Awaiting? && !HasActive(s.table, c.project, c.website))
    case GiveUp => s.deletion.Awaiting?
    case Close(_) => s.closing.Open? || s.closing.Refusing? || s.closing.Waited? || (s.closing.Stopping? && s.inFlight == {})
    case TimeOut => s.closing.Stopping?
  }

  function To(s: State, id: string, phase: Phase): State
    requires id in s.runners
  {
    s.(runners := s.runners[id := s.runners[id].(phase := phase)])
  }

  /** setJobStatus and setJobResult: what is recorded, goes into the history. */
  function Record(s: State, id: string, status: Status, phase: Phase): State
    requires id in s.runners
  {
    var r := s.runners[id];
    var history := if id in s.table.jobs then r.history + [status] else r.history;
    s.(table := Recorded(s.table, id, status, None), runners := s.runners[id := r.(phase := phase, history := history)])
  }

  function Step(c: Config, s: State, id: string, now: int): State
    requires Enabled(c, s, Advance(id, now))
  {
    var t, r := s.table, s.runners[id];
    match r.phase
    case Submitted =>
      s.(table := t.(jobs := t.jobs[id := Job(r.project, r.website, Pending, "", None)]),
         runners := s.runners[id := r.(phase := Listed, history := [Pending])])
    case Listed => To(s.(table := t.(cancels := t.cancels + {id})), id, Cancelable)
    case Cancelable => To(s.(inFlight := s.inFlight + {id}), id, Spawned)
    case Spawned => Record(s, id, Running, Working)
    case Returned(Panic) => To(s, id, Settling(Failed))
    case Returned(Error) => To(s, id, Settling(if id in t.canceled then Canceled else Failed))
    case Returned(Success) => To(s, id, if id in t.canceled then Settling(Canceled) else Committing)
    case Committing => Record(s, id, Complete, Settled)
    case Settling(status) => Record(s, id, status, Settled)
    case Relapsing => Record(s, id, Failed, Settled)
    case Settled => To(s.(table := Finished(t, id, c.retention, now)), id, Ended)
    case Ended => To(s.(inFlight := s.inFlight - {id}), id, Gone)
  }

  function Apply(c: Config, s: State, a: Action): State
    requires Enabled(c, s, a)
  {
    match a
    case Submit(id, project, website) => s.(runners := s.runners[id := Runner(project, website, Submitted, false, [])])
    case Advance(id, now) => Step(c, s, id, now)
    case WorkReturns(id, ending) => To(s, id, Returned(ending))
    case CommitPanics(id, recorded) =>
      if recorded then
        var s' := Record(s, id, Complete, Relapsing);
        s'.(runners := s'.runners[id := s'.runners[id].(relapsed := true)])
      else To(s, id, Settling(Failed))
    case CancelJob(id) => s.(table := CanceledOne(s.table, id))
    case ContextEnds(id) => s.(table := s.table.(canceled := s.table.canceled + {id}))
    case Delete => (
      match s.deletion
      case NotAsked => s.(table := CanceledFor(s.table, c.project, c.website), deletion := Awaiting)
      case Awaiting => s.(deletion := Unused(set id | id in s.runners && !s.runners[id].phase.Submitted?))
      case Unused(seen) => s.(deletion := Evicted(seen))
    )
    case GiveUp => s.(deletion := GaveUp)
    case Close(now) => (
      match s.closing
      case Open => s.(closing := Refusing)
      case Refusing => s.(table := ShutDown(s.table, c.retention, now), closing := Stopping)
      case Stopping => s.(closing := Waited(Some(set id | id in s.runners && Started(s.runners[id].phase))))
      case Waited(seen) => s.(closing := SitesClosed(seen))
    )
    case TimeOut => s.(closing := Waited(None))
  }

  const INIT := State(Table(map[], {}, {}), {}, map[], NotAsked, Open)

  ghost predicate Leads(c: Config, s: State, actions: seq<Action>, s': State)
    decreases |actions|
  {
    if actions == [] then s == s'
    else Enabled(c, s, actions[0]) && Leads(c, Apply(c, s, actions[0]), actions[1..], s')
  }

  // -------------------------------------------------------------------------
  // What every step keeps.
  // -------------------------------------------------------------------------

  /** The statuses recorded by the time a job is in a phase. */
  predicate HistoryFits(r: Runner) {
    match r.phase
    case Submitted => r.history == [] && !r.relapsed
    case Listed => r.history == [Pending] && !r.relapsed
    case Cancelable => r.history == [Pending] && !r.relapsed
    case Spawned => r.history == [Pending] && !r.relapsed
    case Working => r.history == [Pending, Running] && !r.relapsed
    case Returned(_) => r.history == [Pending, Running] && !r.relapsed
    case Settling(status) => r.history == [Pending, Running] && !r.relapsed && IsTerminal(status)
    case Committing => r.history == [Pending, Running] && !r.relapsed
    case Relapsing => r.history == [Pending, Running, Complete] && r.relapsed
    case Settled => HasSettled(r)
    case Ended => HasSettled(r)
    case Gone => HasSettled(r)
  }

  predicate HasSettled(r: Runner) {
    if r.relapsed then r.history == [Pending, Running, Complete, Failed]
    else |r.history| == 3 && r.history[..2] == [Pending, Running] && IsTerminal(r.history[2])
  }

  /** From being listed until it has settled, a job stays in the table. */
  predicate IsListed(phase: Phase) {
    !phase.Submitted? && !phase.Ended? && !phase.Gone?
  }

  predicate EntryFits(job: Job, r: Runner) {
    && Targets(job, r.project, r.website)
    && r.history != [] && job.status == r.history[|r.history| - 1]
    && (IsListed(r.phase) ==> job.endedAt.None?)
  }

  predicate InWaitGroup(phase: Phase) {
    Started(phase) && !phase.Gone?
  }

  ghost predicate EntryKept(s: State, id: string) {
    && (id in s.table.jobs ==> id in s.runners && EntryFits(s.table.jobs[id], s.runners[id]))
    && (id in s.runners && IsListed(s.runners[id].phase) ==> id in s.table.jobs)
  }

  ghost predicate JobFits(s: State, id: string) {
    EntryKept(s, id) && (id in s.runners ==> HistoryFits(s.runners[id]))
  }

  ghost predicate InFlight(s: State) {
    forall id :: id in s.inFlight <==> id in s.runners && InWaitGroup(s.runners[id].phase)
  }

  predicate IsOf(c: Config, r: Runner) {
    r.project == c.project && r.website == c.website
  }

  ghost predicate Deleted(c: Config, s: State) {
    s.deletion.Unused? || s.deletion.Evicted? ==>
      forall id :: id in s.deletion.seen ==> id in s.runners && (IsOf(c, s.runners[id]) ==> IsOver(s.runners[id].phase))
  }

  ghost predicate Closed(s: State) {
    (s.closing.Waited? || s.closing.SitesClosed?) && s.closing.seen.Some? ==>
      forall id :: id in s.closing.seen.value ==> id in s.runners && s.runners[id].phase.Gone?
  }

  ghost predicate JobsInv(c: Config, s: State) {
    (forall id :: JobFits(s, id)) && InFlight(s) && Deleted(c, s) && Closed(s)
  }

  predicate Acts(a: Action, id: string) {
    (a.Submit? || a.Advance? || a.WorkReturns? || a.CommitPanics?) && a.id == id
  }

  lemma ReturnFits(c: Config, s: State, a: Action)
    requires (a.WorkReturns? || a.CommitPanics?) && Enabled(c, s, a) && JobFits(s, a.id)
    ensures JobFits(Apply(c, s, a), a.id)
  {}

  lemma ActorFits(c: Config, s: State, a: Action, id: string)
    requires Enabled(c, s, a) && Acts(a, id) && JobFits(s, id)
    ensures JobFits(Apply(c, s, a), id)
  {
    if a.WorkReturns? || a.CommitPanics? { ReturnFits(c, s, a); }
  }

  lemma StepKeepsFits(c: Config, s: State, a: Action, id: string)
    requires Enabled(c, s, a) && JobFits(s, id)
    ensures JobFits(Apply(c, s, a), id)
  {
    if Acts(a, id) { ActorFits(c, s, a, id); }
  }

  lemma ActorInFlight(c: Config, s: State, a: Action, id: string)
    requires InFlight(s) && Enabled(c, s, a) && Acts(a, id)
    ensures var s' := Apply(c, s, a);
            id in s'.runners && (id in s'.inFlight <==> InWaitGroup(s'.runners[id].phase))
    ensures id in s.runners ==> IsOf(c, Apply(c, s, a).runners[id]) == IsOf(c, s.runners[id])
    ensures id in s.runners && IsOver(s.runners[id].phase) ==> IsOver(Apply(c, s, a).runners[id].phase)
    ensures id in s.runners ==> !s.runners[id].phase.Gone?
  {}

  lemma StepKeepsInFlight(c: Config, s: State, a: Action)
    requires InFlight(s) && Enabled(c, s, a)
    ensures InFlight(Apply(c, s, a))
  {
    var s' := Apply(c, s, a);
    forall id ensures id in s'.inFlight <==> id in s'.runners && InWaitGroup(s'.runners[id].phase) {
      if Acts(a, id) { ActorInFlight(c, s, a, id); }
    }
  }

  /** The wait for a website's jobs ends when all those ever listed are over. */
  lemma NotActive(c: Config, s: State, id: string)
    requires JobFits(s, id) && id in s.runners && !s.runners[id].phase.Submitted?
    requires !HasActive(s.table, c.project, c.website)
    ensures IsOf(c, s.runners[id]) ==> IsOver(s.runners[id].phase)
  {}

  lemma StepKeepsDeleted(c: Config, s: State, a: Action)
    requires JobsInv(c, s) && Enabled(c, s, a)
    ensures Deleted(c, Apply(c, s, a))
  {
    var s' := Apply(c, s, a);
    if s'.deletion.Unused? || s'.deletion.Evicted? {
      forall id | id in s'.deletion.seen
        ensures id in s'.runners && (IsOf(c, s'.runners[id]) ==> IsOver(s'.runners[id].phase))
      {
        if s.deletion.Awaiting? {
          NotActive(c, s, id);
        } else if Acts(a, id) {
          ActorInFlight(c, s, a, id);
        }
      }
    }
  }

  lemma StepKeepsClosed(c: Config, s: State, a: Action)
    requires JobsInv(c, s) && Enabled(c, s, a)
    ensures Closed(Apply(c, s, a))
  {
    var s' := Apply(c, s, a);
    if (s'.closing.Waited? || s'.closing.SitesClosed?) && s'.closing.seen.Some? {
      forall id | id in s'.closing.seen.value ensures id in s'.runners && s'.runners[id].phase.Gone? {
        if Acts(a, id) { ActorInFlight(c, s, a, id); }
      }
    }
  }

  lemma {:induction false} LeadsKeepsInv(c: Config, s: State, actions: seq<Action>, s': State)
    requires JobsInv(c, s) && Leads(c, s, actions, s')
    ensures JobsInv(c, s')
    decreases |actions|
  {
    if actions != [] {
      var a := actions[0];
      forall id ensures JobFits(Apply(c, s, a), id) { StepKeepsFits(c, s, a, id); }
      StepKeepsInFlight(c, s, a);
      StepKeepsDeleted(c, s, a);
      StepKeepsClosed(c, s, a);
      LeadsKeepsInv(c, Apply(c, s, a), actions[1..], s');
    }
  }

  lemma ReachedInv(c: Config, actions: seq<Action>, s: State)
    requires Leads(c, INIT, actions, s)
    ensures JobsInv(c, s)
  {
    LeadsKeepsInv(c, INIT, actions, s);
  }

  // -------------------------------------------------------------------------
  // The history of a job.
  // -------------------------------------------------------------------------

  /** A prefix of: pending, running, one terminal status. */
  predicate IsLifeCycle(history: seq<Status>) {
    && |history| <= 3
    && (|history| >= 1 ==> history[0] == Pending)
    && (|history| >= 2 ==> history[1] == Running)
    && (|history| >= 3 ==> IsTerminal(history[2]))
  }

  predicate ToldDone(actions: seq<Action>, id: string) {
    CommitPanics(id, true) in actions
  }

  lemma {:induction false} RelapsedAlong(c: Config, s: State, actions: seq<Action>, s': State, id: string)
    requires Leads(c, s, actions, s') && id in s'.runners
    ensures s'.runners[id].relapsed <==> (id in s.runners && s.runners[id].relapsed) || ToldDone(actions, id)
    decreases |actions|
  {
    if actions != [] {
      var a, s1 := actions[0], Apply(c, s, actions[0]);
      assert actions == [a] + actions[1..];
      RelapsedAlong(c, s1, actions[1..], s', id);
      RelapsedStep(c, s, a, id);
    }
  }

  lemma RelapsedStep(c: Config, s: State, a: Action, id: string)
    requires Enabled(c, s, a)
    ensures var s' := Apply(c, s, a);
            (id in s'.runners && s'.runners[id].relapsed) <==> ((id in s.runners && s.runners[id].relapsed) || a == CommitPanics(id, true))
  {}

  /** The life of a job: in every interleaving, if its commit closure does not panic after
      recording its result, the statuses recorded for it are a prefix of pending, running
      and one terminal status; a terminal status is recorded only after the body has
      returned; and what the table shows is the last of them. */
  lemma HistoryIsALifeCycle(c: Config, actions: seq<Action>, s: State, id: string)
    requires Leads(c, INIT, actions, s) && id in s.runners && !ToldDone(actions, id)
    ensures IsLifeCycle(s.runners[id].history)
    ensures |s.runners[id].history| == 3 <==> IsOver(s.runners[id].phase)
    ensures id in s.table.jobs ==> s.runners[id].history != [] && s.table.jobs[id].status == s.runners[id].history[|s.runners[id].history| - 1]
  {
    ReachedInv(c, actions, s);
    RelapsedAlong(c, INIT, actions, s, id);
    assert JobFits(s, id);
  }

  /** For a job that is through, that condition is exact: otherwise it went from done to failed. */
  lemma LifeCycleExactlyWhenNoRelapse(c: Config, actions: seq<Action>, s: State, id: string)
    requires Leads(c, INIT, actions, s) && id in s.runners && s.runners[id].phase.Gone?
    ensures IsLifeCycle(s.runners[id].history) <==> !ToldDone(actions, id)
    ensures ToldDone(actions, id) ==> s.runners[id].history == [Pending, Running, Complete, Failed]
  {
    ReachedInv(c, actions, s);
    RelapsedAlong(c, INIT, actions, s, id);
    assert JobFits(s, id);
  }

  /** A terminal status is absorbing: once a job has settled nothing is recorded for it again. */
  lemma {:induction false} TerminalIsAbsorbing(c: Config, s: State, actions: seq<Action>, s': State, id: string)
    requires Leads(c, s, actions, s') && id in s.runners
    requires s.runners[id].phase.Settled? || s.runners[id].phase.Ended? || s.runners[id].phase.Gone?
    ensures id in s'.runners && s'.runners[id].history == s.runners[id].history && IsOver(s'.runners[id].phase)
    decreases |actions|
  {
    if actions != [] {
      var a := actions[0];
      TerminalIsAbsorbing(c, Apply(c, s, a), actions[1..], s', id);
    }
  }

  predicate CommitPanicked(actions: seq<Action>, id: string) {
    CommitPanics(id, true) in actions || CommitPanics(id, false) in actions
  }

  /** The terminal status that goes with the ending of the body: `early` and `late` say whether
      the context was canceled when the body returned, and whether it is now. */
  predicate StatusFits(ending: Ending, status: Status, early: bool, late: bool, panicked: bool) {
    match ending
    case Panic => status == Failed
    case Error => (status == Failed && !early) || (status == Canceled && late)
    case Success =>
      if panicked then status == Failed && !early
      else (status == Complete && !early) || (status == Canceled && late)
  }

  /** The job is on its way to that status, or has it. */
  predicate EndingFits(r: Runner, ending: Ending, early: bool, late: bool, panicked: bool) {
    match r.phase
    case Returned(e) => e == ending && !panicked
    case Settling(status) => StatusFits(ending, status, early, late, panicked)
    case Committing => ending == Success && !early && !panicked
    case Relapsing => ending == Success && !early && panicked
    case Settled => r.history != [] && StatusFits(ending, r.history[|r.history| - 1], early, late, panicked)
    case Ended => r.history != [] && StatusFits(ending, r.history[|r.history| - 1], early, late, panicked)
    case Gone => r.history != [] && StatusFits(ending, r.history[|r.history| - 1], early, late, panicked)
    case _ => false
  }

  ghost predicate EndsWith(s: State, id: string, ending: Ending, early: bool, panicked: bool) {
    && id in s.runners && JobFits(s, id) && (early ==> id in s.table.canceled)
    && EndingFits(s.runners[id], ending, early, id in s.table.canceled, panicked)
  }

  lemma StepKeepsEnding(c: Config, s: State, a: Action, id: string, ending: Ending, early: bool, panicked: bool)
    requires EndsWith(s, id, ending, early, panicked) && Enabled(c, s, a)
    ensures EndsWith(Apply(c, s, a), id, ending, early, panicked || CommitPanicked([a], id))
  {
    StepKeepsFits(c, s, a, id);
    if Acts(a, id) && a.Advance? { AdvanceKeepsEnding(c, s, a, id, ending, early, panicked); }
  }

  /** Recording a status in the table and in the history. */
  lemma RecordKeepsEnding(s: State, id: string, status: Status, ending: Ending, early: bool, panicked: bool)
    requires id in s.runners && id in s.table.jobs && StatusFits(ending, status, early, id in s.table.canceled, panicked)
    ensures var s' := Record(s, id, status, Settled);
            EndingFits(s'.runners[id], ending, early, id in s'.table.canceled, panicked)
  {}

  lemma AdvanceKeepsEnding(c: Config, s: State, a: Action, id: string, ending: Ending, early: bool, panicked: bool)
    requires EndsWith(s, id, ending, early, panicked) && Enabled(c, s, a) && a.Advance? && a.id == id
    ensures EndingFits(Apply(c, s, a).runners[id], ending, early, id in Apply(c, s, a).table.canceled, panicked)
  {
    match s.runners[id].phase {
      case Settling(status) => RecordKeepsEnding(s, id, status, ending, early, panicked);
      case Committing => RecordKeepsEnding(s, id, Complete, ending, early, panicked);
      case Relapsing => RecordKeepsEnding(s, id, Failed, ending, early, panicked);
      case _ =>
    }
  }

  lemma {:induction false} LeadsKeepsEnding(
    c: Config, s: State, actions: seq<Action>, s': State, id: string, ending: Ending, early: bool, panicked: bool)
    requires EndsWith(s, id, ending, early, panicked) && Leads(c, s, actions, s')
    ensures EndsWith(s', id, ending, early, panicked || CommitPanicked(actions, id))
    decreases |actions|
  {
    if actions != [] {
      var a := actions[0];
      StepKeepsEnding(c, s, a, id, ending, early, panicked);
      LeadsKeepsEnding(c, Apply(c, s, a), actions[1..], s', id, ending, early, panicked || CommitPanicked([a], id));
      assert actions == [a] + actions[1..];
    }
  }

  /** The last status of a job tells how its body ended: a panic is a failure; an error is one,
      unless the context is canceled; success is completion, unless the context is canceled
      or the commit closure panics. A context canceled before the body returned always shows,
      except for a panic, and a job is never called canceled without one. */
  lemma StatusTellsEnding(c: Config, before: seq<Action>, s: State, id: string, ending: Ending, after: seq<Action>, s': State)
    requires Leads(c, INIT, before, s) && Enabled(c, s, WorkReturns(id, ending))
    requires Leads(c, Apply(c, s, WorkReturns(id, ending)), after, s')
    ensures id in s'.runners
    ensures s'.runners[id].phase.Settled? || s'.runners[id].phase.Ended? || s'.runners[id].phase.Gone? ==>
              var history := s'.runners[id].history;
              history != [] && StatusFits(ending, history[|history| - 1], id in s.table.canceled, id in s'.table.canceled,
                                          CommitPanicked(after, id))
  {
    ReachedInv(c, before, s);
    StepKeepsFits(c, s, WorkReturns(id, ending), id);
    LeadsKeepsEnding(c, Apply(c, s, WorkReturns(id, ending)), after, s', id, ending, id in s.table.canceled, false);
  }

  /** A run in which a commit closure panics after recording: the job is done, then failed. */
  lemma CommitPanicRewritesHistory(c: Config) returns (actions: seq<Action>, s: State)
    ensures Leads(c, INIT, actions, s) && "job" in s.runners
    ensures s.runners["job"].history == [Pending, Running, Complete, Failed]
  {
    actions, s := [], INIT;
    actions, s := Go(c, actions, s, Submit("job", c.project, c.website));
    actions, s := Go(c, actions, s, Advance("job", 0));
    actions, s := Go(c, actions, s, Advance("job", 0));
    actions, s := Go(c, actions, s, Advance("job", 0));
    actions, s := Go(c, actions, s, Advance("job", 0));
    assert s.runners["job"] == Runner(c.project, c.website, Working, false, [Pending, Running]) && s.table.canceled == {};
    actions, s := Go(c, actions, s, WorkReturns("job", Success));
    actions, s := Go(c, actions, s, Advance("job", 0));
    actions, s := Go(c, actions, s, CommitPanics("job", true));
    actions, s := Go(c, actions, s, Advance("job", 0));
  }

  lemma Go(c: Config, actions: seq<Action>, s: State, a: Action) returns (actions': seq<Action>, s': State)
    requires Leads(c, INIT, actions, s) && Enabled(c, s, a)
    ensures s' == Apply(c, s, a) && actions' == actions + [a] && Leads(c, INIT, actions', s')
  {
    OneMore(c, INIT, actions, s, a);
    actions', s' := actions + [a], Apply(c, s, a);
  }

  lemma {:induction false} OneMore(c: Config, s: State, actions: seq<Action>, s': State, a: Action)
    requires Leads(c, s, actions, s') && Enabled(c, s', a)
    ensures Leads(c, s, actions + [a], Apply(c, s', a))
    decreases |actions|
  {
    if actions == [] {
      assert Leads(c, Apply(c, s, a), [], Apply(c, s, a));
    } else {
      OneMore(c, Apply(c, s, actions[0]), actions[1..], s', a);
      assert (actions + [a])[1..] == actions[1..] + [a];
    }
  }

  // -------------------------------------------------------------------------
  // Who is canceled, and that every job can end.
  // -------------------------------------------------------------------------

  predicate IsRegistered(phase: Phase) {
    !phase.Submitted? && !phase.Listed? && !phase.Ended? && !phase.Gone?
  }

  /** Only jobs between registering their cancel function and their end are registered, and
      until the shutdown all of them; whatever is over for good and still listed is stamped. */
  ghost predicate Kept(s: State, id: string) {
    && (id in s.table.cancels ==> id in s.runners && IsRegistered(s.runners[id].phase))
    && (id in s.runners && IsRegistered(s.runners[id].phase) && (s.closing.Open? || s.closing.Refusing?) ==> id in s.table.cancels)
    && (id in s.runners && (s.runners[id].phase.Ended? || s.runners[id].phase.Gone?) && id in s.table.jobs ==>
          s.table.jobs[id].endedAt.Some?)
  }

  lemma StepKeepsKept(c: Config, s: State, a: Action, id: string)
    requires Kept(s, id) && JobFits(s, id) && Enabled(c, s, a)
    ensures Kept(Apply(c, s, a), id)
  {
    if a.Advance? && a.id == id { AdvanceKeepsKept(c, s, id, a.now); }
  }

  lemma AdvanceKeepsKept(c: Config, s: State, id: string, now: int)
    requires Kept(s, id) && JobFits(s, id) && Enabled(c, s, Advance(id, now))
    ensures Kept(Step(c, s, id, now), id)
  {}

  lemma {:induction false} LeadsKeepsKept(c: Config, s: State, actions: seq<Action>, s': State, id: string)
    requires Kept(s, id) && JobFits(s, id) && Leads(c, s, actions, s')
    ensures Kept(s', id)
    decreases |actions|
  {
    if actions != [] {
      StepKeepsKept(c, s, actions[0], id);
      StepKeepsFits(c, s, actions[0], id);
      LeadsKeepsKept(c, Apply(c, s, actions[0]), actions[1..], s', id);
    }
  }

  /** Until the shutdown a cancel function is registered exactly for the jobs that got theirs
      and have not ended; a job that has ended is stamped as long as it is listed. */
  lemma RegisteredExactly(c: Config, actions: seq<Action>, s: State, id: string)
    requires Leads(c, INIT, actions, s)
    ensures s.closing.Open? || s.closing.Refusing? ==>
              (id in s.table.cancels <==> id in s.runners && IsRegistered(s.runners[id].phase))
    ensures id in s.table.jobs ==> id in s.runners
    ensures id in s.table.jobs && (s.runners[id].phase.Ended? || s.runners[id].phase.Gone?) ==> s.table.jobs[id].endedAt.Some?
  {
    ReachedInv(c, actions, s);
    assert JobFits(s, id);
    LeadsKeepsKept(c, INIT, actions, s, id);
  }

  /** What cancels a job: its own cancellation while it is registered, the end of its context,
      the deletion of its website while it is registered, and the shutdown likewise. */
  ghost predicate Cancels(c: Config, s: State, a: Action, id: string) {
    match a
    case CancelJob(i) => i == id && id in s.table.cancels
    case ContextEnds(i) => i == id
    case Delete =>
      && s.deletion.NotAsked? && id in s.table.cancels && id in s.table.jobs
      && s.table.jobs[id].project == c.project && s.table.jobs[id].website == c.website
    case Close(_) => s.closing.Refusing? && id in s.table.cancels
    case _ => false
  }

  ghost predicate CanceledAlong(c: Config, s: State, actions: seq<Action>, id: string)
    decreases |actions|
  {
    actions != [] && Enabled(c, s, actions[0]) &&
    (Cancels(c, s, actions[0], id) || CanceledAlong(c, Apply(c, s, actions[0]), actions[1..], id))
  }

  lemma CancelStep(c: Config, s: State, a: Action, id: string)
    requires Enabled(c, s, a)
    ensures id in Apply(c, s, a).table.canceled <==> id in s.table.canceled || Cancels(c, s, a, id)
  {}

  /** A job is canceled exactly when something in the run canceled it. */
  lemma {:induction false} CanceledExactly(c: Config, s: State, actions: seq<Action>, s': State, id: string)
    requires Leads(c, s, actions, s')
    ensures id in s'.table.canceled <==> id in s.table.canceled || CanceledAlong(c, s, actions, id)
    decreases |actions|
  {
    if actions != [] {
      CancelStep(c, s, actions[0], id);
      CanceledExactly(c, Apply(c, s, actions[0]), actions[1..], s', id);
    }
  }

  function StepsLeft(phase: Phase): nat {
    match phase
    case Submitted => 10
    case Listed => 9
    case Cancelable => 8
    case Spawned => 7
    case Working => 6
    case Returned(_) => 5
    case Committing => 4
    case Settling(_) => 3
    case Relapsing => 3
    case Settled => 2
    case Ended => 1
    case Gone => 0
  }

  /** Every job can go on until it is gone, whatever the others do, and in at most ten steps:
      each of its steps brings it nearer. */
  lemma EveryJobGoesOn(c: Config, s: State, id: string)
    requires id in s.runners && !s.runners[id].phase.Gone?
    ensures exists a :: Acts(a, id) && Enabled(c, s, a)
    ensures forall a :: Acts(a, id) && Enabled(c, s, a) ==>
              StepsLeft(Apply(c, s, a).runners[id].phase) < StepsLeft(s.runners[id].phase)
    ensures forall a :: !Acts(a, id) && Enabled(c, s, a) ==> id in Apply(c, s, a).runners && Apply(c, s, a).runners[id] == s.runners[id]
  {
    assert Acts(Advance(id, 0), id) && Acts(WorkReturns(id, Error), id);
    assert Enabled(c, s, if s.runners[id].phase.Working? then WorkReturns(id, Error) else Advance(id, 0));
    forall a | Acts(a, id) && Enabled(c, s, a) ensures StepsLeft(Apply(c, s, a).runners[id].phase) < StepsLeft(s.runners[id].phase) {
      if a.Advance? { AdvanceGoesOn(c, s, id, a.now); }
    }
  }

  lemma AdvanceGoesOn(c: Config, s: State, id: string, now: int)
    requires Enabled(c, s, Advance(id, now))
    ensures StepsLeft(Step(c, s, id, now).runners[id].phase) < StepsLeft(s.runners[id].phase)
  {}

  /** A job that is canceled while it works, by its cancel function or by its context, and then
      returns an error, ends as canceled. */
  lemma CanceledWhileWorking(c: Config, actions: seq<Action>, s: State, id: string, cancel: Action)
    returns (actions': seq<Action>, s': State)
    requires Leads(c, INIT, actions, s) && id in s.runners && s.runners[id].phase.Working?
    requires (cancel == CancelJob(id) && id in s.table.cancels) || cancel == ContextEnds(id)
    ensures Leads(c, INIT, actions', s') && id in s'.runners && s'.runners[id].history == [Pending, Running, Canceled]
  {
    ReachedInv(c, actions, s);
    assert JobFits(s, id);
    actions', s' := Go(c, actions, s, cancel);
    actions', s' := Go(c, actions', s', WorkReturns(id, Error));
    actions', s' := Go(c, actions', s', Advance(id, 0));
    actions', s' := Go(c, actions', s', Advance(id, 0));
  }

  // -------------------------------------------------------------------------
  // Deleting a website, closing the orchestrator.
  // -------------------------------------------------------------------------

  /** How far deleting and closing have got. */
  function Deleting(d: Deletion): nat {
    match d case NotAsked => 0 case Awaiting => 1 case Unused(_) => 2 case Evicted(_) => 3 case GaveUp => 3
  }

  function ClosingStage(d: Closing): nat {
    match d case Open => 0 case Refusing => 1 case Stopping => 2 case Waited(_) => 3 case SitesClosed(_) => 4
  }

  /** The order of things: deleting waits before it evicts, and gives up only while it waits;
      closing refuses new jobs, cancels, waits for those that are counted or times out, and
      then closes the sites. One stage at a time, none is skipped, and none is passed without
      its condition. */
  lemma StagesInOrder(c: Config, s: State, a: Action)
    requires Enabled(c, s, a)
    ensures var d, d' := s.deletion, Apply(c, s, a).deletion;
            d' != d ==>
              && (a.Delete? || a.GiveUp?) && (d'.GaveUp? <==> a.GiveUp?)
              && Deleting(d') == Deleting(d) + (if a.GiveUp? then 2 else 1)
              && (d'.Unused? ==> !HasActive(s.table, c.project, c.website)) && (d'.Evicted? ==> d'.seen == d.seen)
    ensures var d, d' := s.closing, Apply(c, s, a).closing;
            d' != d ==>
              && (a.Close? || a.TimeOut?) && ClosingStage(d') == ClosingStage(d) + 1
              && (d'.Waited? ==> (d'.seen.None? <==> a.TimeOut?) && (d'.seen.Some? ==> s.inFlight == {}))
              && (d'.SitesClosed? ==> d'.seen == d.seen)
  {}

  /** Neither gets stuck: there is always a next stage to go to, if only by giving up. */
  lemma NextStage(c: Config, s: State) returns (delete: Action, close: Action)
    ensures !s.deletion.Evicted? && !s.deletion.GaveUp? ==>
              Enabled(c, s, delete) && Deleting(Apply(c, s, delete).deletion) > Deleting(s.deletion)
    ensures !s.closing.SitesClosed? ==>
              Enabled(c, s, close) && ClosingStage(Apply(c, s, close).closing) == ClosingStage(s.closing) + 1
  {
    delete := if s.deletion.Awaiting? then GiveUp else Delete;
    close := if s.closing.Stopping? then TimeOut else Close(0);
  }

  /** What the wait looks at is right: some job of the website is active exactly when one
      that was listed has not recorded a terminal status. */
  lemma ActiveIsExact(c: Config, actions: seq<Action>, s: State)
    requires Leads(c, INIT, actions, s)
    ensures HasActive(s.table, c.project, c.website) <==>
              exists id :: id in s.runners && IsOf(c, s.runners[id]) && !s.runners[id].phase.Submitted? && !IsOver(s.runners[id].phase)
  {
    ReachedInv(c, actions, s);
    if HasActive(s.table, c.project, c.website) {
      var id :| id in s.table.jobs && Targets(s.table.jobs[id], c.project, c.website) && !IsTerminal(s.table.jobs[id].status);
      assert JobFits(s, id);
    }
    forall id | id in s.runners && IsOf(c, s.runners[id]) && !s.runners[id].phase.Submitted? && !IsOver(s.runners[id].phase)
      ensures HasActive(s.table, c.project, c.website)
    {
      assert JobFits(s, id);
    }
  }

  /** Safe eviction: from the moment the wait is over until long after the website's
      components are closed, the body of no job that had been recorded under the same
      identifiers is executing. So whatever job of the site is executing was recorded later,
      and without later starts none is. */
  lemma DeletionIsSafe(c: Config, actions: seq<Action>, s: State)
    requires Leads(c, INIT, actions, s) && (s.deletion.Unused? || s.deletion.Evicted?)
    ensures forall id :: id in s.deletion.seen ==> id in s.runners && (IsOf(c, s.runners[id]) ==> IsOver(s.runners[id].phase))
    ensures (forall id :: id in s.runners && IsOf(c, s.runners[id]) ==> id in s.deletion.seen || s.runners[id].phase.Submitted?) ==>
              forall id :: id in s.runners && IsOf(c, s.runners[id]) ==> !s.runners[id].phase.Working?
  {
    ReachedInv(c, actions, s);
  }

  /** What `seen` holds when the wait ends: every job recorded so far, still listed or not. */
  lemma SeenWhenWaitEnds(c: Config, actions: seq<Action>, s: State)
    requires Leads(c, INIT, actions, s) && s.deletion.Awaiting? && Enabled(c, s, Delete)
    ensures var seen := Apply(c, s, Delete).deletion.seen;
            && s.table.jobs.Keys <= seen
            && forall id :: id in seen <==> id in s.runners && s.runners[id].history != []
  {
    ReachedInv(c, actions, s);
    forall id | id in s.runners || id in s.table.jobs
      ensures id in s.table.jobs ==> id in s.runners && !s.runners[id].phase.Submitted?
      ensures id in s.runners ==> (s.runners[id].history != [] <==> !s.runners[id].phase.Submitted?)
    {
      assert JobFits(s, id);
    }
  }

  /** Safe closing: unless the wait timed out, every job whose goroutine had been started
      has returned before the sites are closed, and no job is accepted any more. */
  lemma ClosingIsSafe(c: Config, actions: seq<Action>, s: State)
    requires Leads(c, INIT, actions, s) && s.closing.SitesClosed? && s.closing.seen.Some?
    ensures forall id :: id in s.closing.seen.value ==> id in s.runners && s.runners[id].phase.Gone?
    ensures forall id, project, website :: !Enabled(c, s, Submit(id, project, website))
  {
    ReachedInv(c, actions, s);
  }
}
