/** The refresh queue end to end: no posted operation is forgotten, and a
    portfolio whose requests are all completed has a fresh read model. Both
    hold for workers whose expired locks belong to dead runs and that rebuild a
    portfolio one at a time; `mark_completed` and `mark_failed_or_retry` select
    their row by id alone, so neither holds for every schedule. */
module RefreshQueue {
  import opened Ledger
  import opened LedgerTables
  import opened Protocol
  import opened WriteInvariant
  import opened WriteSteps
  import opened ExactlyOnce

  // ----- Coverage -----

  /** Request `r` will refresh, or has been claimed to refresh, operation `o`. */
  predicate Covers(requests: map<RequestId, Request>, r: RequestId, o: OperationId, p: PortfolioId) {
    r in requests && requests[r].portfolio == p
    && (requests[r].status == RefreshStatus.Pending || o in requests[r].claimedOver)
  }

  ghost predicate Covered(requests: map<RequestId, Request>, o: OperationId, p: PortfolioId) {
    exists r :: Covers(requests, r, o, p)
  }

  /** Every posted operation is covered by a request of its portfolio that is
      pending, or whose latest claim came after the operation was posted. */
  ghost predicate NoLostRefresh(t: Tables) {
    forall o {:trigger Covered(t.requests, o, t.operations[o].portfolio)}
      | o in t.operations && t.operations[o].status == Posted :: Covered(t.requests, o, t.operations[o].portfolio)
  }

  // ----- Disciplines -----

  /** The row is claimed, or swept, while a live run still holds it. */
  predicate HeldByLiveRun(s: Sys, r: RequestId) {
    r in s.tables.requests && s.tables.requests[r].status == Processing
    && exists w | w in s.runs :: s.runs[w].request == r
  }

  /** A lock only expires when its worker is gone. */
  predicate ExpiredMeansDead(s: Sys, step: Step) {
    (step.WorkerClaim? || step.SweepExhausted?) ==> !HeldByLiveRun(s, step.r)
  }

  predicate Rebuilding(runs: map<RunId, Run>, w: RunId, p: PortfolioId) {
    w in runs && runs[w].portfolio == p && runs[w].phase.HasLedger?
  }

  /** No two runs are between reading the ledger of a portfolio and installing
      its read model. */
  predicate OneRebuildAtATime(s: Sys, step: Step) {
    step.WorkerReadLedger? && step.run in s.runs ==>
      forall w | w in s.runs && w != step.run :: !Rebuilding(s.runs, w, s.runs[step.run].portfolio)
  }

  /** Along a run, locks only expire when their worker is gone. */
  ghost predicate DeadLocksOnly(s: Sys, steps: seq<Step>)
    decreases |steps|
  {
    steps == [] || (ExpiredMeansDead(s, steps[0]) && DeadLocksOnly(Exec(s, steps[0]), steps[1..]))
  }

  /** Along a run, a portfolio is rebuilt by one run at a time. */
  ghost predicate SequentialRebuilds(s: Sys, steps: seq<Step>)
    decreases |steps|
  {
    steps == [] || (OneRebuildAtATime(s, steps[0]) && SequentialRebuilds(Exec(s, steps[0]), steps[1..]))
  }

  // ----- Ownership of claims -----

  /** A live run still owns the claim it was started by. */
  ghost predicate Owned(requests: map<RequestId, Request>, run: Run) {
    && run.request in requests && requests[run.request].portfolio == run.portfolio
    && requests[run.request].status == Processing && requests[run.request].attempts == run.attempts
  }

  ghost predicate AllOwned(requests: map<RequestId, Request>, runs: map<RunId, Run>) {
    && (forall w {:trigger Owned(requests, runs[w])} | w in runs :: Owned(requests, runs[w]))
    && (forall v, w | v in runs && w in runs && runs[v].request == runs[w].request :: v == w)
  }

  ghost predicate PendingHaveBudget(requests: map<RequestId, Request>, maxAttempts: nat) {
    forall r | r in requests && requests[r].status == RefreshStatus.Pending :: requests[r].attempts < maxAttempts
  }

  ghost predicate QueueInv(s: Sys) {
    && AllOwned(s.tables.requests, s.runs)
    && PendingHaveBudget(s.tables.requests, s.config.maxAttempts)
    && NoLostRefresh(s.tables)
  }

  // ----- Coverage is kept -----

  /** Requests are only added, and none loses coverage. */
  ghost predicate CoverageGrows(requests: map<RequestId, Request>, requests': map<RequestId, Request>) {
    forall r, o | r in requests && Covers(requests, r, o, requests[r].portfolio) ::
        Covers(requests', r, o, requests[r].portfolio)
  }

  lemma CoverageKept(t: Tables, u: Tables, o: OperationId)
    requires CoverageGrows(t.requests, u.requests) && o in t.operations && o in u.operations
    requires u.operations[o].portfolio == t.operations[o].portfolio
    requires Covered(t.requests, o, t.operations[o].portfolio)
    ensures Covered(u.requests, o, u.operations[o].portfolio)
  {
    var r :| Covers(t.requests, r, o, t.operations[o].portfolio);
    assert Covers(u.requests, r, o, u.operations[o].portfolio);
  }

  /** A step that posts at most the operations `posted` and leaves its portfolio with a
      pending request. */
  lemma NoLostKept(t: Tables, u: Tables, posted: set<OperationId>, slot: RequestId)
    requires NoLostRefresh(t) && CoverageGrows(t.requests, u.requests)
    requires forall o | o in u.operations && u.operations[o].status == Posted && o !in posted ::
               o in t.operations && t.operations[o].status == Posted
               && t.operations[o].portfolio == u.operations[o].portfolio
    requires forall o | o in posted :: o in u.operations && PendingFor(u.requests, slot, u.operations[o].portfolio)
    ensures NoLostRefresh(u)
  {
    forall o | o in u.operations && u.operations[o].status == Posted
      ensures Covered(u.requests, o, u.operations[o].portfolio)
    {
      if o in posted {
        assert Covers(u.requests, slot, o, u.operations[o].portfolio);
      } else {
        assert Covered(t.requests, o, t.operations[o].portfolio);
        CoverageKept(t, u, o);
      }
    }
  }

  lemma EnqueueKeepsCoverage(requests: map<RequestId, Request>, p: PortfolioId, o: OperationId, slot: RequestId,
                             maxAttempts: nat)
    requires SlotFor(requests, p, slot) && PendingHaveBudget(requests, maxAttempts) && maxAttempts >= 1
    ensures CoverageGrows(requests, Enqueue(requests, p, o, slot))
    ensures PendingFor(Enqueue(requests, p, o, slot), slot, p)
    ensures PendingHaveBudget(Enqueue(requests, p, o, slot), maxAttempts)
  {
  }

  lemma EnqueueKeepsOwned(requests: map<RequestId, Request>, runs: map<RunId, Run>, p: PortfolioId, o: OperationId,
                          slot: RequestId)
    requires AllOwned(requests, runs) && SlotFor(requests, p, slot)
    ensures AllOwned(Enqueue(requests, p, o, slot), runs)
  {
    var requests' := Enqueue(requests, p, o, slot);
    forall w | w in runs ensures Owned(requests', runs[w]) {
      assert Owned(requests, runs[w]);
    }
  }

  lemma CommitKeepsQueueInv(s: Sys, c: ClientId, op: OperationId, slot: RequestId, heard: bool)
    requires Inv(s) && QueueInv(s) && s.config.maxAttempts >= 1
    ensures QueueInv(ExecCommit(s, c, op, slot, heard))
  {
    var s' := ExecCommit(s, c, op, slot, heard);
    if s'.tables != s.tables {
      var candidate := s.clients[c].phase.candidate;
      if candidate.status == Posted {
        EnqueueKeepsCoverage(s.tables.requests, candidate.portfolio, op, slot, s.config.maxAttempts);
        EnqueueKeepsOwned(s.tables.requests, s.runs, candidate.portfolio, op, slot);
        NoLostKept(s.tables, s'.tables, {op}, slot);
      } else {
        NoLostKept(s.tables, s'.tables, {}, slot);
      }
    }
  }

  lemma CommitPostKeepsQueueInv(s: Sys, c: ClientId, slot: RequestId, heard: bool)
    requires Inv(s) && QueueInv(s) && s.config.maxAttempts >= 1
    ensures QueueInv(ExecCommitPost(s, c, slot, heard))
  {
    var s' := ExecCommitPost(s, c, slot, heard);
    if s'.tables != s.tables {
      var o := s.clients[c].call.operation;
      var p := s.tables.operations[o].portfolio;
      EnqueueKeepsCoverage(s.tables.requests, p, o, slot, s.config.maxAttempts);
      EnqueueKeepsOwned(s.tables.requests, s.runs, p, o, slot);
      NoLostKept(s.tables, s'.tables, {o}, slot);
    }
  }

  /** The other API steps neither post nor touch the queue. */
  lemma OtherApiStepsKeepQueueInv(s: Sys, step: Step)
    requires Inv(s) && QueueInv(s) && !IsWorkerStep(step) && !step.Commit? && !step.CommitPost?
    ensures QueueInv(Exec(s, step)) && Exec(s, step).tables.requests == s.tables.requests
            && Exec(s, step).runs == s.runs
  {
    var s' := Exec(s, step);
    QuietApiStep(s, step);
    NoLostKept(s.tables, s'.tables, {}, 0);
  }

  lemma QuietApiStep(s: Sys, step: Step)
    requires !IsWorkerStep(step) && !step.Commit? && !step.CommitPost?
    ensures var s' := Exec(s, step);
      && s'.tables.requests == s.tables.requests && s'.runs == s.runs && s'.config == s.config
      && (forall o | o in s'.tables.operations && s'.tables.operations[o].status == Posted ::
            o in s.tables.operations && s.tables.operations[o].status == Posted
            && s.tables.operations[o].portfolio == s'.tables.operations[o].portfolio)
  {
    QuietApiStepQueue(s, step);
  }

  lemma QuietApiStepQueue(s: Sys, step: Step)
    requires !IsWorkerStep(step) && !step.Commit? && !step.CommitPost?
    ensures Exec(s, step).tables.requests == s.tables.requests && Exec(s, step).runs == s.runs
            && Exec(s, step).config == s.config
  {
  }

  // ----- Worker steps -----

  lemma ClaimKeepsQueueInv(s: Sys, run: RunId, r: RequestId)
    requires Inv(s) && QueueInv(s) && ExpiredMeansDead(s, WorkerClaim(run, r))
    ensures QueueInv(ExecWorkerClaim(s, run, r))
  {
    var s' := ExecWorkerClaim(s, run, r);
    if s' != s {
      var t, u := s.tables, s'.tables;
      assert NotHeld(s, r) by { ClaimedRowIsFree(s, run, r); }
      forall w | w in s'.runs ensures Owned(u.requests, s'.runs[w]) {
        if w != run { assert Owned(t.requests, s.runs[w]); }
      }
      ClaimKeepsCoverage(s, run, r);
    }
  }

  ghost predicate NotHeld(s: Sys, r: RequestId) {
    forall w | w in s.runs :: s.runs[w].request != r
  }

  lemma ClaimedRowIsFree(s: Sys, run: RunId, r: RequestId)
    requires AllOwned(s.tables.requests, s.runs) && Claimable(s.tables, r, s.config.maxAttempts)
    requires ExpiredMeansDead(s, WorkerClaim(run, r))
    ensures NotHeld(s, r)
  {
    forall w | w in s.runs ensures s.runs[w].request != r {
      assert Owned(s.tables.requests, s.runs[w]);
    }
  }

  lemma ClaimKeepsCoverage(s: Sys, run: RunId, r: RequestId)
    requires NoLostRefresh(s.tables) && run !in s.runs && Claimable(s.tables, r, s.config.maxAttempts)
    ensures NoLostRefresh(ExecWorkerClaim(s, run, r).tables)
  {
    ClaimedStillCovered(s.tables, r);
  }

  lemma ClaimedStillCovered(t: Tables, r: RequestId)
    requires NoLostRefresh(t) && r in t.requests
    ensures NoLostRefresh(ClaimRow(t, r))
  {
    var u := ClaimRow(t, r);
    forall o | o in u.operations && u.operations[o].status == Posted
      ensures Covered(u.requests, o, u.operations[o].portfolio)
    {
      assert Covered(t.requests, o, t.operations[o].portfolio);
      var q :| Covers(t.requests, q, o, t.operations[o].portfolio);
      assert Covers(u.requests, q, o, t.operations[o].portfolio);
    }
  }

  /** Ending a processing request keeps what it was claimed over. */
  lemma EndKeepsCoverage(t: Tables, r: RequestId, status: RefreshStatus)
    requires NoLostRefresh(t) && r in t.requests
    requires t.requests[r].status == Processing || status == RefreshStatus.Pending
    ensures NoLostRefresh(SetStatus(t, r, status))
  {
    NoLostKept(t, SetStatus(t, r, status), {}, r);
  }

  lemma FinishKeepsOwned(requests: map<RequestId, Request>, requests': map<RequestId, Request>, runs: map<RunId, Run>,
                         run: RunId)
    requires AllOwned(requests, runs) && run in runs
    requires forall q | q in requests && q != runs[run].request :: q in requests' && requests'[q] == requests[q]
    ensures AllOwned(requests', runs - {run})
  {
    forall w | w in runs - {run} ensures Owned(requests', (runs - {run})[w]) {
      assert Owned(requests, runs[w]);
    }
  }

  lemma CompleteKeepsQueueInv(s: Sys, run: RunId)
    requires QueueInv(s)
    ensures QueueInv(ExecWorkerComplete(s, run))
  {
    var s' := ExecWorkerComplete(s, run);
    if s' != s {
      assert Owned(s.tables.requests, s.runs[run]);
      EndKeepsCoverage(s.tables, s.runs[run].request, Completed);
      FinishKeepsOwned(s.tables.requests, s'.tables.requests, s.runs, run);
    }
  }

  lemma ErrorKeepsQueueInv(s: Sys, run: RunId)
    requires QueueInv(s)
    ensures QueueInv(ExecWorkerError(s, run))
  {
    var s' := ExecWorkerError(s, run);
    if s' != s {
      var r := s.runs[run].request;
      assert Owned(s.tables.requests, s.runs[run]);
      if s'.tables != s.tables {
        EndKeepsCoverage(s.tables, r, s'.tables.requests[r].status);
      }
      FinishKeepsOwned(s.tables.requests, s'.tables.requests, s.runs, run);
    }
  }

  lemma SweepKeepsQueueInv(s: Sys, r: RequestId)
    requires QueueInv(s) && ExpiredMeansDead(s, SweepExhausted(r))
    ensures QueueInv(ExecSweep(s, r))
  {
    var s' := ExecSweep(s, r);
    if s' != s {
      EndKeepsCoverage(s.tables, r, Failed);
      forall w | w in s.runs ensures Owned(s'.tables.requests, s.runs[w]) {
        assert Owned(s.tables.requests, s.runs[w]);
      }
    }
  }

  lemma RebuildStepsKeepQueueInv(s: Sys, step: Step)
    requires QueueInv(s) && (step.WorkerReadLedger? || step.WorkerInstall? || step.WorkerCrash?)
    ensures QueueInv(Exec(s, step))
  {
    var s' := Exec(s, step);
    forall w | w in s'.runs ensures Owned(s'.tables.requests, s'.runs[w]) {
      assert Owned(s.tables.requests, s.runs[w]);
    }
    NoLostKept(s.tables, s'.tables, {}, 0);
  }

  lemma WorkerStepKeepsQueueInv(s: Sys, step: Step)
    requires Inv(s) && QueueInv(s) && IsWorkerStep(step) && ExpiredMeansDead(s, step)
    ensures QueueInv(Exec(s, step))
  {
    match step
    case WorkerClaim(run, r) => ClaimKeepsQueueInv(s, run, r);
    case WorkerComplete(run) => CompleteKeepsQueueInv(s, run);
    case WorkerError(run) => ErrorKeepsQueueInv(s, run);
    case SweepExhausted(r) => SweepKeepsQueueInv(s, r);
    case _ => RebuildStepsKeepQueueInv(s, step);
  }

  lemma StepKeepsQueueInv(s: Sys, step: Step)
    requires Inv(s) && QueueInv(s) && s.config.maxAttempts >= 1 && ExpiredMeansDead(s, step)
    ensures QueueInv(Exec(s, step))
  {
    if IsWorkerStep(step) {
      WorkerStepKeepsQueueInv(s, step);
    } else if step.Commit? {
      CommitKeepsQueueInv(s, step.c, step.op, step.slot, step.heard);
    } else if step.CommitPost? {
      CommitPostKeepsQueueInv(s, step.c, step.slot, step.heard);
    } else {
      OtherApiStepsKeepQueueInv(s, step);
    }
  }

  lemma {:induction false} NoLostRefreshInRun(s: Sys, steps: seq<Step>)
    requires Inv(s) && QueueInv(s) && s.config.maxAttempts >= 1 && DeadLocksOnly(s, steps)
    ensures QueueInv(RunAll(s, steps))
    decreases |steps|
  {
    if steps != [] {
      StepKeepsInv(s, steps[0]);
      ConfigStays(s, steps[0]);
      StepKeepsQueueInv(s, steps[0]);
      NoLostRefreshInRun(Exec(s, steps[0]), steps[1..]);
    }
  }

  /** No refresh is lost in any run whose locks expire on dead workers only. */
  lemma NoRefreshIsLost(config: Config, steps: seq<Step>)
    requires config.maxAttempts >= 1 && DeadLocksOnly(Init(config), steps)
    ensures NoLostRefresh(RunAll(Init(config), steps).tables)
  {
    InitInv(config);
    NoLostRefreshInRun(Init(config), steps);
  }

  // ----- Exactly when ending a request loses a refresh -----

  /** Every posted operation of the portfolio was there at the latest claim of
      one of its requests: none is waiting for a pending one. */
  ghost predicate NoneWaiting(t: Tables, p: PortfolioId) {
    forall o | o in PostedIn(t.operations, p) ::
      exists q :: q in t.requests && t.requests[q].portfolio == p && o in t.requests[q].claimedOver
  }

  /** Completing or failing a row, whoever does it, loses a refresh exactly when
      the row is pending again and an operation is waiting for it. A late
      worker does this to a row that another worker has put back. */
  lemma EndingLosesIffWaiting(t: Tables, r: RequestId, status: RefreshStatus)
    requires OnePending(t.requests) && NoLostRefresh(t) && r in t.requests && (status == Completed || status == Failed)
    ensures NoLostRefresh(SetStatus(t, r, status)) <==>
              t.requests[r].status != RefreshStatus.Pending || NoneWaiting(t, t.requests[r].portfolio)
  {
    var u := SetStatus(t, r, status);
    var p := t.requests[r].portfolio;
    if t.requests[r].status != RefreshStatus.Pending {
      NoLostKept(t, u, {}, r);
    } else {
      if NoneWaiting(t, p) {
        forall o | o in u.operations && u.operations[o].status == Posted
          ensures Covered(u.requests, o, u.operations[o].portfolio)
        {
          EndedStillCovered(t, r, status, o);
        }
      }
      if NoLostRefresh(u) {
        forall o | o in PostedIn(t.operations, p)
          ensures exists q :: q in t.requests && t.requests[q].portfolio == p && o in t.requests[q].claimedOver
        {
          assert Covered(u.requests, o, u.operations[o].portfolio);
          var q :| Covers(u.requests, q, o, p);
          assert q != r ==> PendingFor(t.requests, r, t.requests[q].portfolio);
          assert q in t.requests && t.requests[q].portfolio == p && o in t.requests[q].claimedOver;
        }
      }
    }
  }

  lemma EndedStillCovered(t: Tables, r: RequestId, status: RefreshStatus, o: OperationId)
    requires NoLostRefresh(t) && r in t.requests && NoneWaiting(t, t.requests[r].portfolio)
    requires o in t.operations && t.operations[o].status == Posted
    ensures Covered(SetStatus(t, r, status).requests, o, t.operations[o].portfolio)
  {
    var u := SetStatus(t, r, status);
    var p := t.operations[o].portfolio;
    if p == t.requests[r].portfolio {
      assert o in PostedIn(t.operations, p);
      var q :| q in t.requests && t.requests[q].portfolio == p && o in t.requests[q].claimedOver;
      assert Covers(u.requests, q, o, p);
    } else {
      assert Covered(t.requests, o, p);
      var q :| Covers(t.requests, q, o, p);
      assert Covers(u.requests, q, o, p);
    }
  }

  /** The request whose row the step completes or fails, if any. */
  function EndedBy(s: Sys, step: Step): Option<RequestId> {
    match step
    case WorkerComplete(run) =>
      if run in s.runs && s.runs[run].phase == Installed && s.runs[run].request in s.tables.requests
      then Some(s.runs[run].request) else None
    case WorkerError(run) =>
      if run in s.runs && s.runs[run].request in s.tables.requests && s.runs[run].attempts >= s.config.maxAttempts
      then Some(s.runs[run].request) else None
    case SweepExhausted(r) => if Exhausted(s.tables, r, s.config.maxAttempts) then Some(r) else None
    case _ => None
  }

  ghost predicate LosesRefresh(s: Sys, step: Step) {
    var ended := EndedBy(s, step);
    && ended.Some? && ended.value in s.tables.requests
    && s.tables.requests[ended.value].status == RefreshStatus.Pending
    && !NoneWaiting(s.tables, s.tables.requests[ended.value].portfolio)
  }

  lemma EnqueueGrowsCoverage(requests: map<RequestId, Request>, p: PortfolioId, o: OperationId, slot: RequestId)
    requires SlotFor(requests, p, slot)
    ensures CoverageGrows(requests, Enqueue(requests, p, o, slot))
    ensures PendingFor(Enqueue(requests, p, o, slot), slot, p)
  {
  }

  lemma CommitsKeepCoverage(s: Sys, step: Step)
    requires NoLostRefresh(s.tables) && Inv(s) && (step.Commit? || step.CommitPost?)
    ensures NoLostRefresh(Exec(s, step).tables)
  {
    var s' := Exec(s, step);
    if s'.tables != s.tables {
      if step.CommitPost? {
        var o := s.clients[step.c].call.operation;
        EnqueueGrowsCoverage(s.tables.requests, s.tables.operations[o].portfolio, o, step.slot);
        NoLostKept(s.tables, s'.tables, {o}, step.slot);
      } else {
        var candidate := s.clients[step.c].phase.candidate;
        if candidate.status == Posted {
          EnqueueGrowsCoverage(s.tables.requests, candidate.portfolio, step.op, step.slot);
        }
        NoLostKept(s.tables, s'.tables, if candidate.status == Posted then {step.op} else {}, step.slot);
      }
    }
  }

  lemma UnendedStepKeepsCoverage(s: Sys, step: Step)
    requires NoLostRefresh(s.tables) && IsWorkerStep(step) && EndedBy(s, step).None?
    ensures NoLostRefresh(Exec(s, step).tables)
  {
    if step.WorkerClaim? {
      if Exec(s, step) != s { ClaimKeepsCoverage(s, step.run, step.r); }
    } else if step.WorkerError? && Exec(s, step).tables != s.tables {
      EndKeepsCoverage(s.tables, s.runs[step.run].request, RefreshStatus.Pending);
    } else {
      NoLostKept(s.tables, Exec(s, step).tables, {}, 0);
    }
  }

  /** One step of any process, with no assumption on locks. */
  lemma StepLosesIff(s: Sys, step: Step)
    requires Inv(s) && NoLostRefresh(s.tables)
    ensures NoLostRefresh(Exec(s, step).tables) <==> !LosesRefresh(s, step)
  {
    if step.Commit? || step.CommitPost? {
      CommitsKeepCoverage(s, step);
    } else if !IsWorkerStep(step) {
      QuietApiStep(s, step);
      NoLostKept(s.tables, Exec(s, step).tables, {}, 0);
    } else if EndedBy(s, step).None? {
      UnendedStepKeepsCoverage(s, step);
    } else {
      var status := if step.WorkerComplete? then Completed else Failed;
      EndingLosesIffWaiting(s.tables, EndedBy(s, step).value, status);
    }
  }

  ghost predicate CoveredThroughout(s: Sys, steps: seq<Step>)
    decreases |steps|
  {
    NoLostRefresh(s.tables) && (steps == [] || CoveredThroughout(Exec(s, steps[0]), steps[1..]))
  }

  ghost predicate NeverLoses(s: Sys, steps: seq<Step>)
    decreases |steps|
  {
    steps == [] || (!LosesRefresh(s, steps[0]) && NeverLoses(Exec(s, steps[0]), steps[1..]))
  }

  lemma {:induction false} CoveredIffNeverLoses(s: Sys, steps: seq<Step>)
    requires Inv(s) && NoLostRefresh(s.tables)
    ensures CoveredThroughout(s, steps) <==> NeverLoses(s, steps)
    decreases |steps|
  {
    if steps != [] {
      StepKeepsInv(s, steps[0]);
      StepLosesIff(s, steps[0]);
      if !LosesRefresh(s, steps[0]) {
        CoveredIffNeverLoses(Exec(s, steps[0]), steps[1..]);
      }
    }
  }

  /** Over every run: all posted operations stay covered exactly when no worker
      and no sweep ends a pending request that an operation is waiting for. */
  lemma CoverageOfRuns(config: Config, steps: seq<Step>)
    ensures CoveredThroughout(Init(config), steps) <==> NeverLoses(Init(config), steps)
  {
    InitInv(config);
    CoveredIffNeverLoses(Init(config), steps);
  }

  // ----- Disciplines that are enough -----

  /** No step ends a request that is pending. */
  ghost predicate NeverEndsPending(s: Sys, steps: seq<Step>)
    decreases |steps|
  {
    steps == []
    || ((EndedBy(s, steps[0]).Some? ==>
           !(EndedBy(s, steps[0]).value in s.tables.requests
             && s.tables.requests[EndedBy(s, steps[0]).value].status == RefreshStatus.Pending))
        && NeverEndsPending(Exec(s, steps[0]), steps[1..]))
  }

  lemma {:induction false} NeverEndsPendingNeverLoses(s: Sys, steps: seq<Step>)
    requires NeverEndsPending(s, steps)
    ensures NeverLoses(s, steps)
    decreases |steps|
  {
    if steps != [] {
      NeverEndsPendingNeverLoses(Exec(s, steps[0]), steps[1..]);
    }
  }

  /** What a worker could check in its UPDATE: if no row is ended while it is
      pending, no operation is forgotten. */
  lemma CoveredIfPendingNeverEnds(config: Config, steps: seq<Step>)
    requires NeverEndsPending(Init(config), steps)
    ensures CoveredThroughout(Init(config), steps)
  {
    NeverEndsPendingNeverLoses(Init(config), steps);
    CoverageOfRuns(config, steps);
  }

  /** One worker process. It sweeps and claims when it has nothing under way, the
      claims of one batch taking distinct rows before any of them is served, and
      it serves the batch one request after the other. */
  predicate OneWorkerStep(s: Sys, step: Step) {
    && (step.SweepExhausted? ==> s.runs == map[])
    && (step.WorkerClaim? ==> forall w | w in s.runs :: s.runs[w].phase == Claimed && s.runs[w].request != step.r)
    && (step.WorkerReadLedger? ==> forall w | w in s.runs && w != step.run :: s.runs[w].phase == Claimed)
  }

  ghost predicate OneWorker(s: Sys, steps: seq<Step>)
    decreases |steps|
  {
    steps == [] || (OneWorkerStep(s, steps[0]) && OneWorker(Exec(s, steps[0]), steps[1..]))
  }

  /** One worker meets both disciplines, however short its lock timeout. */
  lemma {:induction false} OneWorkerIsDisciplined(s: Sys, steps: seq<Step>)
    requires OneWorker(s, steps)
    ensures DeadLocksOnly(s, steps) && SequentialRebuilds(s, steps)
    decreases |steps|
  {
    if steps != [] {
      OneWorkerIsDisciplined(Exec(s, steps[0]), steps[1..]);
    }
  }
}
