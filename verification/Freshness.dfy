/** Quiescence implies freshness: when every request of a portfolio is
    completed, its read model was rebuilt from exactly its posted operations. */
module Freshness {
  import opened Ledger
  import opened LedgerTables
  import opened Protocol
  import opened WriteInvariant
  import opened WriteSteps
  import opened ExactlyOnce
  import opened RefreshQueue

  // ----- What a run and a completed request vouch for -----

  ghost predicate RunFresh(t: Tables, run: Run) {
    run.request in t.requests &&
    match run.phase
    case Claimed => true
    case HasLedger(snapshot) =>
      && t.requests[run.request].claimedOver <= snapshot
      && ReadModelOf(t, run.portfolio) <= snapshot <= PostedIn(t.operations, run.portfolio)
    case Installed => t.requests[run.request].claimedOver <= ReadModelOf(t, run.portfolio)
  }

  ghost predicate RunsFresh(t: Tables, runs: map<RunId, Run>) {
    && (forall w {:trigger RunFresh(t, runs[w])} | w in runs :: RunFresh(t, runs[w]))
    && (forall v, w, p | Rebuilding(runs, v, p) && Rebuilding(runs, w, p) :: v == w)
  }

  ghost predicate RequestFresh(t: Tables, q: Request) {
    && q.claimedOver <= PostedIn(t.operations, q.portfolio)
    && (q.status == Completed ==> q.claimedOver <= ReadModelOf(t, q.portfolio))
  }

  ghost predicate RequestsFresh(t: Tables) {
    forall r {:trigger RequestFresh(t, t.requests[r])} | r in t.requests :: RequestFresh(t, t.requests[r])
  }

  /** A read model never shows an operation that is not posted. */
  ghost predicate ReadModelsSound(t: Tables) {
    forall p :: ReadModelOf(t, p) <= PostedIn(t.operations, p)
  }

  ghost predicate FreshInv(s: Sys) {
    RunsFresh(s.tables, s.runs) && RequestsFresh(s.tables) && ReadModelsSound(s.tables)
  }

  // ----- Frames -----

  /** Posted operations only accumulate. */
  lemma PostedGrows(t: Tables, u: Tables, p: PortfolioId)
    requires Evolves(t, u)
    ensures PostedIn(t.operations, p) <= PostedIn(u.operations, p)
  {
  }

  /** A step that keeps runs and read models and, of every request, the status
      or at least that it is not completed. */
  lemma LedgerStepKeepsFresh(s: Sys, s': Sys)
    requires FreshInv(s) && Evolves(s.tables, s'.tables)
    requires s'.runs == s.runs && s'.tables.readModel == s.tables.readModel
    requires forall r | r in s'.tables.requests ::
               if r in s.tables.requests then
                 s'.tables.requests[r].claimedOver == s.tables.requests[r].claimedOver
                 && (s'.tables.requests[r].status == Completed ==> s.tables.requests[r].status == Completed)
               else s'.tables.requests[r].claimedOver == {}
    ensures FreshInv(s')
  {
    var t, u := s.tables, s'.tables;
    forall p ensures PostedIn(t.operations, p) <= PostedIn(u.operations, p) && ReadModelOf(u, p) == ReadModelOf(t, p) {
      PostedGrows(t, u, p);
    }
    forall r | r in u.requests ensures RequestFresh(u, u.requests[r]) {
      if r in t.requests {
        assert RequestFresh(t, t.requests[r]);
      }
    }
    forall w | w in s'.runs ensures RunFresh(u, s'.runs[w]) {
      assert RunFresh(t, s.runs[w]);
    }
  }

  lemma ApiStepKeepsFresh(s: Sys, step: Step)
    requires Inv(s) && QueueInv(s) && FreshInv(s) && !IsWorkerStep(step)
    ensures FreshInv(Exec(s, step))
  {
    StepKeepsInv(s, step);
    ApiStepFrame(s, step);
    LedgerStepKeepsFresh(s, Exec(s, step));
  }

  lemma ApiStepFrame(s: Sys, step: Step)
    requires !IsWorkerStep(step)
    ensures var s' := Exec(s, step);
      && s'.runs == s.runs && s'.tables.readModel == s.tables.readModel
      && forall r | r in s'.tables.requests ::
           if r in s.tables.requests then
             s'.tables.requests[r].claimedOver == s.tables.requests[r].claimedOver
             && s'.tables.requests[r].status == s.tables.requests[r].status
           else s'.tables.requests[r].claimedOver == {}
  {
    if !step.Commit? && !step.CommitPost? {
      QuietApiStepQueue(s, step);
    }
  }

  // ----- Worker steps -----

  lemma ClaimKeepsFresh(s: Sys, run: RunId, r: RequestId)
    requires QueueInv(s) && FreshInv(s) && ExpiredMeansDead(s, WorkerClaim(run, r))
    ensures FreshInv(ExecWorkerClaim(s, run, r))
  {
    var s' := ExecWorkerClaim(s, run, r);
    if s' != s {
      var t, u := s.tables, s'.tables;
      ClaimedRowIsFree(s, run, r);
      forall p ensures ReadModelOf(u, p) == ReadModelOf(t, p) {}
      forall q | q in u.requests ensures RequestFresh(u, u.requests[q]) {
        if q != r { assert RequestFresh(t, t.requests[q]); }
      }
      forall w | w in s'.runs ensures RunFresh(u, s'.runs[w]) {
        if w != run { assert RunFresh(t, s.runs[w]); }
      }
      forall v, w, p | Rebuilding(s'.runs, v, p) && Rebuilding(s'.runs, w, p) ensures v == w {
        assert Rebuilding(s.runs, v, p) && Rebuilding(s.runs, w, p);
      }
      assert RunsFresh(u, s'.runs);
    }
  }

  lemma ReadLedgerKeepsFresh(s: Sys, run: RunId)
    requires QueueInv(s) && FreshInv(s) && OneRebuildAtATime(s, WorkerReadLedger(run))
    ensures FreshInv(ExecWorkerReadLedger(s, run))
  {
    var s' := ExecWorkerReadLedger(s, run);
    if s' != s {
      forall w | w in s'.runs ensures RunFresh(s'.tables, s'.runs[w]) {
        assert RunFresh(s.tables, s.runs[w]);
        if w == run {
          assert Owned(s.tables.requests, s.runs[run]);
          assert RequestFresh(s.tables, s.tables.requests[s.runs[run].request]);
        }
      }
      forall v, w, p | Rebuilding(s'.runs, v, p) && Rebuilding(s'.runs, w, p) ensures v == w {
        if v != run { assert Rebuilding(s.runs, v, p); }
        if w != run { assert Rebuilding(s.runs, w, p); }
      }
    }
  }

  lemma InstallKeepsRunsFresh(s: Sys, run: RunId)
    requires QueueInv(s) && FreshInv(s) && run in s.runs && s.runs[run].phase.HasLedger?
    ensures RunsFresh(ExecWorkerInstall(s, run).tables, ExecWorkerInstall(s, run).runs)
  {
    var s' := ExecWorkerInstall(s, run);
    assert RunFresh(s.tables, s.runs[run]);
    var p := s.runs[run].portfolio;
    forall w | w in s'.runs ensures RunFresh(s'.tables, s'.runs[w]) {
      assert RunFresh(s.tables, s.runs[w]);
      if w != run && s.runs[w].portfolio == p && s.runs[w].phase.HasLedger? {
        assert Rebuilding(s.runs, w, p) && Rebuilding(s.runs, run, p);
        assert false;
      }
    }
    forall v, w, q | Rebuilding(s'.runs, v, q) && Rebuilding(s'.runs, w, q) ensures v == w {
      assert Rebuilding(s.runs, v, q) && Rebuilding(s.runs, w, q);
    }
  }

  lemma InstallKeepsFresh(s: Sys, run: RunId)
    requires QueueInv(s) && FreshInv(s)
    ensures FreshInv(ExecWorkerInstall(s, run))
  {
    var s' := ExecWorkerInstall(s, run);
    if s' != s {
      InstallKeepsRunsFresh(s, run);
      assert RunFresh(s.tables, s.runs[run]);
      forall r | r in s'.tables.requests ensures RequestFresh(s'.tables, s'.tables.requests[r]) {
        assert RequestFresh(s.tables, s.tables.requests[r]);
      }
      forall q ensures ReadModelOf(s'.tables, q) <= PostedIn(s'.tables.operations, q) {
        assert ReadModelOf(s.tables, q) <= PostedIn(s.tables.operations, q);
      }
    }
  }

  /** Ending or dropping a run. */
  lemma EndRunKeepsFresh(s: Sys, s': Sys, run: RunId)
    requires FreshInv(s) && s'.runs == s.runs - {run}
    requires s'.tables.operations == s.tables.operations && s'.tables.readModel == s.tables.readModel
    requires s'.tables.requests.Keys == s.tables.requests.Keys
    requires forall r | r in s.tables.requests ::
               s'.tables.requests[r].claimedOver == s.tables.requests[r].claimedOver
               && s'.tables.requests[r].portfolio == s.tables.requests[r].portfolio
               && (s'.tables.requests[r].status == Completed ==>
                     s.tables.requests[r].status == Completed
                     || s.tables.requests[r].claimedOver <= ReadModelOf(s.tables, s.tables.requests[r].portfolio))
    ensures FreshInv(s')
  {
    var t, u := s.tables, s'.tables;
    forall r | r in u.requests ensures RequestFresh(u, u.requests[r]) {
      assert RequestFresh(t, t.requests[r]);
    }
    forall w | w in s'.runs ensures RunFresh(u, s'.runs[w]) {
      assert RunFresh(t, s.runs[w]);
    }
    forall v, w, p | Rebuilding(s'.runs, v, p) && Rebuilding(s'.runs, w, p) ensures v == w {
      assert Rebuilding(s.runs, v, p) && Rebuilding(s.runs, w, p);
    }
    forall p ensures ReadModelOf(u, p) <= PostedIn(u.operations, p) {
      assert ReadModelOf(t, p) <= PostedIn(t.operations, p);
    }
  }

  lemma CompleteKeepsFresh(s: Sys, run: RunId)
    requires QueueInv(s) && FreshInv(s)
    ensures FreshInv(ExecWorkerComplete(s, run))
  {
    var s' := ExecWorkerComplete(s, run);
    if s' != s {
      assert Owned(s.tables.requests, s.runs[run]);
      assert RunFresh(s.tables, s.runs[run]);
      EndRunKeepsFresh(s, s', run);
    }
  }

  lemma ErrorKeepsFresh(s: Sys, run: RunId)
    requires FreshInv(s)
    ensures FreshInv(ExecWorkerError(s, run))
  {
    var s' := ExecWorkerError(s, run);
    if s' != s {
      EndRunKeepsFresh(s, s', run);
    }
  }

  lemma SweepKeepsFresh(s: Sys, r: RequestId)
    requires Inv(s) && FreshInv(s)
    ensures FreshInv(ExecSweep(s, r))
  {
    StepKeepsInv(s, SweepExhausted(r));
    LedgerStepKeepsFresh(s, ExecSweep(s, r));
  }

  lemma RebuildStepKeepsFresh(s: Sys, step: Step)
    requires QueueInv(s) && FreshInv(s) && OneRebuildAtATime(s, step)
    requires step.WorkerReadLedger? || step.WorkerInstall? || step.WorkerCrash?
    ensures FreshInv(Exec(s, step))
  {
    match step
    case WorkerReadLedger(run) => ReadLedgerKeepsFresh(s, run);
    case WorkerInstall(run) => InstallKeepsFresh(s, run);
    case WorkerCrash(run) => EndRunKeepsFresh(s, Exec(s, step), run);
  }

  lemma QueueStepKeepsFresh(s: Sys, step: Step)
    requires Inv(s) && QueueInv(s) && FreshInv(s) && ExpiredMeansDead(s, step)
    requires step.WorkerClaim? || step.WorkerComplete? || step.WorkerError? || step.SweepExhausted?
    ensures FreshInv(Exec(s, step))
  {
    match step
    case WorkerClaim(run, r) => ClaimKeepsFresh(s, run, r);
    case WorkerComplete(run) => CompleteKeepsFresh(s, run);
    case WorkerError(run) => ErrorKeepsFresh(s, run);
    case SweepExhausted(r) => SweepKeepsFresh(s, r);
  }

  lemma StepKeepsFresh(s: Sys, step: Step)
    requires Inv(s) && QueueInv(s) && FreshInv(s)
    requires ExpiredMeansDead(s, step) && OneRebuildAtATime(s, step)
    ensures FreshInv(Exec(s, step))
  {
    if step.WorkerReadLedger? || step.WorkerInstall? || step.WorkerCrash? {
      RebuildStepKeepsFresh(s, step);
    } else if IsWorkerStep(step) {
      QueueStepKeepsFresh(s, step);
    } else {
      ApiStepKeepsFresh(s, step);
    }
  }

  lemma {:induction false} FreshInRun(s: Sys, steps: seq<Step>)
    requires Inv(s) && QueueInv(s) && FreshInv(s) && s.config.maxAttempts >= 1
    requires DeadLocksOnly(s, steps) && SequentialRebuilds(s, steps)
    ensures QueueInv(RunAll(s, steps)) && FreshInv(RunAll(s, steps))
    decreases |steps|
  {
    if steps != [] {
      StepKeepsInv(s, steps[0]);
      ConfigStays(s, steps[0]);
      StepKeepsQueueInv(s, steps[0]);
      StepKeepsFresh(s, steps[0]);
      FreshInRun(Exec(s, steps[0]), steps[1..]);
    }
  }

  /** No request of the portfolio is pending, processing or failed. */
  predicate Quiescent(t: Tables, p: PortfolioId) {
    forall r | r in t.requests && t.requests[r].portfolio == p :: t.requests[r].status == Completed
  }

  lemma QuiescentIsFresh(t: Tables, p: PortfolioId)
    requires NoLostRefresh(t) && RequestsFresh(t) && ReadModelsSound(t) && Quiescent(t, p)
    ensures ReadModelOf(t, p) == PostedIn(t.operations, p)
  {
    assert ReadModelOf(t, p) <= PostedIn(t.operations, p);
    forall o | o in PostedIn(t.operations, p) ensures o in ReadModelOf(t, p) {
      assert Covered(t.requests, o, t.operations[o].portfolio);
      var r :| Covers(t.requests, r, o, p);
      assert RequestFresh(t, t.requests[r]);
    }
  }

  /** In every run whose locks expire on dead workers only and that rebuilds a
      portfolio one at a time, a quiescent portfolio shows exactly its posted
      operations. */
  lemma QuiescenceImpliesFreshness(config: Config, steps: seq<Step>, p: PortfolioId)
    requires config.maxAttempts >= 1
    requires DeadLocksOnly(Init(config), steps) && SequentialRebuilds(Init(config), steps)
    requires Quiescent(RunAll(Init(config), steps).tables, p)
    ensures var t := RunAll(Init(config), steps).tables;
            ReadModelOf(t, p) == PostedIn(t.operations, p)
  {
    InitInv(config);
    FreshInRun(Init(config), steps);
    QuiescentIsFresh(RunAll(Init(config), steps).tables, p);
  }

  /** With one worker process, no operation is forgotten and a quiescent
      portfolio shows exactly its posted operations. */
  lemma OneWorkerKeepsPromises(config: Config, steps: seq<Step>, p: PortfolioId)
    requires config.maxAttempts >= 1 && OneWorker(Init(config), steps)
    ensures var t := RunAll(Init(config), steps).tables;
            NoLostRefresh(t) && (Quiescent(t, p) ==> ReadModelOf(t, p) == PostedIn(t.operations, p))
  {
    OneWorkerIsDisciplined(Init(config), steps);
    NoRefreshIsLost(config, steps);
    if Quiescent(RunAll(Init(config), steps).tables, p) {
      QuiescenceImpliesFreshness(config, steps, p);
    }
  }
}
