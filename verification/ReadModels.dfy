/** What read models promise for every schedule of any number of workers, and
    exactly which worker steps break the rest. */
module ReadModels {
  import opened Ledger
  import opened LedgerTables
  import opened Protocol
  import opened WriteInvariant
  import opened WriteSteps
  import opened ExactlyOnce
  import opened RefreshQueue
  import opened Freshness

  // ----- A read model never invents -----

  ghost predicate RunSound(t: Tables, run: Run) {
    run.phase.HasLedger? ==> run.phase.snapshot <= PostedIn(t.operations, run.portfolio)
  }

  ghost predicate RequestSound(t: Tables, q: Request) {
    q.claimedOver <= PostedIn(t.operations, q.portfolio)
  }

  ghost predicate Sound(s: Sys) {
    && ReadModelsSound(s.tables)
    && (forall w {:trigger RunSound(s.tables, s.runs[w])} | w in s.runs :: RunSound(s.tables, s.runs[w]))
    && (forall r {:trigger RequestSound(s.tables, s.tables.requests[r])} | r in s.tables.requests ::
          RequestSound(s.tables, s.tables.requests[r]))
  }

  lemma LedgerStepKeepsSound(s: Sys, s': Sys)
    requires Sound(s) && Evolves(s.tables, s'.tables)
    requires s'.tables.readModel == s.tables.readModel
    requires forall w | w in s'.runs :: w in s.runs && s'.runs[w] == s.runs[w]
    requires forall r | r in s'.tables.requests ::
               if r in s.tables.requests then s'.tables.requests[r].claimedOver == s.tables.requests[r].claimedOver
               else s'.tables.requests[r].claimedOver == {}
    ensures Sound(s')
  {
    var t, u := s.tables, s'.tables;
    forall p ensures PostedIn(t.operations, p) <= PostedIn(u.operations, p) && ReadModelOf(u, p) == ReadModelOf(t, p) {
      PostedGrows(t, u, p);
    }
    forall r | r in u.requests ensures RequestSound(u, u.requests[r]) {
      if r in t.requests {
        assert RequestSound(t, t.requests[r]);
      }
    }
    forall w | w in s'.runs ensures RunSound(u, s'.runs[w]) {
      assert RunSound(t, s.runs[w]);
    }
  }

  lemma ClaimKeepsSound(s: Sys, run: RunId, r: RequestId)
    requires Sound(s)
    ensures Sound(ExecWorkerClaim(s, run, r))
  {
    var s' := ExecWorkerClaim(s, run, r);
    if s' != s {
      forall q | q in s'.tables.requests ensures RequestSound(s'.tables, s'.tables.requests[q]) {
        assert RequestSound(s.tables, s.tables.requests[q]);
      }
      forall w | w in s'.runs ensures RunSound(s'.tables, s'.runs[w]) {
        if w != run { assert RunSound(s.tables, s.runs[w]); }
      }
      forall p ensures ReadModelOf(s'.tables, p) <= PostedIn(s'.tables.operations, p) {
        assert ReadModelOf(s.tables, p) <= PostedIn(s.tables.operations, p);
      }
    }
  }

  lemma RebuildKeepsSound(s: Sys, step: Step)
    requires Sound(s) && (step.WorkerReadLedger? || step.WorkerInstall?)
    ensures Sound(Exec(s, step))
  {
    var s' := Exec(s, step);
    if s' != s {
      assert RunSound(s.tables, s.runs[step.run]);
      forall w | w in s'.runs ensures RunSound(s'.tables, s'.runs[w]) {
        assert RunSound(s.tables, s.runs[w]);
      }
      forall q | q in s'.tables.requests ensures RequestSound(s'.tables, s'.tables.requests[q]) {
        assert RequestSound(s.tables, s.tables.requests[q]);
      }
      forall p ensures ReadModelOf(s'.tables, p) <= PostedIn(s'.tables.operations, p) {
        assert ReadModelOf(s.tables, p) <= PostedIn(s.tables.operations, p);
      }
    }
  }

  lemma StepKeepsSound(s: Sys, step: Step)
    requires Inv(s) && Sound(s)
    ensures Sound(Exec(s, step))
  {
    if step.WorkerClaim? {
      ClaimKeepsSound(s, step.run, step.r);
    } else if step.WorkerReadLedger? || step.WorkerInstall? {
      RebuildKeepsSound(s, step);
    } else {
      StepKeepsInv(s, step);
      if IsWorkerStep(step) { EndStepFrame(s, step); } else { ApiStepFrame(s, step); }
      LedgerStepKeepsSound(s, Exec(s, step));
    }
  }

  lemma EndStepFrame(s: Sys, step: Step)
    requires step.WorkerComplete? || step.WorkerError? || step.WorkerCrash? || step.SweepExhausted?
    ensures var s' := Exec(s, step);
      && s'.tables.readModel == s.tables.readModel
      && (forall w | w in s'.runs :: w in s.runs && s'.runs[w] == s.runs[w])
      && (forall r | r in s'.tables.requests ::
            r in s.tables.requests && s'.tables.requests[r].claimedOver == s.tables.requests[r].claimedOver)
  {
    if step.WorkerError? && step.run in s.runs && s.runs[step.run].request in s.tables.requests {
      ErrorKeepsClaims(s.tables, s.runs[step.run].request, s.runs[step.run].attempts, s.config.maxAttempts);
    }
  }

  lemma ErrorKeepsClaims(t: Tables, r: RequestId, attempts: nat, maxAttempts: nat)
    requires r in t.requests
    ensures var u := FailOrRetry(t, r, attempts, maxAttempts);
            u.readModel == t.readModel
            && forall q | q in u.requests :: q in t.requests && u.requests[q].claimedOver == t.requests[q].claimedOver
  {
  }

  lemma {:induction false} RunKeepsSound(s: Sys, steps: seq<Step>)
    requires Inv(s) && Sound(s)
    ensures Sound(RunAll(s, steps))
    decreases |steps|
  {
    if steps != [] {
      StepKeepsInv(s, steps[0]);
      StepKeepsSound(s, steps[0]);
      RunKeepsSound(Exec(s, steps[0]), steps[1..]);
    }
  }

  /** In every run, whatever the locks and however many workers: a read model
      shows posted operations of its portfolio only. */
  lemma ReadModelsNeverInvent(config: Config, steps: seq<Step>, p: PortfolioId)
    ensures var t := RunAll(Init(config), steps).tables;
            forall o | o in ReadModelOf(t, p) ::
              o in t.operations && t.operations[o].portfolio == p && t.operations[o].status == Posted
  {
    InitInv(config);
    RunKeepsSound(Init(config), steps);
    var t := RunAll(Init(config), steps).tables;
    assert ReadModelOf(t, p) <= PostedIn(t.operations, p);
  }

  // ----- Completed requests stay shown -----

  ghost predicate Shown(t: Tables, q: Request) {
    q.status == Completed ==> q.claimedOver <= ReadModelOf(t, q.portfolio)
  }

  /** Every completed request is still reflected in its read model. */
  ghost predicate AllShown(t: Tables) {
    forall r {:trigger Shown(t, t.requests[r])} | r in t.requests :: Shown(t, t.requests[r])
  }

  ghost predicate ShownFor(t: Tables, p: PortfolioId) {
    forall r {:trigger Shown(t, t.requests[r])} | r in t.requests && t.requests[r].portfolio == p ::
        Shown(t, t.requests[r])
  }

  /** A worker installs a ledger that was read before a request, by now
      completed, was claimed; or completes a request whose rebuild is no longer
      what the portfolio shows. */
  ghost predicate Hides(s: Sys, step: Step) {
    || (step.WorkerInstall? && step.run in s.runs && s.runs[step.run].phase.HasLedger?
        && exists r | r in s.tables.requests ::
             && s.tables.requests[r].status == Completed && s.tables.requests[r].portfolio == s.runs[step.run].portfolio
             && !(s.tables.requests[r].claimedOver <= s.runs[step.run].phase.snapshot))
    || (step.WorkerComplete? && EndedBy(s, step).Some?
        && var q := s.tables.requests[s.runs[step.run].request];
           !(q.claimedOver <= ReadModelOf(s.tables, q.portfolio)))
  }

  /** Installing a snapshot keeps completed requests shown exactly when it has
      everything they were claimed over. */
  lemma InstallShownIff(t: Tables, p: PortfolioId, snapshot: set<OperationId>)
    requires AllShown(t)
    ensures AllShown(ReplaceReadModel(t, p, snapshot)) <==>
              forall r | r in t.requests && t.requests[r].status == Completed && t.requests[r].portfolio == p ::
                t.requests[r].claimedOver <= snapshot
  {
    var u := ReplaceReadModel(t, p, snapshot);
    forall r | r in t.requests
      ensures Shown(u, u.requests[r]) <==>
                (t.requests[r].status == Completed && t.requests[r].portfolio == p ==>
                 t.requests[r].claimedOver <= snapshot)
    {
      assert Shown(t, t.requests[r]);
    }
  }

  lemma InstallHidesIff(s: Sys, step: Step)
    requires AllShown(s.tables) && step.WorkerInstall?
    ensures AllShown(Exec(s, step).tables) <==> !Hides(s, step)
  {
    if step.run in s.runs && s.runs[step.run].phase.HasLedger? {
      InstallShownIff(s.tables, s.runs[step.run].portfolio, s.runs[step.run].phase.snapshot);
    }
  }

  lemma CompleteHidesIff(s: Sys, step: Step)
    requires AllShown(s.tables) && step.WorkerComplete?
    ensures AllShown(Exec(s, step).tables) <==> !Hides(s, step)
  {
    var t, u := s.tables, Exec(s, step).tables;
    if !Hides(s, step) {
      forall r | r in u.requests ensures Shown(u, u.requests[r]) {
        assert Shown(t, t.requests[r]);
      }
    } else {
      assert !Shown(u, u.requests[s.runs[step.run].request]);
    }
  }

  /** Steps that keep read models and complete nothing. */
  lemma OtherStepsKeepShown(s: Sys, s': Sys)
    requires AllShown(s.tables) && s'.tables.readModel == s.tables.readModel
    requires forall r | r in s'.tables.requests && s'.tables.requests[r].status == Completed ::
               r in s.tables.requests && s.tables.requests[r].status == Completed
               && s'.tables.requests[r].claimedOver == s.tables.requests[r].claimedOver
               && s'.tables.requests[r].portfolio == s.tables.requests[r].portfolio
    ensures AllShown(s'.tables)
  {
    var t, u := s.tables, s'.tables;
    forall r | r in u.requests ensures Shown(u, u.requests[r]) {
      if u.requests[r].status == Completed {
        assert Shown(t, t.requests[r]);
        assert ReadModelOf(u, u.requests[r].portfolio) == ReadModelOf(t, t.requests[r].portfolio);
      }
    }
  }

  lemma OtherWorkerStepsCompleteNothing(s: Sys, step: Step)
    requires IsWorkerStep(step) && !step.WorkerInstall? && !step.WorkerComplete?
    ensures var s' := Exec(s, step);
      && s'.tables.readModel == s.tables.readModel
      && forall r | r in s'.tables.requests && s'.tables.requests[r].status == Completed ::
           r in s.tables.requests && s'.tables.requests[r] == s.tables.requests[r]
  {
    if step.WorkerError? { ErrorCompletesNothing(s, step.run); }
  }

  lemma ErrorCompletesNothing(s: Sys, run: RunId)
    ensures var s' := ExecWorkerError(s, run);
      && s'.tables.readModel == s.tables.readModel
      && forall r | r in s'.tables.requests && s'.tables.requests[r].status == Completed ::
           r in s.tables.requests && s'.tables.requests[r] == s.tables.requests[r]
  {
  }

  lemma ApiStepsCompleteNothing(s: Sys, step: Step)
    requires !IsWorkerStep(step)
    ensures var s' := Exec(s, step);
      && s'.tables.readModel == s.tables.readModel
      && forall r | r in s'.tables.requests && s'.tables.requests[r].status == Completed ::
           r in s.tables.requests && s'.tables.requests[r] == s.tables.requests[r]
  {
    if !step.Commit? && !step.CommitPost? {
      QuietApiStepQueue(s, step);
      ApiStepFrame(s, step);
    }
  }

  /** One step of any process. */
  lemma StepHidesIff(s: Sys, step: Step)
    requires AllShown(s.tables)
    ensures AllShown(Exec(s, step).tables) <==> !Hides(s, step)
  {
    if step.WorkerInstall? {
      InstallHidesIff(s, step);
    } else if step.WorkerComplete? {
      CompleteHidesIff(s, step);
    } else {
      if IsWorkerStep(step) { OtherWorkerStepsCompleteNothing(s, step); } else { ApiStepsCompleteNothing(s, step); }
      OtherStepsKeepShown(s, Exec(s, step));
    }
  }

  ghost predicate ShownThroughout(s: Sys, steps: seq<Step>)
    decreases |steps|
  {
    AllShown(s.tables) && (steps == [] || ShownThroughout(Exec(s, steps[0]), steps[1..]))
  }

  ghost predicate NeverHides(s: Sys, steps: seq<Step>)
    decreases |steps|
  {
    steps == [] || (!Hides(s, steps[0]) && NeverHides(Exec(s, steps[0]), steps[1..]))
  }

  lemma {:induction false} ShownIffNeverHides(s: Sys, steps: seq<Step>)
    requires AllShown(s.tables)
    ensures ShownThroughout(s, steps) <==> NeverHides(s, steps)
    decreases |steps|
  {
    if steps != [] {
      StepHidesIff(s, steps[0]);
      if !Hides(s, steps[0]) {
        ShownIffNeverHides(Exec(s, steps[0]), steps[1..]);
      }
    }
  }

  /** Over every run: completed requests stay reflected in their read models
      exactly when no worker installs an older ledger over them. */
  lemma ReadModelsOfRuns(config: Config, steps: seq<Step>)
    ensures ShownThroughout(Init(config), steps) <==> NeverHides(Init(config), steps)
  {
    ShownIffNeverHides(Init(config), steps);
  }

  /** At the end of any run that kept its operations covered, a portfolio whose
      requests are all completed is fresh exactly when they are all shown. */
  lemma FreshIffShown(config: Config, steps: seq<Step>, p: PortfolioId)
    requires var t := RunAll(Init(config), steps).tables; NoLostRefresh(t) && Quiescent(t, p)
    ensures var t := RunAll(Init(config), steps).tables;
            ReadModelOf(t, p) == PostedIn(t.operations, p) <==> ShownFor(t, p)
  {
    InitInv(config);
    RunKeepsSound(Init(config), steps);
    var t := RunAll(Init(config), steps).tables;
    forall r | r in t.requests && t.requests[r].portfolio == p
      ensures t.requests[r].claimedOver <= PostedIn(t.operations, p)
    {
      assert RequestSound(t, t.requests[r]);
    }
    if ShownFor(t, p) {
      assert ReadModelOf(t, p) <= PostedIn(t.operations, p);
      forall o | o in PostedIn(t.operations, p) ensures o in ReadModelOf(t, p) {
        assert Covered(t.requests, o, t.operations[o].portfolio);
        var r :| Covers(t.requests, r, o, p);
        assert Shown(t, t.requests[r]);
      }
    }
  }
}
