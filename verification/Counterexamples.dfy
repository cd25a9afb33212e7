/** Concrete runs from the empty database that leave a promise unkept. Each
    shows that the condition of a theorem is needed. */
module Counterexamples {
  import opened Ledger
  import opened Fingerprints
  import opened LedgerTables
  import opened Protocol
  import opened WriteInvariant
  import opened WriteSteps
  import opened ExactlyOnce
  import opened Lifecycle
  import opened RefreshQueue
  import opened Freshness
  import opened Schedules
  import opened WorkerRuns

  function Lodge(key: IdempotencyKey, status: OperationStatus): Call {
    Call.Create(1, key, 1, DepositOf(status))
  }

  /** One pending deposit of 10.00 EUR. */
  const ONE_PENDING := Written(Init(EXAMPLE), 0, Lodge(0, OperationStatus.Pending), 0, 0)

  /** The ledger holds one pending operation without assets that may be
      posted, and nobody is at work. */
  ghost predicate Drafted(s: Sys) {
    && s.config == EXAMPLE && 1 !in s.clients && 2 !in s.clients && s.tables.requests == map[]
    && FoundIn(s.tables, 0, 1)
    && var row := s.tables.operations[0];
       && row.status == OperationStatus.Pending && row.asset.None? && row.relatedAsset.None?
       && row.currency == "EUR" && row.cash != 0 && row.rate.None? && RowConstraints(s.tables.operations, 0, row)
  }

  lemma OnePending()
    ensures RunAll(Init(EXAMPLE), WriteRun(0, Lodge(0, OperationStatus.Pending), 0, 0)) == ONE_PENDING
    ensures Drafted(ONE_PENDING)
  {
    RunWrite(Init(EXAMPLE), 0, Lodge(0, OperationStatus.Pending), 0, 0);
  }

  lemma {:induction false} LegalSuffix(s: Sys, a: seq<Step>, b: seq<Step>)
    requires LegalRun(s, a + b)
    ensures LegalRun(RunAll(s, a), b)
    decreases |a|
  {
    if a == [] {
      assert a + b == b;
    } else {
      assert (a + b)[0] == a[0] && (a + b)[1..] == a[1..] + b;
      LegalSuffix(Exec(s, a[0]), a[1..], b);
    }
  }

  lemma DraftRevives(s: Sys)
    requires Drafted(s)
    ensures !LegalRun(RunAll(s, ReadSteps(1, 1, 1, 0) + CancelSteps(2, 1, 1, 0)), [CommitPost(1, 0, true)])
  {
    StalePostRevivesCancelled(s, 1, 2, 1, 1, 0, 0);
  }

  /** A cancelled operation can become posted. */
  lemma CancelledCanBecomePosted()
    ensures exists steps :: !LegalRun(Init(EXAMPLE), steps)
  {
    var first := WriteRun(0, Lodge(0, OperationStatus.Pending), 0, 0);
    var middle := ReadSteps(1, 1, 1, 0) + CancelSteps(2, 1, 1, 0);
    OnePending();
    DraftRevives(ONE_PENDING);
    RunAppend(Init(EXAMPLE), first, middle);
    if LegalRun(Init(EXAMPLE), (first + middle) + [CommitPost(1, 0, true)]) {
      LegalSuffix(Init(EXAMPLE), first + middle, [CommitPost(1, 0, true)]);
    }
  }

  lemma DraftBreaksFxRule(s: Sys)
    requires Drafted(s)
    ensures var middle := ReadSteps(1, 1, 1, 0) + PatchSteps(2, 1, 1, 0, NO_CHANGE.(currency := Some("USD")));
            !FxSafe(EXAMPLE, Exec(RunAll(s, middle), CommitPost(1, 0, true)).tables.operations)
  {
    StalePostBreaksFxRule(s, 1, 2, 1, 1, 0, 0, "USD");
  }

  /** A foreign-currency operation can be posted without a rate. */
  lemma ForeignCashCanBePostedWithoutRate()
    ensures exists steps :: !FxSafe(EXAMPLE, RunAll(Init(EXAMPLE), steps).tables.operations)
  {
    var first := WriteRun(0, Lodge(0, OperationStatus.Pending), 0, 0);
    var middle := ReadSteps(1, 1, 1, 0) + PatchSteps(2, 1, 1, 0, NO_CHANGE.(currency := Some("USD")));
    OnePending();
    DraftBreaksFxRule(ONE_PENDING);
    RunThenStep(Init(EXAMPLE), first, middle, CommitPost(1, 0, true));
    assert !FxSafe(EXAMPLE, RunAll(Init(EXAMPLE), (first + middle) + [CommitPost(1, 0, true)]).tables.operations);
  }

  lemma RunThenStep(s: Sys, a: seq<Step>, b: seq<Step>, last: Step)
    ensures RunAll(s, (a + b) + [last]) == Exec(RunAll(RunAll(s, a), b), last)
  {
    RunAppend(s, a, b);
    RunAppend(s, a + b, [last]);
    RunOne(RunAll(s, a + b), last);
  }

  /** One posted deposit, waiting in request 0. */
  const ONE_POSTED := Written(Init(EXAMPLE), 0, Lodge(0, Posted), 0, 0)

  /** The ledger holds the one posted deposit, and no request is under way. */
  ghost predicate Lodged(s: Sys) {
    && s.config == EXAMPLE && 1 !in s.clients && 2 !in s.clients
    && (forall d | d in s.clients :: s.clients[d].phase.Done?)
    && (1, 1) !in s.tables.records
    && s.tables.operations.Keys == {0} && s.tables.operations[0].portfolio == 1
    && s.tables.operations[0].status == Posted
  }

  /** The posted deposit waits in request 0, and no worker runs. */
  ghost predicate LodgedWaits(s: Sys) {
    && Lodged(s) && s.runs == map[]
    && s.tables.requests == map[0 := Request(1, 0, RefreshStatus.Pending, 0, false, {})]
  }

  lemma OnePosted()
    ensures RunAll(Init(EXAMPLE), WriteRun(0, Lodge(0, Posted), 0, 0)) == ONE_POSTED
    ensures LodgedWaits(ONE_POSTED)
  {
    RunWrite(Init(EXAMPLE), 0, Lodge(0, Posted), 0, 0);
  }

  lemma LodgedPosts(s: Sys)
    requires Lodged(s)
    ensures PostedIn(s.tables.operations, 1) == {0}
  {
  }

  /** A second deposit is posted into request `slot`. */
  lemma SecondDeposit(s: Sys, slot: RequestId)
    requires Lodged(s) && SlotFor(s.tables.requests, 1, slot)
    ensures var u := RunAll(s, WriteRun(1, Lodge(1, Posted), 1, slot));
      && u.config == EXAMPLE && u.runs == s.runs && u.tables.requests == Enqueue(s.tables.requests, 1, 1, slot)
      && PostedIn(u.tables.operations, 1) == {0, 1} && 1 in u.tables.operations
      && u.tables.operations[1].portfolio == 1 && u.tables.operations[1].status == Posted
      && u.tables.operations[1].origin in u.tables.records
      && u.tables.records[u.tables.operations[1].origin].refresh == Some(slot)
  {
    LodgedPosts(s);
    SecondIsAdmissible(s, slot);
    RunWrite(s, 1, Lodge(1, Posted), 1, slot);
  }

  lemma SecondIsAdmissible(s: Sys, slot: RequestId)
    requires Lodged(s) && SlotFor(s.tables.requests, 1, slot)
    ensures Admissible(s, Lodge(1, Posted), 1, slot) && !Blocked(s, 1, KeyOf(Lodge(1, Posted)))
  {
  }

  // ----- A late worker -----

  const LATE_STEPS :=
    ([WorkerClaim(0, 0)] + [WorkerReadLedger(0)] + [WorkerInstall(0)]) + [WorkerClaim(1, 0)] + [WorkerError(1)]

  /** Worker 0 rebuilds request 0 but stalls before it ends it; its lock
      expires, worker 1 claims the request, fails, and puts it back. */
  lemma LateWorkerWaits(s0: Sys)
    requires LodgedWaits(s0)
    ensures var s := RunAll(s0, LATE_STEPS);
      && Lodged(s) && s.runs == map[0 := Run(0, 1, 1, Installed)]
      && s.tables.requests == map[0 := Request(1, 0, RefreshStatus.Pending, 2, false, {0})]
  {
    LodgedPosts(s0);
    var rebuild := [WorkerClaim(0, 0)] + [WorkerReadLedger(0)] + [WorkerInstall(0)];
    var s3 := RunAll(s0, rebuild);
    Rebuilt(s0, 0, 0);
    ClaimedAgainAndPutBack(s3);
    RunAppend(s0, rebuild, [WorkerClaim(1, 0)]);
    RunAppend(s0, rebuild + [WorkerClaim(1, 0)], [WorkerError(1)]);
  }

  lemma ClaimedAgainAndPutBack(s: Sys)
    requires Lodged(s) && s.runs == map[0 := Run(0, 1, 1, Installed)]
    requires s.tables.requests == map[0 := Request(1, 0, Processing, 1, false, {0})]
    ensures var u := RunAll(RunAll(s, [WorkerClaim(1, 0)]), [WorkerError(1)]);
      && Lodged(u) && u.runs == s.runs
      && u.tables.requests == map[0 := Request(1, 0, RefreshStatus.Pending, 2, false, {0})]
  {
    LodgedPosts(s);
    RunWorkerClaim(s, 1, 0);
    RunWorkerError(RunAll(s, [WorkerClaim(1, 0)]), 1);
  }

  /** Run `w` is late: its request has been claimed again since, and is pending
      with operation `o` coalesced into it. Completing it now leaves `o` posted
      with nothing to refresh it. */
  ghost predicate LateLoss(s: Sys, w: RunId, o: OperationId) {
    && w in s.runs && o in s.tables.operations && s.tables.operations[o].status == Posted
    && var r, p := s.runs[w].request, s.tables.operations[o].portfolio;
       && PendingFor(s.tables.requests, r, p) && s.runs[w].attempts < s.tables.requests[r].attempts
       && s.tables.operations[o].origin in s.tables.records
       && s.tables.records[s.tables.operations[o].origin].refresh == Some(r)
       && Covered(s.tables.requests, o, p)
       && !Covered(Exec(s, WorkerComplete(w)).tables.requests, o, p)
       && !NoLostRefresh(Exec(s, WorkerComplete(w)).tables)
  }

  lemma CoalescedIsLost(s: Sys)
    requires s.runs == map[0 := Run(0, 1, 1, Installed)] && 1 in s.tables.operations
    requires s.tables.requests == map[0 := Request(1, 1, RefreshStatus.Pending, 2, false, {0})]
    requires s.tables.operations[1].portfolio == 1 && s.tables.operations[1].status == Posted
    requires s.tables.operations[1].origin in s.tables.records
    requires s.tables.records[s.tables.operations[1].origin].refresh == Some(0)
    ensures LateLoss(s, 0, 1)
  {
    assert Covers(s.tables.requests, 0, 1, 1);
    var u := Exec(s, WorkerComplete(0)).tables;
    assert u.requests == map[0 := Request(1, 1, Completed, 2, true, {0})] && u.operations == s.tables.operations;
    assert !Covered(u.requests, 1, u.operations[1].portfolio);
  }

  lemma LateLossFollows(s0: Sys)
    requires LodgedWaits(s0)
    ensures LateLoss(RunAll(s0, LATE_STEPS + WriteRun(1, Lodge(1, Posted), 1, 0)), 0, 1)
  {
    LateWorkerWaits(s0);
    SecondDeposit(RunAll(s0, LATE_STEPS), 0);
    CoalescedIsLost(RunAll(RunAll(s0, LATE_STEPS), WriteRun(1, Lodge(1, Posted), 1, 0)));
    RunAppend(s0, LATE_STEPS, WriteRun(1, Lodge(1, Posted), 1, 0));
  }

  /** A late worker completes the request a second operation was coalesced
      into. */
  lemma LateWorkerLosesRefresh()
    ensures exists steps, w, o :: LateLoss(RunAll(Init(EXAMPLE), steps), w, o)
  {
    var first := WriteRun(0, Lodge(0, Posted), 0, 0);
    var rest := LATE_STEPS + WriteRun(1, Lodge(1, Posted), 1, 0);
    OnePosted();
    LateLossFollows(ONE_POSTED);
    RunAppend(Init(EXAMPLE), first, rest);
    assert LateLoss(RunAll(Init(EXAMPLE), first + rest), 0, 1);
  }

  // ----- Two workers on one portfolio -----

  lemma {:induction false} DeadLocksAppend(s: Sys, a: seq<Step>, b: seq<Step>)
    requires DeadLocksOnly(s, a) && DeadLocksOnly(RunAll(s, a), b)
    ensures DeadLocksOnly(s, a + b)
    decreases |a|
  {
    if a == [] {
      assert a + b == b;
    } else {
      assert (a + b)[0] == a[0] && (a + b)[1..] == a[1..] + b;
      DeadLocksAppend(Exec(s, a[0]), a[1..], b);
    }
  }

  lemma {:induction false} NoClaimsNoLocks(s: Sys, steps: seq<Step>)
    requires forall step | step in steps :: !step.WorkerClaim? && !step.SweepExhausted?
    ensures DeadLocksOnly(s, steps)
    decreases |steps|
  {
    if steps != [] {
      assert steps[0] in steps;
      NoClaimsNoLocks(Exec(s, steps[0]), steps[1..]);
    }
  }

  lemma ClaimOfPendingRow(s: Sys, w: RunId, r: RequestId)
    requires r in s.tables.requests && s.tables.requests[r].status == RefreshStatus.Pending
    ensures DeadLocksOnly(s, [WorkerClaim(w, r)])
  {
    assert [WorkerClaim(w, r)][1..] == [];
  }

  const SECOND := WriteRun(1, Lodge(1, Posted), 1, 1)

  const EARLY := [WorkerClaim(0, 0)] + [WorkerReadLedger(0)]

  lemma WorkerReadsFirst(s0: Sys)
    requires LodgedWaits(s0)
    ensures var s := RunAll(s0, EARLY);
      && Lodged(s) && s.runs == map[0 := Run(0, 1, 1, HasLedger({0}))]
      && s.tables.requests == map[0 := Request(1, 0, Processing, 1, false, {0})]
      && DeadLocksOnly(s0, EARLY)
  {
    LodgedPosts(s0);
    ClaimedAndRead(s0, 0, 0);
    ClaimOfPendingRow(s0, 0, 0);
    NoClaimsNoLocks(RunAll(s0, [WorkerClaim(0, 0)]), [WorkerReadLedger(0)]);
    DeadLocksAppend(s0, [WorkerClaim(0, 0)], [WorkerReadLedger(0)]);
  }

  /** Worker 0 has read the ledger of the first deposit when the second one is
      posted; as request 0 is already processing, it gets its own request. */
  lemma WorkerReadsEarly(s0: Sys)
    requires LodgedWaits(s0)
    ensures var s := RunAll(s0, EARLY + SECOND);
      && DeadLocksOnly(s0, EARLY + SECOND)
      && s.config == EXAMPLE && PostedIn(s.tables.operations, 1) == {0, 1}
      && s.tables.requests == map[0 := Request(1, 0, Processing, 1, false, {0}),
                                  1 := Request(1, 1, RefreshStatus.Pending, 0, false, {})]
      && s.runs == map[0 := Run(0, 1, 1, HasLedger({0}))]
  {
    WorkerReadsFirst(s0);
    SecondDeposit(RunAll(s0, EARLY), 1);
    RunAppend(s0, EARLY, SECOND);
    WriteRunLocks(RunAll(s0, EARLY), 1, Lodge(1, Posted), 1, 1);
    DeadLocksAppend(s0, EARLY, SECOND);
  }

  /** Every request of portfolio 1 is completed, its read model is not what is
      posted, and on the way locks only expired on dead workers. */
  ghost predicate LeavesStale(s: Sys, steps: seq<Step>) {
    && DeadLocksOnly(s, steps)
    && Quiescent(RunAll(s, steps).tables, 1)
    && ReadModelOf(RunAll(s, steps).tables, 1) != PostedIn(RunAll(s, steps).tables.operations, 1)
  }

  const TAIL := [WorkerComplete(1)] + [WorkerInstall(0)] + [WorkerComplete(0)]

  lemma TailInstallsOldLedger(s: Sys)
    requires PostedIn(s.tables.operations, 1) == {0, 1}
    requires s.tables.requests == map[0 := Request(1, 0, Processing, 1, false, {0}),
                                      1 := Request(1, 1, Processing, 1, false, {0, 1})]
    requires s.runs == map[0 := Run(0, 1, 1, HasLedger({0})), 1 := Run(1, 1, 1, Installed)]
    ensures var t := RunAll(s, TAIL).tables;
            Quiescent(t, 1) && ReadModelOf(t, 1) == {0} && PostedIn(t.operations, 1) == {0, 1}
  {
    RunWorkerComplete(s, 1);
    var s2 := RunAll(s, [WorkerComplete(1)]);
    assert s2.runs == map[0 := Run(0, 1, 1, HasLedger({0}))];
    RunWorkerInstall(s2, 0);
    var s3 := RunAll(s2, [WorkerInstall(0)]);
    RunWorkerComplete(s3, 0);
    RunAppend(s, [WorkerComplete(1)], [WorkerInstall(0)]);
    RunAppend(s, [WorkerComplete(1)] + [WorkerInstall(0)], [WorkerComplete(0)]);
  }

  /** Worker 1 serves the second request completely, then worker 0 installs what
      it read before. */
  lemma WorkerInstallsLate(s: Sys)
    requires s.config == EXAMPLE && PostedIn(s.tables.operations, 1) == {0, 1}
    requires s.tables.requests == map[0 := Request(1, 0, Processing, 1, false, {0}),
                                      1 := Request(1, 1, RefreshStatus.Pending, 0, false, {})]
    requires s.runs == map[0 := Run(0, 1, 1, HasLedger({0}))]
    ensures exists steps :: LeavesStale(s, steps)
  {
    var rebuild := [WorkerClaim(1, 1)] + [WorkerReadLedger(1)] + [WorkerInstall(1)];
    Rebuilt(s, 1, 1);
    var s1 := RunAll(s, rebuild);
    TailInstallsOldLedger(s1);
    RunAppend(s, rebuild, TAIL);
    LateStepsLocks(s, s1);
    assert 1 in {0, 1} && 1 !in {0};
    assert LeavesStale(s, rebuild + TAIL);
  }

  lemma LateStepsLocks(s: Sys, s1: Sys)
    requires s1 == RunAll(s, [WorkerClaim(1, 1)] + [WorkerReadLedger(1)] + [WorkerInstall(1)])
    requires 1 in s.tables.requests && s.tables.requests[1].status == RefreshStatus.Pending
    ensures DeadLocksOnly(s, ([WorkerClaim(1, 1)] + [WorkerReadLedger(1)] + [WorkerInstall(1)]) + TAIL)
  {
    var tail := [WorkerReadLedger(1)] + [WorkerInstall(1)];
    ClaimOfPendingRow(s, 1, 1);
    NoClaimsNoLocks(RunAll(s, [WorkerClaim(1, 1)]), tail);
    DeadLocksAppend(s, [WorkerClaim(1, 1)], tail);
    assert [WorkerClaim(1, 1)] + tail == [WorkerClaim(1, 1)] + [WorkerReadLedger(1)] + [WorkerInstall(1)];
    NoClaimsNoLocks(s1, TAIL);
    DeadLocksAppend(s, [WorkerClaim(1, 1)] + [WorkerReadLedger(1)] + [WorkerInstall(1)], TAIL);
  }

  lemma StaleSuffix(s: Sys, a: seq<Step>, b: seq<Step>)
    requires DeadLocksOnly(s, a) && LeavesStale(RunAll(s, a), b)
    ensures LeavesStale(s, a + b)
  {
    RunAppend(s, a, b);
    DeadLocksAppend(s, a, b);
  }

  lemma WriteRunLocks(s: Sys, c: ClientId, call: Call, op: OperationId, slot: RequestId)
    ensures DeadLocksOnly(s, WriteRun(c, call, op, slot))
  {
    NoClaimsNoLocks(s, WriteRun(c, call, op, slot));
  }

  lemma TwoWorkersLeaveStale(s0: Sys)
    requires LodgedWaits(s0)
    ensures exists steps :: LeavesStale(s0, steps)
  {
    WorkerReadsEarly(s0);
    WorkerInstallsLate(RunAll(s0, EARLY + SECOND));
    var late :| LeavesStale(RunAll(s0, EARLY + SECOND), late);
    StaleSuffix(s0, EARLY + SECOND, late);
  }

  /** Even when locks only expire on dead workers, two workers that rebuild one
      portfolio at the same time can leave all its requests completed and its
      read model without a posted operation. */
  lemma QuiescentCanBeStale()
    ensures exists steps :: LeavesStale(Init(EXAMPLE), steps)
  {
    var first := WriteRun(0, Lodge(0, Posted), 0, 0);
    OnePosted();
    TwoWorkersLeaveStale(ONE_POSTED);
    var late :| LeavesStale(ONE_POSTED, late);
    WriteRunLocks(Init(EXAMPLE), 0, Lodge(0, Posted), 0, 0);
    StaleSuffix(Init(EXAMPLE), first, late);
  }

  // ----- A correction that loses its link -----

  const FIX := Call.Correct(1, 1, 1, 0, CorrectionRequest(None, None, None, Some(5), None, None, NOTHING, None))

  lemma FixIsWritten()
    ensures var s := RunAll(ONE_POSTED, WriteRun(1, FIX, 1, 0));
      && s.config == EXAMPLE && 2 !in s.clients && LinkIntact(s.tables, (1, 1))
      && s.tables.records[(1, 1)].kind == CreateCorrection && s.tables.records[(1, 1)].operation == 1
      && s.tables.records[(1, 1)].corrected == Some(0)
      && var row := s.tables.operations[1];
         && row.portfolio == 1 && row.status == OperationStatus.Pending && row.asset.None? && row.relatedAsset.None?
         && RowConstraints(s.tables.operations, 1, row)
  {
    RunWrite(ONE_POSTED, 1, FIX, 1, 0);
  }

  lemma RecordsSurvive(s: Sys, steps: seq<Step>, k: Key)
    requires Inv(s) && k in s.tables.records
    ensures k in RunAll(s, steps).tables.records && RunAll(s, steps).tables.records[k] == s.tables.records[k]
  {
    RunKeepsInv(s, steps);
  }

  const UNLINK := PatchSteps(2, 1, 1, 1, NO_CHANGE.(corrected := Some(None)))

  lemma FixIsUnlinked(s: Sys)
    requires s == RunAll(ONE_POSTED, WriteRun(1, FIX, 1, 0)) && Inv(s)
    ensures var t := RunAll(s, UNLINK).tables;
            (1, 1) in t.records && t.records[(1, 1)].kind == CreateCorrection && !LinkIntact(t, (1, 1))
  {
    FixIsWritten();
    PatchRemovesLink(s, 2, 1, 1, (1, 1));
    RecordsSurvive(s, UNLINK, (1, 1));
  }

  /** A row made by the correction endpoint can lose its link. */
  lemma CorrectionCanLoseItsLink()
    ensures exists steps, k ::
      var t := RunAll(Init(EXAMPLE), steps).tables;
      k in t.records && t.records[k].kind == CreateCorrection && !LinkIntact(t, k)
  {
    var first := WriteRun(0, Lodge(0, Posted), 0, 0);
    var fix := WriteRun(1, FIX, 1, 0);
    OnePosted();
    RunAppend(Init(EXAMPLE), first, fix);
    Reachable(EXAMPLE, first + fix);
    FixIsUnlinked(RunAll(Init(EXAMPLE), first + fix));
    RunAppend(Init(EXAMPLE), first + fix, UNLINK);
    assert !LinkIntact(RunAll(Init(EXAMPLE), (first + fix) + UNLINK).tables, (1, 1));
  }
}
