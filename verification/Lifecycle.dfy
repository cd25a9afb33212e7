/** Lifecycle of ledger rows and the cross-currency rule, over whole runs.

    `post_operation` reads and validates a row and updates it in a later
    statement that has no condition on the row's status. What the row is at the
    commit, not at the read, decides whether the promises hold. */
module Lifecycle {
  import opened Ledger
  import opened Fingerprints
  import opened LedgerTables
  import opened Protocol
  import opened WriteInvariant
  import opened WriteSteps
  import opened ExactlyOnce

  // ----- What every run keeps -----

  /** A row that is posted at some point of a run is the same row for ever; no
      row disappears, changes portfolio, or goes back to pending. */
  lemma PostedRowsAreImmutable(config: Config, before: seq<Step>, after: seq<Step>, o: OperationId)
    requires o in RunAll(Init(config), before).tables.operations
    ensures var t := RunAll(Init(config), before).tables;
            var u := RunAll(RunAll(Init(config), before), after).tables;
            && o in u.operations
            && u.operations[o].portfolio == t.operations[o].portfolio
            && (t.operations[o].status == Posted ==> u.operations[o] == t.operations[o])
            && (u.operations[o].status == OperationStatus.Pending ==> t.operations[o].status == OperationStatus.Pending)
  {
    Reachable(config, before);
    RunKeepsInv(RunAll(Init(config), before), after);
  }

  /** The step commits an update of row `o`. */
  predicate Touches(s: Sys, step: Step, o: OperationId) {
    (step.CommitPost? || step.CommitCancel? || step.CommitPatch?) && step.c in s.clients
    && !IsWrite(s.clients[step.c].call) && s.clients[step.c].call.operation == o
  }

  lemma OnlyCommitsTouchOperations(s: Sys, step: Step)
    requires !IsCommitStep(step)
    ensures Exec(s, step).tables.operations == s.tables.operations
  {
  }

  /** A row only changes when a commit updates it. */
  lemma UntouchedRowStays(s: Sys, step: Step, o: OperationId)
    requires o in s.tables.operations && !Touches(s, step, o)
    ensures o in Exec(s, step).tables.operations
    ensures Exec(s, step).tables.operations[o] == s.tables.operations[o]
  {
    if !IsCommitStep(step) {
      OnlyCommitsTouchOperations(s, step);
    }
  }

  predicate LegalMove(from: OperationStatus, to: OperationStatus) {
    from == to || from == OperationStatus.Pending
  }

  /** The step updates an operation to `posted`. */
  predicate Posts(s: Sys, step: Step) {
    && step.CommitPost? && step.c in s.clients && s.clients[step.c].phase.ReadyToPost? && s.clients[step.c].call.Post?
    && FoundIn(s.tables, s.clients[step.c].call.operation, s.clients[step.c].call.portfolio)
    && s.tables.operations[s.clients[step.c].call.operation].status != Posted
    && SlotFor(s.tables.requests, s.clients[step.c].call.portfolio, step.slot)
  }

  function PostedRow(s: Sys, step: Step): OperationId
    requires Posts(s, step)
  {
    s.clients[step.c].call.operation
  }

  /** Every status change of a step is legal. */
  ghost predicate LegalStep(s: Sys, step: Step) {
    forall o | o in s.tables.operations && o in Exec(s, step).tables.operations ::
      LegalMove(s.tables.operations[o].status, Exec(s, step).tables.operations[o].status)
  }

  /** Only a cancel or a post changes a status, and only a post can leave the
      legal moves: exactly when the row it updates is no longer pending. */
  lemma LegalIffPending(s: Sys, step: Step)
    requires Inv(s)
    ensures LegalStep(s, step) <==>
              (Posts(s, step) ==> s.tables.operations[PostedRow(s, step)].status == OperationStatus.Pending)
  {
    var t, u := s.tables, Exec(s, step).tables;
    forall o | o in t.operations && o in u.operations && !(Posts(s, step) && o == PostedRow(s, step))
      ensures LegalMove(t.operations[o].status, u.operations[o].status)
    {
      if !Touches(s, step, o) {
        UntouchedRowStays(s, step, o);
      }
    }
    if Posts(s, step) {
      assert u.operations[PostedRow(s, step)].status == Posted;
    }
  }

  // ----- The cross-currency rule -----

  ghost predicate RuleHolds(config: Config, row: Row) {
    row.portfolio in config.portfolios && RowCrossCurrencyOk(row, BaseOf(config, row.portfolio))
  }

  /** Every posted operation with cash is in the base currency of its portfolio
      or carries a positive rate. */
  ghost predicate FxSafe(config: Config, operations: map<OperationId, Row>) {
    forall o {:trigger RuleHolds(config, operations[o])} | o in operations && operations[o].status == Posted ::
      RuleHolds(config, operations[o])
  }

  /** The post commits only if the row it updates still passes the rule. */
  ghost predicate GuardedStep(s: Sys, step: Step) {
    Posts(s, step) ==> RuleHolds(s.config, s.tables.operations[PostedRow(s, step)])
  }

  ghost predicate GuardedRun(s: Sys, steps: seq<Step>)
    decreases |steps|
  {
    steps == [] || (GuardedStep(s, steps[0]) && GuardedRun(Exec(s, steps[0]), steps[1..]))
  }

  lemma CommitKeepsFx(s: Sys, c: ClientId, op: OperationId, slot: RequestId, heard: bool)
    requires Inv(s) && FxSafe(s.config, s.tables.operations)
    ensures FxSafe(s.config, ExecCommit(s, c, op, slot, heard).tables.operations)
  {
    var s' := ExecCommit(s, c, op, slot, heard);
    if s'.tables != s.tables {
      assert ClientOk(s.config, s.tables, c, s.clients[c]);
      var candidate := s.clients[c].phase.candidate;
      forall o | o in s'.tables.operations && s'.tables.operations[o].status == Posted
        ensures RuleHolds(s.config, s'.tables.operations[o])
      {
        if o != op {
          assert RuleHolds(s.config, s.tables.operations[o]);
        } else {
          StoredRateKeepsRule(candidate, BaseOf(s.config, candidate.portfolio), KeyOf(s.clients[c].call));
        }
      }
    }
  }

  lemma UnpostedChangeKeepsFx(config: Config, operations: map<OperationId, Row>, operations': map<OperationId, Row>)
    requires FxSafe(config, operations)
    requires forall o | o in operations' && operations'[o].status == Posted ::
               o in operations && operations'[o] == operations[o]
    ensures FxSafe(config, operations')
  {
    forall o | o in operations' && operations'[o].status == Posted ensures RuleHolds(config, operations'[o]) {
      assert RuleHolds(config, operations[o]);
    }
  }

  lemma NoNewPostedRow(s: Sys, step: Step)
    requires !step.Commit? && !Posts(s, step)
    ensures var u := Exec(s, step).tables;
            forall o | o in u.operations && u.operations[o].status == Posted ::
              o in s.tables.operations && u.operations[o] == s.tables.operations[o]
  {
    if !IsCommitStep(step) {
      OnlyCommitsTouchOperations(s, step);
    }
  }

  lemma GuardedStepKeepsFx(s: Sys, step: Step)
    requires Inv(s) && FxSafe(s.config, s.tables.operations) && GuardedStep(s, step)
    ensures FxSafe(s.config, Exec(s, step).tables.operations)
  {
    if step.Commit? {
      CommitKeepsFx(s, step.c, step.op, step.slot, step.heard);
    } else if Posts(s, step) {
      var u := Exec(s, step).tables;
      forall o | o in u.operations && u.operations[o].status == Posted ensures RuleHolds(s.config, u.operations[o]) {
        if o != PostedRow(s, step) { assert RuleHolds(s.config, s.tables.operations[o]); }
      }
    } else {
      NoNewPostedRow(s, step);
      UnpostedChangeKeepsFx(s.config, s.tables.operations, Exec(s, step).tables.operations);
    }
  }

  lemma {:induction false} UnsafeStaysUnsafe(s: Sys, steps: seq<Step>)
    requires Inv(s) && !FxSafe(s.config, s.tables.operations)
    ensures !FxSafe(s.config, RunAll(s, steps).tables.operations)
  {
    RunKeepsInv(s, steps);
    var o :| o in s.tables.operations && s.tables.operations[o].status == Posted
             && !RuleHolds(s.config, s.tables.operations[o]);
    var u := RunAll(s, steps).tables;
    assert u.operations[o] == s.tables.operations[o];
    assert !RuleHolds(s.config, u.operations[o]);
  }

  /** Over any run from a safe state, the ledger ends safe exactly when every
      post found, at its commit, a row that still passes the rule. */
  lemma {:induction false} FxSafeIffGuarded(s: Sys, steps: seq<Step>)
    requires Inv(s) && FxSafe(s.config, s.tables.operations)
    ensures FxSafe(s.config, RunAll(s, steps).tables.operations) <==> GuardedRun(s, steps)
    decreases |steps|
  {
    if steps != [] {
      var s1 := Exec(s, steps[0]);
      StepKeepsInv(s, steps[0]);
      ConfigStays(s, steps[0]);
      if GuardedStep(s, steps[0]) {
        GuardedStepKeepsFx(s, steps[0]);
        FxSafeIffGuarded(s1, steps[1..]);
      } else {
        var o := PostedRow(s, steps[0]);
        assert !RuleHolds(s.config, s1.tables.operations[o]);
        UnsafeStaysUnsafe(s1, steps[1..]);
      }
    }
  }

  /** All four posting paths: direct creations and direct corrections can never
      break the rule; posts of pending rows break it exactly when unguarded. */
  lemma FxSafetyOfRuns(config: Config, steps: seq<Step>)
    ensures FxSafe(config, RunAll(Init(config), steps).tables.operations) <==> GuardedRun(Init(config), steps)
  {
    InitInv(config);
    FxSafeIffGuarded(Init(config), steps);
  }

  // ----- A discipline that is enough -----

  /** No cancel and no patch commits on a row while a post of it is between its
      read and its commit. */
  ghost predicate Undisturbed(s: Sys, step: Step) {
    (step.CommitCancel? || step.CommitPatch?) && step.c in s.clients && !IsWrite(s.clients[step.c].call) ==>
      forall d | d in s.clients && s.clients[d].phase.ReadyToPost? && s.clients[d].call.Post? ::
        s.clients[d].call.operation != s.clients[step.c].call.operation
  }

  ghost predicate UndisturbedRun(s: Sys, steps: seq<Step>)
    decreases |steps|
  {
    steps == [] || (Undisturbed(s, steps[0]) && UndisturbedRun(Exec(s, steps[0]), steps[1..]))
  }

  /** What a client about to post still knows about its row. */
  ghost predicate StillPostable(config: Config, t: Tables, client: Client) {
    client.phase.ReadyToPost? && client.call.Post? ==>
      && FoundIn(t, client.call.operation, client.call.portfolio)
      && var row := t.operations[client.call.operation];
         row.status == Posted || (row.status == OperationStatus.Pending && RuleHolds(config, row))
  }

  ghost predicate AllStillPostable(config: Config, t: Tables, clients: map<ClientId, Client>) {
    forall d {:trigger StillPostable(config, t, clients[d])} | d in clients :: StillPostable(config, t, clients[d])
  }

  lemma UndisturbedKeepsOnePostable(s: Sys, step: Step, d: ClientId)
    requires Undisturbed(s, step) && d in s.clients && StillPostable(s.config, s.tables, s.clients[d])
    requires s.clients[d].phase.ReadyToPost? && s.clients[d].call.Post?
    ensures StillPostable(s.config, Exec(s, step).tables, s.clients[d])
  {
    var o := s.clients[d].call.operation;
    if !Touches(s, step, o) {
      UntouchedRowStays(s, step, o);
    }
  }

  lemma OnlyReadsMakeReady(s: Sys, step: Step, d: ClientId)
    requires !step.ReadForPost? && d in Exec(s, step).clients && Exec(s, step).clients[d].phase.ReadyToPost?
    ensures d in s.clients && s.clients[d].phase.ReadyToPost?
  {
  }

  /** A client that starts to wait for its post has just validated the row. */
  lemma ReadyToPostIsFresh(s: Sys, step: Step, d: ClientId)
    requires Inv(s) && d in Exec(s, step).clients
    requires Exec(s, step).clients[d].phase.ReadyToPost?
    requires d in s.clients ==> !s.clients[d].phase.ReadyToPost?
    ensures StillPostable(s.config, Exec(s, step).tables, Exec(s, step).clients[d])
  {
    if !step.ReadForPost? {
      OnlyReadsMakeReady(s, step, d);
    }
  }

  lemma WorkerStepsKeepClients(s: Sys, step: Step)
    requires IsWorkerStep(step) || step.SetAsset?
    ensures Exec(s, step).clients == s.clients
  {
  }

  lemma CallsStay(s: Sys, step: Step, d: ClientId)
    requires d in s.clients
    ensures d in Exec(s, step).clients && Exec(s, step).clients[d].call == s.clients[d].call
  {
    if IsWorkerStep(step) || step.SetAsset? {
      WorkerStepsKeepClients(s, step);
    }
  }

  lemma UndisturbedKeepsPostable(s: Sys, step: Step)
    requires Inv(s) && Undisturbed(s, step) && AllStillPostable(s.config, s.tables, s.clients)
    ensures AllStillPostable(s.config, Exec(s, step).tables, Exec(s, step).clients)
  {
    var s' := Exec(s, step);
    forall d | d in s'.clients && s'.clients[d].phase.ReadyToPost? && s'.clients[d].call.Post?
      ensures StillPostable(s.config, s'.tables, s'.clients[d])
    {
      if d in s.clients && s.clients[d].phase.ReadyToPost? {
        CallsStay(s, step, d);
        assert StillPostable(s.config, s.tables, s.clients[d]);
        UndisturbedKeepsOnePostable(s, step, d);
      } else {
        ReadyToPostIsFresh(s, step, d);
      }
    }
  }

  /** In an undisturbed run every status change is legal and every posted row
      obeys the cross-currency rule. */
  ghost predicate LegalRun(s: Sys, steps: seq<Step>)
    decreases |steps|
  {
    steps == [] || (LegalStep(s, steps[0]) && LegalRun(Exec(s, steps[0]), steps[1..]))
  }

  lemma {:induction false} UndisturbedRunsAreLegal(s: Sys, steps: seq<Step>)
    requires Inv(s) && AllStillPostable(s.config, s.tables, s.clients) && UndisturbedRun(s, steps)
    ensures LegalRun(s, steps) && GuardedRun(s, steps)
    decreases |steps|
  {
    if steps != [] {
      if Posts(s, steps[0]) {
        assert StillPostable(s.config, s.tables, s.clients[steps[0].c]);
      }
      LegalIffPending(s, steps[0]);
      StepKeepsInv(s, steps[0]);
      ConfigStays(s, steps[0]);
      UndisturbedKeepsPostable(s, steps[0]);
      UndisturbedRunsAreLegal(Exec(s, steps[0]), steps[1..]);
    }
  }

  lemma UndisturbedRunsKeepPromises(config: Config, steps: seq<Step>)
    requires UndisturbedRun(Init(config), steps)
    ensures LegalRun(Init(config), steps)
    ensures FxSafe(config, RunAll(Init(config), steps).tables.operations)
  {
    InitInv(config);
    UndisturbedRunsAreLegal(Init(config), steps);
    FxSafetyOfRuns(config, steps);
  }

  // ----- The link of a correction -----

  /** The row of a correction still points to the operation its record names. */
  ghost predicate LinkIntact(t: Tables, k: Key) {
    k in t.records && t.records[k].operation in t.operations
    && t.operations[t.records[k].operation].corrected == t.records[k].corrected
  }

  /** A correction posted at creation keeps its link to a posted operation of
      its portfolio in every reachable state. */
  lemma PostedCorrectionKeepsLink(config: Config, steps: seq<Step>, k: Key)
    requires var t := RunAll(Init(config), steps).tables;
             k in t.records && t.records[k].kind == CreateCorrection && t.records[k].candidate.status == Posted
    ensures var t := RunAll(Init(config), steps).tables;
            && LinkIntact(t, k)
            && t.records[k].corrected.Some?
            && FoundIn(t, t.records[k].corrected.value, t.records[k].portfolio)
            && t.operations[t.records[k].corrected.value].status == Posted
  {
    Reachable(config, steps);
    var t := RunAll(Init(config), steps).tables;
    assert RecordOk(t, k, t.records[k]);
  }

  lemma RecordStays(s: Sys, step: Step, k: Key)
    requires Inv(s) && k in s.tables.records
    ensures k in Exec(s, step).tables.records && Exec(s, step).tables.records[k] == s.tables.records[k]
  {
    StepKeepsInv(s, step);
  }

  lemma TouchedLink(s: Sys, step: Step, o: OperationId)
    requires Touches(s, step, o) && o in s.tables.operations
    ensures o in Exec(s, step).tables.operations
    ensures Exec(s, step).tables.operations[o].corrected ==
              if step.CommitPatch? && Exec(s, step).tables != s.tables then s.clients[step.c].phase.update.corrected
              else s.tables.operations[o].corrected
  {
  }

  /** A step breaks the link of a correction exactly when it commits a patch of
      that row whose merged link is another one. */
  lemma LinkBrokenIffPatched(s: Sys, step: Step, k: Key)
    requires Inv(s) && LinkIntact(s.tables, k)
    ensures !LinkIntact(Exec(s, step).tables, k) <==>
              && step.CommitPatch? && Exec(s, step).tables != s.tables
              && s.clients[step.c].call.operation == s.tables.records[k].operation
              && s.clients[step.c].phase.update.corrected != s.tables.records[k].corrected
  {
    var o := s.tables.records[k].operation;
    RecordStays(s, step, k);
    if Touches(s, step, o) {
      TouchedLink(s, step, o);
    } else {
      UntouchedRowStays(s, step, o);
    }
  }
}
