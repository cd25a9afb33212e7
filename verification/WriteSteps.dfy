/** Every step of the protocol keeps the write invariant, and committed rows
    only evolve forward. */
module WriteSteps {
  import opened Ledger
  import opened Fingerprints
  import opened LedgerTables
  import opened Protocol
  import opened WriteInvariant

  // ----- Steps that move one client -----

  lemma CanonicalizeKeepsInv(s: Sys, c: ClientId)
    requires Inv(s)
    ensures Inv(ExecCanonicalize(s, c))
  {
    var s' := ExecCanonicalize(s, c);
    if s' != s {
      assert ClientOk(s.config, s.tables, c, s.clients[c]);
      assert ClientOk(s.config, s.tables, c, s'.clients[c]);
      SetClientKeepsInv(s, c, s'.clients[c]);
      assert s' == s.(clients := s.clients[c := s'.clients[c]]);
    }
  }

  lemma LookupKeepsInv(s: Sys, c: ClientId)
    requires Inv(s)
    ensures Inv(ExecLookup(s, c))
  {
    var s' := ExecLookup(s, c);
    if s' != s {
      assert ClientOk(s.config, s.tables, c, s.clients[c]);
      MoveKeepsInv(s, c, s'.clients[c].phase);
    }
  }

  lemma ValidateKeepsInv(s: Sys, c: ClientId, payloadOk: bool)
    requires Inv(s)
    ensures Inv(ExecValidate(s, c, payloadOk))
  {
    var s' := ExecValidate(s, c, payloadOk);
    if s' != s {
      assert ClientOk(s.config, s.tables, c, s.clients[c]);
      MoveKeepsInv(s, c, s'.clients[c].phase);
    }
  }

  lemma ClaimKeepsInv(s: Sys, c: ClientId)
    requires Inv(s)
    ensures Inv(ExecClaim(s, c))
  {
    var s' := ExecClaim(s, c);
    if s' != s {
      assert ClientOk(s.config, s.tables, c, s.clients[c]);
      MoveKeepsInv(s, c, s'.clients[c].phase);
    }
  }

  lemma RereadKeepsInv(s: Sys, c: ClientId)
    requires Inv(s)
    ensures Inv(ExecReread(s, c))
  {
    var s' := ExecReread(s, c);
    if s' != s {
      assert ClientOk(s.config, s.tables, c, s.clients[c]);
      MoveKeepsInv(s, c, s'.clients[c].phase);
    }
  }

  lemma ReplayKeepsInv(s: Sys, c: ClientId)
    requires Inv(s)
    ensures Inv(ExecReplay(s, c))
  {
    var s' := ExecReplay(s, c);
    if s' != s {
      assert ClientOk(s.config, s.tables, c, s.clients[c]);
      var k := KeyOf(s.clients[c].call);
      assert RecordOk(s.tables, k, s.tables.records[k]);
      MoveKeepsInv(s, c, s'.clients[c].phase);
    }
  }

  lemma AbortKeepsInv(s: Sys, c: ClientId)
    requires Inv(s)
    ensures Inv(ExecAbort(s, c))
  {
    if ExecAbort(s, c) != s {
      assert ClientOk(s.config, s.tables, c, s.clients[c]);
      UnfinishedWroteNothing(s, c);
      MoveKeepsInv(s, c, Done(DatabaseError));
    }
  }

  /** A client that has not answered is the winner of no record. */
  lemma UnfinishedWroteNothing(s: Sys, c: ClientId)
    requires WinnersOk(s.tables.records, s.clients) && c in s.clients && !s.clients[c].phase.Done?
    ensures forall k | k in s.tables.records :: s.tables.records[k].winner != c
  {
    forall k | k in s.tables.records ensures s.tables.records[k].winner != c {
      assert WinnerOk(s.clients, k, s.tables.records[k]);
    }
  }

  lemma ReadForPostKeepsInv(s: Sys, c: ClientId, payloadOk: bool)
    requires Inv(s)
    ensures Inv(ExecReadForPost(s, c, payloadOk))
  {
    var s' := ExecReadForPost(s, c, payloadOk);
    if s' != s {
      assert ClientOk(s.config, s.tables, c, s.clients[c]);
      MoveKeepsInv(s, c, s'.clients[c].phase);
    }
  }

  lemma ReadForCancelKeepsInv(s: Sys, c: ClientId)
    requires Inv(s)
    ensures Inv(ExecReadForCancel(s, c))
  {
    var s' := ExecReadForCancel(s, c);
    if s' != s {
      assert ClientOk(s.config, s.tables, c, s.clients[c]);
      MoveKeepsInv(s, c, s'.clients[c].phase);
    }
  }

  lemma ReadForPatchKeepsInv(s: Sys, c: ClientId, payloadOk: bool)
    requires Inv(s)
    ensures Inv(ExecReadForPatch(s, c, payloadOk))
  {
    var s' := ExecReadForPatch(s, c, payloadOk);
    if s' != s {
      assert ClientOk(s.config, s.tables, c, s.clients[c]);
      MoveKeepsInv(s, c, s'.clients[c].phase);
    }
  }

  lemma ArriveKeepsInv(s: Sys, c: ClientId, call: Call)
    requires Inv(s)
    ensures Inv(ExecArrive(s, c, call))
  {
    var s' := ExecArrive(s, c, call);
    if s' != s {
      forall d | d in s'.clients ensures ClientOk(s.config, s.tables, d, s'.clients[d]) {
        if d != c { assert ClientOk(s.config, s.tables, d, s.clients[d]); }
      }
      forall k | k in s.tables.records ensures WinnerOk(s'.clients, k, s.tables.records[k]) {
        assert WinnerOk(s.clients, k, s.tables.records[k]);
      }
      assert ClaimsExclusive(s'.clients);
    }
  }

  // ----- Steps that change the queue only -----

  lemma EnqueueKeepsQueue(config: Config, requests: map<RequestId, Request>, p: PortfolioId, trigger: OperationId,
                          slot: RequestId)
    requires QueueOk(config, requests) && SlotFor(requests, p, slot)
    ensures QueueOk(config, Enqueue(requests, p, trigger, slot))
    ensures PendingFor(Enqueue(requests, p, trigger, slot), slot, p)
  {
  }

  /** Requests keep their portfolio and never lose an attempt. */
  ghost predicate QueueEvolves(requests: map<RequestId, Request>, requests': map<RequestId, Request>) {
    forall r | r in requests ::
      && r in requests'
      && requests'[r].portfolio == requests[r].portfolio
      && requests'[r].attempts >= requests[r].attempts
  }

  lemma QueueChangeKeepsTables(config: Config, t: Tables, requests: map<RequestId, Request>)
    requires TablesOk(config, t) && QueueEvolves(t.requests, requests) && QueueOk(config, requests)
    ensures TablesOk(config, t.(requests := requests)) && Evolves(t, t.(requests := requests))
  {
    var u := t.(requests := requests);
    forall k | k in u.records ensures RecordOk(u, k, u.records[k]) {
      assert RecordOk(t, k, t.records[k]);
    }
    forall o | o in u.operations ensures RowOk(config, u, o, u.operations[o]) {
      assert RowOk(config, t, o, t.operations[o]);
    }
  }

  lemma RunsStay(requests: map<RequestId, Request>, requests': map<RequestId, Request>, runs: map<RunId, Run>)
    requires RunsOk(requests, runs) && QueueEvolves(requests, requests')
    ensures RunsOk(requests', runs)
  {
    forall w | w in runs ensures RunOk(requests', runs[w]) {
      assert RunOk(requests, runs[w]);
    }
  }

  /** A step that changes the queue and the worker runs. */
  lemma QueueStepKeepsInv(s: Sys, requests: map<RequestId, Request>, runs: map<RunId, Run>)
    requires Inv(s) && QueueEvolves(s.tables.requests, requests) && QueueOk(s.config, requests)
    requires RunsOk(requests, runs)
    ensures Inv(s.(tables := s.tables.(requests := requests), runs := runs))
    ensures Evolves(s.tables, s.tables.(requests := requests))
  {
    QueueChangeKeepsTables(s.config, s.tables, requests);
    TablesKeepInv(s, s.(tables := s.tables.(requests := requests), runs := runs));
  }

  lemma WorkerClaimKeepsInv(s: Sys, run: RunId, r: RequestId)
    requires Inv(s)
    ensures Inv(ExecWorkerClaim(s, run, r)) && Evolves(s.tables, ExecWorkerClaim(s, run, r).tables)
  {
    var s' := ExecWorkerClaim(s, run, r);
    if s' != s {
      RunsStay(s.tables.requests, s'.tables.requests, s.runs);
      forall w | w in s'.runs ensures RunOk(s'.tables.requests, s'.runs[w]) {
        if w != run { assert RunOk(s'.tables.requests, s.runs[w]); }
      }
      QueueStepKeepsInv(s, s'.tables.requests, s'.runs);
      assert s' == s.(tables := s.tables.(requests := s'.tables.requests), runs := s'.runs);
    }
  }

  lemma DropRun(requests: map<RequestId, Request>, runs: map<RunId, Run>, run: RunId)
    requires RunsOk(requests, runs)
    ensures RunsOk(requests, runs - {run})
  {
    forall w | w in runs - {run} ensures RunOk(requests, (runs - {run})[w]) {
      assert RunOk(requests, runs[w]);
    }
  }

  lemma WorkerCompleteKeepsInv(s: Sys, run: RunId)
    requires Inv(s)
    ensures Inv(ExecWorkerComplete(s, run)) && Evolves(s.tables, ExecWorkerComplete(s, run).tables)
  {
    var s' := ExecWorkerComplete(s, run);
    if s' != s {
      RunsStay(s.tables.requests, s'.tables.requests, s.runs);
      DropRun(s'.tables.requests, s.runs, run);
      QueueStepKeepsInv(s, s'.tables.requests, s'.runs);
      assert s' == s.(tables := s.tables.(requests := s'.tables.requests), runs := s'.runs);
    }
  }

  lemma WorkerErrorKeepsInv(s: Sys, run: RunId)
    requires Inv(s)
    ensures Inv(ExecWorkerError(s, run)) && Evolves(s.tables, ExecWorkerError(s, run).tables)
  {
    var s' := ExecWorkerError(s, run);
    if s' != s {
      RunsStay(s.tables.requests, s'.tables.requests, s.runs);
      DropRun(s'.tables.requests, s.runs, run);
      QueueStepKeepsInv(s, s'.tables.requests, s'.runs);
      assert s' == s.(tables := s.tables.(requests := s'.tables.requests), runs := s'.runs);
    }
  }

  lemma SweepKeepsInv(s: Sys, r: RequestId)
    requires Inv(s)
    ensures Inv(ExecSweep(s, r)) && Evolves(s.tables, ExecSweep(s, r).tables)
  {
    var s' := ExecSweep(s, r);
    if s' != s {
      RunsStay(s.tables.requests, s'.tables.requests, s.runs);
      QueueStepKeepsInv(s, s'.tables.requests, s.runs);
      assert s' == s.(tables := s.tables.(requests := s'.tables.requests), runs := s.runs);
    }
  }

  // ----- Steps that change no request and no row of the ledger -----

  lemma QuietTablesKeepInv(s: Sys, s': Sys)
    requires Inv(s)
    requires s'.config == s.config && s'.clients == s.clients
    requires s'.tables.operations == s.tables.operations && s'.tables.records == s.tables.records
    requires s'.tables.requests == s.tables.requests && RunsOk(s.tables.requests, s'.runs)
    ensures Inv(s') && Evolves(s.tables, s'.tables)
  {
    var t, u := s.tables, s'.tables;
    forall k | k in u.records ensures RecordOk(u, k, u.records[k]) {
      assert RecordOk(t, k, t.records[k]);
    }
    forall o | o in u.operations ensures RowOk(s.config, u, o, u.operations[o]) {
      assert RowOk(s.config, t, o, t.operations[o]);
    }
    TablesKeepInv(s, s');
  }

  lemma SetRunPhase(requests: map<RequestId, Request>, runs: map<RunId, Run>, run: RunId, phase: RunPhase)
    requires RunsOk(requests, runs) && run in runs
    ensures RunsOk(requests, runs[run := runs[run].(phase := phase)])
  {
    var runs' := runs[run := runs[run].(phase := phase)];
    forall w | w in runs' ensures RunOk(requests, runs'[w]) {
      assert RunOk(requests, runs[w]);
    }
  }

  // ----- Commits to the ledger -----

  /** A change of one row that is not posted, and of the queue. */
  lemma RowChangeKeepsTables(config: Config, t: Tables, u: Tables, o: OperationId)
    requires TablesOk(config, t) && o in t.operations && t.operations[o].status != Posted
    requires u.records == t.records && u.operations.Keys == t.operations.Keys
    requires forall q | q in t.operations && q != o :: u.operations[q] == t.operations[q]
    requires u.operations[o].portfolio == t.operations[o].portfolio && u.operations[o].origin == t.operations[o].origin
    requires u.operations[o].rate.Some? ==> u.operations[o].rate.value > 0.0
    requires u.operations[o].status == OperationStatus.Pending ==> t.operations[o].status == OperationStatus.Pending
    requires QueueEvolves(t.requests, u.requests) && QueueOk(config, u.requests)
    ensures TablesOk(config, u) && Evolves(t, u)
  {
    RowChangeEvolves(t, u, o);
    forall k | k in u.records ensures RecordOk(u, k, u.records[k]) {
      assert RecordOk(t, k, t.records[k]);
      RecordSurvives(t, u, k);
    }
    forall q | q in u.operations ensures RowOk(config, u, q, u.operations[q]) {
      assert RowOk(config, t, q, t.operations[q]);
    }
  }

  lemma RowChangeEvolves(t: Tables, u: Tables, o: OperationId)
    requires o in t.operations && t.operations[o].status != Posted
    requires u.records == t.records && u.operations.Keys == t.operations.Keys
    requires forall q | q in t.operations && q != o :: u.operations[q] == t.operations[q]
    requires u.operations[o].portfolio == t.operations[o].portfolio && u.operations[o].origin == t.operations[o].origin
    requires u.operations[o].status == OperationStatus.Pending ==> t.operations[o].status == OperationStatus.Pending
    requires QueueEvolves(t.requests, u.requests)
    ensures Evolves(t, u)
  {
  }

  lemma RecordSurvives(t: Tables, u: Tables, k: Key)
    requires k in t.records && RecordOk(t, k, t.records[k]) && Evolves(t, u)
    ensures RecordOk(u, k, t.records[k])
  {
  }

  lemma ClientThenTablesKeepInv(s: Sys, c: ClientId, outcome: Outcome, u: Tables)
    requires Inv(s) && c in s.clients && !s.clients[c].phase.Done?
    requires outcome.PostedNow? || outcome.Updated? || (outcome.DatabaseError? && !IsWrite(s.clients[c].call))
    requires TablesOk(s.config, u) && Evolves(s.tables, u) && u.records == s.tables.records
    requires QueueEvolves(s.tables.requests, u.requests)
    ensures Inv(Finish(s, c, outcome).(tables := u))
  {
    assert ClientOk(s.config, s.tables, c, s.clients[c]);
    MoveKeepsInv(s, c, Done(outcome));
    RunsStay(s.tables.requests, u.requests, s.runs);
    TablesKeepInv(Finish(s, c, outcome), Finish(s, c, outcome).(tables := u));
  }

  lemma PostRowKeepsTables(config: Config, t: Tables, o: OperationId, slot: RequestId)
    requires TablesOk(config, t) && o in t.operations && t.operations[o].status != Posted
    requires SlotFor(t.requests, t.operations[o].portfolio, slot)
    ensures TablesOk(config, PostRow(t, o, slot)) && Evolves(t, PostRow(t, o, slot))
    ensures QueueEvolves(t.requests, PostRow(t, o, slot).requests)
  {
    assert RowOk(config, t, o, t.operations[o]);
    EnqueueKeepsQueue(config, t.requests, t.operations[o].portfolio, o, slot);
    RowChangeKeepsTables(config, t, PostRow(t, o, slot), o);
  }

  lemma CommitPostKeepsInv(s: Sys, c: ClientId, slot: RequestId, heard: bool)
    requires Inv(s)
    ensures Inv(ExecCommitPost(s, c, slot, heard)) && Evolves(s.tables, ExecCommitPost(s, c, slot, heard).tables)
  {
    var s' := ExecCommitPost(s, c, slot, heard);
    if s'.tables == s.tables {
      if s' != s {
        assert ClientOk(s.config, s.tables, c, s.clients[c]);
        MoveKeepsInv(s, c, s'.clients[c].phase);
      }
    } else {
      var o := s.clients[c].call.operation;
      PostRowKeepsTables(s.config, s.tables, o, slot);
      ClientThenTablesKeepInv(s, c, Answer(heard, PostedNow(o, slot)), s'.tables);
    }
  }

  lemma CommitCancelKeepsInv(s: Sys, c: ClientId, heard: bool)
    requires Inv(s)
    ensures Inv(ExecCommitCancel(s, c, heard)) && Evolves(s.tables, ExecCommitCancel(s, c, heard).tables)
  {
    var s' := ExecCommitCancel(s, c, heard);
    if s'.tables == s.tables {
      if s' != s {
        assert ClientOk(s.config, s.tables, c, s.clients[c]);
        MoveKeepsInv(s, c, s'.clients[c].phase);
      }
    } else {
      var o := s.clients[c].call.operation;
      assert RowOk(s.config, s.tables, o, s.tables.operations[o]);
      RowChangeKeepsTables(s.config, s.tables, s'.tables, o);
      ClientThenTablesKeepInv(s, c, Answer(heard, Updated), s'.tables);
    }
  }

  lemma CommitPatchKeepsInv(s: Sys, c: ClientId, heard: bool)
    requires Inv(s)
    ensures Inv(ExecCommitPatch(s, c, heard)) && Evolves(s.tables, ExecCommitPatch(s, c, heard).tables)
  {
    var s' := ExecCommitPatch(s, c, heard);
    if s'.tables == s.tables {
      if s' != s {
        assert ClientOk(s.config, s.tables, c, s.clients[c]);
        MoveKeepsInv(s, c, s'.clients[c].phase);
      }
    } else {
      var o := s.clients[c].call.operation;
      RowChangeKeepsTables(s.config, s.tables, s'.tables, o);
      ClientThenTablesKeepInv(s, c, Answer(heard, Updated), s'.tables);
    }
  }

  // ----- The idempotent insert -----

  lemma InsertEvolves(config: Config, t: Tables, key: Key, kind: RequestKind, corrected: Option<OperationId>,
                      fingerprint: Fingerprint, candidate: NewOperation, op: OperationId, slot: RequestId,
                      winner: ClientId)
    requires TablesOk(config, t) && key !in t.records && InsertAllowed(t, candidate, key, op, slot)
    ensures Evolves(t, Insert(t, key, kind, corrected, fingerprint, candidate, op, slot, winner))
    ensures QueueOk(config, Insert(t, key, kind, corrected, fingerprint, candidate, op, slot, winner).requests)
    ensures QueueEvolves(t.requests, Insert(t, key, kind, corrected, fingerprint, candidate, op, slot, winner).requests)
  {
    if candidate.status == Posted {
      EnqueueKeepsQueue(config, t.requests, candidate.portfolio, op, slot);
    }
  }

  lemma InsertKeepsTables(config: Config, t: Tables, key: Key, call: Call, candidate: NewOperation, op: OperationId,
                          slot: RequestId, winner: ClientId)
    requires TablesOk(config, t) && IsWrite(call) && key == KeyOf(call) && key !in t.records
    requires Settled(t, call) && Asked(call, Some(candidate), candidate, FingerprintOf(call, candidate))
    requires candidate.portfolio in config.portfolios && InsertAllowed(t, candidate, key, op, slot)
    ensures TablesOk(config, Insert(t, key, KindOf(call), CorrectedBy(call), FingerprintOf(call, candidate), candidate,
                                    op, slot, winner))
  {
    var u := Insert(t, key, KindOf(call), CorrectedBy(call), FingerprintOf(call, candidate), candidate, op, slot,
                    winner);
    InsertEvolves(config, t, key, KindOf(call), CorrectedBy(call), FingerprintOf(call, candidate), candidate, op, slot,
                  winner);
    forall k | k in u.records ensures RecordOk(u, k, u.records[k]) {
      if k != key { assert RecordOk(t, k, t.records[k]); }
    }
    forall o | o in u.operations ensures RowOk(config, u, o, u.operations[o]) {
      if o != op { assert RowOk(config, t, o, t.operations[o]); }
    }
  }

  lemma CommitKeepsClients(s: Sys, c: ClientId, op: OperationId, slot: RequestId, heard: bool)
    requires Inv(s) && ExecCommit(s, c, op, slot, heard).tables != s.tables
    ensures ClientsOk(s.config, ExecCommit(s, c, op, slot, heard).tables, ExecCommit(s, c, op, slot, heard).clients)
  {
    var s' := ExecCommit(s, c, op, slot, heard);
    var InTransaction(candidate, fingerprint) := s.clients[c].phase;
    var call := s.clients[c].call;
    assert ClientOk(s.config, s.tables, c, s.clients[c]);
    InsertEvolves(s.config, s.tables, KeyOf(call), KindOf(call), CorrectedBy(call), fingerprint, candidate, op, slot,
                  c);
    forall d | d in s'.clients ensures ClientOk(s.config, s'.tables, d, s'.clients[d]) {
      if d != c {
        assert ClientOk(s.config, s.tables, d, s.clients[d]);
        ClientStays(s.config, s.tables, s'.tables, d, s.clients[d]);
      }
    }
  }

  lemma CommitKeepsWinners(s: Sys, c: ClientId, op: OperationId, slot: RequestId, heard: bool)
    requires Inv(s) && ExecCommit(s, c, op, slot, heard).tables != s.tables
    ensures WinnersOk(ExecCommit(s, c, op, slot, heard).tables.records, ExecCommit(s, c, op, slot, heard).clients)
  {
    var s' := ExecCommit(s, c, op, slot, heard);
    forall k | k in s'.tables.records ensures WinnerOk(s'.clients, k, s'.tables.records[k]) {
      if k != KeyOf(s.clients[c].call) { assert WinnerOk(s.clients, k, s.tables.records[k]); }
    }
  }

  lemma CommitKeepsInv(s: Sys, c: ClientId, op: OperationId, slot: RequestId, heard: bool)
    requires Inv(s)
    ensures Inv(ExecCommit(s, c, op, slot, heard)) && Evolves(s.tables, ExecCommit(s, c, op, slot, heard).tables)
  {
    var s' := ExecCommit(s, c, op, slot, heard);
    if s'.tables != s.tables {
      var InTransaction(candidate, fingerprint) := s.clients[c].phase;
      var call := s.clients[c].call;
      assert ClientOk(s.config, s.tables, c, s.clients[c]);
      InsertEvolves(s.config, s.tables, KeyOf(call), KindOf(call), CorrectedBy(call), fingerprint, candidate, op, slot,
                    c);
      InsertKeepsTables(s.config, s.tables, KeyOf(call), call, candidate, op, slot, c);
      CommitKeepsClients(s, c, op, slot, heard);
      CommitKeepsWinners(s, c, op, slot, heard);
      SetClientKeepsClaims(s, c, s'.clients[c]);
      RunsStay(s.tables.requests, s'.tables.requests, s.runs);
    }
  }

  // ----- Any step, any run -----

  lemma EvolvesReflexive(t: Tables)
    ensures Evolves(t, t)
  {
  }

  lemma EvolvesTransitive(t: Tables, u: Tables, v: Tables)
    requires Evolves(t, u) && Evolves(u, v)
    ensures Evolves(t, v)
  {
  }

  predicate IsWorkerStep(step: Step) {
    step.WorkerClaim? || step.WorkerReadLedger? || step.WorkerInstall? || step.WorkerComplete?
    || step.WorkerError? || step.WorkerCrash? || step.SweepExhausted?
  }

  predicate IsCommitStep(step: Step) {
    step.Commit? || step.CommitPost? || step.CommitCancel? || step.CommitPatch?
  }

  lemma ReadStepKeepsInv(s: Sys, step: Step)
    requires Inv(s) && !IsWorkerStep(step) && !IsCommitStep(step) && !step.SetAsset?
    ensures Inv(Exec(s, step)) && Exec(s, step).tables == s.tables
  {
    match step
    case Arrive(c, call) => ArriveKeepsInv(s, c, call);
    case Canonicalize(c) => CanonicalizeKeepsInv(s, c);
    case Lookup(c) => LookupKeepsInv(s, c);
    case Validate(c, payloadOk) => ValidateKeepsInv(s, c, payloadOk);
    case Claim(c) => ClaimKeepsInv(s, c);
    case Abort(c) => AbortKeepsInv(s, c);
    case Reread(c) => RereadKeepsInv(s, c);
    case Replay(c) => ReplayKeepsInv(s, c);
    case _ => UpdateReadKeepsInv(s, step);
  }

  lemma UpdateReadKeepsInv(s: Sys, step: Step)
    requires Inv(s) && (step.ReadForPost? || step.ReadForCancel? || step.ReadForPatch?)
    ensures Inv(Exec(s, step)) && Exec(s, step).tables == s.tables
  {
    match step
    case ReadForPost(c, payloadOk) => ReadForPostKeepsInv(s, c, payloadOk);
    case ReadForCancel(c) => ReadForCancelKeepsInv(s, c);
    case ReadForPatch(c, payloadOk) => ReadForPatchKeepsInv(s, c, payloadOk);
  }

  lemma CommitStepKeepsInv(s: Sys, step: Step)
    requires Inv(s) && IsCommitStep(step)
    ensures Inv(Exec(s, step)) && Evolves(s.tables, Exec(s, step).tables)
  {
    match step
    case Commit(c, op, slot, heard) => CommitKeepsInv(s, c, op, slot, heard);
    case CommitPost(c, slot, heard) => CommitPostKeepsInv(s, c, slot, heard);
    case CommitCancel(c, heard) => CommitCancelKeepsInv(s, c, heard);
    case CommitPatch(c, heard) => CommitPatchKeepsInv(s, c, heard);
  }

  lemma RebuildStepKeepsInv(s: Sys, step: Step)
    requires Inv(s)
    requires step.WorkerReadLedger? || step.WorkerInstall? || step.WorkerCrash? || step.SetAsset?
    ensures Inv(Exec(s, step)) && Evolves(s.tables, Exec(s, step).tables)
  {
    var s' := Exec(s, step);
    if step.WorkerCrash? {
      DropRun(s.tables.requests, s.runs, step.run);
    } else if s' != s && !step.SetAsset? {
      SetRunPhase(s.tables.requests, s.runs, step.run, s'.runs[step.run].phase);
    }
    QuietTablesKeepInv(s, s');
  }

  lemma EndStepsKeepInv(s: Sys, step: Step)
    requires Inv(s) && (step.WorkerComplete? || step.WorkerError?)
    ensures Inv(Exec(s, step)) && Evolves(s.tables, Exec(s, step).tables)
  {
    if step.WorkerComplete? {
      WorkerCompleteKeepsInv(s, step.run);
    } else {
      WorkerErrorKeepsInv(s, step.run);
    }
  }

  lemma ClaimStepsKeepInv(s: Sys, step: Step)
    requires Inv(s) && (step.WorkerClaim? || step.SweepExhausted?)
    ensures Inv(Exec(s, step)) && Evolves(s.tables, Exec(s, step).tables)
  {
    if step.WorkerClaim? {
      WorkerClaimKeepsInv(s, step.run, step.r);
    } else {
      SweepKeepsInv(s, step.r);
    }
  }

  lemma StepKeepsInv(s: Sys, step: Step)
    requires Inv(s)
    ensures Inv(Exec(s, step)) && Evolves(s.tables, Exec(s, step).tables)
  {
    if IsCommitStep(step) {
      CommitStepKeepsInv(s, step);
    } else if step.WorkerReadLedger? || step.WorkerInstall? || step.WorkerCrash? || step.SetAsset? {
      RebuildStepKeepsInv(s, step);
    } else if step.WorkerComplete? || step.WorkerError? {
      EndStepsKeepInv(s, step);
    } else if IsWorkerStep(step) {
      ClaimStepsKeepInv(s, step);
    } else {
      ReadStepKeepsInv(s, step);
      EvolvesReflexive(s.tables);
    }
  }

  lemma ConfigStays(s: Sys, step: Step)
    ensures Exec(s, step).config == s.config
  {
  }

  /** Every run keeps the invariant, and what it has committed stays committed. */
  lemma {:induction false} RunKeepsInv(s: Sys, steps: seq<Step>)
    requires Inv(s)
    ensures Inv(RunAll(s, steps)) && Evolves(s.tables, RunAll(s, steps).tables)
    ensures RunAll(s, steps).config == s.config
    decreases |steps|
  {
    if steps == [] {
      EvolvesReflexive(s.tables);
    } else {
      var s1 := Exec(s, steps[0]);
      StepKeepsInv(s, steps[0]);
      ConfigStays(s, steps[0]);
      RunKeepsInv(s1, steps[1..]);
      EvolvesTransitive(s.tables, s1.tables, RunAll(s1, steps[1..]).tables);
    }
  }

  lemma InitInv(config: Config)
    ensures Inv(Init(config))
  {
  }
}
