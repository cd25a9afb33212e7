/** Atomicity of the idempotent writes, and the refresh queue they feed. */
module AllOrNothing {
  import opened Ledger
  import opened Fingerprints
  import opened LedgerTables
  import opened Protocol
  import opened WriteInvariant
  import opened WriteSteps
  import opened ExactlyOnce

  // ----- Rows and records -----

  /** A map whose values determine their keys has as many values as keys. */
  lemma {:induction false} InjectiveImage(m: map<Key, OperationId>)
    requires forall j, k | j in m && k in m && m[j] == m[k] :: j == k
    ensures |m.Values| == |m|
    decreases |m|
  {
    if m == map[] {
      assert m.Values == {};
    } else {
      var k :| k in m;
      var rest := m - {k};
      InjectiveImage(rest);
      forall v ensures v in m.Values <==> v in rest.Values + {m[k]} {
        if v in m.Values && v != m[k] {
          var j :| j in m && m[j] == v;
          assert j in rest && rest[j] == v;
        }
      }
      assert m.Values == rest.Values + {m[k]};
      assert m[k] !in rest.Values;
      assert |m| == |rest| + 1 by {
        assert m == rest[k := m[k]];
      }
    }
  }

  lemma RowsAndRecordsMatch(s: Sys)
    requires Inv(s)
    ensures |s.tables.operations| == |s.tables.records|
  {
    var t := s.tables;
    var written := map k | k in t.records :: t.records[k].operation;
    forall j, k | j in written && k in written && written[j] == written[k] ensures j == k {
      assert RecordOk(t, j, t.records[j]) && RecordOk(t, k, t.records[k]);
    }
    InjectiveImage(written);
    forall o ensures o in written.Values <==> o in t.operations.Keys {
      if o in written.Values {
        var k :| k in written && written[k] == o;
        assert RecordOk(t, k, t.records[k]);
      }
      if o in t.operations {
        assert RowOk(s.config, t, o, t.operations[o]);
        assert written[t.operations[o].origin] == o;
      }
    }
    assert written.Values == t.operations.Keys && written.Keys == t.records.Keys;
    assert |written| == |written.Keys| && |t.records| == |t.records.Keys| && |t.operations| == |t.operations.Keys|;
  }

  /** What a committed record vouches for. */
  ghost predicate CompleteWrite(t: Tables, k: Key) {
    k in t.records &&
    var record := t.records[k];
    && FoundIn(t, record.operation, record.portfolio) && t.operations[record.operation].origin == k
    && (record.candidate.status == Posted <==> record.refresh.Some?)
    && (record.refresh.Some? ==>
          record.refresh.value in t.requests && t.requests[record.refresh.value].portfolio == record.portfolio)
    && (record.kind == CreateCorrection ==>
          record.corrected.Some? && FoundIn(t, record.corrected.value, record.portfolio)
          && t.operations[record.corrected.value].status == Posted)
  }

  /** In every reachable state records and ledger rows are in bijection, a
      record of a posted creation names a refresh request of its portfolio, one
      of a pending creation names none, and a correction's record names an
      operation of the same portfolio that is still posted. */
  lemma WritesAreAllOrNothing(config: Config, steps: seq<Step>)
    ensures var t := RunAll(Init(config), steps).tables;
      && (forall k | k in t.records :: CompleteWrite(t, k))
      && (forall o | o in t.operations ::
            t.operations[o].origin in t.records && t.records[t.operations[o].origin].operation == o)
      && |t.operations| == |t.records|
  {
    var s := RunAll(Init(config), steps);
    var t := s.tables;
    Reachable(config, steps);
    RowsAndRecordsMatch(s);
    forall k | k in t.records ensures CompleteWrite(t, k) {
      assert RecordOk(t, k, t.records[k]);
    }
    forall o | o in t.operations
      ensures t.operations[o].origin in t.records && t.records[t.operations[o].origin].operation == o
    {
      assert RowOk(s.config, t, o, t.operations[o]);
    }
  }

  // ----- The ledger holds what was sent -----

  /** A row written as posted is, in every later state and field by field, what
      its request asked for, with the defaults filled in: a creation's fields; or
      an adjustment that points to the corrected operation, in its currency
      unless the request named one. */
  lemma PostedRowIsTheRequest(config: Config, steps: seq<Step>, k: Key)
    requires var t := RunAll(Init(config), steps).tables; k in t.records && t.records[k].candidate.status == Posted
    ensures var s := RunAll(Init(config), steps);
            var record := s.tables.records[k];
      && record.winner in s.clients && record.operation in s.tables.operations
      && var row := s.tables.operations[record.operation];
         match s.clients[record.winner].call
         case Create(user, key, p, r) =>
           && k == (user, key) && r.status == Some(Posted) && StoredRate(r.rate).Some?
           && StoredDetailsOf(r.details).Some?
           && row == Row(p, r.asset, r.relatedAsset, r.opType, Posted, GetOr(r.cash, 0), r.currency,
                         StoredRate(r.rate).value, r.corrected, StoredDetailsOf(r.details).value,
                         GetOr(r.metadata, NO_METADATA), k)
         case Correct(user, key, p, o, r) =>
           && k == (user, key) && r.status == Some(Posted) && StoredRate(r.rate).Some?
           && StoredDetailsOf(r.details).Some?
           && FoundIn(s.tables, o, p)
           && row == Row(p, r.asset, r.relatedAsset, Adjustment, Posted, GetOr(r.cash, 0),
                         GetOr(r.currency, s.tables.operations[o].currency), StoredRate(r.rate).value, Some(o),
                         StoredDetailsOf(r.details).value, GetOr(r.metadata, NO_METADATA), k)
         case _ => false
  {
    var s := RunAll(Init(config), steps);
    Reachable(config, steps);
    var record := s.tables.records[k];
    WinnerWrote(s, k);
    assert RecordOk(s.tables, k, record);
  }

  // ----- Failure leaves nothing behind -----

  function MoverOf(step: Step): ClientId
    requires !IsWorkerStep(step) && !step.SetAsset?
  {
    step.c
  }

  predicate IsSuccess(outcome: Outcome) { outcome.Created? || outcome.PostedNow? || outcome.Updated? }

  /** The commit is enabled: it finds what it needs and no constraint refuses. */
  predicate Lands(s: Sys, step: Step) {
    IsCommitStep(step) && step.c in s.clients && Exec(s, HeardCommit(step)).tables != s.tables
  }

  /** The same commit, with its answer heard. */
  function HeardCommit(step: Step): Step
    requires IsCommitStep(step)
  {
    match step
    case Commit(c, op, slot, _) => Commit(c, op, slot, true)
    case CommitPost(c, slot, _) => CommitPost(c, slot, true)
    case CommitCancel(c, _) => CommitCancel(c, true)
    case CommitPatch(c, _) => CommitPatch(c, true)
  }

  /** Which answers leave a trace. A step that answers a client changes a table
      exactly when it is a commit that lands: with a success when it is heard,
      with a 500 or no answer when it is not. A refusal (404, 400, 409, 422), a
      conflict and a replay leave none, so they use up no key. */
  lemma AnswerLeavesTraceIff(s: Sys, step: Step)
    requires !IsWorkerStep(step) && !step.SetAsset? && MoverOf(step) in s.clients
             && !s.clients[MoverOf(step)].phase.Done?
    requires Exec(s, step).clients[MoverOf(step)].phase.Done?
    ensures var outcome := Exec(s, step).clients[MoverOf(step)].phase.outcome;
      && (Exec(s, step).tables != s.tables ==>
            Lands(s, step) && (if step.heard then IsSuccess(outcome) else outcome.DatabaseError?))
      && (Lands(s, step) ==> Exec(s, step).tables != s.tables)
      && (outcome.DatabaseError? && Exec(s, step).tables != s.tables <==> Lands(s, step) && !step.heard)
      && (outcome.Rejected? || outcome.KeyConflict? || outcome.Replayed? || outcome.ReplayBroken? ==>
          Exec(s, step).tables == s.tables)
  {
    if IsCommitStep(step) {
      CommitsAgree(s, step);
    } else {
      ReadsLeaveTables(s, step);
    }
  }

  lemma CommitsAgree(s: Sys, step: Step)
    requires IsCommitStep(step) && step.c in s.clients
    ensures Exec(s, step).tables == Exec(s, HeardCommit(step)).tables
    ensures Exec(s, step).tables != s.tables ==>
              Exec(s, step).clients[step.c].phase
                == Done(Answer(step.heard, Exec(s, HeardCommit(step)).clients[step.c].phase.outcome))
              && IsSuccess(Exec(s, HeardCommit(step)).clients[step.c].phase.outcome)
  {
  }

  lemma ReadsLeaveTables(s: Sys, step: Step)
    requires !IsWorkerStep(step) && !step.SetAsset? && !IsCommitStep(step)
    ensures Exec(s, step).tables == s.tables
  {
  }

  /** A client that was refused, met a conflict or was given a replay wrote no
      record; one that got a 500 or no answer wrote one exactly when its commit
      landed unheard, and then the record is of its own request. */
  lemma WhoWrote(config: Config, steps: seq<Step>, c: ClientId, k: Key)
    requires var s := RunAll(Init(config), steps);
             k in s.tables.records && s.tables.records[k].winner == c
    ensures var s := RunAll(Init(config), steps);
            && c in s.clients && IsWrite(s.clients[c].call) && KeyOf(s.clients[c].call) == k
            && (s.clients[c].phase == Done(Created(s.tables.records[k].operation, s.tables.records[k].refresh))
                || s.clients[c].phase == Done(DatabaseError))
            && SameRequest(s.clients[c], Asking(s.tables, s.clients[c].call))
  {
    Reachable(config, steps);
    WinnerWrote(RunAll(Init(config), steps), k);
  }

  /** The losing side of a race. While the winner's claim is uncommitted the
      loser waits; if the winner aborts, no table has changed and the key is
      free; if the winner commits, the loser re-reads the winner's record. */
  lemma LoserSeesCommitOrAbort(s: Sys, c: ClientId, d: ClientId, op: OperationId, slot: RequestId, heard: bool)
    requires Inv(s) && c != d && c in s.clients && d in s.clients
    requires s.clients[c].phase.InTransaction? && s.clients[d].phase.Validated?
    requires IsWrite(s.clients[c].call) && IsWrite(s.clients[d].call)
             && KeyOf(s.clients[c].call) == KeyOf(s.clients[d].call)
    requires InsertAllowed(s.tables, s.clients[c].phase.candidate, KeyOf(s.clients[c].call), op, slot)
    ensures Exec(s, Claim(d)) == s
    ensures var aborted := Exec(s, Abort(c));
            && aborted.tables == s.tables
            && Exec(aborted, Claim(d)).clients[d].phase.InTransaction?
    ensures var committed := Exec(s, Commit(c, op, slot, heard));
            var lost := Exec(committed, Claim(d));
            && lost.clients[d].phase.LostRace? && lost.tables == committed.tables
            && Exec(lost, Reread(d)).clients[d].phase.Replaying?
            && Exec(lost, Reread(d)).clients[d].phase.record.winner == c
  {
    assert ClientOk(s.config, s.tables, c, s.clients[c]);
    var k := KeyOf(s.clients[c].call);
    assert Blocked(s, d, k);
    LoserClaimsAfterAbort(s, c, d);
    var committed := Exec(s, Commit(c, op, slot, heard));
    assert !Blocked(committed, d, k);
  }

  lemma LoserClaimsAfterAbort(s: Sys, c: ClientId, d: ClientId)
    requires Inv(s) && c != d && c in s.clients && d in s.clients
    requires s.clients[c].phase.InTransaction? && s.clients[d].phase.Validated?
    requires IsWrite(s.clients[c].call) && IsWrite(s.clients[d].call)
             && KeyOf(s.clients[c].call) == KeyOf(s.clients[d].call)
    ensures Exec(s, Abort(c)).tables == s.tables
    ensures Exec(Exec(s, Abort(c)), Claim(d)).clients[d].phase.InTransaction?
  {
    assert ClientOk(s.config, s.tables, c, s.clients[c]);
    assert !Blocked(Exec(s, Abort(c)), d, KeyOf(s.clients[c].call));
  }

  // ----- The queue -----

  /** In every reachable state a portfolio has at most one pending request and
      no request has been attempted more often than configured. */
  lemma QueueStaysBounded(config: Config, steps: seq<Step>)
    ensures var t := RunAll(Init(config), steps).tables;
      && (forall q, r | q in t.requests && r in t.requests && t.requests[q].portfolio == t.requests[r].portfolio
                        && t.requests[q].status == RefreshStatus.Pending
                        && t.requests[r].status == RefreshStatus.Pending ::
               q == r)
      && (forall r | r in t.requests :: t.requests[r].attempts <= config.maxAttempts)
  {
    Reachable(config, steps);
    var t := RunAll(Init(config), steps).tables;
    assert QueueOk(config, t.requests);
    forall q, r | q in t.requests && r in t.requests && t.requests[q].portfolio == t.requests[r].portfolio
                  && t.requests[q].status == RefreshStatus.Pending && t.requests[r].status == RefreshStatus.Pending
      ensures q == r
    {
      assert PendingFor(t.requests, q, t.requests[r].portfolio) && PendingFor(t.requests, r, t.requests[r].portfolio);
    }
  }

  /** A commit that posts reuses the portfolio's pending request when there is
      one, and adds a fresh one otherwise; either way exactly one is pending. */
  lemma CommitCoalesces(s: Sys, step: Step, p: PortfolioId, slot: RequestId)
    requires Inv(s) && Exec(s, step).tables != s.tables
    requires (step.Commit? && s.clients[step.c].phase.candidate.status == Posted
              && p == s.clients[step.c].phase.candidate.portfolio && slot == step.slot)
             || (step.CommitPost? && s.clients[step.c].call.operation in s.tables.operations
                 && p == s.tables.operations[s.clients[step.c].call.operation].portfolio && slot == step.slot)
    ensures var t, u := s.tables, Exec(s, step).tables;
      && (forall r | PendingFor(t.requests, r, p) :: r == slot)
      && (forall r | PendingFor(u.requests, r, p) :: r == slot)
      && PendingFor(u.requests, slot, p)
      && u.requests.Keys == t.requests.Keys + {slot}
      && (slot !in t.requests ==> u.requests[slot].attempts == 0)
      && (slot in t.requests ==> u.requests[slot].attempts == t.requests[slot].attempts)
      && (forall r | r in t.requests && r != slot :: u.requests[r] == t.requests[r])
      && u.requests[slot].trigger == (if step.Commit? then step.op else s.clients[step.c].call.operation)
  {
    assert QueueOk(s.config, s.tables.requests);
  }
}
