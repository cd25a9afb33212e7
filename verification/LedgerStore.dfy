/** The tables as the repositories update them, one method per repository
    transaction, each proved against the function of `LedgerTables` that the
    protocol steps use, and for what it means to its caller. The constraints of
    the schema are the class invariant. */
module LedgerRepository {
  import opened Ledger
  import opened Fingerprints
  import opened LedgerTables
  import opened Protocol
  import opened WriteInvariant
  import opened RefreshQueue
  import opened ReadModels

  datatype WriteOutcome =
    | Committed(operation: OperationId, refresh: Option<RequestId>)
    | RaceLost
    | Refused

  datatype PostOutcome = PostedWith(refresh: RequestId) | NoSuchRow | PostRefused

  /** Every row meets every constraint of its table. */
  ghost predicate RowsValid(operations: map<OperationId, Row>) {
    forall o {:trigger RowConstraints(operations, o, operations[o])} | o in operations ::
        RowConstraints(operations, o, operations[o])
  }

  /** A row may be stored under `o` exactly when the table with it is valid. */
  lemma StoredIffValid(operations: map<OperationId, Row>, o: OperationId, row: Row)
    requires RowsValid(operations)
    ensures RowConstraints(operations, o, row) <==> RowsValid(operations[o := row])
  {
    var stored := operations[o := row];
    if RowConstraints(operations, o, row) {
      forall q | q in stored ensures RowConstraints(stored, q, stored[q]) {
        if q != o {
          assert RowConstraints(operations, q, operations[q]);
        }
      }
    }
    if RowsValid(stored) {
      assert RowConstraints(stored, o, stored[o]);
      forall q | q in operations && q != o ensures stored[q] == operations[q] {}
    }
  }

  /** No committed row is taken back and the posted ledger of every portfolio is
      the same. */
  ghost predicate KeepsPosted(t: Tables, u: Tables) {
    Evolves(t, u) && forall p :: PostedIn(u.operations, p) == PostedIn(t.operations, p)
  }

  lemma UnpostedChangeKeepsPosted(t: Tables, o: OperationId, row: Row)
    requires o in t.operations && t.operations[o].status != Posted && row.status != Posted
    requires row.portfolio == t.operations[o].portfolio && row.origin == t.operations[o].origin
    requires row.status == OperationStatus.Pending ==> t.operations[o].status == OperationStatus.Pending
    ensures KeepsPosted(t, t.(operations := t.operations[o := row]))
  {
  }

  class LedgerStore {
    var operations: map<OperationId, Row>
    var records: map<Key, Record>
    var requests: map<RequestId, Request>
    var activeAssets: set<AssetId>
    var readModel: map<PortfolioId, set<OperationId>>

    ghost function State(): Tables
      reads this
    {
      Tables(operations, records, requests, activeAssets, readModel)
    }

    ghost predicate Valid()
      reads this
    {
      && RowsValid(operations) && OnePending(requests)
      && forall k | k in records ::
           records[k].operation in operations && (records[k].refresh.Some? ==> records[k].refresh.value in requests)
    }

    constructor ()
      ensures State() == EMPTY && Valid()
    {
      operations, records, requests, activeAssets, readModel := map[], map[], map[], {}, map[];
    }

    /** Returns the pending row of the portfolio when there is one and a new row
        otherwise. A pending row that was completed once takes only a
        transaction that is older than its completion. */
    method EnqueueRefreshRequest(p: PortfolioId, trigger: OperationId, freshId: RequestId, older: bool)
      returns (ok: bool, slot: RequestId)
      requires freshId !in requests && OnePending(requests)
      modifies this`requests
      ensures ok <==> older || !StampedPending(old(requests), p)
      ensures !ok ==> requests == old(requests)
      ensures ok ==> requests == Enqueue(old(requests), p, trigger, slot) && SlotFor(old(requests), p, slot)
      ensures ok ==> (slot == freshId <==> !HasPending(old(requests), p))
      ensures OnePending(requests) && requests.Keys == old(requests).Keys + if ok then {slot} else {}
      ensures ok ==> PendingFor(requests, slot, p)
    {
      ok := true;
      if HasPending(requests, p) {
        slot :| slot in requests && PendingFor(requests, slot, p);
        if requests[slot].stamped && !older {
          return false, slot;
        }
        requests := requests[slot := requests[slot].(trigger := trigger)];
      } else {
        slot := freshId;
        requests := requests[slot := Request(p, trigger, RefreshStatus.Pending, 0, false, {})];
      }
    }

    /** `create_with_optional_refresh_and_idempotency`. A statement that the
        database refuses rolls the whole transaction back; it is refused
        whatever identifiers are picked. */
    method CreateWithRefreshAndIdempotency(candidate: NewOperation, key: Key, kind: RequestKind,
                                           corrected: Option<OperationId>, fingerprint: Fingerprint, winner: ClientId,
                                           freshOperation: OperationId, freshRequest: RequestId, older: bool)
      returns (outcome: WriteOutcome)
      requires Valid() && freshOperation !in operations && freshRequest !in requests
      modifies this
      ensures Valid()
      ensures outcome.RaceLost? <==> key in old(records)
      ensures outcome.Committed? ==>
                exists slot: RequestId ::
                  && InsertAllowed(old(State()), candidate, key, freshOperation, slot)
                  && (slot == freshRequest || slot in old(requests))
                  && State() == Insert(old(State()), key, kind, corrected, fingerprint, candidate, freshOperation,
                                       slot, winner)
                  && outcome == Committed(freshOperation, if candidate.status == Posted then Some(slot) else None)
      ensures !outcome.Committed? ==> State() == old(State())
      ensures outcome.Refused? ==>
                || (candidate.status == Posted && !older && StampedPending(old(requests), candidate.portfolio))
                || (forall op: OperationId, slot: RequestId :: !InsertAllowed(old(State()), candidate, key, op, slot))
    {
      if key in records {
        return RaceLost;
      }
      var row := StoredRow(candidate, key);
      if row.None? || !RowConstraints(operations, freshOperation, row.value) {
        return Refused;
      }
      var before := operations;
      operations := operations[freshOperation := row.value];
      StoredIffValid(before, freshOperation, row.value);
      var refresh: Option<RequestId> := None;
      ghost var slot := freshRequest;
      if candidate.status == Posted {
        var ok, id := EnqueueRefreshRequest(candidate.portfolio, freshOperation, freshRequest, older);
        if !ok {
          operations := before;
          return Refused;
        }
        refresh := Some(id);
        slot := id;
      }
      records := records[key := Record(candidate.portfolio, kind, corrected, fingerprint, freshOperation, refresh,
                                       winner, candidate)];
      outcome := Committed(freshOperation, refresh);
      assert InsertAllowed(old(State()), candidate, key, freshOperation, slot);
    }

    /** `set_status_posted_with_refresh`. The trigger refuses a posted row. */
    method SetStatusPostedWithRefresh(o: OperationId, p: PortfolioId, freshRequest: RequestId, older: bool)
      returns (outcome: PostOutcome)
      requires Valid() && freshRequest !in requests
      modifies this
      ensures Valid() && Evolves(old(State()), State())
      ensures outcome.NoSuchRow? <==> !(o in old(operations) && old(operations)[o].portfolio == p)
      ensures outcome.PostRefused? <==>
                && o in old(operations) && old(operations)[o].portfolio == p
                && (old(operations)[o].status == Posted || (!older && StampedPending(old(requests), p)))
      ensures !outcome.PostedWith? ==> State() == old(State())
      ensures outcome.PostedWith? ==>
                && SlotFor(old(requests), p, outcome.refresh)
                && State() == PostRow(old(State()), o, outcome.refresh)
                && PendingFor(requests, outcome.refresh, p)
    {
      if o !in operations || operations[o].portfolio != p {
        return NoSuchRow;
      }
      if operations[o].status == Posted {
        return PostRefused;
      }
      assert RowConstraints(operations, o, operations[o]);
      var before := operations;
      operations := operations[o := operations[o].(status := Posted)];
      StoredIffValid(before, o, operations[o]);
      var ok, slot := EnqueueRefreshRequest(p, o, freshRequest, older);
      if !ok {
        operations := before;
        return PostRefused;
      }
      outcome := PostedWith(slot);
    }

    /** `set_status(.., Cancelled)`; false when the trigger refuses. Whatever the
        row was, the ledger that is rebuilt from does not change. */
    method CancelOperation(o: OperationId) returns (ok: bool)
      requires Valid() && o in operations
      modifies this`operations
      ensures ok <==> o !in PostedIn(old(operations), old(operations)[o].portfolio)
      ensures State() == if ok then CancelRow(old(State()), o) else old(State())
      ensures Valid() && KeepsPosted(old(State()), State())
    {
      ok := operations[o].status != Posted;
      if ok {
        assert RowConstraints(operations, o, operations[o]);
        StoredIffValid(operations, o, operations[o].(status := Cancelled));
        UnpostedChangeKeepsPosted(State(), o, operations[o].(status := Cancelled));
        operations := operations[o := operations[o].(status := Cancelled)];
      }
    }

    /** `update`; false when the trigger refuses, or when the table would break
        a constraint. */
    method UpdateOperation(o: OperationId, update: Row) returns (ok: bool)
      requires Valid() && o in operations
      modifies this`operations
      ensures ok <==> old(operations)[o].status != Posted && RowsValid(PatchRow(old(State()), o, update).operations)
      ensures State() == if ok then PatchRow(old(State()), o, update) else old(State())
      ensures Valid() && KeepsPosted(old(State()), State())
    {
      var row := Patched(operations[o], update);
      StoredIffValid(operations, o, row);
      ok := operations[o].status != Posted && RowConstraints(operations, o, row);
      if ok {
        UnpostedChangeKeepsPosted(State(), o, row);
        operations := operations[o := row];
      }
    }

    /** One row of `claim_batch`; returns the attempts the worker remembers.
        From now on the row covers everything its portfolio has posted, and it
        takes no further operation. */
    method ClaimRequest(r: RequestId, maxAttempts: nat) returns (attempts: nat)
      requires Valid() && Claimable(State(), r, maxAttempts)
      modifies this`requests
      ensures State() == ClaimRow(old(State()), r)
      ensures attempts == requests[r].attempts <= maxAttempts && attempts > old(requests)[r].attempts
      ensures forall o | o in PostedIn(operations, requests[r].portfolio) ::
                Covers(requests, r, o, requests[r].portfolio)
      ensures NoLostRefresh(old(State())) ==> NoLostRefresh(State())
      ensures !PendingFor(requests, r, requests[r].portfolio) && Valid()
    {
      ghost var before := State();
      var q := requests[r];
      attempts := q.attempts + 1;
      requests := requests[r := q.(status := Processing, attempts := attempts,
                                   claimedOver := PostedIn(operations, q.portfolio))];
      if NoLostRefresh(before) {
        ClaimedStillCovered(before, r);
      }
    }

    /** `mark_completed`: the row is selected by its id alone. It forgets an
        operation exactly when the row is pending again and one waits for it. */
    method MarkCompleted(r: RequestId)
      requires Valid() && r in requests
      modifies this`requests
      ensures State() == SetStatus(old(State()), r, Completed) && Valid()
      ensures NoLostRefresh(old(State())) ==>
                (NoLostRefresh(State()) <==>
                   old(requests)[r].status != RefreshStatus.Pending
                     || NoneWaiting(old(State()), old(requests)[r].portfolio))
    {
      if NoLostRefresh(State()) {
        EndingLosesIffWaiting(State(), r, Completed);
      }
      requests := requests[r := requests[r].(status := Completed, stamped := true)];
    }

    /** `mark_failed_or_retry`; false when the unique index refuses the retry.
        A retry forgets nothing; a terminal failure forgets as a completion
        does. */
    method MarkFailedOrRetry(r: RequestId, claimedAttempts: nat, maxAttempts: nat) returns (ok: bool)
      requires Valid() && r in requests
      modifies this`requests
      ensures State() == FailOrRetry(old(State()), r, claimedAttempts, maxAttempts) && Valid()
      ensures !ok ==> State() == old(State()) && HasPending(requests, requests[r].portfolio)
      ensures ok && claimedAttempts < maxAttempts ==> PendingFor(requests, r, requests[r].portfolio)
      ensures NoLostRefresh(old(State())) ==>
                (NoLostRefresh(State()) <==>
                   || claimedAttempts < maxAttempts || old(requests)[r].status != RefreshStatus.Pending
                   || NoneWaiting(old(State()), old(requests)[r].portfolio))
    {
      ok := true;
      if claimedAttempts >= maxAttempts {
        if NoLostRefresh(State()) {
          EndingLosesIffWaiting(State(), r, Failed);
        }
        requests := requests[r := requests[r].(status := Failed, stamped := true)];
      } else if exists q | q in requests :: q != r && PendingFor(requests, q, requests[r].portfolio) {
        ok := false;
      } else {
        if NoLostRefresh(State()) {
          EndKeepsCoverage(State(), r, RefreshStatus.Pending);
        }
        requests := requests[r := requests[r].(status := RefreshStatus.Pending)];
      }
    }

    /** `mark_exhausted_failed`, row by row over the candidates of the sweep.
        `expired` are the processing rows whose lock has expired. */
    method MarkExhaustedFailed(maxAttempts: nat, expired: set<RequestId>) returns (count: nat)
      requires Valid()
      modifies this`requests
      ensures requests.Keys == old(requests).Keys && Valid()
      ensures forall r | r in requests ::
                var q := old(requests)[r];
                requests[r] ==
                  if q.attempts >= maxAttempts && (q.status == RefreshStatus.Pending
                                                   || (q.status == Processing && r in expired))
                  then q.(status := Failed, stamped := true) else q
      ensures count == |set r | r in old(requests) && requests[r] != old(requests)[r]|
    {
      var todo := requests.Keys;
      count := 0;
      ghost var failed: set<RequestId> := {};
      while todo != {}
        invariant todo <= old(requests).Keys && requests.Keys == old(requests).Keys
        invariant failed <= old(requests).Keys - todo && count == |failed|
        invariant forall r | r in requests ::
                    var q := old(requests)[r];
                    var due := q.attempts >= maxAttempts
                               && (q.status == RefreshStatus.Pending || (q.status == Processing && r in expired));
                    && requests[r] == (if due && r !in todo then q.(status := Failed, stamped := true) else q)
                    && (r in failed <==> due && r !in todo)
        decreases todo
      {
        var r :| r in todo;
        todo := todo - {r};
        var q := requests[r];
        if q.attempts >= maxAttempts && (q.status == RefreshStatus.Pending
                                         || (q.status == Processing && r in expired)) {
          requests := requests[r := q.(status := Failed, stamped := true)];
          count := count + 1;
          failed := failed + {r};
        }
      }
      assert failed == set r | r in old(requests) && requests[r] != old(requests)[r];
      FewerPending(old(requests), requests);
    }

    /** `replace_read_models_for_portfolio`: the other portfolios show what they
        showed, and completed requests stay shown exactly when the snapshot has
        everything they were claimed over. */
    method ReplaceReadModels(p: PortfolioId, snapshot: set<OperationId>)
      modifies this`readModel
      ensures State() == ReplaceReadModel(old(State()), p, snapshot)
      ensures forall q | q != p :: ReadModelOf(State(), q) == ReadModelOf(old(State()), q)
      ensures AllShown(old(State())) ==>
                (AllShown(State()) <==>
                   forall r | r in requests && requests[r].status == Completed && requests[r].portfolio == p ::
                     requests[r].claimedOver <= snapshot)
    {
      if AllShown(State()) {
        InstallShownIff(State(), p, snapshot);
      }
      readModel := readModel[p := snapshot];
    }
  }

  /** Rows that stop being pending keep the index satisfied. */
  lemma FewerPending(requests: map<RequestId, Request>, requests': map<RequestId, Request>)
    requires OnePending(requests) && requests'.Keys == requests.Keys
    requires forall r | r in requests ::
               && requests'[r].portfolio == requests[r].portfolio
               && (requests'[r].status == RefreshStatus.Pending ==> requests[r].status == RefreshStatus.Pending)
    ensures OnePending(requests')
  {
    forall q, r | q in requests' && r in requests' && PendingFor(requests', q, requests'[r].portfolio)
                  && PendingFor(requests', r, requests'[r].portfolio)
      ensures q == r
    {
      assert PendingFor(requests, q, requests[r].portfolio) && PendingFor(requests, r, requests[r].portfolio);
    }
  }
}
