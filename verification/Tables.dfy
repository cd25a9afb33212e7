/** The PostgreSQL tables of the ledger and what each committed transaction
    does to them. A transaction is one function from tables to tables: what it
    wrote becomes visible when it commits. */
module LedgerTables {
  import opened Ledger
  import opened Fingerprints

  type ClientId = nat
  type Key = (UserId, IdempotencyKey)

  datatype RefreshStatus = Pending | Processing | Completed | Failed

  /** A row of `portfolio_refresh_requests`. `stamped` says that `completed_at`
      is set, which nothing unsets. `claimedOver` is a history field: the posted
      operations of the portfolio when the row was last claimed. */
  datatype Request = Request(
    portfolio: PortfolioId,
    trigger: OperationId,
    status: RefreshStatus,
    attempts: nat,
    stamped: bool,
    claimedOver: set<OperationId>)

  /** A committed row of `portfolio_operation_idempotency`; its key is
      `(id_user, idempotency_key)`. `winner` and `candidate` are history
      fields: the client that wrote the row and the operation it inserted. */
  datatype Record = Record(
    portfolio: PortfolioId,
    kind: RequestKind,
    corrected: Option<OperationId>,
    fingerprint: Fingerprint,
    operation: OperationId,
    refresh: Option<RequestId>,
    winner: ClientId,
    candidate: NewOperation)

  /** `readModel` keeps, for each portfolio, the posted operations its current
      read model was rebuilt from. */
  datatype Tables = Tables(
    operations: map<OperationId, Row>,
    records: map<Key, Record>,
    requests: map<RequestId, Request>,
    activeAssets: set<AssetId>,
    readModel: map<PortfolioId, set<OperationId>>)

  const EMPTY := Tables(map[], map[], map[], {}, map[])

  function PostedIn(operations: map<OperationId, Row>, p: PortfolioId): set<OperationId> {
    set o | o in operations && operations[o].portfolio == p && operations[o].status == Posted
  }

  function ReadModelOf(t: Tables, p: PortfolioId): set<OperationId> {
    if p in t.readModel then t.readModel[p] else {}
  }

  // ----- The refresh queue -----

  predicate PendingFor(requests: map<RequestId, Request>, r: RequestId, p: PortfolioId) {
    r in requests && requests[r].portfolio == p && requests[r].status == RefreshStatus.Pending
  }

  predicate HasPending(requests: map<RequestId, Request>, p: PortfolioId) {
    exists r | r in requests :: PendingFor(requests, r, p)
  }

  /** The partial unique index: a portfolio has at most one pending row. */
  ghost predicate OnePending(requests: map<RequestId, Request>) {
    forall q, r | q in requests && r in requests ::
      PendingFor(requests, q, requests[r].portfolio) && PendingFor(requests, r, requests[r].portfolio) ==> q == r
  }

  /** The pending row of the portfolio cannot take a newer request: it was
      completed once, and `completed_at` must not precede `requested_at`. */
  predicate StampedPending(requests: map<RequestId, Request>, p: PortfolioId) {
    exists r | r in requests :: PendingFor(requests, r, p) && requests[r].stamped
  }

  /** The row an enqueue may return for portfolio `p`: the pending row when
      there is one, a fresh row otherwise (the partial unique index). */
  predicate SlotFor(requests: map<RequestId, Request>, p: PortfolioId, slot: RequestId) {
    if slot in requests then PendingFor(requests, slot, p) else !HasPending(requests, p)
  }

  /** INSERT ... ON CONFLICT (id_portfolio) WHERE status = 'pending' DO UPDATE.
      A reused row keeps its attempts. A CHECK refuses to reuse a row that was
      completed before the transaction began; that refusal is an abort. */
  function Enqueue(requests: map<RequestId, Request>, p: PortfolioId, trigger: OperationId,
                   slot: RequestId): map<RequestId, Request> {
    if slot in requests then requests[slot := requests[slot].(trigger := trigger)]
    else requests[slot := Request(p, trigger, RefreshStatus.Pending, 0, false, {})]
  }

  // ----- API transactions -----

  predicate InsertAllowed(t: Tables, candidate: NewOperation, key: Key, op: OperationId, slot: RequestId) {
    && op !in t.operations
    && StoredRow(candidate, key).Some?
    && RowConstraints(t.operations, op, StoredRow(candidate, key).value)
    && (candidate.status == Posted ==> SlotFor(t.requests, candidate.portfolio, slot))
  }

  /** Claim, operation insert, enqueue when posted, finalize: one transaction. */
  function Insert(t: Tables, key: Key, kind: RequestKind, corrected: Option<OperationId>, fingerprint: Fingerprint,
                  candidate: NewOperation, op: OperationId, slot: RequestId, winner: ClientId): Tables
    requires StoredRow(candidate, key).Some?
  {
    var posted := candidate.status == Posted;
    var refresh := if posted then Some(slot) else None;
    t.(operations := t.operations[op := StoredRow(candidate, key).value],
       records := t.records[key := Record(candidate.portfolio, kind, corrected, fingerprint, op, refresh, winner,
                                          candidate)],
       requests := if posted then Enqueue(t.requests, candidate.portfolio, op, slot) else t.requests)
  }

  /** UPDATE ... SET operation_status = 'posted', then enqueue. The statement
      has no condition on the current status. */
  function PostRow(t: Tables, o: OperationId, slot: RequestId): Tables
    requires o in t.operations
  {
    t.(operations := t.operations[o := t.operations[o].(status := Posted)],
       requests := Enqueue(t.requests, t.operations[o].portfolio, o, slot))
  }

  function CancelRow(t: Tables, o: OperationId): Tables
    requires o in t.operations
  {
    t.(operations := t.operations[o := t.operations[o].(status := Cancelled)])
  }

  /** The row a PATCH leaves: the merged fields over the current status. */
  function Patched(current: Row, update: Row): Row {
    update.(portfolio := current.portfolio, status := current.status, origin := current.origin)
  }

  function PatchRow(t: Tables, o: OperationId, update: Row): Tables
    requires o in t.operations
  {
    t.(operations := t.operations[o := Patched(t.operations[o], update)])
  }

  // ----- Worker transactions -----

  function SetRequest(t: Tables, r: RequestId, request: Request): Tables {
    t.(requests := t.requests[r := request])
  }

  function ClaimRow(t: Tables, r: RequestId): Tables
    requires r in t.requests
  {
    var q := t.requests[r];
    SetRequest(t, r, q.(status := Processing, attempts := q.attempts + 1,
                        claimedOver := PostedIn(t.operations, q.portfolio)))
  }

  /** Ending a row sets `completed_at`; putting it back does not unset it. */
  function SetStatus(t: Tables, r: RequestId, status: RefreshStatus): Tables
    requires r in t.requests
  {
    SetRequest(t, r, t.requests[r].(status := status,
                                    stamped := t.requests[r].stamped || status == Completed || status == Failed))
  }

  function ReplaceReadModel(t: Tables, p: PortfolioId, snapshot: set<OperationId>): Tables {
    t.(readModel := t.readModel[p := snapshot])
  }

  /** Eligible for a claim: below the attempt budget and pending, or processing
      (a processing row becomes eligible when its lock has expired). */
  predicate Claimable(t: Tables, r: RequestId, maxAttempts: nat) {
    && r in t.requests
    && t.requests[r].attempts < maxAttempts
    && (t.requests[r].status == RefreshStatus.Pending || t.requests[r].status == Processing)
  }

  /** Swept to `failed`: the budget is used up. */
  predicate Exhausted(t: Tables, r: RequestId, maxAttempts: nat) {
    && r in t.requests
    && t.requests[r].attempts >= maxAttempts
    && (t.requests[r].status == RefreshStatus.Pending || t.requests[r].status == Processing)
  }

  /** What `mark_failed_or_retry` leaves, given the attempts seen at the claim.
      Going back to pending violates the partial unique index when another row
      of the portfolio is pending: then nothing changes. */
  function FailOrRetry(t: Tables, r: RequestId, claimedAttempts: nat, maxAttempts: nat): Tables
    requires r in t.requests
  {
    if claimedAttempts >= maxAttempts then SetStatus(t, r, Failed)
    else if exists q | q in t.requests :: q != r && PendingFor(t.requests, q, t.requests[r].portfolio) then t
    else SetStatus(t, r, RefreshStatus.Pending)
  }
}
