/** The write protocol as a transition system: API requests and worker runs
    that interleave over the shared tables. Every label names the process that
    moves and the choices the environment makes (fresh ids, verdicts of checks
    that read no table). A label that is not enabled leaves the state alone, so
    every sequence of labels is a run. */
module Protocol {
  import opened Ledger
  import opened Fingerprints
  import opened LedgerTables

  type RunId = nat

  datatype Config = Config(portfolios: map<PortfolioId, Portfolio>, maxAttempts: nat)

  // ----- API requests -----

  datatype Call =
    | Create(user: UserId, key: IdempotencyKey, portfolio: PortfolioId, create: CreateRequest)
    | Correct(user: UserId, key: IdempotencyKey, portfolio: PortfolioId, original: OperationId,
              correction: CorrectionRequest)
    | Post(user: UserId, portfolio: PortfolioId, operation: OperationId)
    | Cancel(user: UserId, portfolio: PortfolioId, operation: OperationId)
    | Patch(user: UserId, portfolio: PortfolioId, operation: OperationId, patch: PatchRequest)

  datatype Outcome =
    | Created(operation: OperationId, refresh: Option<RequestId>)    // 201, Idempotency-Replayed: false
    | Replayed(operation: OperationId, refresh: Option<RequestId>)   // 200, Idempotency-Replayed: true
    | KeyConflict                                                    // 409 idempotency_key_conflict
    | PostedNow(operation: OperationId, enqueued: RequestId)         // 200
    | Updated                                                        // 200
    | Rejected(httpStatus: nat)                                      // refused before any write
    // 500 or no answer: rolled back, or committed unheard
    | DatabaseError
    | ReplayBroken                                                   // 500 of a replay that finds no row

  datatype Phase =
    | Arrived
    | Canonical(candidate: NewOperation, fingerprint: Fingerprint, correctable: bool)
    | Fresh(candidate: NewOperation, fingerprint: Fingerprint, correctable: bool)
    | Validated(candidate: NewOperation, fingerprint: Fingerprint)
    | InTransaction(candidate: NewOperation, fingerprint: Fingerprint)
    | LostRace(fingerprint: Fingerprint)
    | Replaying(record: Record, fingerprint: Fingerprint)
    | ReadyToPost
    | ReadyToCancel
    | ReadyToPatch(update: Row)
    | Done(outcome: Outcome)

  /** `asked` is a history field: the canonical operation the request computed. */
  datatype Client = Client(call: Call, asked: Option<NewOperation>, phase: Phase)

  // ----- Worker runs -----

  datatype RunPhase =
    | Claimed
    | HasLedger(snapshot: set<OperationId>)
    | Installed

  /** A worker that is refreshing the portfolio of one claimed request. */
  datatype Run = Run(request: RequestId, portfolio: PortfolioId, attempts: nat, phase: RunPhase)

  datatype Sys = Sys(config: Config, tables: Tables, clients: map<ClientId, Client>, runs: map<RunId, Run>)

  datatype Step =
    | Arrive(c: ClientId, call: Call)
    | Canonicalize(c: ClientId)
    | Lookup(c: ClientId)
    | Validate(c: ClientId, payloadOk: bool)
    | Claim(c: ClientId)
    | Commit(c: ClientId, op: OperationId, slot: RequestId, heard: bool)
    | Abort(c: ClientId)
    | Reread(c: ClientId)
    | Replay(c: ClientId)
    | ReadForPost(c: ClientId, payloadOk: bool)
    | CommitPost(c: ClientId, slot: RequestId, heard: bool)
    | ReadForCancel(c: ClientId)
    | CommitCancel(c: ClientId, heard: bool)
    | ReadForPatch(c: ClientId, payloadOk: bool)
    | CommitPatch(c: ClientId, heard: bool)
    | SetAsset(asset: AssetId, active: bool)
    | WorkerClaim(run: RunId, r: RequestId)
    | WorkerReadLedger(run: RunId)
    | WorkerInstall(run: RunId)
    | WorkerComplete(run: RunId)
    | WorkerError(run: RunId)
    | WorkerCrash(run: RunId)
    | SweepExhausted(r: RequestId)

  function Init(config: Config): Sys { Sys(config, EMPTY, map[], map[]) }

  // ----- Reading a call -----

  predicate IsWrite(call: Call) { call.Create? || call.Correct? }

  function KeyOf(call: Call): Key
    requires IsWrite(call)
  {
    (call.user, call.key)
  }

  function KindOf(call: Call): RequestKind { if call.Correct? then CreateCorrection else CreateOperation }

  function CorrectedBy(call: Call): Option<OperationId> {
    if call.Correct? then Some(call.original) else None
  }

  predicate Owns(config: Config, user: UserId, p: PortfolioId) {
    p in config.portfolios && config.portfolios[p].owner == user
  }

  predicate FoundIn(t: Tables, o: OperationId, p: PortfolioId) {
    o in t.operations && t.operations[o].portfolio == p
  }

  /** The canonical operation a call asks for over the present tables; `None`
      when the corrected operation is missing or the status is refused. */
  function CandidateOf(t: Tables, call: Call): Option<NewOperation>
    requires IsWrite(call)
  {
    match call
    case Create(_, _, p, create) => BuildCreateCandidate(p, create)
    case Correct(_, _, p, original, correction) =>
      if FoundIn(t, original, p) then BuildCorrectionCandidate(original, t.operations[original], correction) else None
  }

  function FingerprintOf(call: Call, candidate: NewOperation): Fingerprint
    requires IsWrite(call)
  {
    BuildFingerprint(call.user, KindOf(call), CorrectedBy(call), candidate)
  }

  function BaseOf(config: Config, p: PortfolioId): string
    requires p in config.portfolios
  {
    config.portfolios[p].baseCurrency
  }

  // ----- Moving one client -----

  function Move(s: Sys, c: ClientId, phase: Phase): Sys
    requires c in s.clients
  {
    s.(clients := s.clients[c := s.clients[c].(phase := phase)])
  }

  function Finish(s: Sys, c: ClientId, outcome: Outcome): Sys
    requires c in s.clients
  {
    Move(s, c, Done(outcome))
  }

  /** What the client learns of a commit: its result, or nothing when the
      connection to the database, or to the client, is lost after it. */
  function Answer(heard: bool, outcome: Outcome): Outcome {
    if heard then outcome else DatabaseError
  }

  function ExecArrive(s: Sys, c: ClientId, call: Call): Sys {
    if c in s.clients then s else s.(clients := s.clients[c := Client(call, None, Arrived)])
  }

  /** Ownership, the corrected operation, the canonical candidate and its
      fingerprint. A later step looks the key up. */
  function ExecCanonicalize(s: Sys, c: ClientId): Sys {
    if c !in s.clients || s.clients[c].phase != Arrived || !IsWrite(s.clients[c].call) then s
    else
      var call := s.clients[c].call;
      if !Owns(s.config, call.user, call.portfolio) then Finish(s, c, Rejected(404))
      else if call.Correct? && !FoundIn(s.tables, call.original, call.portfolio) then Finish(s, c, Rejected(404))
      else
        match CandidateOf(s.tables, call)
        case None => Finish(s, c, Rejected(400))
        case Some(candidate) =>
          var correctable := call.Correct? ==> s.tables.operations[call.original].status == Posted;
          s.(clients := s.clients[c := Client(call, Some(candidate),
                                              Canonical(candidate, FingerprintOf(call, candidate), correctable))])
  }

  /** The replay lookup. */
  function ExecLookup(s: Sys, c: ClientId): Sys {
    if c !in s.clients || !s.clients[c].phase.Canonical? || !IsWrite(s.clients[c].call) then s
    else
      var key := KeyOf(s.clients[c].call);
      var Canonical(candidate, fingerprint, correctable) := s.clients[c].phase;
      if key in s.tables.records then Move(s, c, Replaying(s.tables.records[key], fingerprint))
      else Move(s, c, Fresh(candidate, fingerprint, correctable))
  }

  /** The payload rules on a candidate. */
  predicate CandidateAccepted(call: Call, candidate: NewOperation) {
    && DecimalAccepted(candidate.rate) && DetailsAccepted(candidate.details)
    && (call.Correct? ==> Meaningful(PayloadOf(candidate))) && PayloadAccepted(PayloadOf(candidate))
  }

  /** Checks that depend on mutable state; run for fresh requests only.
      `payloadOk` is the verdict on the shape of the metadata. */
  function ExecValidate(s: Sys, c: ClientId, payloadOk: bool): Sys {
    if c !in s.clients || !s.clients[c].phase.Fresh? || s.clients[c].call.portfolio !in s.config.portfolios then s
    else
      var Fresh(candidate, fingerprint, correctable) := s.clients[c].phase;
      if !correctable then Finish(s, c, Rejected(409))
      else if !payloadOk || !CandidateAccepted(s.clients[c].call, candidate) then
        Finish(s, c, Rejected(400))
      else if !AssetsOk(s.tables.activeAssets, candidate.asset, candidate.relatedAsset, candidate.opType) then
        Finish(s, c, Rejected(400))
      else if candidate.status == Posted
              && !CrossCurrencyOk(candidate, BaseOf(s.config, s.clients[c].call.portfolio)) then
        Finish(s, c, Rejected(422))
      else Move(s, c, Validated(candidate, fingerprint))
  }

  /** Another transaction holds an uncommitted claim on the key. */
  predicate Blocked(s: Sys, c: ClientId, key: Key) {
    exists d | d in s.clients ::
      && d != c && s.clients[d].phase.InTransaction?
      && IsWrite(s.clients[d].call) && KeyOf(s.clients[d].call) == key
  }

  /** INSERT ... ON CONFLICT DO NOTHING: waits for an uncommitted claim, loses
      to a committed one, claims otherwise. */
  function ExecClaim(s: Sys, c: ClientId): Sys {
    if c !in s.clients || !s.clients[c].phase.Validated? || !IsWrite(s.clients[c].call) then s
    else
      var key := KeyOf(s.clients[c].call);
      var Validated(candidate, fingerprint) := s.clients[c].phase;
      if Blocked(s, c, key) then s
      else if key in s.tables.records then Move(s, c, LostRace(fingerprint))
      else Move(s, c, InTransaction(candidate, fingerprint))
  }

  function ExecCommit(s: Sys, c: ClientId, op: OperationId, slot: RequestId, heard: bool): Sys {
    if c !in s.clients || !s.clients[c].phase.InTransaction? || !IsWrite(s.clients[c].call) then s
    else
      var call := s.clients[c].call;
      var InTransaction(candidate, fingerprint) := s.clients[c].phase;
      if !InsertAllowed(s.tables, candidate, KeyOf(call), op, slot) then s
      else
        var refresh := if candidate.status == Posted then Some(slot) else None;
        Finish(s, c, Answer(heard, Created(op, refresh))).(
          tables := Insert(s.tables, KeyOf(call), KindOf(call), CorrectedBy(call), fingerprint, candidate, op, slot, c))
  }

  /** A statement or a transaction fails, at any point, and what was not
      committed is rolled back. */
  function ExecAbort(s: Sys, c: ClientId): Sys {
    if c in s.clients && !s.clients[c].phase.Done? then Finish(s, c, DatabaseError) else s
  }

  function ExecReread(s: Sys, c: ClientId): Sys {
    if c !in s.clients || !s.clients[c].phase.LostRace? || !IsWrite(s.clients[c].call) then s
    else
      var key := KeyOf(s.clients[c].call);
      if key in s.tables.records then Move(s, c, Replaying(s.tables.records[key], s.clients[c].phase.fingerprint))
      else Finish(s, c, ReplayBroken)
  }

  /** The recorded request is the one being retried. */
  predicate Matches(record: Record, call: Call, fingerprint: Fingerprint) {
    && record.kind == KindOf(call)
    && record.corrected == CorrectedBy(call)
    && record.portfolio == call.portfolio
    && record.fingerprint == fingerprint
  }

  function ReplayOutcome(t: Tables, record: Record, call: Call, fingerprint: Fingerprint): Outcome {
    if !Matches(record, call, fingerprint) then KeyConflict
    else if !FoundIn(t, record.operation, record.portfolio) then ReplayBroken
    else if record.refresh.Some?
            && !(record.refresh.value in t.requests && t.requests[record.refresh.value].portfolio == record.portfolio)
    then ReplayBroken
    else Replayed(record.operation, record.refresh)
  }

  function ExecReplay(s: Sys, c: ClientId): Sys {
    if c !in s.clients || !s.clients[c].phase.Replaying? then s
    else
      var Replaying(record, fingerprint) := s.clients[c].phase;
      Finish(s, c, ReplayOutcome(s.tables, record, s.clients[c].call, fingerprint))
  }

  // ----- Post, cancel, patch: a read, then an UPDATE in a later statement -----

  /** The shared opening of the three: ownership, then the row. */
  predicate Reads(s: Sys, c: ClientId) {
    && c in s.clients && s.clients[c].phase == Arrived && !IsWrite(s.clients[c].call)
    && Owns(s.config, s.clients[c].call.user, s.clients[c].call.portfolio)
    && FoundIn(s.tables, s.clients[c].call.operation, s.clients[c].call.portfolio)
  }

  function ExecReadForPost(s: Sys, c: ClientId, payloadOk: bool): Sys {
    if c !in s.clients || s.clients[c].phase != Arrived || !s.clients[c].call.Post? then s
    else if !Reads(s, c) then Finish(s, c, Rejected(404))
    else
      var row := s.tables.operations[s.clients[c].call.operation];
      if row.status != OperationStatus.Pending then Finish(s, c, Rejected(409))
      else if !payloadOk || !RowPayloadAccepted(row)
              || !AssetsOk(s.tables.activeAssets, row.asset, row.relatedAsset, row.opType) then
        Finish(s, c, Rejected(400))
      else if !RowCrossCurrencyOk(row, BaseOf(s.config, s.clients[c].call.portfolio)) then Finish(s, c, Rejected(422))
      else Move(s, c, ReadyToPost)
  }

  function ExecCommitPost(s: Sys, c: ClientId, slot: RequestId, heard: bool): Sys {
    if c !in s.clients || !s.clients[c].phase.ReadyToPost? || !s.clients[c].call.Post? then s
    else
      var o := s.clients[c].call.operation;
      if !FoundIn(s.tables, o, s.clients[c].call.portfolio) then Finish(s, c, Rejected(404))
      else if s.tables.operations[o].status == Posted then Finish(s, c, DatabaseError)
      else if !SlotFor(s.tables.requests, s.tables.operations[o].portfolio, slot) then s
      else Finish(s, c, Answer(heard, PostedNow(o, slot))).(tables := PostRow(s.tables, o, slot))
  }

  function ExecReadForCancel(s: Sys, c: ClientId): Sys {
    if c !in s.clients || s.clients[c].phase != Arrived || !s.clients[c].call.Cancel? then s
    else if !Reads(s, c) then Finish(s, c, Rejected(404))
    else
      match s.tables.operations[s.clients[c].call.operation].status
      case Pending => Move(s, c, ReadyToCancel)
      case Cancelled => Finish(s, c, Updated)
      case Posted => Finish(s, c, Rejected(409))
  }

  function ExecCommitCancel(s: Sys, c: ClientId, heard: bool): Sys {
    if c !in s.clients || !s.clients[c].phase.ReadyToCancel? || !s.clients[c].call.Cancel? then s
    else
      var o := s.clients[c].call.operation;
      if !FoundIn(s.tables, o, s.clients[c].call.portfolio) then Finish(s, c, Rejected(404))
      else if s.tables.operations[o].status == Posted then Finish(s, c, DatabaseError)
      else Finish(s, c, Answer(heard, Updated)).(tables := CancelRow(s.tables, o))
  }

  function ExecReadForPatch(s: Sys, c: ClientId, payloadOk: bool): Sys {
    if c !in s.clients || s.clients[c].phase != Arrived || !s.clients[c].call.Patch? then s
    else if !Reads(s, c) then Finish(s, c, Rejected(404))
    else
      var row := s.tables.operations[s.clients[c].call.operation];
      if row.status != OperationStatus.Pending then Finish(s, c, Rejected(409))
      else
        match MergePatch(row, s.clients[c].call.patch)
        case None => Finish(s, c, Rejected(400))
        case Some(update) =>
          if !payloadOk || !PayloadAccepted(PayloadOfRow(update))
             || !AssetsOk(s.tables.activeAssets, update.asset, update.relatedAsset, update.opType)
          then Finish(s, c, Rejected(400))
          else Move(s, c, ReadyToPatch(update))
  }

  function ExecCommitPatch(s: Sys, c: ClientId, heard: bool): Sys {
    if c !in s.clients || !s.clients[c].phase.ReadyToPatch? || !s.clients[c].call.Patch? then s
    else
      var o := s.clients[c].call.operation;
      var update := s.clients[c].phase.update;
      if !FoundIn(s.tables, o, s.clients[c].call.portfolio) then Finish(s, c, Rejected(404))
      else if s.tables.operations[o].status == Posted
              || !RowConstraints(s.tables.operations, o, Patched(s.tables.operations[o], update))
      then Finish(s, c, DatabaseError)
      else Finish(s, c, Answer(heard, Updated)).(tables := PatchRow(s.tables, o, update))
  }

  function ExecSetAsset(s: Sys, asset: AssetId, active: bool): Sys {
    var assets := s.tables.activeAssets;
    s.(tables := s.tables.(activeAssets := if active then assets + {asset} else assets - {asset}))
  }

  // ----- Worker -----

  function ExecWorkerClaim(s: Sys, run: RunId, r: RequestId): Sys {
    if run in s.runs || !Claimable(s.tables, r, s.config.maxAttempts) then s
    else
      var t := ClaimRow(s.tables, r);
      s.(tables := t, runs := s.runs[run := Run(r, t.requests[r].portfolio, t.requests[r].attempts, Claimed)])
  }

  function ExecWorkerReadLedger(s: Sys, run: RunId): Sys {
    if run !in s.runs || s.runs[run].phase != Claimed then s
    else
      var snapshot := PostedIn(s.tables.operations, s.runs[run].portfolio);
      s.(runs := s.runs[run := s.runs[run].(phase := HasLedger(snapshot))])
  }

  function ExecWorkerInstall(s: Sys, run: RunId): Sys {
    if run !in s.runs || !s.runs[run].phase.HasLedger? then s
    else s.(tables := ReplaceReadModel(s.tables, s.runs[run].portfolio, s.runs[run].phase.snapshot),
            runs := s.runs[run := s.runs[run].(phase := Installed)])
  }

  function ExecWorkerComplete(s: Sys, run: RunId): Sys {
    if run !in s.runs || s.runs[run].phase != Installed || s.runs[run].request !in s.tables.requests then s
    else s.(tables := SetStatus(s.tables, s.runs[run].request, Completed), runs := s.runs - {run})
  }

  function ExecWorkerError(s: Sys, run: RunId): Sys {
    if run !in s.runs || s.runs[run].request !in s.tables.requests then s
    else s.(tables := FailOrRetry(s.tables, s.runs[run].request, s.runs[run].attempts, s.config.maxAttempts),
            runs := s.runs - {run})
  }

  function ExecSweep(s: Sys, r: RequestId): Sys {
    if !Exhausted(s.tables, r, s.config.maxAttempts) then s
    else s.(tables := SetStatus(s.tables, r, Failed))
  }

  function Exec(s: Sys, step: Step): Sys {
    match step
    case Arrive(c, call) => ExecArrive(s, c, call)
    case Canonicalize(c) => ExecCanonicalize(s, c)
    case Lookup(c) => ExecLookup(s, c)
    case Validate(c, payloadOk) => ExecValidate(s, c, payloadOk)
    case Claim(c) => ExecClaim(s, c)
    case Commit(c, op, slot, heard) => ExecCommit(s, c, op, slot, heard)
    case Abort(c) => ExecAbort(s, c)
    case Reread(c) => ExecReread(s, c)
    case Replay(c) => ExecReplay(s, c)
    case ReadForPost(c, payloadOk) => ExecReadForPost(s, c, payloadOk)
    case CommitPost(c, slot, heard) => ExecCommitPost(s, c, slot, heard)
    case ReadForCancel(c) => ExecReadForCancel(s, c)
    case CommitCancel(c, heard) => ExecCommitCancel(s, c, heard)
    case ReadForPatch(c, payloadOk) => ExecReadForPatch(s, c, payloadOk)
    case CommitPatch(c, heard) => ExecCommitPatch(s, c, heard)
    case SetAsset(asset, active) => ExecSetAsset(s, asset, active)
    case WorkerClaim(run, r) => ExecWorkerClaim(s, run, r)
    case WorkerReadLedger(run) => ExecWorkerReadLedger(s, run)
    case WorkerInstall(run) => ExecWorkerInstall(s, run)
    case WorkerComplete(run) => ExecWorkerComplete(s, run)
    case WorkerError(run) => ExecWorkerError(s, run)
    case WorkerCrash(run) => s.(runs := s.runs - {run})
    case SweepExhausted(r) => ExecSweep(s, r)
  }

  function RunAll(s: Sys, steps: seq<Step>): Sys
    decreases |steps|
  {
    if steps == [] then s else RunAll(Exec(s, steps[0]), steps[1..])
  }
}
