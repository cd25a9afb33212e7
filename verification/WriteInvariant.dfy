/** What every step of the write protocol keeps, whatever the interleaving. */
module WriteInvariant {
  import opened Ledger
  import opened Fingerprints
  import opened LedgerTables
  import opened Protocol

  // ----- How tables evolve -----

  /** Nothing committed is ever taken back: rows keep their place, posted rows
      keep every field, records keep every field. */
  ghost predicate Evolves(t: Tables, u: Tables) {
    && (forall o | o in t.operations ::
          && o in u.operations
          && u.operations[o].portfolio == t.operations[o].portfolio
          && u.operations[o].origin == t.operations[o].origin
          && (t.operations[o].status == Posted ==> u.operations[o] == t.operations[o])
          && (u.operations[o].status == OperationStatus.Pending ==> t.operations[o].status == OperationStatus.Pending))
    && (forall k | k in t.records :: k in u.records && u.records[k] == t.records[k])
    && (forall r | r in t.requests ::
          && r in u.requests
          && u.requests[r].portfolio == t.requests[r].portfolio
          && u.requests[r].attempts >= t.requests[r].attempts)
  }

  // ----- Tables -----

  ghost predicate RecordOk(t: Tables, k: Key, record: Record) {
    && FoundIn(t, record.operation, record.portfolio)
    && t.operations[record.operation].origin == k
    && record.candidate.portfolio == record.portfolio
    && record.candidate.status != Cancelled
    && record.fingerprint == BuildFingerprint(k.0, record.kind, record.corrected, record.candidate)
    && (record.refresh.Some? <==> record.candidate.status == Posted)
    && (record.refresh.Some? ==>
          record.refresh.value in t.requests && t.requests[record.refresh.value].portfolio == record.portfolio)
    && (record.corrected.Some? <==> record.kind == CreateCorrection)
    && (record.corrected.Some? ==>
          && record.candidate.corrected == record.corrected
          && FoundIn(t, record.corrected.value, record.portfolio)
          && t.operations[record.corrected.value].status == Posted)
    && (record.candidate.status == Posted ==> StoredRow(record.candidate, k) == Some(t.operations[record.operation]))
  }

  ghost predicate RowOk(config: Config, t: Tables, o: OperationId, row: Row) {
    && row.portfolio in config.portfolios
    && row.origin in t.records
    && t.records[row.origin].operation == o
    && (row.rate.Some? ==> row.rate.value > 0.0)
  }

  ghost predicate QueueOk(config: Config, requests: map<RequestId, Request>) {
    && OnePending(requests)
    && (forall r | r in requests :: requests[r].attempts <= config.maxAttempts)
  }

  ghost predicate TablesOk(config: Config, t: Tables) {
    && (forall o {:trigger RowOk(config, t, o, t.operations[o])} | o in t.operations ::
        RowOk(config, t, o, t.operations[o]))
    && (forall k {:trigger RecordOk(t, k, t.records[k])} | k in t.records :: RecordOk(t, k, t.records[k]))
    && QueueOk(config, t.requests)
  }

  // ----- Clients -----

  /** The call's canonical operation no longer depends on rows that can change. */
  ghost predicate Settled(t: Tables, call: Call) {
    call.Create? || (call.Correct? && FoundIn(t, call.original, call.portfolio)
                     && t.operations[call.original].status == Posted)
  }

  /** The candidate and fingerprint are those the request computed for itself. */
  ghost predicate Asked(call: Call, asked: Option<NewOperation>, candidate: NewOperation, fingerprint: Fingerprint)
    requires IsWrite(call)
  {
    && asked == Some(candidate) && fingerprint == FingerprintOf(call, candidate)
    && candidate.portfolio == call.portfolio && candidate.status != Cancelled
    && (call.Correct? ==> candidate.corrected == CorrectedBy(call))
  }

  /** The record answers the request. */
  ghost predicate Answers(client: Client, record: Record) {
    && IsWrite(client.call) && client.asked.Some?
    && record.kind == KindOf(client.call) && record.corrected == CorrectedBy(client.call)
    && record.portfolio == client.call.portfolio
    && record.fingerprint == FingerprintOf(client.call, client.asked.value)
  }

  /** What the request asks for can no longer change. */
  ghost predicate Fixed(t: Tables, client: Client) {
    IsWrite(client.call) && Settled(t, client.call) && client.asked == CandidateOf(t, client.call)
  }

  /** A request that has canonicalised once can do so again. */
  ghost predicate CanAskAgain(config: Config, t: Tables, client: Client) {
    client.asked.Some? ==>
      IsWrite(client.call) && Owns(config, client.call.user, client.call.portfolio) && CandidateOf(t, client.call).Some?
  }

  /** The record is what the request asked for, as it wrote it. */
  ghost predicate Wrote(t: Tables, client: Client, record: Record) {
    client.asked == Some(record.candidate) && Fixed(t, client) && Answers(client, record)
  }

  ghost predicate ClientOk(config: Config, t: Tables, c: ClientId, client: Client) {
    var call := client.call;
    CanAskAgain(config, t, client) &&
    match client.phase
    case Arrived => true
    case Canonical(candidate, fingerprint, correctable) =>
      && IsWrite(call) && Owns(config, call.user, call.portfolio)
      && Asked(call, client.asked, candidate, fingerprint) && (correctable ==> Fixed(t, client))
    case Fresh(candidate, fingerprint, correctable) =>
      && IsWrite(call) && Owns(config, call.user, call.portfolio)
      && Asked(call, client.asked, candidate, fingerprint) && (correctable ==> Fixed(t, client))
    case Validated(candidate, fingerprint) =>
      && IsWrite(call) && Owns(config, call.user, call.portfolio)
      && Asked(call, client.asked, candidate, fingerprint) && Fixed(t, client)
      && (candidate.status == Posted ==> CrossCurrencyOk(candidate, BaseOf(config, call.portfolio)))
    case InTransaction(candidate, fingerprint) =>
      && IsWrite(call) && Owns(config, call.user, call.portfolio) && KeyOf(call) !in t.records
      && Asked(call, client.asked, candidate, fingerprint) && Fixed(t, client)
      && (candidate.status == Posted ==> CrossCurrencyOk(candidate, BaseOf(config, call.portfolio)))
    case LostRace(fingerprint) =>
      && IsWrite(call) && KeyOf(call) in t.records
      && client.asked.Some? && fingerprint == FingerprintOf(call, client.asked.value)
    case Replaying(record, fingerprint) =>
      && IsWrite(call) && KeyOf(call) in t.records && t.records[KeyOf(call)] == record
      && client.asked.Some? && fingerprint == FingerprintOf(call, client.asked.value)
    case ReadyToPost => call.Post?
    case ReadyToCancel => call.Cancel?
    case ReadyToPatch(_) => call.Patch?
    case Done(outcome) => OutcomeOk(t, c, client, outcome)
  }

  ghost predicate OutcomeOk(t: Tables, c: ClientId, client: Client, outcome: Outcome) {
    match outcome
    case Created(operation, refresh) =>
      && IsWrite(client.call) && KeyOf(client.call) in t.records
      && t.records[KeyOf(client.call)].winner == c
      && t.records[KeyOf(client.call)].operation == operation && t.records[KeyOf(client.call)].refresh == refresh
      && Wrote(t, client, t.records[KeyOf(client.call)])
    case DatabaseError =>
      IsWrite(client.call) && KeyOf(client.call) in t.records && t.records[KeyOf(client.call)].winner == c ==>
        Wrote(t, client, t.records[KeyOf(client.call)])
    case Replayed(operation, refresh) =>
      && IsWrite(client.call) && KeyOf(client.call) in t.records
      && t.records[KeyOf(client.call)].operation == operation && t.records[KeyOf(client.call)].refresh == refresh
      && Answers(client, t.records[KeyOf(client.call)])
    case ReplayBroken => false
    case _ => true
  }

  ghost predicate ClientsOk(config: Config, t: Tables, clients: map<ClientId, Client>) {
    forall c {:trigger ClientOk(config, t, c, clients[c])} | c in clients :: ClientOk(config, t, c, clients[c])
  }

  /** Only one uncommitted claim per key. */
  ghost predicate ClaimsExclusive(clients: map<ClientId, Client>) {
    forall c, d | c in clients && d in clients && clients[c].phase.InTransaction? && clients[d].phase.InTransaction?
                  && IsWrite(clients[c].call) && IsWrite(clients[d].call)
                  && KeyOf(clients[c].call) == KeyOf(clients[d].call) :: c == d
  }

  /** The client that wrote a record got a 201 with its ids, or a 500 or no
      answer after a commit it did not hear of. */
  ghost predicate WinnerOk(clients: map<ClientId, Client>, k: Key, record: Record) {
    && record.winner in clients
    && (clients[record.winner].phase == Done(Created(record.operation, record.refresh))
        || clients[record.winner].phase == Done(DatabaseError))
    && IsWrite(clients[record.winner].call) && KeyOf(clients[record.winner].call) == k
  }

  ghost predicate WinnersOk(records: map<Key, Record>, clients: map<ClientId, Client>) {
    forall k {:trigger WinnerOk(clients, k, records[k])} | k in records :: WinnerOk(clients, k, records[k])
  }

  ghost predicate RunOk(requests: map<RequestId, Request>, run: Run) {
    run.request in requests && requests[run.request].portfolio == run.portfolio
    && run.attempts <= requests[run.request].attempts
  }

  ghost predicate RunsOk(requests: map<RequestId, Request>, runs: map<RunId, Run>) {
    forall w {:trigger RunOk(requests, runs[w])} | w in runs :: RunOk(requests, runs[w])
  }

  ghost predicate Inv(s: Sys) {
    && TablesOk(s.config, s.tables)
    && ClientsOk(s.config, s.tables, s.clients)
    && ClaimsExclusive(s.clients)
    && WinnersOk(s.tables.records, s.clients)
    && RunsOk(s.tables.requests, s.runs)
  }

  // ----- Frames -----

  lemma SettledStays(t: Tables, u: Tables, call: Call)
    requires IsWrite(call) && Settled(t, call) && Evolves(t, u)
    ensures Settled(u, call) && CandidateOf(u, call) == CandidateOf(t, call)
  {
  }

  lemma ClientStays(config: Config, t: Tables, u: Tables, c: ClientId, client: Client)
    requires Evolves(t, u) && ClientOk(config, t, c, client)
    requires client.phase.InTransaction? ==> KeyOf(client.call) !in u.records
    requires IsWrite(client.call) && KeyOf(client.call) in u.records && u.records[KeyOf(client.call)].winner == c ==>
               KeyOf(client.call) in t.records
    ensures ClientOk(config, u, c, client)
  {
    if IsWrite(client.call) && Settled(t, client.call) {
      SettledStays(t, u, client.call);
    }
  }

  lemma ClientsStay(config: Config, t: Tables, u: Tables, clients: map<ClientId, Client>)
    requires Evolves(t, u) && ClientsOk(config, t, clients)
    requires u.records == t.records
    ensures ClientsOk(config, u, clients)
  {
    forall c | c in clients ensures ClientOk(config, u, c, clients[c]) {
      ClaimStillFree(config, t, u, c, clients[c]);
      ClientStays(config, t, u, c, clients[c]);
    }
  }

  lemma ClaimStillFree(config: Config, t: Tables, u: Tables, c: ClientId, client: Client)
    requires ClientOk(config, t, c, client) && u.records == t.records
    ensures client.phase.InTransaction? ==> IsWrite(client.call) && KeyOf(client.call) !in u.records
  {
  }

  lemma SetClientKeepsClaims(s: Sys, c: ClientId, client: Client)
    requires ClaimsExclusive(s.clients) && c in s.clients && client.call == s.clients[c].call
    requires client.phase.InTransaction? ==> IsWrite(client.call) && !Blocked(s, c, KeyOf(client.call))
    ensures ClaimsExclusive(s.clients[c := client])
  {
  }

  lemma SetClientKeepsWinners(s: Sys, c: ClientId, client: Client)
    requires WinnersOk(s.tables.records, s.clients) && c in s.clients && !s.clients[c].phase.Done?
    ensures WinnersOk(s.tables.records, s.clients[c := client])
  {
    forall k | k in s.tables.records ensures WinnerOk(s.clients[c := client], k, s.tables.records[k]) {
      assert WinnerOk(s.clients, k, s.tables.records[k]);
    }
  }

  lemma SetClientKeepsClients(s: Sys, c: ClientId, client: Client)
    requires ClientsOk(s.config, s.tables, s.clients) && ClientOk(s.config, s.tables, c, client)
    ensures ClientsOk(s.config, s.tables, s.clients[c := client])
  {
    var clients := s.clients[c := client];
    forall d | d in clients ensures ClientOk(s.config, s.tables, d, clients[d]) {
      if d != c {
        assert ClientOk(s.config, s.tables, d, s.clients[d]);
      }
    }
  }

  /** A step that only changes one client that has not answered yet. */
  lemma SetClientKeepsInv(s: Sys, c: ClientId, client: Client)
    requires Inv(s) && c in s.clients && !s.clients[c].phase.Done? && client.call == s.clients[c].call
    requires ClientOk(s.config, s.tables, c, client)
    requires client.phase.InTransaction? ==> IsWrite(client.call) && !Blocked(s, c, KeyOf(client.call))
    ensures Inv(s.(clients := s.clients[c := client]))
  {
    SetClientKeepsClaims(s, c, client);
    SetClientKeepsWinners(s, c, client);
    SetClientKeepsClients(s, c, client);
  }

  lemma MoveKeepsInv(s: Sys, c: ClientId, phase: Phase)
    requires Inv(s) && c in s.clients && !s.clients[c].phase.Done?
    requires ClientOk(s.config, s.tables, c, s.clients[c].(phase := phase))
    requires phase.InTransaction? ==> IsWrite(s.clients[c].call) && !Blocked(s, c, KeyOf(s.clients[c].call))
    ensures Inv(Move(s, c, phase))
  {
    SetClientKeepsInv(s, c, s.clients[c].(phase := phase));
  }

  /** A step that changes tables but no record. */
  lemma TablesKeepInv(s: Sys, s': Sys)
    requires Inv(s) && s'.config == s.config && s'.clients == s.clients
    requires Evolves(s.tables, s'.tables) && s'.tables.records == s.tables.records
    requires TablesOk(s'.config, s'.tables) && RunsOk(s'.tables.requests, s'.runs)
    ensures Inv(s')
  {
    ClientsStay(s.config, s.tables, s'.tables, s.clients);
  }
}
