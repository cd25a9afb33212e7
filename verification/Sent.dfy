/** What a request sends is what the ledger holds, and what a key is bound to:
    both stated on the bodies of the requests alone. */
module Sent {
  import opened Ledger
  import opened Fingerprints
  import opened LedgerTables
  import opened Protocol
  import opened WriteInvariant
  import opened WriteSteps
  import opened ExactlyOnce
  import opened Lifecycle
  import opened Schedules

  /** The operation is one of the portfolio. */
  predicate InPortfolio(t: Tables, o: OperationId, p: PortfolioId) {
    o in t.operations && t.operations[o].portfolio == p
  }

  predicate OwnedBy(config: Config, user: UserId, p: PortfolioId) {
    p in config.portfolios && config.portfolios[p].owner == user
  }

  // ----- The row of a request -----

  /** A field that may be omitted, and what it then stands for. */
  ghost predicate Defaulted<T>(sent: Option<T>, default: T, value: T) {
    if sent.Some? then value == sent.value else value == default
  }

  ghost predicate SentStatus(sent: Option<OperationStatus>, status: OperationStatus) {
    Defaulted(sent, OperationStatus.Pending, status)
  }

  /** The row holds, field by field, what the call sent. */
  ghost predicate IsSent(t: Tables, call: Call, row: Row) {
    match call
    case Create(user, key, p, r) =>
      && row.origin == (user, key) && row.portfolio == p && row.asset == r.asset && row.relatedAsset == r.relatedAsset
      && row.opType == r.opType && SentStatus(r.status, row.status) && Defaulted(r.cash, 0, row.cash)
      && row.currency == r.currency && DecimalStored(r.rate, row.rate) && row.corrected == r.corrected
      && DetailsStored(r.details, row.details) && Defaulted(r.metadata, "{}", row.metadata)
    case Correct(user, key, p, o, r) =>
      && row.origin == (user, key) && row.portfolio == p && row.asset == r.asset && row.relatedAsset == r.relatedAsset
      && row.opType == Adjustment && SentStatus(r.status, row.status) && Defaulted(r.cash, 0, row.cash)
      && InPortfolio(t, o, p) && t.operations[o].status == Posted
      && Defaulted(r.currency, t.operations[o].currency, row.currency)
      && DecimalStored(r.rate, row.rate) && row.corrected == Some(o)
      && DetailsStored(r.details, row.details) && Defaulted(r.metadata, "{}", row.metadata)
    case _ => false
  }

  lemma CandidateIsSent(t: Tables, call: Call, candidate: NewOperation, row: Row)
    requires IsWrite(call) && Settled(t, call) && CandidateOf(t, call) == Some(candidate)
    requires StoredRow(candidate, KeyOf(call)) == Some(row)
    ensures IsSent(t, call, row)
  {
    DetailsAreStored(candidate.details);
    DecimalIsStored(candidate.rate, RATE_LIMIT);
  }

  /** A commit that lands, pending or posted, adds one row: what its client
      sent. */
  lemma CommitWritesWhatWasSent(config: Config, steps: seq<Step>, c: ClientId, op: OperationId, slot: RequestId,
                                heard: bool)
    requires var s := RunAll(Init(config), steps); Exec(s, Commit(c, op, slot, heard)).tables != s.tables
    ensures var s := RunAll(Init(config), steps);
            var u := Exec(s, Commit(c, op, slot, heard)).tables.operations;
            && c in s.clients && op !in s.tables.operations && op in u && u == s.tables.operations[op := u[op]]
            && IsSent(s.tables, s.clients[c].call, u[op])
  {
    var s := RunAll(Init(config), steps);
    Reachable(config, steps);
    assert ClientOk(s.config, s.tables, c, s.clients[c]);
    var candidate := s.clients[c].phase.candidate;
    CandidateIsSent(s.tables, s.clients[c].call, candidate, StoredRow(candidate, KeyOf(s.clients[c].call)).value);
  }

  // ----- How long it stays -----

  /** The step is a post, a cancel or a patch of row `o` that lands. */
  predicate Updates(s: Sys, step: Step, o: OperationId) {
    Touches(s, step, o) && Exec(s, step).tables != s.tables
  }

  /** A row changes by its own updates only: a post sets the status to posted, a
      cancel to cancelled, and a patch keeps it. */
  lemma RowChangesByUpdatesOnly(s: Sys, step: Step, o: OperationId)
    requires o in s.tables.operations
    ensures var t, u := s.tables.operations, Exec(s, step).tables.operations;
      && o in u && u[o].portfolio == t[o].portfolio && u[o].origin == t[o].origin
      && (!Updates(s, step, o) ==> u[o] == t[o])
      && (step.CommitPost? && Updates(s, step, o) ==> u[o] == t[o].(status := Posted))
      && (step.CommitCancel? && Updates(s, step, o) ==> u[o] == t[o].(status := Cancelled))
      && (step.CommitPatch? ==> u[o].status == t[o].status)
  {
    if Touches(s, step, o) {
      TouchedRow(s, step, o);
    } else {
      UntouchedRowStays(s, step, o);
    }
  }

  lemma TouchedRow(s: Sys, step: Step, o: OperationId)
    requires o in s.tables.operations && Touches(s, step, o)
    ensures var t, u := s.tables.operations, Exec(s, step).tables.operations;
      && o in u && u[o].portfolio == t[o].portfolio && u[o].origin == t[o].origin
      && (Exec(s, step).tables == s.tables ==> u[o] == t[o])
      && (step.CommitPost? && Exec(s, step).tables != s.tables ==> u[o] == t[o].(status := Posted))
      && (step.CommitCancel? && Exec(s, step).tables != s.tables ==> u[o] == t[o].(status := Cancelled))
      && (step.CommitPatch? ==> u[o].status == t[o].status)
  {
  }

  ghost predicate NeverUpdated(s: Sys, steps: seq<Step>, o: OperationId)
    decreases |steps|
  {
    steps == [] || (!Updates(s, steps[0], o) && NeverUpdated(Exec(s, steps[0]), steps[1..], o))
  }

  ghost predicate NeverPatched(s: Sys, steps: seq<Step>, o: OperationId)
    decreases |steps|
  {
    steps == []
    || (!(steps[0].CommitPatch? && Updates(s, steps[0], o)) && NeverPatched(Exec(s, steps[0]), steps[1..], o))
  }

  /** Until a post, a cancel or a patch of it lands, a row is what it was; until a
      patch lands, it is but for its status. */
  lemma {:induction false} RowStays(s: Sys, steps: seq<Step>, o: OperationId)
    requires o in s.tables.operations
    ensures o in RunAll(s, steps).tables.operations
    ensures NeverUpdated(s, steps, o) ==> RunAll(s, steps).tables.operations[o] == s.tables.operations[o]
    ensures NeverPatched(s, steps, o) ==>
              var row := RunAll(s, steps).tables.operations[o]; row == s.tables.operations[o].(status := row.status)
    decreases |steps|
  {
    if steps != [] {
      RowChangesByUpdatesOnly(s, steps[0], o);
      RowStays(Exec(s, steps[0]), steps[1..], o);
    }
  }

  /** A written row holds what was sent until it is updated, whatever else
      happens; in every field but its status, until it is patched. */
  lemma SentUntilUpdated(config: Config, steps: seq<Step>, c: ClientId, op: OperationId, slot: RequestId, heard: bool,
                         after: seq<Step>)
    requires var s := RunAll(Init(config), steps); Exec(s, Commit(c, op, slot, heard)).tables != s.tables
    ensures var s := RunAll(Init(config), steps);
            var u := Exec(s, Commit(c, op, slot, heard));
            var v := RunAll(u, after);
            && c in s.clients && op in u.tables.operations && op in v.tables.operations
            && (NeverUpdated(u, after, op) ==> IsSent(s.tables, s.clients[c].call, v.tables.operations[op]))
            && (NeverPatched(u, after, op) ==>
                  var row := v.tables.operations[op];
                  IsSent(s.tables, s.clients[c].call, row.(status := u.tables.operations[op].status)))
  {
    CommitWritesWhatWasSent(config, steps, c, op, slot, heard);
    RowStays(Exec(RunAll(Init(config), steps), Commit(c, op, slot, heard)), after, op);
  }

  // ----- What a key is bound to -----

  /** Two omissible fields that stand for the same value. */
  ghost predicate SameDefaulted<T(!new)>(a: Option<T>, b: Option<T>, default: T) {
    exists value :: Defaulted(a, default, value) && Defaulted(b, default, value)
  }

  /** Two bodies of the same kind that agree in every field: omitted fields stand
      for their defaults, decimals are compared as texts, and the link of a
      creation body and the currency of a correction are not compared. */
  ghost predicate SameBody(a: Call, b: Call) {
    match (a, b)
    case (Create(user, _, p, x), Create(user', _, p', y)) =>
      && user == user' && p == p' && x.asset == y.asset && x.relatedAsset == y.relatedAsset && x.opType == y.opType
      && SameDefaulted(x.status, y.status, OperationStatus.Pending) && SameDefaulted(x.cash, y.cash, 0)
      && x.currency == y.currency && TextOf(x.rate) == TextOf(y.rate) && SameDetails(x.details, y.details)
      && SameDefaulted(x.metadata, y.metadata, "{}")
    case (Correct(user, _, p, o, x), Correct(user', _, p', o', y)) =>
      && user == user' && p == p' && o == o' && x.asset == y.asset && x.relatedAsset == y.relatedAsset
      && SameDefaulted(x.status, y.status, OperationStatus.Pending) && SameDefaulted(x.cash, y.cash, 0)
      && TextOf(x.rate) == TextOf(y.rate) && SameDetails(x.details, y.details)
      && SameDefaulted(x.metadata, y.metadata, "{}")
    case _ => false
  }

  /** The currency the call stands for: that of the corrected operation when a
      correction names none. */
  ghost predicate InCurrency(t: Tables, call: Call, currency: string) {
    match call
    case Create(_, _, _, r) => currency == r.currency
    case Correct(_, _, p, o, r) => InPortfolio(t, o, p) && Defaulted(r.currency, t.operations[o].currency, currency)
    case _ => false
  }

  /** The call asks for an operation that is cancelled from the start. */
  predicate AsksCancelled(call: Call) {
    || (call.Create? && call.create.status == Some(Cancelled))
    || (call.Correct? && call.correction.status == Some(Cancelled))
  }

  lemma DefaultedSame<T(!new)>(a: Option<T>, b: Option<T>, default: T)
    ensures SameDefaulted(a, b, default) <==> GetOr(a, default) == GetOr(b, default)
  {
    assert Defaulted(a, default, GetOr(a, default)) && Defaulted(b, default, GetOr(b, default));
  }

  /** The canonical operations two calls stood for, each in its own tables, agree
      but for the link exactly when the bodies and the currencies do. */
  lemma SameCandidateIffSameBody(t: Tables, a: Call, u: Tables, b: Call)
    requires IsWrite(a) && IsWrite(b) && a.user == b.user && KindOf(a) == KindOf(b) && CorrectedBy(a) == CorrectedBy(b)
    requires CandidateOf(t, a).Some? && CandidateOf(u, b).Some?
    ensures SameButLink(CandidateOf(t, a).value, CandidateOf(u, b).value) && a.portfolio == b.portfolio <==>
              (SameBody(a, b) && exists currency :: InCurrency(t, a, currency) && InCurrency(u, b, currency))
  {
    var x, y := CandidateOf(t, a).value, CandidateOf(u, b).value;
    assert InCurrency(t, a, x.currency) && InCurrency(u, b, y.currency);
    if a.Create? {
      DefaultedSame(a.create.status, b.create.status, OperationStatus.Pending);
      DefaultedSame(a.create.cash, b.create.cash, 0);
      DefaultedSame(a.create.metadata, b.create.metadata, "{}");
    } else {
      DefaultedSame(a.correction.status, b.correction.status, OperationStatus.Pending);
      DefaultedSame(a.correction.cash, b.correction.cash, 0);
      DefaultedSame(a.correction.metadata, b.correction.metadata, "{}");
    }
  }

  /** A step that lets a client compute its canonical operation does so over the
      tables it finds. */
  lemma StepAsks(s: Sys, step: Step, c: ClientId)
    requires c in Exec(s, step).clients && Exec(s, step).clients[c].asked.Some?
    ensures var client := Exec(s, step).clients[c];
      || (c in s.clients && s.clients[c].call == client.call && s.clients[c].asked == client.asked)
      || (IsWrite(client.call) && client.asked == CandidateOf(s.tables, client.call))
  {
    if IsWorkerStep(step) || step.SetAsset? {
      WorkerStepsKeepClients(s, step);
    } else if step.c != c {
      OthersStay(s, step, c);
    }
  }

  /** An API step leaves every other client as it is. */
  lemma OthersStay(s: Sys, step: Step, c: ClientId)
    requires !IsWorkerStep(step) && !step.SetAsset? && step.c != c
    ensures c in Exec(s, step).clients <==> c in s.clients
    ensures c in s.clients ==> Exec(s, step).clients[c] == s.clients[c]
  {
    if step.c in s.clients {
      OnlyMoverChanges(s, step, step.c, (0, 0));
    } else {
      NewClientArrives(s, step, step.c);
    }
  }

  /** Every client computed its canonical operation at some point of the run. */
  lemma {:induction false} AskedAtSomePoint(config: Config, steps: seq<Step>, c: ClientId) returns (i: nat)
    requires var s := RunAll(Init(config), steps); c in s.clients && s.clients[c].asked.Some?
    ensures var client := RunAll(Init(config), steps).clients[c];
      && i <= |steps| && IsWrite(client.call)
      && client.asked == CandidateOf(RunAll(Init(config), steps[..i]).tables, client.call)
    decreases |steps|
  {
    assert steps != [];
    var front, last := steps[..|steps| - 1], steps[|steps| - 1];
    assert steps == front + [last];
    RunAppend(Init(config), front, [last]);
    var s := RunAll(Init(config), front);
    RunOne(s, last);
    StepAsks(s, last, c);
    var client := RunAll(Init(config), steps).clients[c];
    if c in s.clients && s.clients[c].call == client.call && s.clients[c].asked == client.asked {
      i := AskedAtSomePoint(config, front, c);
      assert steps[..i] == front[..i];
    } else {
      i := |front|;
      assert steps[..i] == front;
    }
  }

  /** The currency the call stood for at some point of the run. */
  ghost predicate OnceInCurrency(config: Config, steps: seq<Step>, call: Call, currency: string) {
    exists i: nat :: i <= |steps| && InCurrency(RunAll(Init(config), steps[..i]).tables, call, currency)
  }

  /** All the clients that succeeded under one key sent the same body, up to the
      defaults and the link of a creation; their currencies agree too, where an
      omitted one of a correction is that of the corrected operation when the
      request was read. */
  lemma KeyBoundToOneBody(config: Config, steps: seq<Step>, k: Key, c: ClientId, d: ClientId, x: Outcome, y: Outcome)
    requires var s := RunAll(Init(config), steps);
             Answered(s, c, k, x) && Answered(s, d, k, y) && Succeeded(x) && Succeeded(y)
    ensures var s := RunAll(Init(config), steps);
            && SameBody(s.clients[c].call, s.clients[d].call)
            && exists currency :: OnceInCurrency(config, steps, s.clients[c].call, currency)
                                  && OnceInCurrency(config, steps, s.clients[d].call, currency)
  {
    var s := RunAll(Init(config), steps);
    KeyBoundToOneRequest(config, steps, k, c, d, x, y);
    var i := AskedAtSomePoint(config, steps, c);
    var j := AskedAtSomePoint(config, steps, d);
    var t, u := RunAll(Init(config), steps[..i]).tables, RunAll(Init(config), steps[..j]).tables;
    SameCandidateIffSameBody(t, s.clients[c].call, u, s.clients[d].call);
    var currency :| InCurrency(t, s.clients[c].call, currency) && InCurrency(u, s.clients[d].call, currency);
    assert OnceInCurrency(config, steps, s.clients[c].call, currency);
    assert OnceInCurrency(config, steps, s.clients[d].call, currency);
  }

  /** What a new request under a committed key is answered, on the bodies alone:
      a 404 when it corrects an operation the portfolio does not have, a 400 when
      it asks for a cancelled operation, a replay when its body is that of the
      request that wrote the record, and a 409 otherwise. Nothing is written. */
  lemma RetryAnsweredByBody(config: Config, steps: seq<Step>, k: Key, d: ClientId, call: Call)
    requires var s := RunAll(Init(config), steps);
             && k in s.tables.records && d !in s.clients && IsWrite(call) && KeyOf(call) == k
             && OwnedBy(config, call.user, call.portfolio)
    ensures var s := RunAll(Init(config), steps);
            var v := RunAll(s, RetrySteps(d, call));
            var record := s.tables.records[k];
            && v.tables == s.tables && d in v.clients && record.winner in s.clients
            && v.clients[d].phase == Done(
                 if call.Correct? && !InPortfolio(s.tables, call.original, call.portfolio) then Rejected(404)
                 else if AsksCancelled(call) then Rejected(400)
                 else if SameAsWritten(s, s.clients[record.winner].call, call)
                 then Replayed(record.operation, record.refresh) else KeyConflict)
  {
    var s := RunAll(Init(config), steps);
    Reachable(config, steps);
    WinnerWrote(s, k);
    RunRetrySteps(s, d, call);
    if CandidateOf(s.tables, call).Some? {
      RecordMeetsRetry(s, k, d, call);
      RetrySameIff(s, k, call);
    } else {
      RefusedRetry(s, d, call);
    }
  }

  ghost predicate SameAsWritten(s: Sys, written: Call, call: Call) {
    && SameBody(written, call)
    && exists currency :: InCurrency(s.tables, written, currency) && InCurrency(s.tables, call, currency)
  }

  lemma RetrySameIff(s: Sys, k: Key, call: Call)
    requires Inv(s) && k in s.tables.records && IsWrite(call) && KeyOf(call) == k && CandidateOf(s.tables, call).Some?
    ensures var winner := s.tables.records[k].winner;
            && winner in s.clients
            && (SameRequest(s.clients[winner], Asking(s.tables, call)) <==>
                  SameAsWritten(s, s.clients[winner].call, call))
  {
    WinnerWrote(s, k);
    var written := s.clients[s.tables.records[k].winner].call;
    if KindOf(written) == KindOf(call) && CorrectedBy(written) == CorrectedBy(call) {
      SameCandidateIffSameBody(s.tables, written, s.tables, call);
    }
  }

  lemma RefusedRetry(s: Sys, d: ClientId, call: Call)
    requires d !in s.clients && IsWrite(call) && OwnedBy(s.config, call.user, call.portfolio)
    requires CandidateOf(s.tables, call).None?
    ensures var v := Exec(Exec(Exec(Exec(s, Arrive(d, call)), Canonicalize(d)), Lookup(d)), Replay(d));
            && v.tables == s.tables && d in v.clients
            && v.clients[d].phase == Done(Rejected(
                 if call.Correct? && !InPortfolio(s.tables, call.original, call.portfolio) then 404 else 400))
    ensures (call.Correct? && !InPortfolio(s.tables, call.original, call.portfolio)) || AsksCancelled(call)
  {
  }
}
