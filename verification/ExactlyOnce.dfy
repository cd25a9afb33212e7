/** Exactly-once writes: what any number of clients that share an idempotency
    key can observe, over every interleaving and every mix of commits and
    aborts. */
module ExactlyOnce {
  import opened Ledger
  import opened Fingerprints
  import opened LedgerTables
  import opened Protocol
  import opened WriteInvariant
  import opened WriteSteps

  predicate Succeeded(outcome: Outcome) { outcome.Created? || outcome.Replayed? }

  /** Client `c` asked for a write under `k` and got `outcome`. */
  predicate Answered(s: Sys, c: ClientId, k: Key, outcome: Outcome) {
    c in s.clients && IsWrite(s.clients[c].call) && KeyOf(s.clients[c].call) == k
    && s.clients[c].phase == Done(outcome)
  }

  /** Two requests asked for the same write: same user, kind, portfolio and
      corrected operation, and canonical operations, as each computed its own,
      that agree except, possibly, on the link a creation body carries. */
  ghost predicate SameRequest(a: Client, b: Client) {
    && IsWrite(a.call) && IsWrite(b.call) && a.call.user == b.call.user
    && KindOf(a.call) == KindOf(b.call) && CorrectedBy(a.call) == CorrectedBy(b.call)
    && a.call.portfolio == b.call.portfolio
    && a.asked.Some? && b.asked.Some? && SameButLink(a.asked.value, b.asked.value)
  }

  lemma Reachable(config: Config, steps: seq<Step>)
    ensures Inv(RunAll(Init(config), steps))
    ensures RunAll(Init(config), steps).config == config
  {
    InitInv(config);
    RunKeepsInv(Init(config), steps);
  }

  // ----- One row, one 201 -----

  /** The client that wrote a record, whatever it was answered. */
  lemma WinnerWrote(s: Sys, k: Key)
    requires Inv(s) && k in s.tables.records
    ensures var record := s.tables.records[k];
            && WinnerOk(s.clients, k, record) && Wrote(s.tables, s.clients[record.winner], record)
  {
    assert WinnerOk(s.clients, k, s.tables.records[k]);
    assert ClientOk(s.config, s.tables, s.tables.records[k].winner, s.clients[s.tables.records[k].winner]);
  }

  lemma SuccessNamesRecord(s: Sys, c: ClientId, k: Key, outcome: Outcome)
    requires Inv(s) && Answered(s, c, k, outcome) && Succeeded(outcome)
    ensures k in s.tables.records
    ensures outcome.operation == s.tables.records[k].operation && outcome.refresh == s.tables.records[k].refresh
    ensures outcome.Created? ==> s.tables.records[k].winner == c
    ensures outcome.Replayed? ==> s.tables.records[k].winner != c
    ensures Answers(s.clients[c], s.tables.records[k])
  {
    assert ClientOk(s.config, s.tables, c, s.clients[c]);
    assert WinnerOk(s.clients, k, s.tables.records[k]);
  }

  lemma OneRowPerKey(s: Sys, o: OperationId, q: OperationId)
    requires Inv(s) && o in s.tables.operations && q in s.tables.operations
    requires s.tables.operations[o].origin == s.tables.operations[q].origin
    ensures o == q
  {
    assert RowOk(s.config, s.tables, o, s.tables.operations[o]);
    assert RowOk(s.config, s.tables, q, s.tables.operations[q]);
  }

  /** Exactly once: for every run and every key, at most one ledger row, at most
      one 201, and every other success repeats its ids. A success is backed by
      one record, whose writer got the 201, or a 500 or no answer when its
      commit landed unheard. */
  lemma ExactlyOnceWrites(config: Config, steps: seq<Step>, k: Key)
    ensures var s := RunAll(Init(config), steps);
      && (forall c, d, x, y | Answered(s, c, k, x) && Answered(s, d, k, y) && x.Created? && y.Created? :: c == d)
      && (forall c, d, x, y | Answered(s, c, k, x) && Answered(s, d, k, y) && Succeeded(x) && Succeeded(y) ::
            x.operation == y.operation && x.refresh == y.refresh)
      && (forall o, q | o in s.tables.operations && q in s.tables.operations
                        && s.tables.operations[o].origin == k && s.tables.operations[q].origin == k :: o == q)
      && (forall c, x | Answered(s, c, k, x) && Succeeded(x) ::
            && k in s.tables.records && s.tables.records[k].operation == x.operation
            && s.tables.records[k].refresh == x.refresh
            && (Answered(s, s.tables.records[k].winner, k, Created(x.operation, x.refresh))
                || Answered(s, s.tables.records[k].winner, k, DatabaseError)))
      && (forall c | c in s.clients :: s.clients[c].phase != Done(ReplayBroken))
  {
    var s := RunAll(Init(config), steps);
    Reachable(config, steps);
    forall c, x | Answered(s, c, k, x) && Succeeded(x)
      ensures k in s.tables.records
      ensures x.operation == s.tables.records[k].operation && x.refresh == s.tables.records[k].refresh
      ensures x.Created? ==> s.tables.records[k].winner == c
      ensures Answered(s, s.tables.records[k].winner, k, Created(x.operation, x.refresh))
              || Answered(s, s.tables.records[k].winner, k, DatabaseError)
    {
      SuccessNamesRecord(s, c, k, x);
      assert WinnerOk(s.clients, k, s.tables.records[k]);
    }
    forall o, q | o in s.tables.operations && q in s.tables.operations
                  && s.tables.operations[o].origin == k && s.tables.operations[q].origin == k
      ensures o == q
    {
      OneRowPerKey(s, o, q);
    }
    forall c | c in s.clients ensures s.clients[c].phase != Done(ReplayBroken) {
      assert ClientOk(s.config, s.tables, c, s.clients[c]);
    }
  }

  // ----- A key is bound to one request -----

  /** A record answers exactly the requests that ask for what its winner asked. */
  lemma AnswersIffSame(a: Client, b: Client, record: Record)
    requires Answers(a, record) && IsWrite(b.call) && a.call.user == b.call.user && b.asked.Some?
    ensures Answers(b, record) <==> SameRequest(a, b)
  {
    FingerprintDecides(a.call.user, KindOf(a.call), CorrectedBy(a.call), a.asked.value,
                       b.call.user, KindOf(b.call), CorrectedBy(b.call), b.asked.value);
  }

  /** In every run, all the clients that succeeded under one key asked for the
      same write. */
  lemma KeyBoundToOneRequest(config: Config, steps: seq<Step>, k: Key, c: ClientId, d: ClientId, x: Outcome, y: Outcome)
    requires var s := RunAll(Init(config), steps);
             Answered(s, c, k, x) && Answered(s, d, k, y) && Succeeded(x) && Succeeded(y)
    ensures var s := RunAll(Init(config), steps);
            SameRequest(s.clients[c], s.clients[d])
  {
    var s := RunAll(Init(config), steps);
    Reachable(config, steps);
    SuccessNamesRecord(s, c, k, x);
    SuccessNamesRecord(s, d, k, y);
    AnswersIffSame(s.clients[c], s.clients[d], s.tables.records[k]);
  }

  /** Once a key is committed, a later request under it is replayed exactly when
      it asks for the same write, and is a 409 otherwise. Nothing is written. */
  lemma ReplayIffSameRequest(config: Config, steps: seq<Step>, c: ClientId)
    requires var s := RunAll(Init(config), steps); c in s.clients && s.clients[c].phase.Replaying?
    ensures var s := RunAll(Init(config), steps);
            var s' := Exec(s, Replay(c));
            var record := s.clients[c].phase.record;
            && record.winner in s.clients
            && s'.tables == s.tables
            && s'.clients[c].phase ==
                 Done(if SameRequest(s.clients[record.winner], s.clients[c])
                      then Replayed(record.operation, record.refresh) else KeyConflict)
  {
    var s := RunAll(Init(config), steps);
    Reachable(config, steps);
    assert ClientOk(s.config, s.tables, c, s.clients[c]);
    var record := s.clients[c].phase.record;
    var k := KeyOf(s.clients[c].call);
    assert RecordOk(s.tables, k, record);
    WinnerWrote(s, k);
    AnswersIffSame(s.clients[record.winner], s.clients[c], record);
  }

  // ----- Replays are stable -----

  lemma RunThree(s: Sys, a: Step, b: Step, c: Step)
    ensures RunAll(s, [a, b, c]) == Exec(Exec(Exec(s, a), b), c)
  {
    assert [a, b, c][1..] == [b, c] && [b, c][1..] == [c] && [c][1..] == [];
    assert RunAll(s, [a, b, c]) == RunAll(Exec(s, a), [b, c]) == RunAll(Exec(Exec(s, a), b), [c]);
    assert RunAll(Exec(Exec(s, a), b), [c]) == RunAll(Exec(Exec(Exec(s, a), b), c), []);
  }

  /** A new client that meets a committed record. */
  function RetrySteps(c: ClientId, call: Call): seq<Step> {
    [Arrive(c, call)] + [Canonicalize(c), Lookup(c), Replay(c)]
  }

  lemma RunRetrySteps(s: Sys, c: ClientId, call: Call)
    ensures RunAll(s, RetrySteps(c, call))
              == Exec(Exec(Exec(Exec(s, Arrive(c, call)), Canonicalize(c)), Lookup(c)), Replay(c))
  {
    assert RetrySteps(c, call)[0] == Arrive(c, call);
    assert RetrySteps(c, call)[1..] == [Canonicalize(c), Lookup(c), Replay(c)];
    RunThree(Exec(s, Arrive(c, call)), Canonicalize(c), Lookup(c), Replay(c));
  }

  /** The request as it would stand after its own canonicalisation now. */
  function Asking(t: Tables, call: Call): Client
    requires IsWrite(call)
  {
    Client(call, CandidateOf(t, call), Arrived)
  }

  lemma RetryIsLookedUp(u: Sys, k: Key, c: ClientId, call: Call)
    requires k in u.tables.records && IsWrite(call) && KeyOf(call) == k
    requires Owns(u.config, call.user, call.portfolio) && c !in u.clients
    requires CandidateOf(u.tables, call).Some?
    ensures var asked := CandidateOf(u.tables, call).value;
            Exec(Exec(Exec(u, Arrive(c, call)), Canonicalize(c)), Lookup(c)) ==
              u.(clients := u.clients[c := Client(call, Some(asked),
                                                  Replaying(u.tables.records[k], FingerprintOf(call, asked)))])
  {
    var u1 := Exec(u, Arrive(c, call));
    var u2 := Exec(u1, Canonicalize(c));
    assert u2.clients[c].phase.Canonical? && u2.tables == u.tables;
  }

  /** A new client that retries a committed request is answered from its record. */
  lemma RetryIsReplayed(u: Sys, k: Key, c: ClientId, call: Call)
    requires Inv(u) && k in u.tables.records && IsWrite(call) && KeyOf(call) == k
    requires Owns(u.config, call.user, call.portfolio) && c !in u.clients
    requires Answers(Asking(u.tables, call), u.tables.records[k])
    ensures var v := RunAll(u, RetrySteps(c, call));
            && v.tables == u.tables
            && Answered(v, c, k, Replayed(u.tables.records[k].operation, u.tables.records[k].refresh))
  {
    var record := u.tables.records[k];
    RetryIsLookedUp(u, k, c, call);
    assert RecordOk(u.tables, k, record);
    var looked := Exec(Exec(Exec(u, Arrive(c, call)), Canonicalize(c)), Lookup(c));
    ReplayAnswers(looked, k, c, FingerprintOf(call, CandidateOf(u.tables, call).value));
    RunRetrySteps(u, c, call);
  }

  lemma ReplayAnswers(s: Sys, k: Key, c: ClientId, fingerprint: Fingerprint)
    requires k in s.tables.records && RecordOk(s.tables, k, s.tables.records[k])
    requires c in s.clients && IsWrite(s.clients[c].call) && KeyOf(s.clients[c].call) == k
    requires s.clients[c].phase == Replaying(s.tables.records[k], fingerprint)
    ensures var record := s.tables.records[k];
            var v := Exec(s, Replay(c));
            && v.tables == s.tables
            && Answered(v, c, k, ReplayOutcome(s.tables, record, s.clients[c].call, fingerprint))
  {
  }

  /** A record that answers a correction pins the corrected operation, so a
      retry computes the same canonical operation for ever. */
  lemma RetryAsksTheSame(t: Tables, u: Tables, k: Key, call: Call)
    requires IsWrite(call) && k in t.records && RecordOk(t, k, t.records[k]) && Evolves(t, u)
    requires Answers(Asking(t, call), t.records[k])
    ensures Answers(Asking(u, call), u.records[k])
  {
    assert Settled(t, call);
    SettledStays(t, u, call);
  }

  /** Whatever happens after a write commits (asset changes, posts, patches,
      worker steps, other requests), retrying it returns its ids and writes
      nothing. */
  lemma ReplayStableUnderDrift(config: Config, before: seq<Step>, after: seq<Step>, k: Key, c: ClientId, call: Call)
    requires var s := RunAll(Init(config), before);
             && k in s.tables.records && IsWrite(call) && KeyOf(call) == k
             && Owns(config, call.user, call.portfolio)
             && s.tables.records[k].winner in s.clients
             && SameRequest(s.clients[s.tables.records[k].winner], Asking(s.tables, call))
    requires c !in RunAll(RunAll(Init(config), before), after).clients
    ensures var s := RunAll(Init(config), before);
            var u := RunAll(s, after);
            var v := RunAll(u, RetrySteps(c, call));
            && v.tables == u.tables
            && Answered(v, c, k, Replayed(s.tables.records[k].operation, s.tables.records[k].refresh))
  {
    var s := RunAll(Init(config), before);
    Reachable(config, before);
    var u := RunAll(s, after);
    RunKeepsInv(s, after);
    var record := s.tables.records[k];
    WinnerWrote(s, k);
    assert RecordOk(s.tables, k, record);
    AnswersIffSame(s.clients[record.winner], Asking(s.tables, call), record);
    RetryAsksTheSame(s.tables, u.tables, k, call);
    RetryIsReplayed(u, k, c, call);
  }

  // ----- After a failure -----

  /** The retry of a request whose answer was a 500 or was lost. When a record
      is committed under its key, it is a 200 with the recorded ids if the record
      is of the same request, always so when the failed client wrote it itself,
      and a 409 otherwise; when none is, the retry is a fresh request. Either way
      nothing is written by then. */
  lemma RetryAfterFailure(config: Config, steps: seq<Step>, c: ClientId, d: ClientId)
    requires var s := RunAll(Init(config), steps);
             && c in s.clients && s.clients[c].phase == Done(DatabaseError) && s.clients[c].asked.Some?
             && d !in s.clients
    ensures var s := RunAll(Init(config), steps);
            var call := s.clients[c].call;
            && IsWrite(call) && CandidateOf(s.tables, call).Some?
            && var v := RunAll(s, RetrySteps(d, call));
               && v.tables == s.tables && d in v.clients
               && (KeyOf(call) !in s.tables.records ==> v.clients[d].phase.Fresh?)
               && (KeyOf(call) in s.tables.records ==>
                     var record := s.tables.records[KeyOf(call)];
                     && record.winner in s.clients
                     && v.clients[d].phase == Done(if SameRequest(s.clients[record.winner], Asking(s.tables, call))
                                                   then Replayed(record.operation, record.refresh) else KeyConflict)
                     && (record.winner == c ==> SameRequest(s.clients[c], Asking(s.tables, call))))
  {
    var s := RunAll(Init(config), steps);
    Reachable(config, steps);
    assert ClientOk(s.config, s.tables, c, s.clients[c]);
    var call := s.clients[c].call;
    RunRetrySteps(s, d, call);
    if KeyOf(call) in s.tables.records {
      RecordMeetsRetry(s, KeyOf(call), d, call);
    } else {
      NoRecordForRetry(s, d, call);
    }
  }

  lemma NoRecordForRetry(s: Sys, d: ClientId, call: Call)
    requires IsWrite(call) && Owns(s.config, call.user, call.portfolio) && d !in s.clients
    requires CandidateOf(s.tables, call).Some? && KeyOf(call) !in s.tables.records
    ensures var v := Exec(Exec(Exec(Exec(s, Arrive(d, call)), Canonicalize(d)), Lookup(d)), Replay(d));
            v.tables == s.tables && d in v.clients && v.clients[d].phase.Fresh?
  {
    var s1 := Exec(s, Arrive(d, call));
    var s2 := Exec(s1, Canonicalize(d));
    assert s2.clients[d].phase.Canonical? && s2.tables == s.tables;
  }

  lemma RecordMeetsRetry(s: Sys, k: Key, d: ClientId, call: Call)
    requires Inv(s) && k in s.tables.records && IsWrite(call) && KeyOf(call) == k
    requires Owns(s.config, call.user, call.portfolio) && d !in s.clients && CandidateOf(s.tables, call).Some?
    ensures var record := s.tables.records[k];
            var v := Exec(Exec(Exec(Exec(s, Arrive(d, call)), Canonicalize(d)), Lookup(d)), Replay(d));
            && v.tables == s.tables && d in v.clients && record.winner in s.clients
            && v.clients[d].phase == Done(if SameRequest(s.clients[record.winner], Asking(s.tables, call))
                                          then Replayed(record.operation, record.refresh) else KeyConflict)
            && (s.clients[record.winner].call == call ==> SameRequest(s.clients[record.winner], Asking(s.tables, call)))
  {
    RetryIsLookedUp(s, k, d, call);
    WinnerWrote(s, k);
    assert RecordOk(s.tables, k, s.tables.records[k]);
    AnswersIffSame(s.clients[s.tables.records[k].winner], Asking(s.tables, call), s.tables.records[k]);
  }

  // ----- Keys are independent -----

  /** A step of a request under one key, or of a request without one, changes
      neither the record of another key nor who waits for it: another user with
      the same UUID is unaffected. */
  lemma OtherKeysAreUnaffected(s: Sys, step: Step, c: ClientId, k: Key)
    requires MovedBy(step, c)
    requires c in s.clients && IsWrite(s.clients[c].call) ==> KeyOf(s.clients[c].call) != k
    ensures var s' := Exec(s, step);
            && (k in s'.tables.records <==> k in s.tables.records)
            && (k in s.tables.records ==> s'.tables.records[k] == s.tables.records[k])
            && (forall d | d in s.clients && d != c :: Blocked(s', d, k) <==> Blocked(s, d, k))
  {
    var s' := Exec(s, step);
    if c in s.clients {
      OnlyMoverChanges(s, step, c, k);
    } else {
      NewClientArrives(s, step, c);
    }
    forall d | d in s.clients && d != c ensures Blocked(s', d, k) <==> Blocked(s, d, k) {
      BlockingStays(s, s', c, d, k);
    }
  }

  lemma BlockingStays(s: Sys, s': Sys, c: ClientId, d: ClientId, k: Key)
    requires forall e | e in s.clients :: e in s'.clients && (e != c ==> s'.clients[e] == s.clients[e])
    requires forall e | e in s'.clients && e !in s.clients :: s'.clients[e].phase == Arrived
    requires c in s.clients ==> s'.clients[c].call == s.clients[c].call
    requires c in s.clients && IsWrite(s.clients[c].call) ==> KeyOf(s.clients[c].call) != k
    ensures Blocked(s', d, k) <==> Blocked(s, d, k)
  {
    if Blocked(s, d, k) {
      var e :| e in s.clients && e != d && s.clients[e].phase.InTransaction?
               && IsWrite(s.clients[e].call) && KeyOf(s.clients[e].call) == k;
      assert s'.clients[e] == s.clients[e];
    }
    if Blocked(s', d, k) {
      var e :| e in s'.clients && e != d && s'.clients[e].phase.InTransaction?
               && IsWrite(s'.clients[e].call) && KeyOf(s'.clients[e].call) == k;
      assert s.clients[e] == s'.clients[e];
    }
  }

  /** The API step moves client `c`. */
  predicate MovedBy(step: Step, c: ClientId) {
    !IsWorkerStep(step) && !step.SetAsset? && step.c == c
  }

  lemma NewClientArrives(s: Sys, step: Step, c: ClientId)
    requires MovedBy(step, c) && c !in s.clients
    ensures var s' := Exec(s, step);
            && s'.tables == s.tables && s'.clients.Keys <= s.clients.Keys + {c}
            && (forall d | d in s.clients :: d in s'.clients && s'.clients[d] == s.clients[d])
            && (c in s'.clients ==> s'.clients[c].phase == Arrived)
  {
  }

  lemma OnlyMoverChanges(s: Sys, step: Step, c: ClientId, k: Key)
    requires MovedBy(step, c) && c in s.clients
    ensures var s' := Exec(s, step);
            && s'.clients.Keys == s.clients.Keys && s'.clients[c].call == s.clients[c].call
            && (forall d | d in s.clients && d != c :: s'.clients[d] == s.clients[d])
            && ((IsWrite(s.clients[c].call) && KeyOf(s.clients[c].call) == k)
                || ((k in s'.tables.records <==> k in s.tables.records)
                    && (k in s.tables.records ==> s'.tables.records[k] == s.tables.records[k])))
  {
    if IsCommitStep(step) {
      CommitChangesMover(s, step, k);
    } else if step.ReadForPost? || step.ReadForCancel? || step.ReadForPatch? {
      UpdateReadChangesMover(s, step);
    } else {
      WriteReadChangesMover(s, step);
    }
  }

  lemma CommitChangesMover(s: Sys, step: Step, k: Key)
    requires IsCommitStep(step) && step.c in s.clients
    ensures var s' := Exec(s, step);
            && s'.clients.Keys == s.clients.Keys && s'.clients[step.c].call == s.clients[step.c].call
            && (forall d | d in s.clients && d != step.c :: s'.clients[d] == s.clients[d])
            && (s'.tables.records == s.tables.records
                || (IsWrite(s.clients[step.c].call)
                    && (KeyOf(s.clients[step.c].call) == k
                        || ((k in s'.tables.records <==> k in s.tables.records)
                            && (k in s.tables.records ==> s'.tables.records[k] == s.tables.records[k])))))
  {
    if !step.Commit? {
      UpdateCommitChangesMover(s, step);
    }
  }

  lemma UpdateCommitChangesMover(s: Sys, step: Step)
    requires IsCommitStep(step) && !step.Commit? && step.c in s.clients
    ensures var s' := Exec(s, step);
            && s'.clients.Keys == s.clients.Keys && s'.clients[step.c].call == s.clients[step.c].call
            && (forall d | d in s.clients && d != step.c :: s'.clients[d] == s.clients[d])
            && s'.tables.records == s.tables.records
  {
    match step
    case CommitPost(c, slot, heard) => assert Exec(s, step) == ExecCommitPost(s, c, slot, heard);
    case CommitCancel(c, heard) => assert Exec(s, step) == ExecCommitCancel(s, c, heard);
    case CommitPatch(c, heard) => assert Exec(s, step) == ExecCommitPatch(s, c, heard);
  }

  lemma WriteReadChangesMover(s: Sys, step: Step)
    requires !IsWorkerStep(step) && !step.SetAsset? && !IsCommitStep(step) && step.c in s.clients
    requires !step.ReadForPost? && !step.ReadForCancel? && !step.ReadForPatch?
    ensures var s' := Exec(s, step);
            && s'.clients.Keys == s.clients.Keys && s'.clients[step.c].call == s.clients[step.c].call
            && (forall d | d in s.clients && d != step.c :: s'.clients[d] == s.clients[d])
            && s'.tables == s.tables
  {
  }

  lemma UpdateReadChangesMover(s: Sys, step: Step)
    requires (step.ReadForPost? || step.ReadForCancel? || step.ReadForPatch?) && step.c in s.clients
    ensures var s' := Exec(s, step);
            && s'.clients.Keys == s.clients.Keys && s'.clients[step.c].call == s.clients[step.c].call
            && (forall d | d in s.clients && d != step.c :: s'.clients[d] == s.clients[d])
            && s'.tables == s.tables
  {
  }
}
