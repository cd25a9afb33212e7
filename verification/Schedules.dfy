/** Schedules that show the conditions of the other theorems are needed: runs
    of the protocol that leave a promise of the documentation unkept. */
module Schedules {
  import opened Ledger
  import opened Fingerprints
  import opened LedgerTables
  import opened Protocol
  import opened WriteInvariant
  import opened WriteSteps
  import opened ExactlyOnce
  import opened Lifecycle
  import opened RefreshQueue
  import opened Freshness

  // ----- Composing runs -----

  lemma {:induction false} RunAppend(s: Sys, a: seq<Step>, b: seq<Step>)
    ensures RunAll(s, a + b) == RunAll(RunAll(s, a), b)
    decreases |a|
  {
    if a == [] {
      assert a + b == b;
    } else {
      assert (a + b)[0] == a[0] && (a + b)[1..] == a[1..] + b;
      RunAppend(Exec(s, a[0]), a[1..], b);
    }
  }

  lemma RunOne(s: Sys, a: Step)
    ensures RunAll(s, [a]) == Exec(s, a)
  {
    assert [a][1..] == [];
    assert RunAll(s, [a]) == RunAll(Exec(s, a), []);
  }

  lemma RunTwo(s: Sys, a: Step, b: Step)
    ensures RunAll(s, [a, b]) == Exec(Exec(s, a), b)
  {
    assert [a, b] == [a] + [b];
    RunAppend(s, [a], [b]);
    RunOne(s, a);
    RunOne(Exec(s, a), b);
  }

  // ----- An example portfolio -----

  const EXAMPLE := Config(map[1 := Portfolio(1, "EUR")], 5)
  const NOW := Timestamp(0, 0)
  const NOTHING := Details(NOW, None, None, None, None, Some(1000), None, None, None, None, None)

  function DepositOf(status: OperationStatus): CreateRequest {
    CreateRequest(None, None, OperationType.Deposit, Some(status), Some(1000), "EUR", None, None, NOTHING, None)
  }

  function WriteRun(c: ClientId, call: Call, op: OperationId, slot: RequestId): seq<Step> {
    [Arrive(c, call), Canonicalize(c), Lookup(c)] + [Validate(c, true), Claim(c), Commit(c, op, slot, true)]
  }

  /** The call passes every check of the present state and its row fits. */
  ghost predicate Admissible(s: Sys, call: Call, op: OperationId, slot: RequestId) {
    && IsWrite(call) && Owns(s.config, call.user, call.portfolio) && KeyOf(call) !in s.tables.records
    && Settled(s.tables, call) && CandidateOf(s.tables, call).Some?
    && var candidate := CandidateOf(s.tables, call).value;
       && CandidateAccepted(call, candidate)
       && AssetsOk(s.tables.activeAssets, candidate.asset, candidate.relatedAsset, candidate.opType)
       && (candidate.status == Posted ==> CrossCurrencyOk(candidate, BaseOf(s.config, call.portfolio)))
       && InsertAllowed(s.tables, candidate, KeyOf(call), op, slot)
  }

  function Written(s: Sys, c: ClientId, call: Call, op: OperationId, slot: RequestId): Sys
    requires IsWrite(call) && CandidateOf(s.tables, call).Some?
             && StoredRow(CandidateOf(s.tables, call).value, KeyOf(call)).Some?
  {
    var candidate := CandidateOf(s.tables, call).value;
    var refresh := if candidate.status == Posted then Some(slot) else None;
    s.(clients := s.clients[c := Client(call, Some(candidate), Done(Created(op, refresh)))],
       tables := Insert(s.tables, KeyOf(call), KindOf(call), CorrectedBy(call), FingerprintOf(call, candidate),
                        candidate, op, slot, c))
  }

  lemma RunLookup(s: Sys, c: ClientId, call: Call)
    requires c !in s.clients && IsWrite(call) && Owns(s.config, call.user, call.portfolio)
             && KeyOf(call) !in s.tables.records
    requires Settled(s.tables, call) && CandidateOf(s.tables, call).Some?
    ensures var candidate := CandidateOf(s.tables, call).value;
            RunAll(s, [Arrive(c, call), Canonicalize(c), Lookup(c)])
              == s.(clients := s.clients[c := Client(call, Some(candidate),
                                                     Fresh(candidate, FingerprintOf(call, candidate), true))])
  {
    var candidate := CandidateOf(s.tables, call).value;
    var s1 := Exec(s, Arrive(c, call));
    var s2 := Exec(s1, Canonicalize(c));
    assert s2 == s1.(clients := s1.clients[c := Client(call, Some(candidate),
                                                       Canonical(candidate, FingerprintOf(call, candidate), true))]);
    RunThree(s, Arrive(c, call), Canonicalize(c), Lookup(c));
  }

  lemma RunFresh(s: Sys, c: ClientId, call: Call, op: OperationId, slot: RequestId)
    requires c !in s.clients && Admissible(s, call, op, slot)
    requires !Blocked(s, c, KeyOf(call))
    ensures var candidate := CandidateOf(s.tables, call).value;
            var s1 := s.(clients := s.clients[c := Client(call, Some(candidate),
                                                          Fresh(candidate, FingerprintOf(call, candidate), true))]);
            RunAll(s1, [Validate(c, true), Claim(c), Commit(c, op, slot, true)]) == Written(s, c, call, op, slot)
  {
    var candidate := CandidateOf(s.tables, call).value;
    var s1 := s.(clients := s.clients[c := Client(call, Some(candidate),
                                                  Fresh(candidate, FingerprintOf(call, candidate), true))]);
    RunValidate(s, c, call, op, slot);
    RunThree(s1, Validate(c, true), Claim(c), Commit(c, op, slot, true));
  }

  lemma RunValidate(s: Sys, c: ClientId, call: Call, op: OperationId, slot: RequestId)
    requires c !in s.clients && Admissible(s, call, op, slot)
    requires !Blocked(s, c, KeyOf(call))
    ensures var candidate := CandidateOf(s.tables, call).value;
            var fingerprint := FingerprintOf(call, candidate);
            var s1 := s.(clients := s.clients[c := Client(call, Some(candidate), Fresh(candidate, fingerprint, true))]);
            Exec(Exec(s1, Validate(c, true)), Claim(c))
              == s.(clients := s.clients[c := Client(call, Some(candidate), InTransaction(candidate, fingerprint))])
  {
    var candidate := CandidateOf(s.tables, call).value;
    var fingerprint := FingerprintOf(call, candidate);
    var s1 := s.(clients := s.clients[c := Client(call, Some(candidate), Fresh(candidate, fingerprint, true))]);
    assert Exec(s1, Validate(c, true)) == Move(s1, c, Validated(candidate, fingerprint));
  }

  /** A creation or correction that nothing disturbs runs to its 201. */
  lemma RunWrite(s: Sys, c: ClientId, call: Call, op: OperationId, slot: RequestId)
    requires c !in s.clients && Admissible(s, call, op, slot)
    requires !Blocked(s, c, KeyOf(call))
    ensures RunAll(s, WriteRun(c, call, op, slot)) == Written(s, c, call, op, slot)
  {
    RunLookup(s, c, call);
    RunFresh(s, c, call, op, slot);
    RunAppend(s, [Arrive(c, call), Canonicalize(c), Lookup(c)],
              [Validate(c, true), Claim(c), Commit(c, op, slot, true)]);
  }

  // ----- A refused request -----

  /** A posted foreign-currency write without a rate is a 422 that leaves no
      trace, and a corrected request under the same key is then a 201. */
  lemma RefusalKeepsKeyFree(s: Sys, c: ClientId, d: ClientId, bad: Call, good: Call, op: OperationId, slot: RequestId)
    requires c !in s.clients && d !in s.clients && c != d
    requires IsWrite(bad) && Owns(s.config, bad.user, bad.portfolio) && Settled(s.tables, bad)
    requires CandidateOf(s.tables, bad).Some?
    requires var candidate := CandidateOf(s.tables, bad).value;
             && candidate.status == Posted && candidate.cash != 0 && candidate.rate.None?
             && CandidateAccepted(bad, candidate)
             && candidate.currency != BaseOf(s.config, bad.portfolio)
             && AssetsOk(s.tables.activeAssets, candidate.asset, candidate.relatedAsset, candidate.opType)
    requires Admissible(s, good, op, slot) && KeyOf(good) == KeyOf(bad)
    requires !Blocked(s, d, KeyOf(good))
    ensures var refused := RunAll(s, [Arrive(c, bad), Canonicalize(c), Lookup(c)] + [Validate(c, true)]);
            var accepted := RunAll(refused, WriteRun(d, good, op, slot));
            && c in refused.clients && refused.clients[c].phase == Done(Rejected(422)) && refused.tables == s.tables
            && d in accepted.clients && accepted.clients[d].phase.Done? && accepted.clients[d].phase.outcome.Created?
  {
    RunRefused(s, c, bad);
    var refused := RunAll(s, [Arrive(c, bad), Canonicalize(c), Lookup(c)] + [Validate(c, true)]);
    RunWrite(refused, d, good, op, slot);
  }

  lemma RunRefused(s: Sys, c: ClientId, bad: Call)
    requires c !in s.clients && IsWrite(bad) && Owns(s.config, bad.user, bad.portfolio) && Settled(s.tables, bad)
    requires CandidateOf(s.tables, bad).Some? && KeyOf(bad) !in s.tables.records
    requires var candidate := CandidateOf(s.tables, bad).value;
             && candidate.status == Posted && candidate.cash != 0 && candidate.rate.None?
             && CandidateAccepted(bad, candidate)
             && candidate.currency != BaseOf(s.config, bad.portfolio)
             && AssetsOk(s.tables.activeAssets, candidate.asset, candidate.relatedAsset, candidate.opType)
    ensures RunAll(s, [Arrive(c, bad), Canonicalize(c), Lookup(c)] + [Validate(c, true)])
              == s.(clients := s.clients[c := Client(bad, CandidateOf(s.tables, bad), Done(Rejected(422)))])
  {
    var candidate := CandidateOf(s.tables, bad).value;
    RunLookup(s, c, bad);
    var s3 := RunAll(s, [Arrive(c, bad), Canonicalize(c), Lookup(c)]);
    CandidateOfPortfolio(s.tables, bad);
    assert Exec(s3, Validate(c, true)) == Move(s3, c, Done(Rejected(422)));
    RunOne(s3, Validate(c, true));
    RunAppend(s, [Arrive(c, bad), Canonicalize(c), Lookup(c)], [Validate(c, true)]);
  }

  lemma CandidateOfPortfolio(t: Tables, call: Call)
    requires IsWrite(call) && CandidateOf(t, call).Some?
    ensures CandidateOf(t, call).value.portfolio == call.portfolio
  {
  }

  // ----- A stale post -----

  function ReadSteps(c: ClientId, user: UserId, p: PortfolioId, o: OperationId): seq<Step> {
    [Arrive(c, Call.Post(user, p, o)), ReadForPost(c, true)]
  }

  function CancelSteps(d: ClientId, user: UserId, p: PortfolioId, o: OperationId): seq<Step> {
    [Arrive(d, Call.Cancel(user, p, o)), ReadForCancel(d), CommitCancel(d, true)]
  }

  /** A post would find nothing wrong with the row. */
  predicate Postable(s: Sys, p: PortfolioId, o: OperationId)
    requires o in s.tables.operations && p in s.config.portfolios
  {
    var row := s.tables.operations[o];
    && RowPayloadAccepted(row) && RowCrossCurrencyOk(row, BaseOf(s.config, p))
    && AssetsOk(s.tables.activeAssets, row.asset, row.relatedAsset, row.opType)
  }

  lemma RunRead(s: Sys, c: ClientId, user: UserId, p: PortfolioId, o: OperationId)
    requires c !in s.clients && Owns(s.config, user, p) && FoundIn(s.tables, o, p)
    requires s.tables.operations[o].status == OperationStatus.Pending
    requires Postable(s, p, o)
    ensures RunAll(s, ReadSteps(c, user, p, o))
              == s.(clients := s.clients[c := Client(Call.Post(user, p, o), None, ReadyToPost)])
  {
    var s1 := Exec(s, Arrive(c, Call.Post(user, p, o)));
    assert Exec(s1, ReadForPost(c, true)) == Move(s1, c, ReadyToPost);
    RunTwo(s, Arrive(c, Call.Post(user, p, o)), ReadForPost(c, true));
  }

  lemma RunCancel(s: Sys, d: ClientId, user: UserId, p: PortfolioId, o: OperationId)
    requires d !in s.clients && Owns(s.config, user, p) && FoundIn(s.tables, o, p)
    requires s.tables.operations[o].status == OperationStatus.Pending
    ensures RunAll(s, CancelSteps(d, user, p, o)) ==
              s.(clients := s.clients[d := Client(Call.Cancel(user, p, o), None, Done(Updated))],
                 tables := CancelRow(s.tables, o))
  {
    RunReadForCancel(s, d, user, p, o);
    RunThree(s, Arrive(d, Call.Cancel(user, p, o)), ReadForCancel(d), CommitCancel(d, true));
  }

  lemma RunReadForCancel(s: Sys, d: ClientId, user: UserId, p: PortfolioId, o: OperationId)
    requires d !in s.clients && Owns(s.config, user, p) && FoundIn(s.tables, o, p)
    requires s.tables.operations[o].status == OperationStatus.Pending
    ensures Exec(Exec(s, Arrive(d, Call.Cancel(user, p, o))), ReadForCancel(d))
              == s.(clients := s.clients[d := Client(Call.Cancel(user, p, o), None, ReadyToCancel)])
  {
    var s1 := Exec(s, Arrive(d, Call.Cancel(user, p, o)));
    assert Exec(s1, ReadForCancel(d)) == Move(s1, d, ReadyToCancel);
  }

  /** Cancelling again succeeds and writes nothing. */
  lemma CancelTwice(s: Sys, d: ClientId, e: ClientId, user: UserId, p: PortfolioId, o: OperationId)
    requires d !in s.clients && e !in s.clients && d != e && Owns(s.config, user, p) && FoundIn(s.tables, o, p)
    requires s.tables.operations[o].status == OperationStatus.Pending
    ensures var once := RunAll(s, CancelSteps(d, user, p, o));
            var twice := RunAll(once, [Arrive(e, Call.Cancel(user, p, o)), ReadForCancel(e)]);
            && once.tables == CancelRow(s.tables, o) && twice.tables == once.tables
            && d in twice.clients && twice.clients[d].phase == Done(Updated)
            && e in twice.clients && twice.clients[e].phase == Done(Updated)
  {
    RunCancel(s, d, user, p, o);
    RunTwo(RunAll(s, CancelSteps(d, user, p, o)), Arrive(e, Call.Cancel(user, p, o)), ReadForCancel(e));
  }

  lemma RunReadThenCancel(s: Sys, c: ClientId, d: ClientId, user: UserId, p: PortfolioId, o: OperationId)
    requires c !in s.clients && d !in s.clients && c != d
    requires Owns(s.config, user, p) && FoundIn(s.tables, o, p)
    requires s.tables.operations[o].status == OperationStatus.Pending
    requires Postable(s, p, o)
    ensures RunAll(s, ReadSteps(c, user, p, o) + CancelSteps(d, user, p, o)) ==
              s.(clients := s.clients[c := Client(Call.Post(user, p, o), None, ReadyToPost)]
                                     [d := Client(Call.Cancel(user, p, o), None, Done(Updated))],
                 tables := CancelRow(s.tables, o))
  {
    RunRead(s, c, user, p, o);
    RunCancel(RunAll(s, ReadSteps(c, user, p, o)), d, user, p, o);
    RunAppend(s, ReadSteps(c, user, p, o), CancelSteps(d, user, p, o));
  }

  /** A commit of a post whose row is not pending any more is not a legal move. */
  lemma PostOfCancelledIsIllegal(s: Sys, step: Step)
    requires Posts(s, step) && s.tables.operations[PostedRow(s, step)].status == Cancelled
    ensures !LegalStep(s, step)
    ensures Exec(s, step).tables == PostRow(s.tables, PostedRow(s, step), step.slot)
  {
    assert Exec(s, step).tables.operations[PostedRow(s, step)].status == Posted;
  }

  /** Any pending operation that may be posted can be cancelled with a success
      and then become posted: the cancel commits between the read and the
      commit of a post. */
  lemma StalePostRevivesCancelled(s: Sys, c: ClientId, d: ClientId, user: UserId, p: PortfolioId, o: OperationId,
                                  slot: RequestId)
    requires c !in s.clients && d !in s.clients && c != d
    requires Owns(s.config, user, p) && FoundIn(s.tables, o, p)
    requires s.tables.operations[o].status == OperationStatus.Pending
    requires Postable(s, p, o)
    requires SlotFor(s.tables.requests, p, slot)
    ensures var cancelled := RunAll(s, ReadSteps(c, user, p, o) + CancelSteps(d, user, p, o));
            && d in cancelled.clients && cancelled.clients[d].phase == Done(Updated)
            && o in cancelled.tables.operations && cancelled.tables.operations[o].status == Cancelled
            && !LegalStep(cancelled, CommitPost(c, slot, true))
            && Exec(cancelled, CommitPost(c, slot, true)).tables.operations[o]
                == s.tables.operations[o].(status := Posted)
  {
    RunReadThenCancel(s, c, d, user, p, o);
    var cancelled := RunAll(s, ReadSteps(c, user, p, o) + CancelSteps(d, user, p, o));
    PostOfCancelledIsIllegal(cancelled, CommitPost(c, slot, true));
  }

  // ----- A stale post after a patch -----

  function PatchSteps(d: ClientId, user: UserId, p: PortfolioId, o: OperationId, patch: PatchRequest): seq<Step> {
    [Arrive(d, Call.Patch(user, p, o, patch)), ReadForPatch(d, true), CommitPatch(d, true)]
  }

  lemma RunReadForPatch(s: Sys, d: ClientId, user: UserId, p: PortfolioId, o: OperationId, patch: PatchRequest)
    requires d !in s.clients && Owns(s.config, user, p) && FoundIn(s.tables, o, p)
    requires s.tables.operations[o].status == OperationStatus.Pending && MergePatch(s.tables.operations[o], patch).Some?
    requires var update := MergePatch(s.tables.operations[o], patch).value;
             PayloadAccepted(PayloadOfRow(update))
             && AssetsOk(s.tables.activeAssets, update.asset, update.relatedAsset, update.opType)
    ensures var update := MergePatch(s.tables.operations[o], patch).value;
            Exec(Exec(s, Arrive(d, Call.Patch(user, p, o, patch))), ReadForPatch(d, true))
              == s.(clients := s.clients[d := Client(Call.Patch(user, p, o, patch), None, ReadyToPatch(update))])
  {
    var s1 := Exec(s, Arrive(d, Call.Patch(user, p, o, patch)));
    var update := MergePatch(s.tables.operations[o], patch).value;
    assert Exec(s1, ReadForPatch(d, true)) == Move(s1, d, ReadyToPatch(update));
  }

  /** A PATCH that nothing disturbs and every check lets through. */
  lemma RunPatch(s: Sys, d: ClientId, user: UserId, p: PortfolioId, o: OperationId, patch: PatchRequest)
    requires d !in s.clients && Owns(s.config, user, p) && FoundIn(s.tables, o, p)
    requires s.tables.operations[o].status == OperationStatus.Pending && MergePatch(s.tables.operations[o], patch).Some?
    requires var update := MergePatch(s.tables.operations[o], patch).value;
             && PayloadAccepted(PayloadOfRow(update))
             && AssetsOk(s.tables.activeAssets, update.asset, update.relatedAsset, update.opType)
             && RowConstraints(s.tables.operations, o, update)
    ensures var update := MergePatch(s.tables.operations[o], patch).value;
            RunAll(s, PatchSteps(d, user, p, o, patch)) ==
              s.(clients := s.clients[d := Client(Call.Patch(user, p, o, patch), None, Done(Updated))],
                 tables := s.tables.(operations := s.tables.operations[o := update]))
  {
    var update := MergePatch(s.tables.operations[o], patch).value;
    RunReadForPatch(s, d, user, p, o, patch);
    var ready := s.(clients := s.clients[d := Client(Call.Patch(user, p, o, patch), None, ReadyToPatch(update))]);
    PatchCommits(ready, d, update);
    assert ready.clients[d := Client(Call.Patch(user, p, o, patch), None, Done(Updated))]
        == s.clients[d := Client(Call.Patch(user, p, o, patch), None, Done(Updated))];
    RunThree(s, Arrive(d, Call.Patch(user, p, o, patch)), ReadForPatch(d, true), CommitPatch(d, true));
  }

  lemma PatchCommits(s: Sys, d: ClientId, update: Row)
    requires d in s.clients && s.clients[d].phase == ReadyToPatch(update) && s.clients[d].call.Patch?
    requires var o := s.clients[d].call.operation;
             && FoundIn(s.tables, o, s.clients[d].call.portfolio) && s.tables.operations[o].status != Posted
             && Patched(s.tables.operations[o], update) == update
             && RowConstraints(s.tables.operations, o, update)
    ensures Exec(s, CommitPatch(d, true)) ==
              s.(clients := s.clients[d := s.clients[d].(phase := Done(Updated))],
                 tables := s.tables.(operations := s.tables.operations[s.clients[d].call.operation := update]))
  {
  }

  const NO_CHANGE := PatchRequest(None, None, None, None, None, None, None,
                                  DetailsPatch(None, None, None, None, None, None, None, None, None, None, None), None)

  lemma RunReadThenPatch(s: Sys, c: ClientId, d: ClientId, user: UserId, p: PortfolioId, o: OperationId,
                         foreign: string)
    requires c !in s.clients && d !in s.clients && c != d
    requires Owns(s.config, user, p) && FoundIn(s.tables, o, p)
             && RowConstraints(s.tables.operations, o, s.tables.operations[o])
    requires s.tables.operations[o].status == OperationStatus.Pending
    requires Postable(s, p, o)
    ensures var patch := NO_CHANGE.(currency := Some(foreign));
            RunAll(s, ReadSteps(c, user, p, o) + PatchSteps(d, user, p, o, patch)) ==
              s.(clients := s.clients[c := Client(Call.Post(user, p, o), None, ReadyToPost)]
                                     [d := Client(Call.Patch(user, p, o, patch), None, Done(Updated))],
                 tables := s.tables.(operations :=
                   s.tables.operations[o := s.tables.operations[o].(currency := foreign)]))
  {
    var patch := NO_CHANGE.(currency := Some(foreign));
    RunRead(s, c, user, p, o);
    assert MergePatch(s.tables.operations[o], patch) == Some(s.tables.operations[o].(currency := foreign));
    RunPatch(RunAll(s, ReadSteps(c, user, p, o)), d, user, p, o, patch);
    RunAppend(s, ReadSteps(c, user, p, o), PatchSteps(d, user, p, o, patch));
  }

  /** A post of a row that breaks the rule leaves an unsafe ledger. */
  lemma UnguardedPostIsUnsafe(s: Sys, step: Step)
    requires Posts(s, step) && !RuleHolds(s.config, s.tables.operations[PostedRow(s, step)])
    ensures !GuardedStep(s, step) && !FxSafe(s.config, Exec(s, step).tables.operations)
  {
    var row := Exec(s, step).tables.operations[PostedRow(s, step)];
    assert row == s.tables.operations[PostedRow(s, step)].(status := Posted);
    assert !RuleHolds(s.config, row);
  }

  /** Any pending operation with cash and no rate that may be posted can be
      posted in a foreign currency without a rate: a patch of its currency
      commits between the read and the commit of a post. */
  lemma StalePostBreaksFxRule(s: Sys, c: ClientId, d: ClientId, user: UserId, p: PortfolioId, o: OperationId,
                              slot: RequestId, foreign: string)
    requires c !in s.clients && d !in s.clients && c != d
    requires Owns(s.config, user, p) && FoundIn(s.tables, o, p)
             && RowConstraints(s.tables.operations, o, s.tables.operations[o])
    requires s.tables.operations[o].status == OperationStatus.Pending
    requires Postable(s, p, o)
    requires var row := s.tables.operations[o]; row.cash != 0 && row.rate.None? && foreign != BaseOf(s.config, p)
    requires SlotFor(s.tables.requests, p, slot)
    ensures var patch := NO_CHANGE.(currency := Some(foreign));
            var patched := RunAll(s, ReadSteps(c, user, p, o) + PatchSteps(d, user, p, o, patch));
            && Posts(patched, CommitPost(c, slot, true)) && !GuardedStep(patched, CommitPost(c, slot, true))
            && !FxSafe(s.config, Exec(patched, CommitPost(c, slot, true)).tables.operations)
  {
    RunReadThenPatch(s, c, d, user, p, o, foreign);
    var patch := NO_CHANGE.(currency := Some(foreign));
    var patched := RunAll(s, ReadSteps(c, user, p, o) + PatchSteps(d, user, p, o, patch));
    UnguardedPostIsUnsafe(patched, CommitPost(c, slot, true));
  }

  // ----- A key does not bind the link of a creation body -----

  /** Retrying a committed creation with another corrected operation in its
      body is answered as a replay, not as a conflict. */
  lemma OtherLinkIsReplayed(config: Config, steps: seq<Step>, k: Key, c: ClientId, link: Option<OperationId>)
    requires var s := RunAll(Init(config), steps);
             && k in s.tables.records && c !in s.clients && s.tables.records[k].winner in s.clients
             && s.clients[s.tables.records[k].winner].call.Create?
             && Owns(config, k.0, s.tables.records[k].portfolio)
    ensures var s := RunAll(Init(config), steps);
            var record := s.tables.records[k];
            var call := s.clients[record.winner].call;
            var other := call.(create := call.create.(corrected := link));
            Answered(RunAll(s, RetrySteps(c, other)), c, k, Replayed(record.operation, record.refresh))
  {
    var s := RunAll(Init(config), steps);
    Reachable(config, steps);
    var record := s.tables.records[k];
    WinnerWrote(s, k);
    var call := s.clients[record.winner].call;
    var other := call.(create := call.create.(corrected := link));
    AnswersIffSame(s.clients[record.winner], Asking(s.tables, other), record);
    RetryIsReplayed(s, k, c, other);
  }

  // ----- A patch removes the link of a pending correction -----

  /** Any pending correction loses its link to a PATCH that sets it to null. */
  lemma PatchRemovesLink(s: Sys, d: ClientId, user: UserId, p: PortfolioId, k: Key)
    requires d !in s.clients && Owns(s.config, user, p) && LinkIntact(s.tables, k)
    requires s.tables.records[k].corrected.Some? && FoundIn(s.tables, s.tables.records[k].operation, p)
    requires var o := s.tables.records[k].operation;
             var row := s.tables.operations[o];
             && row.status == OperationStatus.Pending && RowConstraints(s.tables.operations, o, row)
             && PayloadAccepted(PayloadOfRow(row))
             && AssetsOk(s.tables.activeAssets, row.asset, row.relatedAsset, row.opType)
    ensures !LinkIntact(RunAll(s, PatchSteps(d, user, p, s.tables.records[k].operation,
                                             NO_CHANGE.(corrected := Some(None)))).tables, k)
  {
    var o := s.tables.records[k].operation;
    var patch := NO_CHANGE.(corrected := Some(None));
    assert MergePatch(s.tables.operations[o], patch) == Some(s.tables.operations[o].(corrected := None));
    RunPatch(s, d, user, p, o, patch);
  }
}
