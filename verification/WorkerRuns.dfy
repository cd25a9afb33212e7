/** What a worker that nothing disturbs does with a request: it refreshes it, or
    puts it back until its attempts are used up. */
module WorkerRuns {
  import opened Ledger
  import opened LedgerTables
  import opened Protocol
  import opened WriteInvariant
  import opened WriteSteps
  import opened ExactlyOnce
  import opened RefreshQueue
  import opened Schedules

  // ----- One step of one worker -----

  lemma RunWorkerClaim(s: Sys, w: RunId, r: RequestId)
    requires w !in s.runs && Claimable(s.tables, r, s.config.maxAttempts)
    ensures var q := s.tables.requests[r];
            RunAll(s, [WorkerClaim(w, r)])
              == s.(tables := ClaimRow(s.tables, r), runs := s.runs[w := Run(r, q.portfolio, q.attempts + 1, Claimed)])
  {
    RunOne(s, WorkerClaim(w, r));
  }

  lemma RunWorkerRead(s: Sys, w: RunId)
    requires w in s.runs && s.runs[w].phase == Claimed
    ensures RunAll(s, [WorkerReadLedger(w)])
              == (var snapshot := PostedIn(s.tables.operations, s.runs[w].portfolio);
                  s.(runs := s.runs[w := s.runs[w].(phase := HasLedger(snapshot))]))
  {
    RunOne(s, WorkerReadLedger(w));
    assert Exec(s, WorkerReadLedger(w)) == ExecWorkerReadLedger(s, w);
  }

  lemma RunWorkerInstall(s: Sys, w: RunId)
    requires w in s.runs && s.runs[w].phase.HasLedger?
    ensures RunAll(s, [WorkerInstall(w)])
              == s.(tables := ReplaceReadModel(s.tables, s.runs[w].portfolio, s.runs[w].phase.snapshot),
                    runs := s.runs[w := s.runs[w].(phase := Installed)])
  {
    RunOne(s, WorkerInstall(w));
  }

  lemma RunWorkerComplete(s: Sys, w: RunId)
    requires w in s.runs && s.runs[w].phase == Installed && s.runs[w].request in s.tables.requests
    ensures RunAll(s, [WorkerComplete(w)])
              == s.(tables := SetStatus(s.tables, s.runs[w].request, Completed), runs := s.runs - {w})
  {
    RunOne(s, WorkerComplete(w));
  }

  lemma RunWorkerError(s: Sys, w: RunId)
    requires w in s.runs && s.runs[w].request in s.tables.requests
    ensures RunAll(s, [WorkerError(w)])
              == s.(tables := FailOrRetry(s.tables, s.runs[w].request, s.runs[w].attempts, s.config.maxAttempts),
                    runs := s.runs - {w})
  {
    RunOne(s, WorkerError(w));
  }

  lemma Rebuilt(s: Sys, w: RunId, r: RequestId)
    requires w !in s.runs && Claimable(s.tables, r, s.config.maxAttempts)
    ensures var q := s.tables.requests[r];
            RunAll(s, [WorkerClaim(w, r)] + [WorkerReadLedger(w)] + [WorkerInstall(w)]) ==
              s.(tables := ReplaceReadModel(ClaimRow(s.tables, r), q.portfolio,
                                            PostedIn(s.tables.operations, q.portfolio)),
                 runs := s.runs[w := Run(r, q.portfolio, q.attempts + 1, Installed)])
  {
    ClaimedAndRead(s, w, r);
    var read := RunAll(s, [WorkerClaim(w, r)] + [WorkerReadLedger(w)]);
    RunWorkerInstall(read, w);
    var done := read.runs[w].(phase := Installed);
    assert read.runs[w := done] == s.runs[w := done];
    RunAppend(s, [WorkerClaim(w, r)] + [WorkerReadLedger(w)], [WorkerInstall(w)]);
  }

  lemma ClaimedAndRead(s: Sys, w: RunId, r: RequestId)
    requires w !in s.runs && Claimable(s.tables, r, s.config.maxAttempts)
    ensures var q := s.tables.requests[r];
            RunAll(s, [WorkerClaim(w, r)] + [WorkerReadLedger(w)]) ==
              s.(tables := ClaimRow(s.tables, r),
                 runs := s.runs[w := Run(r, q.portfolio, q.attempts + 1,
                                         HasLedger(PostedIn(s.tables.operations, q.portfolio)))])
  {
    RunWorkerClaim(s, w, r);
    RunWorkerRead(RunAll(s, [WorkerClaim(w, r)]), w);
    RunAppend(s, [WorkerClaim(w, r)], [WorkerReadLedger(w)]);
  }

  // ----- A refresh -----

  function RefreshSteps(w: RunId, r: RequestId): seq<Step> {
    ([WorkerClaim(w, r)] + [WorkerReadLedger(w)] + [WorkerInstall(w)]) + [WorkerComplete(w)]
  }

  /** A request that may be claimed can be refreshed: it is completed with one
      more attempt, its portfolio shows exactly what is posted in it, and nothing
      else changes. */
  lemma RefreshRuns(s: Sys, w: RunId, r: RequestId)
    requires w !in s.runs && Claimable(s.tables, r, s.config.maxAttempts)
    ensures var v := RunAll(s, RefreshSteps(w, r));
            var p := s.tables.requests[r].portfolio;
            && r in v.tables.requests && v.tables.requests[r].status == Completed
            && v.tables.requests[r].attempts == s.tables.requests[r].attempts + 1
            && ReadModelOf(v.tables, p) == PostedIn(s.tables.operations, p)
            && (forall q | q != p :: ReadModelOf(v.tables, q) == ReadModelOf(s.tables, q))
            && v.tables.requests.Keys == s.tables.requests.Keys
            && (forall q | q in s.tables.requests && q != r :: v.tables.requests[q] == s.tables.requests[q])
            && v.tables.operations == s.tables.operations && v.tables.records == s.tables.records && v.runs == s.runs
  {
    var rebuild := [WorkerClaim(w, r)] + [WorkerReadLedger(w)] + [WorkerInstall(w)];
    Rebuilt(s, w, r);
    var u := RunAll(s, rebuild);
    RunWorkerComplete(u, w);
    RunAppend(s, rebuild, [WorkerComplete(w)]);
    assert u.runs - {w} == s.runs;
  }

  // ----- Retries -----

  function TrySteps(w: RunId, r: RequestId): seq<Step> { [WorkerClaim(w, r)] + [WorkerError(w)] }

  function Tries(w: RunId, r: RequestId, n: nat): seq<Step> {
    if n == 0 then [] else Tries(w, r, n - 1) + TrySteps(w, r)
  }

  /** The only pending request of its portfolio, with attempts to spare. */
  ghost predicate Retryable(s: Sys, w: RunId, r: RequestId) {
    && w !in s.runs && r in s.tables.requests && s.tables.requests[r].status == RefreshStatus.Pending
    && s.tables.requests[r].attempts < s.config.maxAttempts && OnePending(s.tables.requests)
  }

  lemma OneTry(s: Sys, w: RunId, r: RequestId)
    requires Retryable(s, w, r)
    ensures var v := RunAll(s, TrySteps(w, r));
            var attempts := s.tables.requests[r].attempts + 1;
            && v.runs == s.runs && v.config == s.config && r in v.tables.requests
            && v.tables.requests[r].attempts == attempts && OnePending(v.tables.requests)
            && v.tables.requests[r].status ==
                 (if attempts < s.config.maxAttempts then RefreshStatus.Pending else Failed)
  {
    RunWorkerClaim(s, w, r);
    var u := RunAll(s, [WorkerClaim(w, r)]);
    NoOtherPending(s.tables.requests, u.tables.requests, r);
    RunWorkerError(u, w);
    RunAppend(s, [WorkerClaim(w, r)], [WorkerError(w)]);
    assert u.runs - {w} == s.runs;
  }

  lemma NoOtherPending(requests: map<RequestId, Request>, claimed: map<RequestId, Request>, r: RequestId)
    requires OnePending(requests) && r in requests && requests[r].status == RefreshStatus.Pending
    requires claimed.Keys == requests.Keys && claimed[r].portfolio == requests[r].portfolio
    requires forall q | q in requests && q != r :: claimed[q] == requests[q]
    ensures forall q | q in claimed && q != r :: !PendingFor(claimed, q, claimed[r].portfolio)
  {
    forall q | q in claimed && q != r ensures !PendingFor(claimed, q, claimed[r].portfolio) {
      if PendingFor(claimed, q, claimed[r].portfolio) {
        assert PendingFor(requests, q, requests[r].portfolio) && PendingFor(requests, r, requests[r].portfolio);
      }
    }
  }

  /** A request whose refresh keeps failing goes back to pending until its
      attempts reach the maximum, and is failed then. */
  lemma {:induction false} TriesEnd(s: Sys, w: RunId, r: RequestId, n: nat)
    requires Retryable(s, w, r) && 0 < n <= s.config.maxAttempts - s.tables.requests[r].attempts
    ensures var v := RunAll(s, Tries(w, r, n));
            var attempts := s.tables.requests[r].attempts + n;
            && v.runs == s.runs && v.config == s.config && r in v.tables.requests
            && v.tables.requests[r].attempts == attempts && OnePending(v.tables.requests)
            && v.tables.requests[r].status ==
                 (if attempts < s.config.maxAttempts then RefreshStatus.Pending else Failed)
    decreases n
  {
    RunAppend(s, Tries(w, r, n - 1), TrySteps(w, r));
    if n > 1 {
      TriesEnd(s, w, r, n - 1);
    }
    OneTry(RunAll(s, Tries(w, r, n - 1)), w, r);
  }

  /** The sweep fails a request that has used its attempts up, and changes no
      other. */
  lemma SweepFails(s: Sys, r: RequestId, q: RequestId)
    requires q in s.tables.requests
    ensures var u := Exec(s, SweepExhausted(r)).tables.requests;
            && q in u
            && var was := s.tables.requests[q];
               u[q] == if q == r && was.attempts >= s.config.maxAttempts
                          && (was.status == RefreshStatus.Pending || was.status == Processing)
                       then was.(status := Failed, stamped := true) else was
  {
  }
}
