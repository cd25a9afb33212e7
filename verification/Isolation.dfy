/** Requests act on the portfolios of their own user only. */
module Isolation {
  import opened Ledger
  import opened Fingerprints
  import opened LedgerTables
  import opened Protocol
  import opened WriteInvariant
  import opened WriteSteps
  import opened ExactlyOnce
  import opened Lifecycle
  import opened Sent

  /** A client past its first read has been found to own its portfolio. */
  ghost predicate Admitted(config: Config, client: Client) {
    client.phase.Arrived? || client.phase.Done? || OwnedBy(config, client.call.user, client.call.portfolio)
  }

  ghost predicate AllAdmitted(config: Config, clients: map<ClientId, Client>) {
    forall c {:trigger Admitted(config, clients[c])} | c in clients :: Admitted(config, clients[c])
  }

  lemma StepAdmits(s: Sys, step: Step, c: ClientId)
    requires c in Exec(s, step).clients && (c in s.clients ==> Admitted(s.config, s.clients[c]))
    ensures Admitted(s.config, Exec(s, step).clients[c])
  {
    if IsWorkerStep(step) || step.SetAsset? {
      WorkerStepsKeepClients(s, step);
    } else if step.c != c {
      OthersStay(s, step, c);
    } else if c in s.clients && IsCommitStep(step) {
      CommitterAnswers(s, step);
    }
  }

  lemma CommitterAnswers(s: Sys, step: Step)
    requires IsCommitStep(step) && step.c in s.clients
    ensures var client := Exec(s, step).clients;
            step.c in client && (client[step.c] == s.clients[step.c] || client[step.c].phase.Done?)
  {
  }

  lemma {:induction false} RunAdmits(s: Sys, steps: seq<Step>)
    requires AllAdmitted(s.config, s.clients)
    ensures RunAll(s, steps).config == s.config && AllAdmitted(s.config, RunAll(s, steps).clients)
    decreases |steps|
  {
    if steps != [] {
      ConfigStays(s, steps[0]);
      forall c | c in Exec(s, steps[0]).clients ensures Admitted(s.config, Exec(s, steps[0]).clients[c]) {
        if c in s.clients { assert Admitted(s.config, s.clients[c]); }
        StepAdmits(s, steps[0], c);
      }
      RunAdmits(Exec(s, steps[0]), steps[1..]);
    }
  }

  /** In every run: a row is only ever added or changed by a request whose user
      owns the portfolio of the row, and it carries that user. */
  lemma OnlyOwnersWrite(config: Config, steps: seq<Step>, step: Step, o: OperationId)
    requires var s := RunAll(Init(config), steps);
             && o in Exec(s, step).tables.operations
             && (o in s.tables.operations ==> s.tables.operations[o] != Exec(s, step).tables.operations[o])
    ensures var s := RunAll(Init(config), steps);
            var row := Exec(s, step).tables.operations[o];
            && IsCommitStep(step) && step.c in s.clients
            && row.portfolio in config.portfolios
            && config.portfolios[row.portfolio].owner == s.clients[step.c].call.user
  {
    var s := RunAll(Init(config), steps);
    Reachable(config, steps);
    RunAdmits(Init(config), steps);
    if !IsCommitStep(step) {
      OnlyCommitsTouchOperations(s, step);
    } else if o in s.tables.operations && !Touches(s, step, o) {
      UntouchedRowStays(s, step, o);
    } else {
      assert Admitted(config, s.clients[step.c]);
      assert ClientOk(config, s.tables, step.c, s.clients[step.c]);
      CommitterOwns(s, step, o);
    }
  }

  lemma CommitterOwns(s: Sys, step: Step, o: OperationId)
    requires IsCommitStep(step) && o in Exec(s, step).tables.operations
    requires step.c in s.clients && Admitted(s.config, s.clients[step.c])
             && ClientOk(s.config, s.tables, step.c, s.clients[step.c])
    requires o !in s.tables.operations
             || (Touches(s, step, o) && s.tables.operations[o] != Exec(s, step).tables.operations[o])
    ensures OwnedBy(s.config, s.clients[step.c].call.user, Exec(s, step).tables.operations[o].portfolio)
  {
  }

  /** Every row belongs to the user who sent it. */
  lemma RowsBelongToTheirSenders(config: Config, steps: seq<Step>, o: OperationId)
    requires o in RunAll(Init(config), steps).tables.operations
    ensures var row := RunAll(Init(config), steps).tables.operations[o];
            row.portfolio in config.portfolios && config.portfolios[row.portfolio].owner == row.origin.0
  {
    Reachable(config, steps);
    var s := RunAll(Init(config), steps);
    var k := s.tables.operations[o].origin;
    assert RowOk(config, s.tables, o, s.tables.operations[o]);
    assert RecordOk(s.tables, k, s.tables.records[k]);
    WinnerWrote(s, k);
    assert ClientOk(config, s.tables, s.tables.records[k].winner, s.clients[s.tables.records[k].winner]);
  }
}
