/** The payload rules of the service against the constraints of the table. */
module Payloads {
  import opened Ledger
  import opened Fingerprints
  import opened LedgerTables
  import opened Protocol
  import opened WriteInvariant
  import opened WriteSteps
  import opened ExactlyOnce
  import opened Lifecycle
  import opened Schedules
  import opened LedgerRepository

  // ----- Every stored row meets every constraint -----

  lemma CommitKeepsRowsValid(s: Sys, step: Step)
    requires RowsValid(s.tables.operations) && IsCommitStep(step)
    ensures RowsValid(Exec(s, step).tables.operations)
  {
    if step.c !in s.clients || Exec(s, step) == s {
      return;
    }
    if step.Commit? {
      var phase, call := s.clients[step.c].phase, s.clients[step.c].call;
      StoredIffValid(s.tables.operations, step.op, StoredRow(phase.candidate, KeyOf(call)).value);
    } else if s.clients[step.c].call.operation in s.tables.operations {
      UpdateKeepsRowsValid(s, step, s.clients[step.c].call.operation);
    }
  }

  lemma UpdateKeepsRowsValid(s: Sys, step: Step, o: OperationId)
    requires RowsValid(s.tables.operations) && Touches(s, step, o) && o in s.tables.operations
    ensures RowsValid(Exec(s, step).tables.operations)
  {
    var u := Exec(s, step).tables.operations;
    assert u == s.tables.operations[o := u[o]];
    assert RowConstraints(s.tables.operations, o, s.tables.operations[o]);
    StoredIffValid(s.tables.operations, o, u[o]);
  }

  lemma {:induction false} RowsValidInRun(s: Sys, steps: seq<Step>)
    requires RowsValid(s.tables.operations)
    ensures RowsValid(RunAll(s, steps).tables.operations)
    decreases |steps|
  {
    if steps != [] {
      if IsCommitStep(steps[0]) {
        CommitKeepsRowsValid(s, steps[0]);
      } else {
        OnlyCommitsTouchOperations(s, steps[0]);
      }
      RowsValidInRun(Exec(s, steps[0]), steps[1..]);
    }
  }

  /** In every reachable state every row meets every constraint of its table. */
  lemma RowsStayValid(config: Config, steps: seq<Step>)
    ensures RowsValid(RunAll(Init(config), steps).tables.operations)
  {
    RowsValidInRun(Init(config), steps);
  }

  // ----- What the service lets through and the table refuses -----

  /** No field is given that the type of the operation has no use for. */
  predicate NothingSuperfluous(p: Payload) {
    p.opType in {TransferIn, TransferOut, Adjustment}
    || (&& (p.relatedAsset.Some? ==> p.opType in {SpinOff, SymbolChange})
        && (p.hasQuantity ==> p.opType in {Buy, Sell, Split, SpinOff, SymbolChange})
        && (p.hasRelatedQuantity ==> p.opType == SpinOff)
        && (p.priceMinor.Some? ==> p.opType in {Buy, Sell}))
  }

  /** The rules of the table on the columns of a row are those of the service and
      that nothing is superfluous: the service lets an operation through that the
      table refuses, with a 500, exactly when it carries a superfluous field. */
  lemma TableRulesIff(op: NewOperation, origin: Key)
    requires StoredRow(op, origin).Some?
    ensures var row := StoredRow(op, origin).value;
            ColumnRules(row) && (row.corrected.Some? ==> row.opType == Adjustment) <==>
              (PayloadAccepted(PayloadOf(op)) && NothingSuperfluous(PayloadOf(op)))
  {
  }

  /** A deposit with a quantity is such an operation. */
  lemma SuperfluousFieldIsNotRefused()
    ensures exists call: Call, candidate: NewOperation ::
      && call.Create? && CandidateOf(EMPTY, call) == Some(candidate) && CandidateAccepted(call, candidate)
      && StoredRow(candidate, KeyOf(call)).Some? && !ColumnRules(StoredRow(candidate, KeyOf(call)).value)
  {
    var one := DecimalText("1", Some(1.0));
    var call := Call.Create(1, 0, 1, DepositOf(Posted).(details := NOTHING.(quantity := Some(one))));
    var candidate := CandidateOf(EMPTY, call).value;
    assert Rounded(1.0) == 1.0;
    assert !ColumnRules(StoredRow(candidate, KeyOf(call)).value);
  }

  /** The one payload of its type, link and external reference that a correction
      must not have: every other field is absent, zero or the empty object. */
  function EmptyPayload(p: Payload): Payload {
    Payload(p.opType, None, None, p.corrected, 0, false, false, None, None, None, None, p.externalProvider,
            p.externalReference, "{}")
  }

  lemma MeaninglessIff(p: Payload)
    requires p.cash >= 0
    ensures Meaningful(p) <==> p != EmptyPayload(p)
  {
  }

  /** In every reachable state a post of a stored row finds its payload in order,
      unless it is an adjustment without any content: that can be created, and
      posted only after a patch. */
  lemma StoredPayloadIff(config: Config, steps: seq<Step>, o: OperationId)
    requires o in RunAll(Init(config), steps).tables.operations
    ensures var row := RunAll(Init(config), steps).tables.operations[o];
            var payload := PayloadOfRow(row);
            RowPayloadAccepted(row) <==> (row.opType == Adjustment ==> payload != EmptyPayload(payload))
  {
    RowsStayValid(config, steps);
    var operations := RunAll(Init(config), steps).tables.operations;
    assert RowConstraints(operations, o, operations[o]);
    MeaninglessIff(PayloadOfRow(operations[o]));
  }

  /** What that means for the numbers and the external references: stored decimals
      are positive, have ten fractional digits and fit their columns, and no two
      rows share an external reference. */
  lemma StoredRowsFit(config: Config, steps: seq<Step>, o: OperationId, q: OperationId)
    requires var t := RunAll(Init(config), steps).tables; o in t.operations && q in t.operations
    ensures var row := RunAll(Init(config), steps).tables.operations[o];
      && Fits(row.rate, 10000000000.0)
      && Fits(row.details.quantity, 100000000000000000000.0)
      && Fits(row.details.relatedQuantity, 100000000000000000000.0)
    ensures var t := RunAll(Init(config), steps).tables.operations;
      && (t[o].details.externalReference.Some? <==> t[o].details.externalProvider.Some?)
      && (SameReference(t[o], t[q]) ==> o == q)
      && (t[o].corrected.Some? ==> t[o].corrected.value in t && t[o].corrected.value != o && t[o].opType == Adjustment)
  {
    RowsStayValid(config, steps);
    var operations := RunAll(Init(config), steps).tables.operations;
    assert RowConstraints(operations, o, operations[o]);
  }

  predicate SameReference(a: Row, b: Row) {
    && a.details.externalReference.Some? && a.details.externalReference == b.details.externalReference
    && a.details.externalProvider == b.details.externalProvider
  }

  predicate Fits(x: Option<real>, limit: real) {
    x.Some? ==> 0.0 < x.value < limit && (x.value * 10000000000.0).Floor as real == x.value * 10000000000.0
  }
}
