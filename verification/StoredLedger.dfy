/** The rows the API stores as the ledger the worker replays. */
module StoredLedger {
  import opened Ledger
  import opened LedgerRepository
  import opened Payloads
  import opened Replay
  import opened ReplayLaws
  import Protocol

  // ----- A posted row as the worker reads it -----

  /** A number with ten fractional digits, scaled. */
  function Scaled(x: Option<real>): Option<int> {
    if x.None? then None else Some((x.value * UNITS).Floor)
  }

  function EventOf(row: Row): Event {
    Event(row.asset, row.relatedAsset, row.opType, Scaled(row.details.quantity), Scaled(row.details.relatedQuantity),
          row.cash, row.currency, Scaled(row.rate))
  }

  function EventsOf(operations: map<OperationId, Row>, ledger: seq<OperationId>): (events: seq<Event>)
    requires forall i | 0 <= i < |ledger| :: ledger[i] in operations
    ensures |events| == |ledger| && forall i | 0 <= i < |ledger| :: events[i] == EventOf(operations[ledger[i]])
  {
    if ledger == [] then []
    else EventsOf(operations, ledger[..|ledger| - 1]) + [EventOf(operations[ledger[|ledger| - 1]])]
  }

  /** A row the table accepts is one the worker can replay but for a shortage: its
      decimals are positive when scaled, and no field its type needs is missing. */
  lemma AcceptedRowReplays(row: Row)
    requires ColumnRules(row)
    ensures EventOk(EventOf(row)) && MovesOf(EventOf(row)).Some?
  {
    ScaledIsPositive(row.rate);
    ScaledIsPositive(row.details.quantity);
    ScaledIsPositive(row.details.relatedQuantity);
  }

  lemma ScaledIsPositive(x: Option<real>)
    requires x.Some? ==> x.value > 0.0 && TenDigits(x.value)
    ensures x.Some? ==> Scaled(x).value > 0 && Scaled(x).value as real == x.value * UNITS
  {
  }

  lemma {:induction false} AcceptedLedger(operations: map<OperationId, Row>, ledger: seq<OperationId>)
    requires RowsValid(operations) && forall i | 0 <= i < |ledger| :: ledger[i] in operations
    ensures LedgerOk(EventsOf(operations, ledger)) && AllMoves(EventsOf(operations, ledger)).Some?
    decreases |ledger|
  {
    var events := EventsOf(operations, ledger);
    if ledger != [] {
      var front, last := ledger[..|ledger| - 1], ledger[|ledger| - 1];
      AcceptedLedger(operations, front);
      assert RowConstraints(operations, last, operations[last]);
      AcceptedRowReplays(operations[last]);
      assert events[..|events| - 1] == EventsOf(operations, front);
      assert forall i | 0 <= i < |front| :: events[i] == EventsOf(operations, front)[i];
    }
  }

  /** In every reachable state, any ledger of stored rows replays exactly when no
      row takes more of an asset than the rows before it brought: the worker
      meets no other reason to fail. */
  lemma StoredLedgerReplaysIff(config: Protocol.Config, steps: seq<Protocol.Step>, base: string,
                               ledger: seq<OperationId>)
    requires var t := Protocol.RunAll(Protocol.Init(config), steps).tables;
             forall i | 0 <= i < |ledger| :: ledger[i] in t.operations
    ensures var events := EventsOf(Protocol.RunAll(Protocol.Init(config), steps).tables.operations, ledger);
            && AllMoves(events).Some?
            && (Replayed(base, events).Some? <==> NeverShort(AllMoves(events).value))
  {
    RowsStayValid(config, steps);
    var operations := Protocol.RunAll(Protocol.Init(config), steps).tables.operations;
    AcceptedLedger(operations, ledger);
    ReplayIffNeverShort(base, EventsOf(operations, ledger));
  }
}
