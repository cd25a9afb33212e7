/** What the idempotent endpoints put on the wire. */
module Responses {
  import opened Ledger
  import opened LedgerTables
  import opened Protocol
  import opened WriteInvariant
  import opened WriteSteps
  import opened ExactlyOnce

  /** The envelope: the operation's row and, when the write posted, the refresh
      request with the status it has now. */
  datatype Envelope = Envelope(operation: OperationId, row: Row, refresh: Option<(RequestId, RefreshStatus)>)

  datatype Response = Response(status: nat, headers: map<string, string>, body: Envelope)

  const REPLAYED_HEADER := "idempotency-replayed"

  predicate Loadable(t: Tables, outcome: Outcome) {
    Succeeded(outcome) && outcome.operation in t.operations
    && (outcome.refresh.Some? ==> outcome.refresh.value in t.requests)
  }

  function EnvelopeOf(t: Tables, outcome: Outcome): Envelope
    requires Loadable(t, outcome)
  {
    Envelope(outcome.operation, t.operations[outcome.operation],
             if outcome.refresh.None? then None
             else Some((outcome.refresh.value, t.requests[outcome.refresh.value].status)))
  }

  /** First execution is a 201 with `false`, a replay a 200 with `true`. */
  function Rendered(body: Envelope, replayed: bool): Response {
    Response(if replayed then 200 else 201, map[REPLAYED_HEADER := if replayed then "true" else "false"], body)
  }

  function WriteResponse(t: Tables, outcome: Outcome): Response
    requires Loadable(t, outcome)
  {
    Rendered(EnvelopeOf(t, outcome), outcome.Replayed?)
  }

  /** `build_idempotent_write_response`: the headers are added to the response
      made from the status and the body. */
  method BuildIdempotentWriteResponse(body: Envelope, replayed: bool) returns (response: Response)
    ensures response == Rendered(body, replayed)
    ensures response.status in {200, 201} && response.headers.Keys == {REPLAYED_HEADER}
    ensures response.status == 201 <==> response.headers[REPLAYED_HEADER] == "false"
    ensures response.status == 200 <==> response.headers[REPLAYED_HEADER] == "true"
  {
    var status := if replayed then 200 else 201;
    var header := if replayed then "true" else "false";
    response := Response(status, map[], body);
    response := response.(headers := response.headers[REPLAYED_HEADER := header]);
    assert "true"[0] == 't' && "false"[0] == 'f';
  }

  /** In every run, every success can be rendered; one client per key at most
      sees 201 and `false`, and all successes under the key show the same
      operation and the same refresh request. */
  lemma OneCreatedResponse(config: Config, steps: seq<Step>, k: Key, c: ClientId, d: ClientId, x: Outcome, y: Outcome)
    requires var s := RunAll(Init(config), steps);
             Answered(s, c, k, x) && Answered(s, d, k, y) && Succeeded(x) && Succeeded(y)
    ensures var t := RunAll(Init(config), steps).tables;
            && Loadable(t, x) && Loadable(t, y)
            && EnvelopeOf(t, x) == EnvelopeOf(t, y)
            && (WriteResponse(t, x).status == 201 && WriteResponse(t, y).status == 201 ==> c == d)
            && (WriteResponse(t, x).status == 201 <==> WriteResponse(t, x).headers[REPLAYED_HEADER] == "false")
  {
    var s := RunAll(Init(config), steps);
    Reachable(config, steps);
    SuccessNamesRecord(s, c, k, x);
    SuccessNamesRecord(s, d, k, y);
    assert RecordOk(s.tables, k, s.tables.records[k]);
    assert "true"[0] == 't' && "false"[0] == 'f';
  }

  /** A retry after any drift repeats the original answer as a 200: the same
      operation (and, when it was posted by the write, the same row in every
      field) and the same refresh request, only whose status is live. */
  lemma RetryResponse(config: Config, before: seq<Step>, after: seq<Step>, k: Key, c: ClientId, call: Call)
    requires var s := RunAll(Init(config), before);
             && k in s.tables.records && IsWrite(call) && KeyOf(call) == k
             && Owns(config, call.user, call.portfolio)
             && s.tables.records[k].winner in s.clients
             && SameRequest(s.clients[s.tables.records[k].winner], Asking(s.tables, call))
    requires c !in RunAll(RunAll(Init(config), before), after).clients
    ensures var s := RunAll(Init(config), before);
            var v := RunAll(RunAll(s, after), RetrySteps(c, call));
            var record := s.tables.records[k];
            var first, again := Created(record.operation, record.refresh), Replayed(record.operation, record.refresh);
            && Loadable(s.tables, first) && Loadable(v.tables, again) && Answered(v, c, k, again)
            && WriteResponse(v.tables, again).status == 200
            && (record.refresh.Some? ==>
                  EnvelopeOf(v.tables, again).row == EnvelopeOf(s.tables, first).row
                  && EnvelopeOf(v.tables, again).refresh
                      == Some((record.refresh.value, v.tables.requests[record.refresh.value].status)))
            && (record.refresh.None? ==> EnvelopeOf(v.tables, again).refresh.None?)
  {
    var s := RunAll(Init(config), before);
    Reachable(config, before);
    var u := RunAll(s, after);
    RunKeepsInv(s, after);
    assert RecordOk(s.tables, k, s.tables.records[k]);
    assert RecordOk(u.tables, k, u.tables.records[k]);
    ReplayStableUnderDrift(config, before, after, k, c, call);
  }
}
