/** What a PATCH stores and when it is refused, stated on its body, the row it
    read and the row it finds at its commit. */
module Patches {
  import opened Ledger
  import opened Fingerprints
  import opened LedgerTables
  import opened Protocol
  import opened WriteInvariant
  import opened WriteSteps
  import opened ExactlyOnce
  import opened Lifecycle
  import opened Schedules
  import opened Sent
  import opened Answers

  // ----- The fields of a patched row -----

  /** A plain field: the patched value if one was sent, else what was read. */
  predicate Kept<T(==)>(patch: Option<T>, read: T, stored: T) {
    if patch.Some? then stored == patch.value else stored == read
  }

  predicate KeptDecimal(patch: Option<Option<DecimalText>>, read: Option<real>, stored: Option<real>) {
    if patch.Some? then DecimalStored(patch.value, stored) else stored == read
  }

  predicate KeptInstant(patch: Option<Timestamp>, read: int, stored: int) {
    if patch.Some? then InstantStored(patch.value, stored) else stored == read
  }

  predicate KeptOptionalInstant(patch: Option<Option<Timestamp>>, read: Option<int>, stored: Option<int>) {
    if patch.None? then stored == read
    else if patch.value.None? then stored.None?
    else stored.Some? && InstantStored(patch.value.value, stored.value)
  }

  /** The optional asset columns: a patch can set them, not clear them. */
  predicate KeptAsset(patch: Option<AssetId>, read: Option<AssetId>, stored: Option<AssetId>) {
    if patch.Some? then stored == patch else stored == read
  }

  /** Field by field, `stored` is what the patch sent over what it read. */
  predicate IsPatched(patch: PatchRequest, read: Row, stored: Row) {
    && KeptAsset(patch.asset, read.asset, stored.asset)
    && KeptAsset(patch.relatedAsset, read.relatedAsset, stored.relatedAsset)
    && Kept(patch.opType, read.opType, stored.opType) && Kept(patch.cash, read.cash, stored.cash)
    && Kept(patch.currency, read.currency, stored.currency) && KeptDecimal(patch.rate, read.rate, stored.rate)
    && Kept(patch.corrected, read.corrected, stored.corrected) && Kept(patch.metadata, read.metadata, stored.metadata)
    && DetailsPatched(patch.details, read.details, stored.details)
  }

  predicate DetailsPatched(patch: DetailsPatch, read: StoredDetails, stored: StoredDetails) {
    && KeptInstant(patch.executedAt, read.executedAt, stored.executedAt)
    && KeptOptionalInstant(patch.effectiveAt, read.effectiveAt, stored.effectiveAt)
    && KeptDecimal(patch.quantity, read.quantity, stored.quantity)
    && KeptDecimal(patch.relatedQuantity, read.relatedQuantity, stored.relatedQuantity)
    && Kept(patch.priceMinor, read.priceMinor, stored.priceMinor)
    && Kept(patch.grossAmountMinor, read.grossAmountMinor, stored.grossAmountMinor)
    && Kept(patch.feesMinor, read.feesMinor, stored.feesMinor)
    && Kept(patch.taxesMinor, read.taxesMinor, stored.taxesMinor)
    && Kept(patch.externalProvider, read.externalProvider, stored.externalProvider)
    && Kept(patch.externalReference, read.externalReference, stored.externalReference)
    && Kept(patch.notes, read.notes, stored.notes)
  }

  lemma MergeIsPatched(row: Row, patch: PatchRequest, update: Row)
    requires MergePatch(row, patch) == Some(update)
    ensures IsPatched(patch, row, update)
    ensures update.portfolio == row.portfolio && update.status == row.status && update.origin == row.origin
  {
    RoundedIsStored(patch.rate);
    RoundedIsStored(patch.details.quantity);
    RoundedIsStored(patch.details.relatedQuantity);
  }

  lemma RoundedIsStored(patch: Option<Option<DecimalText>>)
    requires DecimalPatchAccepted(patch)
    ensures patch.Some? ==> DecimalStored(patch.value, PatchedDecimal(patch, None))
  {
  }

  predicate SameIdentity(a: Row, b: Row) {
    a.portfolio == b.portfolio && a.status == b.status && a.origin == b.origin
  }

  /** What a patch sends and what it read fix the row it stores. */
  lemma PatchedOnce(patch: PatchRequest, read: Row, a: Row, b: Row)
    requires IsPatched(patch, read, a) && IsPatched(patch, read, b) && SameIdentity(a, b)
    ensures a == b
  {
    StoredOnce(patch.rate, read.rate, a.rate, b.rate);
    DetailsPatchedOnce(patch.details, read.details, a.details, b.details);
    KeptOnce(patch, read, a, b);
  }

  lemma KeptOnce(patch: PatchRequest, read: Row, a: Row, b: Row)
    requires IsPatched(patch, read, a) && IsPatched(patch, read, b)
    ensures a.asset == b.asset && a.relatedAsset == b.relatedAsset && a.opType == b.opType && a.cash == b.cash
    ensures a.currency == b.currency && a.corrected == b.corrected && a.metadata == b.metadata
  {
  }

  lemma DetailsPatchedOnce(patch: DetailsPatch, read: StoredDetails, a: StoredDetails, b: StoredDetails)
    requires DetailsPatched(patch, read, a) && DetailsPatched(patch, read, b)
    ensures a == b
  {
    StoredOnce(patch.quantity, read.quantity, a.quantity, b.quantity);
    StoredOnce(patch.relatedQuantity, read.relatedQuantity, a.relatedQuantity, b.relatedQuantity);
    InstantsOnce(patch, read, a, b);
  }

  lemma InstantsOnce(patch: DetailsPatch, read: StoredDetails, a: StoredDetails, b: StoredDetails)
    requires DetailsPatched(patch, read, a) && DetailsPatched(patch, read, b)
    ensures a.executedAt == b.executedAt && a.effectiveAt == b.effectiveAt
  {
  }

  lemma StoredOnce(patch: Option<Option<DecimalText>>, read: Option<real>, a: Option<real>, b: Option<real>)
    requires KeptDecimal(patch, read, a) && KeptDecimal(patch, read, b)
    ensures a == b
  {
    if patch.Some? && patch.value.Some? {
      var m, n := (a.value * UNITS).Floor, (b.value * UNITS).Floor;
      assert -1.0 < (m - n) as real < 1.0;
    }
  }

  // ----- A patch from its read to its commit -----

  predicate PositiveIfPatched(patch: Option<Option<DecimalText>>) { patch.Some? ==> PositiveIfSent(patch.value) }

  /** The row a patch of `read` would store keeps its payload and its assets in
      order. */
  ghost predicate PatchInOrder(s: Sys, patch: PatchRequest, read: Row) {
    && PositiveIfPatched(patch.rate) && PositiveIfPatched(patch.details.quantity)
    && PositiveIfPatched(patch.details.relatedQuantity)
    && forall stored | IsPatched(patch, read, stored) && SameIdentity(read, stored) ::
         PayloadAccepted(PayloadOfRow(stored))
         && NamesActiveAssets(s.tables.activeAssets, stored.asset, stored.relatedAsset, stored.opType)
  }

  /** What a PATCH is answered when it reads its row. */
  lemma PatchAnswered(s: Sys, c: ClientId, shapeOk: bool)
    requires c in s.clients && s.clients[c].phase == Arrived && s.clients[c].call.Patch?
    ensures var call := s.clients[c].call;
            var phase := Exec(s, ReadForPatch(c, shapeOk)).clients[c].phase;
            && Exec(s, ReadForPatch(c, shapeOk)).tables == s.tables
            && if !Locates(s, call) then phase == Done(Rejected(404))
               else
                 var row := s.tables.operations[call.operation];
                 if row.status != OperationStatus.Pending then phase == Done(Rejected(409))
                 else if !shapeOk || !PatchInOrder(s, call.patch, row) then phase == Done(Rejected(400))
                 else phase.ReadyToPatch? && IsPatched(call.patch, row, phase.update)
  {
    var call := s.clients[c].call;
    if Reads(s, c) {
      var row := s.tables.operations[call.operation];
      MergeInOrder(s, call.patch, row);
    }
  }

  lemma MergeInOrder(s: Sys, patch: PatchRequest, row: Row)
    ensures PatchInOrder(s, patch, row) <==>
              (MergePatch(row, patch).Some?
               && var update := MergePatch(row, patch).value;
                  PayloadAccepted(PayloadOfRow(update))
                  && AssetsOk(s.tables.activeAssets, update.asset, update.relatedAsset, update.opType))
    ensures MergePatch(row, patch).Some? ==> IsPatched(patch, row, MergePatch(row, patch).value)
  {
    if MergePatch(row, patch).Some? {
      var update := MergePatch(row, patch).value;
      MergeIsPatched(row, patch, update);
      forall stored | IsPatched(patch, row, stored) && SameIdentity(row, stored) ensures stored == update {
        PatchedOnce(patch, row, stored, update);
      }
    }
  }

  /** A client that waits for its patch keeps what it merged until it answers. */
  lemma MergedStays(s: Sys, step: Step, c: ClientId)
    requires c in s.clients && (s.clients[c].phase.ReadyToPatch? || s.clients[c].phase.Done?)
    ensures var client := Exec(s, step).clients;
            && c in client && client[c].call == s.clients[c].call
            && (client[c].phase == s.clients[c].phase || client[c].phase.Done?)
  {
    if IsWorkerStep(step) || step.SetAsset? {
      WorkerStepsKeepClients(s, step);
    } else if step.c != c {
      OthersStay(s, step, c);
    }
  }

  lemma {:induction false} MergedStaysInRun(s: Sys, steps: seq<Step>, c: ClientId)
    requires c in s.clients && (s.clients[c].phase.ReadyToPatch? || s.clients[c].phase.Done?)
    ensures var clients := RunAll(s, steps).clients;
            && c in clients && clients[c].call == s.clients[c].call
            && (clients[c].phase == s.clients[c].phase || clients[c].phase.Done?)
    decreases |steps|
  {
    if steps != [] {
      MergedStays(s, steps[0], c);
      MergedStaysInRun(Exec(s, steps[0]), steps[1..], c);
    }
  }

  /** The patch of client `c`, read in `s` and committed in `u`. */
  ghost predicate CommittedAs(s: Sys, u: Sys, v: Sys, c: ClientId, heard: bool, stored: Row)
    requires c in s.clients && s.clients[c].call.Patch? && c in v.clients
    requires s.clients[c].call.operation in s.tables.operations && s.clients[c].call.operation in u.tables.operations
  {
    var o := s.clients[c].call.operation;
    && IsPatched(s.clients[c].call.patch, s.tables.operations[o], stored)
    && SameIdentity(u.tables.operations[o], stored)
    && if u.tables.operations[o].status == Posted || !RowConstraints(u.tables.operations, o, stored)
       then v.tables == u.tables && v.clients[c].phase == Done(DatabaseError)
       else v.tables == u.tables.(operations := u.tables.operations[o := stored])
            && v.clients[c].phase == Done(if heard then Updated else DatabaseError)
  }

  /** Whatever commits in between: the row a PATCH stores is what it sent over
      what it read, with the portfolio, the status and the origin the row has at
      the commit. It is refused exactly when the row has been posted or that row
      breaks a constraint. */
  lemma PatchStoresWhatWasSent(s: Sys, c: ClientId, shapeOk: bool, between: seq<Step>, heard: bool)
    requires c in s.clients && s.clients[c].phase == Arrived && s.clients[c].call.Patch?
    requires var u := RunAll(Exec(s, ReadForPatch(c, shapeOk)), between);
             && c in u.clients && u.clients[c].phase.ReadyToPatch?
             && InPortfolio(u.tables, s.clients[c].call.operation, s.clients[c].call.portfolio)
    ensures var u := RunAll(Exec(s, ReadForPatch(c, shapeOk)), between);
            && s.clients[c].call.operation in s.tables.operations && c in Exec(u, CommitPatch(c, heard)).clients
            && exists stored :: CommittedAs(s, u, Exec(u, CommitPatch(c, heard)), c, heard, stored)
  {
    var s1 := Exec(s, ReadForPatch(c, shapeOk));
    PatchAnswered(s, c, shapeOk);
    MergedStaysInRun(s1, between, c);
    var u := RunAll(s1, between);
    var o := s.clients[c].call.operation;
    PatchCommitted(u, c, heard);
    var stored := Patched(u.tables.operations[o], u.clients[c].phase.update);
    assert CommittedAs(s, u, Exec(u, CommitPatch(c, heard)), c, heard, stored);
  }

  lemma PatchCommitted(u: Sys, c: ClientId, heard: bool)
    requires c in u.clients && u.clients[c].phase.ReadyToPatch? && u.clients[c].call.Patch?
    requires InPortfolio(u.tables, u.clients[c].call.operation, u.clients[c].call.portfolio)
    ensures var o := u.clients[c].call.operation;
            var v := Exec(u, CommitPatch(c, heard));
            var row := Patched(u.tables.operations[o], u.clients[c].phase.update);
            && c in v.clients
            && if u.tables.operations[o].status == Posted || !RowConstraints(u.tables.operations, o, row)
               then v.tables == u.tables && v.clients[c].phase == Done(DatabaseError)
               else v.tables == u.tables.(operations := u.tables.operations[o := row])
                    && v.clients[c].phase == Done(if heard then Updated else DatabaseError)
  {
  }
}
