/** The canonical request fingerprint stored with an idempotency record. */
module Fingerprints {
  import opened Ledger

  datatype RequestKind = CreateOperation | CreateCorrection

  /** The JSON document, one field per key. A timestamp is rendered with its
      offset; identifiers and enum names are kept symbolic. */
  datatype Fingerprint = Fingerprint(
    idUser: UserId,
    requestKind: RequestKind,
    idCorrectedOperation: Option<OperationId>,
    idPortfolio: PortfolioId,
    idAsset: Option<AssetId>,
    idRelatedAsset: Option<AssetId>,
    operationType: OperationType,
    operationStatus: OperationStatus,
    executedAt: Timestamp,
    effectiveAt: Option<Timestamp>,
    quantity: Option<string>,
    relatedQuantity: Option<string>,
    priceMinor: Option<int>,
    grossAmountMinor: Option<int>,
    feesMinor: Option<int>,
    taxesMinor: Option<int>,
    cashAmountMinor: int,
    currency: string,
    fxRateToPortfolio: Option<string>,
    externalProvider: Option<string>,
    externalReference: Option<string>,
    notes: Option<string>,
    metadata: Metadata)

  function TextOf(d: Option<DecimalText>): Option<string> {
    if d.None? then None else Some(d.value.text)
  }

  function BuildFingerprint(user: UserId, kind: RequestKind, corrected: Option<OperationId>,
                            op: NewOperation): Fingerprint {
    var d := op.details;
    Fingerprint(
      user, kind, corrected, op.portfolio, op.asset, op.relatedAsset, op.opType, op.status,
      d.executedAt, d.effectiveAt, TextOf(d.quantity), TextOf(d.relatedQuantity),
      d.priceMinor, d.grossAmountMinor, d.feesMinor, d.taxesMinor,
      op.cash, op.currency, TextOf(op.rate), d.externalProvider, d.externalReference, d.notes, op.metadata)
  }

  /** Two details that agree, decimals being compared as texts. */
  predicate SameDetails(a: Details, b: Details) {
    && a.executedAt == b.executedAt && a.effectiveAt == b.effectiveAt
    && TextOf(a.quantity) == TextOf(b.quantity) && TextOf(a.relatedQuantity) == TextOf(b.relatedQuantity)
    && a.priceMinor == b.priceMinor && a.grossAmountMinor == b.grossAmountMinor
    && a.feesMinor == b.feesMinor && a.taxesMinor == b.taxesMinor
    && a.externalProvider == b.externalProvider && a.externalReference == b.externalReference
    && a.notes == b.notes
  }

  /** Two canonical operations that agree on everything but, possibly, the
      operation they say they correct. */
  predicate SameButLink(a: NewOperation, b: NewOperation) {
    && a.portfolio == b.portfolio && a.asset == b.asset && a.relatedAsset == b.relatedAsset
    && a.opType == b.opType && a.status == b.status && a.cash == b.cash && a.currency == b.currency
    && TextOf(a.rate) == TextOf(b.rate)
    && SameDetails(a.details, b.details) && a.metadata == b.metadata
  }

  /** What the fingerprint decides, exactly. The link inside a creation body is
      not one of its fields: `corrected` here is the one of the endpoint. */
  lemma FingerprintDecides(u1: UserId, k1: RequestKind, c1: Option<OperationId>, op1: NewOperation,
                           u2: UserId, k2: RequestKind, c2: Option<OperationId>, op2: NewOperation)
    ensures BuildFingerprint(u1, k1, c1, op1) == BuildFingerprint(u2, k2, c2, op2)
            <==> u1 == u2 && k1 == k2 && c1 == c2 && SameButLink(op1, op2)
  {
  }
}
