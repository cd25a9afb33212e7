/** The portfolio ledger: operations, the requests that create them, and the
    pure rules the service applies to them before it writes. */
module Ledger {

  datatype Option<+T> = None | Some(value: T)

  type UserId = nat
  type PortfolioId = nat
  type AssetId = nat
  type OperationId = nat
  type RequestId = nat
  type IdempotencyKey = nat
  type Metadata = string

  datatype OperationType =
    | Buy | Sell | Deposit | Withdrawal | Dividend | Interest | Fee | Tax
    | Split | SpinOff | SymbolChange | TransferIn | TransferOut | Adjustment

  datatype OperationStatus = Pending | Posted | Cancelled

  /** A decimal as a client sends it: the text, and the number it denotes when
      the text is a well-formed decimal. */
  datatype DecimalText = DecimalText(text: string, number: Option<real>)

  /** An RFC 3339 timestamp: the instant it denotes, in nanoseconds from the
      database's epoch, and the UTC offset it was written with. */
  datatype Timestamp = Timestamp(nanos: int, offset: int)

  /** The further fields of an operation. */
  datatype Details = Details(
    executedAt: Timestamp,
    effectiveAt: Option<Timestamp>,
    quantity: Option<DecimalText>,
    relatedQuantity: Option<DecimalText>,
    priceMinor: Option<int>,
    grossAmountMinor: Option<int>,
    feesMinor: Option<int>,
    taxesMinor: Option<int>,
    externalProvider: Option<string>,
    externalReference: Option<string>,
    notes: Option<string>)

  /** The same fields in a stored row: decimals are numerics with ten fractional
      digits, timestamps are instants in microseconds. */
  datatype StoredDetails = StoredDetails(
    executedAt: int,
    effectiveAt: Option<int>,
    quantity: Option<real>,
    relatedQuantity: Option<real>,
    priceMinor: Option<int>,
    grossAmountMinor: Option<int>,
    feesMinor: Option<int>,
    taxesMinor: Option<int>,
    externalProvider: Option<string>,
    externalReference: Option<string>,
    notes: Option<string>)

  /** A canonical operation about to be inserted: every server-side default is
      already applied. */
  datatype NewOperation = NewOperation(
    portfolio: PortfolioId,
    asset: Option<AssetId>,
    relatedAsset: Option<AssetId>,
    opType: OperationType,
    status: OperationStatus,
    cash: int,
    currency: string,
    rate: Option<DecimalText>,
    corrected: Option<OperationId>,
    details: Details,
    metadata: Metadata)

  /** Body of a creation request. `status`, `cash` and `metadata` may be
      omitted. */
  datatype CreateRequest = CreateRequest(
    asset: Option<AssetId>,
    relatedAsset: Option<AssetId>,
    opType: OperationType,
    status: Option<OperationStatus>,
    cash: Option<int>,
    currency: string,
    rate: Option<DecimalText>,
    corrected: Option<OperationId>,
    details: Details,
    metadata: Option<Metadata>)

  /** Body of a correction request. The corrected operation is in the path. */
  datatype CorrectionRequest = CorrectionRequest(
    asset: Option<AssetId>,
    relatedAsset: Option<AssetId>,
    status: Option<OperationStatus>,
    cash: Option<int>,
    currency: Option<string>,
    rate: Option<DecimalText>,
    details: Details,
    metadata: Option<Metadata>)

  /** Body of a PATCH. `None` keeps the stored field, `Some(None)` clears it. */
  datatype PatchRequest = PatchRequest(
    asset: Option<AssetId>,
    relatedAsset: Option<AssetId>,
    opType: Option<OperationType>,
    cash: Option<int>,
    currency: Option<string>,
    rate: Option<Option<DecimalText>>,
    corrected: Option<Option<OperationId>>,
    details: DetailsPatch,
    metadata: Option<Metadata>)

  datatype DetailsPatch = DetailsPatch(
    executedAt: Option<Timestamp>,
    effectiveAt: Option<Option<Timestamp>>,
    quantity: Option<Option<DecimalText>>,
    relatedQuantity: Option<Option<DecimalText>>,
    priceMinor: Option<Option<int>>,
    grossAmountMinor: Option<Option<int>>,
    feesMinor: Option<Option<int>>,
    taxesMinor: Option<Option<int>>,
    externalProvider: Option<Option<string>>,
    externalReference: Option<Option<string>>,
    notes: Option<Option<string>>)

  /** A stored operation. The rate is a database numeric, no longer a text.
      `origin` is a history field: the user and key of the request that made
      the row. */
  datatype Row = Row(
    portfolio: PortfolioId,
    asset: Option<AssetId>,
    relatedAsset: Option<AssetId>,
    opType: OperationType,
    status: OperationStatus,
    cash: int,
    currency: string,
    rate: Option<real>,
    corrected: Option<OperationId>,
    details: StoredDetails,
    metadata: Metadata,
    origin: (UserId, IdempotencyKey))

  datatype Portfolio = Portfolio(owner: UserId, baseCurrency: string)

  function GetOr<T>(o: Option<T>, default: T): T {
    match o case Some(v) => v case None => default
  }

  // ----- Canonical candidates -----

  const NO_METADATA: Metadata := "{}"

  /** The row a creation request asks for, or `None` when it asks for a
      cancelled operation. */
  function BuildCreateCandidate(portfolio: PortfolioId, request: CreateRequest): Option<NewOperation> {
    var status := GetOr(request.status, Pending);
    if status == Cancelled then None
    else Some(NewOperation(portfolio, request.asset, request.relatedAsset, request.opType, status,
                           GetOr(request.cash, 0), request.currency, request.rate, request.corrected,
                           request.details, GetOr(request.metadata, NO_METADATA)))
  }

  /** The adjustment a correction request asks for. An omitted currency is
      taken from the corrected operation. */
  function BuildCorrectionCandidate(id: OperationId, original: Row, request: CorrectionRequest): Option<NewOperation> {
    var status := GetOr(request.status, Pending);
    if status == Cancelled then None
    else Some(NewOperation(original.portfolio, request.asset, request.relatedAsset, Adjustment, status,
                           GetOr(request.cash, 0), GetOr(request.currency, original.currency), request.rate,
                           Some(id), request.details, GetOr(request.metadata, NO_METADATA)))
  }

  // ----- Decimals -----

  predicate PositiveDecimal(d: DecimalText) {
    d.number.Some? && d.number.value > 0.0
  }

  /** Service check on an optional decimal: absent, or positive. */
  predicate DecimalAccepted(d: Option<DecimalText>) {
    d.None? || PositiveDecimal(d.value)
  }

  predicate DetailsAccepted(d: Details) {
    DecimalAccepted(d.quantity) && DecimalAccepted(d.relatedQuantity)
  }

  /** Ten fractional digits. */
  const UNITS := 10000000000.0

  /** Bound of `numeric(20,10)`, and of `numeric(30,10)`. */
  const RATE_LIMIT := 10000000000.0
  const QUANTITY_LIMIT := 100000000000000000000.0

  /** The cast to ten fractional digits, half rounded up. */
  function Rounded(x: real): real {
    ((x * UNITS + 0.5).Floor as real) / UNITS
  }

  /** The number has at most ten fractional digits. */
  predicate TenDigits(x: real) {
    (x * UNITS).Floor as real == x * UNITS
  }

  /** The value the database stores for a bound decimal, when it accepts it: the
      cast must not overflow and the CHECK constraint asks for a positive
      result. What is stored has ten fractional digits and lies within half of
      the last one of what was sent. */
  function StoredDecimal(d: Option<DecimalText>, limit: real): (r: Option<Option<real>>)
    ensures r.Some? ==> (d.None? <==> r.value.None?)
    ensures r.Some? && r.value.Some? ==>
              && 0.0 < r.value.value < limit && TenDigits(r.value.value)
              && d.value.number.Some?
              && -0.5 < (r.value.value - d.value.number.value) * UNITS <= 0.5
    ensures r.None? <==> d.Some? && (d.value.number.None? || d.value.number.value * UNITS < 0.5
                                     || Rounded(d.value.number.value) >= limit)
  {
    match d
    case None => Some(None)
    case Some(text) =>
      if text.number.None? then None
      else
        var x := Rounded(text.number.value);
        if 0.0 < x < limit then Some(Some(x)) else None
  }

  function StoredRate(rate: Option<DecimalText>): Option<Option<real>> { StoredDecimal(rate, RATE_LIMIT) }

  /** A number with at most ten fractional digits is stored as it was sent, any
      other is not. */
  lemma RoundedIsExactIff(x: real)
    ensures Rounded(x) == x <==> TenDigits(x)
  {
    if TenDigits(x) {
      assert (x * UNITS + 0.5).Floor == (x * UNITS).Floor;
    }
  }

  // ----- Timestamps -----

  /** Microseconds, cut towards the epoch. */
  function Micros(nanos: int): int {
    if nanos >= 0 then nanos / 1000 else -((-nanos) / 1000)
  }

  // ----- Stored details -----

  function StoredDetailsOf(d: Details): Option<StoredDetails> {
    var quantity := StoredDecimal(d.quantity, QUANTITY_LIMIT);
    var related := StoredDecimal(d.relatedQuantity, QUANTITY_LIMIT);
    if quantity.None? || related.None? then None
    else Some(StoredDetails(
      Micros(d.executedAt.nanos), if d.effectiveAt.None? then None else Some(Micros(d.effectiveAt.value.nanos)),
      quantity.value, related.value, d.priceMinor, d.grossAmountMinor, d.feesMinor, d.taxesMinor,
      d.externalProvider, d.externalReference, d.notes))
  }

  /** The column holds the number that was sent, to ten fractional digits, half
      rounded up. */
  predicate DecimalStored(sent: Option<DecimalText>, stored: Option<real>) {
    && (stored.Some? <==> sent.Some?)
    && (sent.Some? ==> sent.value.number.Some? && TenDigits(stored.value)
                       && -0.5 < (stored.value - sent.value.number.value) * UNITS <= 0.5)
  }

  /** The column holds the instant that was sent, cut to microseconds towards the
      epoch. */
  predicate InstantStored(sent: Timestamp, micros: int) {
    if sent.nanos >= 0 then 0 <= sent.nanos - 1000 * micros < 1000 else -1000 < sent.nanos - 1000 * micros <= 0
  }

  /** The columns hold the details that were sent. */
  predicate DetailsStored(sent: Details, stored: StoredDetails) {
    && InstantStored(sent.executedAt, stored.executedAt)
    && (stored.effectiveAt.Some? <==> sent.effectiveAt.Some?)
    && (sent.effectiveAt.Some? ==> InstantStored(sent.effectiveAt.value, stored.effectiveAt.value))
    && DecimalStored(sent.quantity, stored.quantity) && DecimalStored(sent.relatedQuantity, stored.relatedQuantity)
    && stored.priceMinor == sent.priceMinor && stored.grossAmountMinor == sent.grossAmountMinor
    && stored.feesMinor == sent.feesMinor && stored.taxesMinor == sent.taxesMinor
    && stored.externalProvider == sent.externalProvider && stored.externalReference == sent.externalReference
    && stored.notes == sent.notes
  }

  lemma DecimalIsStored(d: Option<DecimalText>, limit: real)
    requires StoredDecimal(d, limit).Some?
    ensures DecimalStored(d, StoredDecimal(d, limit).value)
  {
  }

  /** What is stored of the details of a request is what it sent. */
  lemma DetailsAreStored(d: Details)
    requires StoredDetailsOf(d).Some?
    ensures DetailsStored(d, StoredDetailsOf(d).value)
  {
    DecimalIsStored(d.quantity, QUANTITY_LIMIT);
    DecimalIsStored(d.relatedQuantity, QUANTITY_LIMIT);
  }

  /** The row shows the very number that was sent. */
  predicate ShowsDecimal(stored: Option<real>, d: Option<DecimalText>) {
    if d.None? then stored.None? else stored.Some? && d.value.number == stored
  }

  predicate ShowsInstant(micros: int, t: Timestamp) { 1000 * micros == t.nanos }

  /** The row shows every number and every instant that was sent. */
  predicate ShowsDetails(s: StoredDetails, d: Details) {
    && ShowsDecimal(s.quantity, d.quantity) && ShowsDecimal(s.relatedQuantity, d.relatedQuantity)
    && ShowsInstant(s.executedAt, d.executedAt)
    && (s.effectiveAt.Some? <==> d.effectiveAt.Some?)
    && (d.effectiveAt.Some? ==> ShowsInstant(s.effectiveAt.value, d.effectiveAt.value))
  }

  predicate FewDigits(d: Option<DecimalText>) {
    d.Some? && d.value.number.Some? ==> TenDigits(d.value.number.value)
  }

  lemma DecimalShownIff(d: Option<DecimalText>, limit: real)
    requires StoredDecimal(d, limit).Some?
    ensures ShowsDecimal(StoredDecimal(d, limit).value, d) == FewDigits(d)
  {
    if d.Some? {
      var x := d.value.number.value;
      RoundedIsExactIff(x);
      assert StoredDecimal(d, limit).value == Some(Rounded(x));
    }
  }

  predicate WholeMicros(t: Timestamp) { t.nanos % 1000 == 0 }

  lemma InstantShownIff(t: Timestamp)
    ensures ShowsInstant(Micros(t.nanos), t) == WholeMicros(t)
  {
  }

  /** Stored details show what was sent exactly when the quantities have at most
      ten fractional digits and the times no fraction of a microsecond. The UTC
      offset of a time is never stored. */
  lemma DetailsShownIff(d: Details)
    requires StoredDetailsOf(d).Some?
    ensures ShowsDetails(StoredDetailsOf(d).value, d) <==>
              && FewDigits(d.quantity) && FewDigits(d.relatedQuantity)
              && WholeMicros(d.executedAt) && (d.effectiveAt.Some? ==> WholeMicros(d.effectiveAt.value))
  {
    DecimalShownIff(d.quantity, QUANTITY_LIMIT);
    DecimalShownIff(d.relatedQuantity, QUANTITY_LIMIT);
    InstantShownIff(d.executedAt);
    if d.effectiveAt.Some? { InstantShownIff(d.effectiveAt.value); }
  }

  // ----- Cross-currency posting -----

  /** `validate_cross_currency_posting` on a request. */
  predicate CrossCurrencyOk(op: NewOperation, base: string) {
    op.currency == base || op.cash == 0 || (op.rate.Some? && PositiveDecimal(op.rate.value))
  }

  /** The same rule on a stored row. */
  predicate RowCrossCurrencyOk(row: Row, base: string) {
    row.currency == base || row.cash == 0 || (row.rate.Some? && row.rate.value > 0.0)
  }

  // ----- Asset references -----

  predicate AssetsOk(activeAssets: set<AssetId>, asset: Option<AssetId>, related: Option<AssetId>,
                     opType: OperationType) {
    && (asset.Some? ==> asset.value in activeAssets)
    && (related.Some? ==> related.value in activeAssets)
    && (opType in {SpinOff, SymbolChange, Adjustment} && asset.Some? && related.Some? ==> asset.value != related.value)
  }

  // ----- Database rows -----

  /** The row an operation becomes, when its decimals can be stored. */
  function StoredRow(op: NewOperation, origin: (UserId, IdempotencyKey)): Option<Row> {
    var rate, details := StoredRate(op.rate), StoredDetailsOf(op.details);
    if rate.None? || details.None? then None
    else Some(Row(op.portfolio, op.asset, op.relatedAsset, op.opType, op.status, op.cash, op.currency, rate.value,
                  op.corrected, details.value, op.metadata, origin))
  }

  predicate NonNegativeAmount(amount: Option<int>) { amount.Some? ==> amount.value >= 0 }

  /** The columns are numerics with ten fractional digits; a cast sees to that. */
  predicate Cast(row: Row) {
    && (row.rate.Some? ==> TenDigits(row.rate.value))
    && (row.details.quantity.Some? ==> TenDigits(row.details.quantity.value))
    && (row.details.relatedQuantity.Some? ==> TenDigits(row.details.relatedQuantity.value))
  }

  /** Types and CHECK constraints of the columns of one row. */
  predicate ColumnRules(row: Row) {
    var d := row.details;
    && Cast(row)
    && row.cash >= 0 && NonNegativeAmount(d.priceMinor) && NonNegativeAmount(d.grossAmountMinor)
    && NonNegativeAmount(d.feesMinor) && NonNegativeAmount(d.taxesMinor)
    && (row.rate.Some? ==> 0.0 < row.rate.value < RATE_LIMIT)
    && (d.quantity.Some? ==> 0.0 < d.quantity.value < QUANTITY_LIMIT)
    && (d.relatedQuantity.Some? ==> 0.0 < d.relatedQuantity.value < QUANTITY_LIMIT)
    && (d.externalProvider.Some? <==> d.externalReference.Some?)
    && (row.opType in {TransferIn, TransferOut, Adjustment} || TypeRules(row))
  }

  /** What the type of an operation asks of its columns. */
  predicate TypeRules(row: Row) {
    var d := row.details;
    var cashOnly := row.opType in {Deposit, Withdrawal, Interest, Fee, Tax};
    var trade := row.opType in {Buy, Sell};
    var corporate := row.opType in {Split, SpinOff, SymbolChange};
    && (row.asset.Some? <==> !cashOnly)
    && (row.relatedAsset.Some? <==> row.opType in {SpinOff, SymbolChange})
    && (d.quantity.Some? <==> trade || corporate)
    && (d.relatedQuantity.Some? <==> row.opType == SpinOff)
    && (d.priceMinor.Some? <==> trade)
    && (if corporate then d.grossAmountMinor.None? && row.cash == 0
        else d.grossAmountMinor.Some? && d.grossAmountMinor.value > 0 && row.cash > 0)
  }

  /** The unique index on external references. */
  predicate ExternalFree(operations: map<OperationId, Row>, id: OperationId, row: Row) {
    row.details.externalReference.Some? ==>
      forall q | q in operations && q != id ::
        !(operations[q].details.externalProvider == row.details.externalProvider
          && operations[q].details.externalReference == row.details.externalReference)
  }

  /** Every constraint of the table on a row stored under `id`. */
  predicate RowConstraints(operations: map<OperationId, Row>, id: OperationId, row: Row) {
    && ColumnRules(row)
    && (row.corrected.Some? ==>
          row.corrected.value in operations && row.corrected.value != id && row.opType == Adjustment)
    && ExternalFree(operations, id, row)
  }

  // ----- Payload rules -----

  /** What the payload rules of the service read of an operation. */
  datatype Payload = Payload(
    opType: OperationType,
    asset: Option<AssetId>,
    relatedAsset: Option<AssetId>,
    corrected: Option<OperationId>,
    cash: int,
    hasQuantity: bool,
    hasRelatedQuantity: bool,
    priceMinor: Option<int>,
    grossAmountMinor: Option<int>,
    feesMinor: Option<int>,
    taxesMinor: Option<int>,
    externalProvider: Option<string>,
    externalReference: Option<string>,
    metadata: Metadata)

  function PayloadOf(op: NewOperation): Payload {
    var d := op.details;
    Payload(op.opType, op.asset, op.relatedAsset, op.corrected, op.cash, d.quantity.Some?, d.relatedQuantity.Some?,
            d.priceMinor, d.grossAmountMinor, d.feesMinor, d.taxesMinor, d.externalProvider, d.externalReference,
            op.metadata)
  }

  function PayloadOfRow(row: Row): Payload {
    var d := row.details;
    Payload(row.opType, row.asset, row.relatedAsset, row.corrected, row.cash, d.quantity.Some?, d.relatedQuantity.Some?,
            d.priceMinor, d.grossAmountMinor, d.feesMinor, d.taxesMinor, d.externalProvider, d.externalReference,
            row.metadata)
  }

  predicate Positive(amount: Option<int>) { amount.Some? && amount.value > 0 }

  /** `validate_operation_payload`, but for its decimals. */
  predicate PayloadAccepted(p: Payload) {
    && NonNegativeAmount(p.priceMinor) && NonNegativeAmount(p.grossAmountMinor)
    && NonNegativeAmount(p.feesMinor) && NonNegativeAmount(p.taxesMinor) && p.cash >= 0
    && (p.corrected.Some? ==> p.opType == Adjustment)
    && (p.externalProvider.Some? <==> p.externalReference.Some?)
    && match p.opType
       case Buy | Sell =>
         p.asset.Some? && p.hasQuantity && p.priceMinor.Some? && Positive(p.grossAmountMinor) && p.cash > 0
       case Deposit | Withdrawal | Interest | Fee | Tax =>
         p.asset.None? && Positive(p.grossAmountMinor) && p.cash > 0
       case Dividend => p.asset.Some? && Positive(p.grossAmountMinor) && p.cash > 0
       case Split => p.asset.Some? && p.hasQuantity && p.cash == 0 && p.grossAmountMinor.None?
       case SpinOff =>
         p.asset.Some? && p.relatedAsset.Some? && p.hasQuantity && p.hasRelatedQuantity && p.cash == 0
         && p.grossAmountMinor.None?
       case SymbolChange =>
         p.asset.Some? && p.relatedAsset.Some? && p.hasQuantity && p.cash == 0 && p.grossAmountMinor.None?
       case TransferIn | TransferOut | Adjustment => true
  }

  /** `validate_correction_payload`. */
  predicate Meaningful(p: Payload) {
    p.hasQuantity || p.hasRelatedQuantity || p.priceMinor.Some? || p.grossAmountMinor.Some? || p.feesMinor.Some?
    || p.taxesMinor.Some? || p.cash > 0 || p.asset.Some? || p.relatedAsset.Some? || p.metadata != NO_METADATA
  }

  /** What `post_operation` asks of the payload of a row. */
  predicate RowPayloadAccepted(row: Row) {
    && PayloadAccepted(PayloadOfRow(row)) && (row.opType == Adjustment ==> Meaningful(PayloadOfRow(row)))
    && (row.rate.Some? ==> row.rate.value > 0.0)
    && (row.details.quantity.Some? ==> row.details.quantity.value > 0.0)
    && (row.details.relatedQuantity.Some? ==> row.details.relatedQuantity.value > 0.0)
  }

  // ----- Patches -----

  /** The row a PATCH wants to store, merged from the snapshot the service
      read; `None` when a patched decimal is not positive. An overflow is left
      to the database. */
  function MergePatch(row: Row, patch: PatchRequest): Option<Row> {
    if !DecimalPatchAccepted(patch.rate) || !DecimalPatchAccepted(patch.details.quantity)
       || !DecimalPatchAccepted(patch.details.relatedQuantity) then None
    else
      Some(row.(
        asset := if patch.asset.Some? then patch.asset else row.asset,
        relatedAsset := if patch.relatedAsset.Some? then patch.relatedAsset else row.relatedAsset,
        opType := GetOr(patch.opType, row.opType),
        cash := GetOr(patch.cash, row.cash),
        currency := GetOr(patch.currency, row.currency),
        rate := PatchedDecimal(patch.rate, row.rate),
        corrected := GetOr(patch.corrected, row.corrected),
        details := MergeDetails(row.details, patch.details),
        metadata := GetOr(patch.metadata, row.metadata)))
  }

  predicate DecimalPatchAccepted(patch: Option<Option<DecimalText>>) {
    patch.Some? ==> DecimalAccepted(patch.value)
  }

  /** The column of an UPDATE before the constraints are checked. */
  function PatchedDecimal(patch: Option<Option<DecimalText>>, stored: Option<real>): Option<real>
    requires DecimalPatchAccepted(patch)
  {
    if patch.None? then stored
    else if patch.value.None? then None
    else Some(Rounded(patch.value.value.number.value))
  }

  function MergeDetails(d: StoredDetails, patch: DetailsPatch): StoredDetails
    requires DecimalPatchAccepted(patch.quantity) && DecimalPatchAccepted(patch.relatedQuantity)
  {
    StoredDetails(
      if patch.executedAt.Some? then Micros(patch.executedAt.value.nanos) else d.executedAt,
      if patch.effectiveAt.None? then d.effectiveAt
      else if patch.effectiveAt.value.None? then None else Some(Micros(patch.effectiveAt.value.value.nanos)),
      PatchedDecimal(patch.quantity, d.quantity), PatchedDecimal(patch.relatedQuantity, d.relatedQuantity),
      GetOr(patch.priceMinor, d.priceMinor), GetOr(patch.grossAmountMinor, d.grossAmountMinor),
      GetOr(patch.feesMinor, d.feesMinor), GetOr(patch.taxesMinor, d.taxesMinor),
      GetOr(patch.externalProvider, d.externalProvider), GetOr(patch.externalReference, d.externalReference),
      GetOr(patch.notes, d.notes))
  }

  // ----- A rate the service accepts and the database stores keeps the rule -----

  lemma StoredRateKeepsRule(op: NewOperation, base: string, origin: (UserId, IdempotencyKey))
    requires CrossCurrencyOk(op, base) && StoredRow(op, origin).Some?
    ensures RowCrossCurrencyOk(StoredRow(op, origin).value, base)
  {
  }
}
