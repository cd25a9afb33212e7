/** Valuing the positions of a book with the quotes of one read: provenance,
    values, weights, and the status the API derives from the persisted rows. */
module Valuation {
  import opened Ledger
  import opened Replay
  import opened ReplayLaws

  datatype Quote = Quote(price: int, currency: string, provider: Option<string>, asOf: int, recordedAt: int)

  datatype Source = MarketData | InvestedCostFallback

  datatype DataStatus = Available | Missing | UnsupportedCurrency

  /** A row of `rm_portfolio_holdings`; provenance columns are null in rows
      older than them. Percentages are in ten-thousandths of a percent. */
  datatype Holding = Holding(
    asset: AssetId,
    quantity: int,
    avgCost: Option<int>,
    cost: int,
    value: int,
    pnl: int,
    pnlPct: Option<int>,
    weight: Option<int>,
    open: bool,
    estimated: bool,
    source: Option<Source>,
    status: Option<DataStatus>,
    price: Option<int>,
    currency: Option<string>,
    provider: Option<string>,
    asOf: Option<int>,
    recordedAt: Option<int>)

  const WHOLE := 1000000

  // ----- One holding -----

  function PriceTimesQuantity(price: int, quantity: int): int { DivideRound(price * quantity, SCALE) }

  function AvgCost(p: Position): Option<int> {
    if p.quantity > 0 then Some(DivideRound(p.cost * SCALE, p.quantity)) else None
  }

  /** `part` in percent of `whole`. */
  function Percent(part: int, whole: int): Option<int> {
    if whole > 0 then Some(DivideRound(part * WHOLE, whole)) else None
  }

  /** The row of an open position valued at `value`, with the quote it shows. */
  function PositionRow(a: AssetId, p: Position, value: int, source: Source, status: DataStatus,
                       shown: Option<Quote>): Holding {
    Holding(a, p.quantity, AvgCost(p), p.cost, value, value - p.cost, Percent(value - p.cost, p.cost), None, true,
            source == InvestedCostFallback, Some(source), Some(status),
            if shown.Some? then Some(shown.value.price) else None,
            if shown.Some? then Some(shown.value.currency) else None,
            if shown.Some? then shown.value.provider else None,
            if shown.Some? then Some(shown.value.asOf) else None,
            if shown.Some? then Some(shown.value.recordedAt) else None)
  }

  /** The row of a position before weights. Without a quote in the base currency
      the value falls back to the invested cost. */
  function Valued(base: string, a: AssetId, p: Position, quotes: map<AssetId, Quote>): Holding {
    if a !in quotes then PositionRow(a, p, p.cost, InvestedCostFallback, Missing, None)
    else
      var q := quotes[a];
      if q.currency == base then
        PositionRow(a, p, PriceTimesQuantity(q.price, p.quantity), MarketData, Available, Some(q))
      else PositionRow(a, p, p.cost, InvestedCostFallback, UnsupportedCurrency, Some(q))
  }

  /** CHECK constraints of the holdings table. */
  predicate RowConstraintsHold(h: Holding) {
    && h.quantity >= 0 && h.cost >= 0 && h.value >= 0
    && (h.avgCost.Some? ==> h.avgCost.value >= 0)
    && (h.weight.Some? ==> 0 <= h.weight.value <= WHOLE)
    && (h.price.Some? ==> h.price.value >= 0)
    && ((h.source.None? && h.status.None?)
        || (h.source == Some(MarketData) && h.status == Some(Available)
            && h.price.Some? && h.currency.Some? && h.asOf.Some? && h.recordedAt.Some?)
        || (h.source == Some(InvestedCostFallback) && h.status == Some(Missing)
            && h.price.None? && h.currency.None? && h.provider.None? && h.asOf.None? && h.recordedAt.None?)
        || (h.source == Some(InvestedCostFallback) && h.status == Some(UnsupportedCurrency)
            && h.price.Some? && h.currency.Some? && h.asOf.Some? && h.recordedAt.Some?))
  }

  /** `numeric(10,4)`, and `numeric(30,10)` in scaled units. */
  const PERCENT_LIMIT := 10000000000
  const QUANTITY_COLUMN := 1000000000000000000000000000000

  /** The row fits the widths of its columns. */
  predicate ColumnsFit(h: Holding) {
    h.quantity < QUANTITY_COLUMN && (h.pnlPct.Some? ==> -PERCENT_LIMIT < h.pnlPct.value < PERCENT_LIMIT)
  }

  function Abs(x: int): int { if x >= 0 then x else -x }

  /** Which profits fit their column: those below a million percent of the cost,
      to half of the last digit. Otherwise the database refuses the row, and with
      it the whole read model. */
  predicate ProfitFits(pnl: int, cost: int) {
    2 * (Abs(pnl) * WHOLE) < 2 * (PERCENT_LIMIT * cost) - cost
  }

  lemma PercentFitsIff(pnl: int, cost: int)
    requires cost > 0
    ensures -PERCENT_LIMIT < Percent(pnl, cost).value < PERCENT_LIMIT <==> ProfitFits(pnl, cost)
  {
    var n := Abs(pnl) * WHOLE;
    RoundedBelowIff(n, cost, PERCENT_LIMIT);
    assert pnl < 0 ==> pnl * WHOLE == -n;
  }

  lemma RoundedBelowIff(n: int, d: int, limit: int)
    requires n >= 0 && d > 0 && limit > 0
    ensures DivideRound(n, d) < limit <==> 2 * n < 2 * (limit * d) - d
    ensures DivideRound(n, d) >= 0
  {
    var q, r := n / d, n % d;
    assert n == q * d + r;
    MultipleOrder(q, limit, d);
    RoundedCases(n, d, q, r, q * d, limit, limit * d);
  }

  /** Multiples of `d` come in the order of their factors. */
  lemma MultipleOrder(x: int, y: int, d: int)
    requires d > 0
    ensures x <= y - 2 ==> x * d <= y * d - 2 * d
    ensures x == y - 1 ==> x * d == y * d - d
    ensures x == y ==> x * d == y * d
    ensures x == y + 1 ==> x * d == y * d + d
    ensures x >= y ==> x * d >= y * d
    ensures x >= y + 2 ==> x * d >= y * d + 2 * d
  {
    assert (y - x) * d == y * d - x * d;
    var k := y - x;
    assert k >= 2 ==> k * d >= 2 * d;
    assert k <= 0 ==> k * d <= 0;
    assert k <= -2 ==> k * d <= -2 * d;
  }

  lemma RoundedCases(n: int, d: int, q: int, r: int, qd: int, limit: int, top: int)
    requires d > 0 && n == qd + r && 0 <= r < d
    requires q <= limit - 2 ==> qd <= top - 2 * d
    requires q == limit - 1 ==> qd == top - d
    requires q >= limit ==> qd >= top
    ensures q + (if 2 * r >= d then 1 else 0) < limit <==> 2 * n < 2 * top - d
  {
  }

  /** A position bought for one minor unit and worth 10002 of them does not fit. */
  lemma LargeProfitDoesNotFit()
    ensures !ColumnsFit(Valued("EUR", 0, Position(SCALE, 1), map[0 := Quote(10002, "EUR", None, 0, 0)]))
  {
    assert PriceTimesQuantity(10002, SCALE) == 10002;
    assert Percent(10001, 1) == Some(10001 * WHOLE);
  }

  predicate QuotesOk(quotes: map<AssetId, Quote>) {
    forall a | a in quotes :: quotes[a].price >= 0
  }

  lemma ValuedFitsTable(base: string, a: AssetId, p: Position, quotes: map<AssetId, Quote>)
    requires PositionOk(p) && p.quantity > 0 && QuotesOk(quotes)
    ensures RowConstraintsHold(Valued(base, a, p, quotes))
  {
    DivideRoundFacts(p.cost * SCALE, p.quantity);
    if a in quotes {
      assert quotes[a].price * p.quantity >= 0;
      DivideRoundFacts(quotes[a].price * p.quantity, SCALE);
    }
  }

  // ----- Weights -----

  function Total(values: seq<int>): int {
    if values == [] then 0 else Total(values[..|values| - 1]) + values[|values| - 1]
  }

  function Weight(value: int, total: int): Option<int> {
    if total > 0 && value > 0 then Some(DivideRound(value * WHOLE, total)) else None
  }

  function WeightOrZero(value: int, total: int): int { GetOr(Weight(value, total), 0) }

  function WithWeights(rows: seq<Holding>, total: int): (weighted: seq<Holding>)
    ensures |weighted| == |rows|
    ensures forall i | 0 <= i < |rows| :: weighted[i] == rows[i].(weight := Weight(rows[i].value, total))
  {
    if rows == [] then []
    else WithWeights(rows[..|rows| - 1], total) + [rows[|rows| - 1].(weight := Weight(rows[|rows| - 1].value, total))]
  }

  /** The weight loop of `finalize`, over the rows in their order. */
  method WeightRows(rows: seq<Holding>, total: int) returns (weighted: seq<Holding>)
    requires forall i | 0 <= i < |rows| :: rows[i].weight.None?
    ensures weighted == WithWeights(rows, total)
  {
    weighted := [];
    for i := 0 to |rows|
      invariant weighted == WithWeights(rows[..i], total)
    {
      assert rows[..i + 1][..i] == rows[..i];
      var holding := rows[i];
      if total > 0 && holding.value > 0 {
        holding := holding.(weight := Some(DivideRound(holding.value * WHOLE, total)));
      }
      weighted := weighted + [holding];
    }
    assert rows[..|rows|] == rows;
  }

  ghost predicate NonNegative(values: seq<int>) {
    forall i | 0 <= i < |values| :: values[i] >= 0
  }

  lemma {:induction false} TotalBounds(values: seq<int>)
    requires NonNegative(values)
    ensures Total(values) >= 0 && forall i | 0 <= i < |values| :: values[i] <= Total(values)
    decreases |values|
  {
    if values != [] {
      var front := values[..|values| - 1];
      TotalBounds(front);
      forall i | 0 <= i < |values| ensures values[i] <= Total(values) {
        if i < |front| { assert front[i] == values[i]; }
      }
    }
  }

  /** Every weight lies between 0 and 100 percent. */
  lemma WeightInRange(values: seq<int>, i: nat)
    requires NonNegative(values) && i < |values|
    ensures 0 <= WeightOrZero(values[i], Total(values)) <= WHOLE
  {
    TotalBounds(values);
    var total := Total(values);
    if total > 0 && values[i] > 0 {
      DivideRoundFacts(values[i] * WHOLE, total);
      DivideRoundBelow(values[i] * WHOLE, total, WHOLE);
    }
  }

  function TotalWeight(values: seq<int>, total: int): int {
    if values == [] then 0 else TotalWeight(values[..|values| - 1], total) + WeightOrZero(values[|values| - 1], total)
  }

  /** How far rounding moves a weight, in units of one over the total: up by
      what is missing to the next weight, or down by the remainder. */
  function Drift(value: int, total: int): int
    requires total > 0 && value >= 0
  {
    var r := (value * WHOLE) % total;
    if 2 * r >= total then total - r else -r
  }

  function TotalDrift(values: seq<int>, total: int): int
    requires total > 0 && forall i | 0 <= i < |values| :: values[i] >= 0
  {
    if values == [] then 0 else TotalDrift(values[..|values| - 1], total) + Drift(values[|values| - 1], total)
  }

  /** The holdings with a weight. */
  function Weighted(values: seq<int>): nat {
    if values == [] then 0 else Weighted(values[..|values| - 1]) + if values[|values| - 1] > 0 then 1 else 0
  }

  lemma DriftOfWeight(value: int, total: int)
    requires total > 0 && value >= 0
    ensures WeightOrZero(value, total) * total == value * WHOLE + Drift(value, total)
    ensures -total <= 2 * Drift(value, total) <= total
    ensures value == 0 ==> Drift(value, total) == 0
  {
    var n := value * WHOLE;
    assert n == (n / total) * total + n % total;
    assert (n / total + 1) * total == (n / total) * total + total;
  }

  lemma {:induction false} TotalDriftFacts(values: seq<int>, total: int)
    requires total > 0 && NonNegative(values)
    ensures TotalWeight(values, total) * total == Total(values) * WHOLE + TotalDrift(values, total)
    ensures -(Weighted(values) * total) <= 2 * TotalDrift(values, total) <= Weighted(values) * total
    decreases |values|
  {
    if values != [] {
      var front, last := values[..|values| - 1], values[|values| - 1];
      TotalDriftFacts(front, total);
      DriftOfWeight(last, total);
      assert (TotalWeight(front, total) + WeightOrZero(last, total)) * total
          == TotalWeight(front, total) * total + WeightOrZero(last, total) * total;
      assert (Total(front) + last) * WHOLE == Total(front) * WHOLE + last * WHOLE;
      assert (Weighted(front) + 1) * total == Weighted(front) * total + total;
    }
  }

  /** The comment on `weight_pct` says the weights sum to 100. They do exactly
      when the roundings cancel; in any case the sum is off by at most half of
      the last digit per weighted holding. */
  lemma WeightsSumToWholeIff(values: seq<int>)
    requires NonNegative(values) && Total(values) > 0
    ensures TotalWeight(values, Total(values)) == WHOLE <==> TotalDrift(values, Total(values)) == 0
    ensures 2 * (TotalWeight(values, Total(values)) - WHOLE) <= Weighted(values)
    ensures 2 * (WHOLE - TotalWeight(values, Total(values))) <= Weighted(values)
  {
    var total := Total(values);
    TotalDriftFacts(values, total);
    OffBy(TotalWeight(values, total) - WHOLE, total, TotalDrift(values, total), Weighted(values));
  }

  lemma OffBy(off: int, total: int, drift: int, n: nat)
    requires total > 0 && (off + WHOLE) * total == total * WHOLE + drift
    requires -(n * total) <= 2 * drift <= n * total
    ensures off == 0 <==> drift == 0
    ensures 2 * off <= n && -2 * off <= n
  {
    assert off * total == drift;
    ScaledBound(2 * off, n, total);
    ScaledBound(-2 * off, n, total);
  }

  lemma ScaledBound(x: int, n: nat, total: int)
    requires total > 0 && x * total <= n * total
    ensures x <= n
  {
    assert (x - n) * total == x * total - n * total <= 0;
  }

  /** Conditions one can read off the values. The weights sum to 100 when every
      value is a whole number of ten-thousandths of a percent of the total; */
  lemma {:induction false} DivisibleValuesDriftNowhere(values: seq<int>, total: int)
    requires total > 0 && NonNegative(values)
    requires forall i | 0 <= i < |values| :: (values[i] * WHOLE) % total == 0
    ensures TotalDrift(values, total) == 0
    decreases |values|
  {
    if values != [] {
      var front := values[..|values| - 1];
      forall i | 0 <= i < |front| ensures (front[i] * WHOLE) % total == 0 {
        assert front[i] == values[i];
      }
      DivisibleValuesDriftNowhere(front, total);
    }
  }

  lemma DivisibleValuesSumToWhole(values: seq<int>)
    requires NonNegative(values) && Total(values) > 0
    requires forall i | 0 <= i < |values| :: (values[i] * WHOLE) % Total(values) == 0
    ensures TotalWeight(values, Total(values)) == WHOLE
  {
    DivisibleValuesDriftNowhere(values, Total(values));
    WeightsSumToWholeIff(values);
  }

  /** a single holding always weighs 100; */
  lemma OneHoldingIsWhole(value: int)
    requires value > 0
    ensures TotalWeight([value], Total([value])) == WHOLE
  {
    assert [value][..0] == [];
    assert value * WHOLE == WHOLE * value;
    assert (WHOLE * value) / value == WHOLE && (WHOLE * value) % value == 0 by { ExactQuotient(WHOLE, value); }
  }

  lemma ExactQuotient(k: int, d: int)
    requires d > 0
    ensures (k * d) / d == k && (k * d) % d == 0
  {
    var q, r := (k * d) / d, (k * d) % d;
    assert k * d == q * d + r;
    MultipleOrder(k, q, d);
  }

  /** and two holdings weigh 100 together exactly unless both weights lie halfway
      between two digits: then both are rounded up. */
  lemma TwoHoldingsAreWholeIff(a: int, b: int)
    requires a > 0 && b > 0
    ensures TotalWeight([a, b], Total([a, b])) == WHOLE <==> 2 * ((a * WHOLE) % (a + b)) != a + b
  {
    PairSums(a, b);
    ComplementRemainders(a * WHOLE, b * WHOLE, a + b);
    WeightsSumToWholeIff([a, b]);
  }

  lemma PairSums(a: int, b: int)
    requires a > 0 && b > 0
    ensures Total([a, b]) == a + b
    ensures TotalDrift([a, b], a + b) == Drift(a, a + b) + Drift(b, a + b)
  {
    assert [a, b][..1] == [a] && [a][..0] == [];
    assert Total([a]) == a;
    assert TotalDrift([a], a + b) == Drift(a, a + b);
  }

  /** Numbers that add up to a multiple leave remainders that add up to nothing
      or to the divisor. */
  lemma ComplementRemainders(x: int, y: int, d: int)
    requires x >= 0 && y >= 0 && d > 0 && x + y == WHOLE * d
    ensures x % d + y % d == 0 || x % d + y % d == d
  {
    var p, q := x / d, y / d;
    assert x == p * d + x % d && y == q * d + y % d;
    assert (p + q) * d == p * d + q * d;
    MultipleOrder(p + q, WHOLE, d);
  }

  /** Three equal holdings weigh 99.9999 percent. */
  lemma ThirdsDoNotSumToWhole()
    ensures TotalWeight([1, 1, 1], Total([1, 1, 1])) == WHOLE - 1
  {
    assert [1, 1, 1][..2] == [1, 1] && [1, 1][..1] == [1] && [1][..0] == [];
    assert Total([1, 1]) == 2;
    assert TotalWeight([1, 1], 3) == 666666;
  }

  // ----- What the API shows -----

  /** Quality fields of a holding in a response. `None` is a row the API refuses
      to decode. */
  datatype Quality = Quality(available: bool, source: Option<Source>, reason: Option<string>,
                             price: Option<int>, currency: Option<string>, provider: Option<string>,
                             asOf: Option<int>, recordedAt: Option<int>)

  const LEGACY := Quality(false, None, Some("valuation_provenance_missing"), None, None, None, None, None)

  function QualityOf(h: Holding): Option<Quality> {
    var complete := h.price.Some? && h.currency.Some? && h.asOf.Some? && h.recordedAt.Some?;
    if h.source == Some(MarketData) && h.status == Some(Available) then
      if complete then Some(Quality(true, h.source, None, h.price, h.currency, h.provider, h.asOf, h.recordedAt))
      else None
    else if h.source == Some(InvestedCostFallback) && h.status == Some(Missing) then
      Some(Quality(false, h.source, Some("market_data_missing"), None, None, None, None, None))
    else if h.source == Some(InvestedCostFallback) && h.status == Some(UnsupportedCurrency) then
      if complete then
        Some(Quality(false, h.source, Some("unsupported_market_data_currency"), h.price, h.currency, h.provider,
                     h.asOf, h.recordedAt))
      else None
    else Some(LEGACY)
  }

  /** A row the table accepts is always decoded, and what is shown is what the
      row holds, except that an old row shows nothing. The reason says which of
      the four kinds of row it is. */
  lemma TableRowsDecode(h: Holding)
    requires RowConstraintsHold(h)
    ensures QualityOf(h).Some?
    ensures var q := QualityOf(h).value;
      && (q.available <==> h.source == Some(MarketData) && h.status == Some(Available))
      && (h.source.Some? ==> q.price == h.price && q.currency == h.currency && q.provider == h.provider
                             && q.asOf == h.asOf && q.recordedAt == h.recordedAt && q.source == h.source)
      && (h.source.None? ==> q == LEGACY)
      && (q.reason.None? <==> q.available)
      && (q.reason == Some("market_data_missing") <==> h.status == Some(Missing))
      && (q.reason == Some("unsupported_market_data_currency") <==> h.status == Some(UnsupportedCurrency))
      && (q.reason == Some("valuation_provenance_missing") <==> h.status.None?)
  {
    assert "market_data_missing"[0] == 'm' && "unsupported_market_data_currency"[0] == 'u'
           && "valuation_provenance_missing"[0] == 'v';
  }

  // ----- The valuation status -----

  datatype ValuationStatus = Complete | Partial | Unavailable | Empty

  function FromCounts(openPositions: int, valuedPositions: int): ValuationStatus {
    if openPositions <= 0 then Empty
    else if valuedPositions <= 0 then Unavailable
    else if valuedPositions >= openPositions then Complete
    else Partial
  }

  predicate IsValued(h: Holding) { h.open && h.source == Some(MarketData) && h.status == Some(Available) }

  function CountOpen(rows: seq<Holding>): nat {
    if rows == [] then 0 else CountOpen(rows[..|rows| - 1]) + if rows[|rows| - 1].open then 1 else 0
  }

  function CountValued(rows: seq<Holding>): nat {
    if rows == [] then 0 else CountValued(rows[..|rows| - 1]) + if IsValued(rows[|rows| - 1]) then 1 else 0
  }

  lemma {:induction false} CountFacts(rows: seq<Holding>)
    ensures CountValued(rows) <= CountOpen(rows)
    ensures CountOpen(rows) == 0 <==> forall h | h in rows :: !h.open
    ensures CountValued(rows) == 0 <==> forall h | h in rows :: !IsValued(h)
    ensures CountValued(rows) == CountOpen(rows) <==> forall h | h in rows && h.open :: IsValued(h)
    decreases |rows|
  {
    if rows != [] {
      CountFacts(rows[..|rows| - 1]);
      assert rows == rows[..|rows| - 1] + [rows[|rows| - 1]];
    }
  }

  /** The status derived from the two counts says of the persisted rows: no open
      position; none of them valued from market data; all of them; or some but
      not all. */
  lemma StatusMeaning(rows: seq<Holding>)
    ensures var status := FromCounts(CountOpen(rows), CountValued(rows));
      && (status == Empty <==> forall h | h in rows :: !h.open)
      && (status == Unavailable <==> (exists h :: h in rows && h.open) && forall h | h in rows :: !IsValued(h))
      && (status == Complete <==> (exists h :: h in rows && h.open) && forall h | h in rows && h.open :: IsValued(h))
      && (status == Partial <==>
          ((exists h :: h in rows && IsValued(h)) && exists h :: h in rows && h.open && !IsValued(h)))
  {
    CountFacts(rows);
  }
}
