/** `finalize`: from the replayed book and the quotes of one read to the rows of
    a read model, and what the API can rely on in them. */
module Rebuild {
  import opened Ledger
  import opened Replay
  import opened ReplayLaws
  import opened Valuation

  datatype Summary = Summary(totalValue: int, cash: int, invested: int, pnl: int, pnlPct: Option<int>, active: bool,
                             estimated: bool)

  datatype ReadModel = ReadModel(summary: Summary, holdings: seq<Holding>)

  const I64_MAX := 0x7FFF_FFFF_FFFF_FFFF

  predicate FitsI64(x: int) { -I64_MAX - 1 <= x <= I64_MAX }

  /** The amounts of a row that are narrowed to 64 bits. */
  predicate RowFits(h: Holding) {
    FitsI64(GetOr(h.avgCost, 0)) && FitsI64(h.cost) && FitsI64(h.value) && FitsI64(h.pnl)
  }

  /** `order` lists the positions, each once, as the hash map happens to. */
  ghost predicate Enumerates(order: seq<AssetId>, positions: map<AssetId, Position>) {
    && (forall a :: a in order <==> a in positions)
    && (forall i, j | 0 <= i < j < |order| :: order[i] != order[j])
  }

  /** How one position becomes a row. */
  type Valuer = (AssetId, Position) -> Holding

  function ValuerOf(base: string, quotes: map<AssetId, Quote>): Valuer {
    (a: AssetId, p: Position) => Valued(base, a, p, quotes)
  }

  /** The rows of the open positions, without weights. */
  function RowsBy(value: Valuer, positions: map<AssetId, Position>, order: seq<AssetId>): seq<Holding>
    requires forall a | a in order :: a in positions
  {
    if order == [] then []
    else
      var front, a := RowsBy(value, positions, order[..|order| - 1]), order[|order| - 1];
      if positions[a].quantity <= 0 then front else front + [value(a, positions[a])]
  }

  function RowsOf(base: string, positions: map<AssetId, Position>, order: seq<AssetId>,
                  quotes: map<AssetId, Quote>): seq<Holding>
    requires forall a | a in order :: a in positions
  {
    RowsBy(ValuerOf(base, quotes), positions, order)
  }

  function ValuesOf(rows: seq<Holding>): (values: seq<int>)
    ensures |values| == |rows| && forall i | 0 <= i < |rows| :: values[i] == rows[i].value
  {
    if rows == [] then [] else ValuesOf(rows[..|rows| - 1]) + [rows[|rows| - 1].value]
  }

  /** What `finalize` adds up over the rows: their value, whether one of them is
      estimated, and whether all amounts fit. */
  datatype Tally = Tally(market: int, estimated: bool, fits: bool)

  function AddToTally(t: Tally, row: Holding): Tally {
    Tally(t.market + row.value, t.estimated || row.estimated, t.fits && RowFits(row))
  }

  function TallyOf(rows: seq<Holding>): Tally {
    if rows == [] then Tally(0, false, true) else AddToTally(TallyOf(rows[..|rows| - 1]), rows[|rows| - 1])
  }

  function SummaryOf(book: Book, rows: seq<Holding>): Summary {
    var t := TallyOf(rows);
    var total := book.cash + t.market;
    var pnl := total - book.invested;
    Summary(total, book.cash, Max(book.invested, 0), pnl, Percent(pnl, book.invested), rows != [] || book.cash != 0,
            book.estimated || t.estimated)
  }

  predicate SummaryFits(s: Summary) {
    s.totalValue >= 0 && FitsI64(s.totalValue) && FitsI64(s.cash) && FitsI64(s.invested) && FitsI64(s.pnl)
  }

  /** The read model of a book; `None` when the rebuild fails because the total
      is negative or an amount does not fit. */
  function Finalized(base: string, book: Book, order: seq<AssetId>, quotes: map<AssetId, Quote>): Option<ReadModel>
    requires forall a | a in order :: a in book.positions
  {
    var rows := RowsOf(base, book.positions, order, quotes);
    if TallyOf(rows).fits && SummaryFits(SummaryOf(book, rows))
    then Some(ReadModel(SummaryOf(book, rows), WithWeights(rows, TallyOf(rows).market)))
    else None
  }

  lemma AddRow(rows: seq<Holding>, row: Holding)
    ensures TallyOf(rows + [row]) == AddToTally(TallyOf(rows), row)
  {
    assert (rows + [row])[..|rows|] == rows;
  }

  lemma {:induction false} MarketIsTotal(rows: seq<Holding>)
    ensures TallyOf(rows).market == Total(ValuesOf(rows))
    decreases |rows|
  {
    if rows != [] {
      var front := rows[..|rows| - 1];
      MarketIsTotal(front);
      assert ValuesOf(rows)[..|rows| - 1] == ValuesOf(front);
    }
  }

  lemma NextRows(value: Valuer, positions: map<AssetId, Position>, order: seq<AssetId>, i: nat)
    requires (forall a | a in order :: a in positions) && i < |order|
    ensures RowsBy(value, positions, order[..i + 1]) ==
              if positions[order[i]].quantity <= 0 then RowsBy(value, positions, order[..i])
              else RowsBy(value, positions, order[..i]) + [value(order[i], positions[order[i]])]
  {
    assert order[..i + 1][..i] == order[..i];
  }

  lemma {:induction false} MisfitStays(value: Valuer, positions: map<AssetId, Position>, order: seq<AssetId>, n: nat)
    requires (forall a | a in order :: a in positions) && n <= |order|
    requires !TallyOf(RowsBy(value, positions, order[..n])).fits
    ensures !TallyOf(RowsBy(value, positions, order)).fits
    decreases |order|
  {
    if n == |order| {
      assert order[..n] == order;
    } else {
      var front, a := order[..|order| - 1], order[|order| - 1];
      assert front[..n] == order[..n];
      MisfitStays(value, positions, front, n);
      AddRow(RowsBy(value, positions, front), value(a, positions[a]));
    }
  }

  lemma CollectStops(value: Valuer, positions: map<AssetId, Position>, order: seq<AssetId>, i: nat, rows: seq<Holding>,
                     row: Holding)
    requires (forall a | a in order :: a in positions) && i < |order| && positions[order[i]].quantity > 0
    requires rows == RowsBy(value, positions, order[..i]) && row == value(order[i], positions[order[i]])
    requires !RowFits(row)
    ensures !TallyOf(RowsBy(value, positions, order)).fits
  {
    NextRows(value, positions, order, i);
    AddRow(rows, row);
    MisfitStays(value, positions, order, i + 1);
  }

  /** The first loop of `finalize`; it stops at the first amount that does not
      fit. */
  method CollectRows(value: Valuer, positions: map<AssetId, Position>, order: seq<AssetId>)
    returns (rows: seq<Holding>, market: int, estimated: bool, ok: bool)
    requires forall a | a in order :: a in positions
    ensures ok <==> TallyOf(RowsBy(value, positions, order)).fits
    ensures ok ==> rows == RowsBy(value, positions, order) && TallyOf(rows) == Tally(market, estimated, true)
  {
    rows, market, estimated, ok := [], 0, false, true;
    for i := 0 to |order|
      invariant rows == RowsBy(value, positions, order[..i])
      invariant TallyOf(rows) == Tally(market, estimated, true)
    {
      NextRows(value, positions, order, i);
      var position := positions[order[i]];
      if position.quantity <= 0 {
        continue;
      }
      var row := value(order[i], position);
      if !RowFits(row) {
        CollectStops(value, positions, order, i, rows, row);
        ok := false;
        return;
      }
      AddRow(rows, row);
      rows, market, estimated := rows + [row], market + row.value, estimated || row.estimated;
    }
    assert order[..|order|] == order;
  }

  /** The row is what one position and one set of quotes make of it. */
  ghost predicate RowFrom(base: string, positions: map<AssetId, Position>, quotes: map<AssetId, Quote>, h: Holding) {
    h.asset in positions && positions[h.asset].quantity > 0
    && h == Valued(base, h.asset, positions[h.asset], quotes).(weight := h.weight)
  }

  lemma {:induction false} RowsComeFromPositions(base: string, positions: map<AssetId, Position>, order: seq<AssetId>,
                                                 quotes: map<AssetId, Quote>)
    requires forall a | a in order :: a in positions
    ensures forall h | h in RowsOf(base, positions, order, quotes) ::
              RowFrom(base, positions, quotes, h) && h.weight.None?
    ensures forall a | a in order && positions[a].quantity > 0 ::
              exists h :: h in RowsOf(base, positions, order, quotes) && h.asset == a
    decreases |order|
  {
    if order != [] {
      var front, last := order[..|order| - 1], order[|order| - 1];
      RowsComeFromPositions(base, positions, front, quotes);
      assert order == front + [last];
      var rows := RowsOf(base, positions, order, quotes);
      forall a | a in order && positions[a].quantity > 0 ensures exists h :: h in rows && h.asset == a {
        if a == last {
          assert Valued(base, a, positions[a], quotes) in rows;
        } else {
          assert a in front;
          var h :| h in RowsOf(base, positions, front, quotes) && h.asset == a;
          assert h in rows;
        }
      }
    }
  }

  lemma RowsStartWithoutWeights(base: string, quotes: map<AssetId, Quote>, positions: map<AssetId, Position>,
                                order: seq<AssetId>)
    requires forall a | a in order :: a in positions
    ensures var rows := RowsOf(base, positions, order, quotes); forall i | 0 <= i < |rows| :: rows[i].weight.None?
  {
    RowsComeFromPositions(base, positions, order, quotes);
    var rows := RowsOf(base, positions, order, quotes);
    forall i | 0 <= i < |rows| ensures rows[i].weight.None? {
      assert rows[i] in rows;
    }
  }

  /** The totals, the weights and the summary. */
  method Summarize(book: Book, rows: seq<Holding>, market: int, estimated: bool) returns (result: Option<ReadModel>)
    requires TallyOf(rows) == Tally(market, estimated, true) && forall i | 0 <= i < |rows| :: rows[i].weight.None?
    ensures result == if !SummaryFits(SummaryOf(book, rows)) then None
                      else Some(ReadModel(SummaryOf(book, rows), WithWeights(rows, market)))
  {
    var total := book.cash + market;
    if total < 0 {
      return None;
    }
    var holdings := WeightRows(rows, market);
    var pnl := total - book.invested;
    var pnlPct := if book.invested > 0 then Some(DivideRound(pnl * WHOLE, book.invested)) else None;
    var summary := Summary(total, book.cash, Max(book.invested, 0), pnl, pnlPct, rows != [] || book.cash != 0,
                           book.estimated || estimated);
    if !(FitsI64(total) && FitsI64(book.cash) && FitsI64(summary.invested) && FitsI64(summary.pnl)) {
      return None;
    }
    result := Some(ReadModel(summary, holdings));
  }

  // ----- What a read model must say -----

  /** `part` in percent of `whole`, to the nearest ten-thousandth; absent when
      there is no whole. */
  predicate PercentTells(pct: Option<int>, part: int, whole: int) {
    if whole > 0 then pct.Some? && Nearest(pct.value, part * WHOLE, whole) else pct.None?
  }

  predicate QuoteTells(quote: Option<Quote>, h: Holding) {
    if quote.None? then h.price.None? && h.currency.None? && h.provider.None? && h.asOf.None? && h.recordedAt.None?
    else
      var q := quote.value;
      h.price == Some(q.price) && h.currency == Some(q.currency) && h.provider == q.provider
      && h.asOf == Some(q.asOf) && h.recordedAt == Some(q.recordedAt)
  }

  /** The row of an open position: its quantity, its cost, the cost of one unit,
      its value and its profit. With a quote in the base currency the value is
      the price times the quantity, otherwise the cost, as an estimate. */
  predicate RowTells(base: string, p: Position, quote: Option<Quote>, h: Holding) {
    var priced := quote.Some? && quote.value.currency == base;
    && h.quantity == p.quantity && h.cost == p.cost && h.open
    && h.avgCost.Some? && Nearest(h.avgCost.value, p.cost * SCALE, p.quantity)
    && (if priced then Nearest(h.value, quote.value.price * p.quantity, SCALE) else h.value == p.cost)
    && h.pnl == h.value - p.cost && PercentTells(h.pnlPct, h.pnl, p.cost)
    && (h.estimated <==> !priced)
    && h.source == Some(if priced then MarketData else InvestedCostFallback)
    && h.status == Some(if priced then Available else if quote.Some? then UnsupportedCurrency else Missing)
    && QuoteTells(quote, h)
  }

  /** The share of a row in the value of all rows. */
  predicate WeightTells(h: Holding, market: int) {
    if market > 0 && h.value > 0 then h.weight.Some? && Nearest(h.weight.value, h.value * WHOLE, market)
    else h.weight.None?
  }

  ghost predicate SummaryTells(book: Book, rows: seq<Holding>, market: int, s: Summary) {
    && s.cash == book.cash && s.totalValue == book.cash + market
    && s.invested == (if book.invested >= 0 then book.invested else 0)
    && s.pnl == s.totalValue - book.invested && PercentTells(s.pnlPct, s.pnl, book.invested)
    && (s.active <==> book.cash != 0 || rows != [])
    && (s.estimated <==> book.estimated || exists h :: h in rows && h.estimated)
  }

  function OpenAssets(positions: map<AssetId, Position>, order: seq<AssetId>): seq<AssetId>
    requires forall a | a in order :: a in positions
  {
    if order == [] then []
    else
      var front, a := OpenAssets(positions, order[..|order| - 1]), order[|order| - 1];
      if positions[a].quantity <= 0 then front else front + [a]
  }

  function QuoteFor(quotes: map<AssetId, Quote>, a: AssetId): Option<Quote> {
    if a in quotes then Some(quotes[a]) else None
  }

  /** The read model of a book: one row for each open position, and a summary. */
  ghost predicate Tells(base: string, book: Book, order: seq<AssetId>, quotes: map<AssetId, Quote>, m: ReadModel)
    requires forall a | a in order :: a in book.positions
  {
    var market := Total(ValuesOf(m.holdings));
    && RowsTold(base, book.positions, OpenAssets(book.positions, order), quotes, market, m.holdings)
    && SummaryTells(book, m.holdings, market, m.summary)
  }

  /** The row of one asset. */
  predicate RowTold(base: string, positions: map<AssetId, Position>, a: AssetId, quotes: map<AssetId, Quote>,
                    market: int, h: Holding) {
    h.asset == a && a in positions && RowTells(base, positions[a], QuoteFor(quotes, a), h) && WeightTells(h, market)
  }

  ghost predicate RowsTold(base: string, positions: map<AssetId, Position>, assets: seq<AssetId>,
                           quotes: map<AssetId, Quote>, market: int, rows: seq<Holding>) {
    && |rows| == |assets|
    && forall i | 0 <= i < |assets| :: RowTold(base, positions, assets[i], quotes, market, rows[i])
  }

  predicate ModelFits(m: ReadModel) {
    SummaryFits(m.summary) && forall h | h in m.holdings :: RowFits(h)
  }

  lemma ValuedTells(base: string, a: AssetId, p: Position, quotes: map<AssetId, Quote>, weight: Option<int>)
    requires p.quantity > 0
    ensures RowTells(base, p, QuoteFor(quotes, a), Valued(base, a, p, quotes).(weight := weight))
  {
    var h := Valued(base, a, p, quotes);
    DivideRoundIsNearest(p.cost * SCALE, p.quantity);
    if a in quotes { DivideRoundIsNearest(quotes[a].price * p.quantity, SCALE); }
    if p.cost > 0 { DivideRoundIsNearest(h.pnl * WHOLE, p.cost); }
  }

  /** A row that tells the same is the same row. */
  lemma RowTellsOnce(base: string, p: Position, quote: Option<Quote>, g: Holding, h: Holding)
    requires p.quantity > 0 && RowTells(base, p, quote, g) && RowTells(base, p, quote, h)
    ensures g.(weight := h.weight, asset := h.asset) == h
  {
    NearestIsOne(g.avgCost.value, h.avgCost.value, p.cost * SCALE, p.quantity);
    if quote.Some? && quote.value.currency == base {
      NearestIsOne(g.value, h.value, quote.value.price * p.quantity, SCALE);
    }
    PercentTellsOnce(g.pnlPct, h.pnlPct, g.pnl, p.cost);
  }

  lemma PercentTellsOnce(a: Option<int>, b: Option<int>, part: int, whole: int)
    requires PercentTells(a, part, whole) && PercentTells(b, part, whole)
    ensures a == b
  {
    if whole > 0 { NearestIsOne(a.value, b.value, part * WHOLE, whole); }
  }

  lemma WeightTellsOnce(g: Holding, h: Holding, market: int)
    requires WeightTells(g, market) && WeightTells(h, market) && g.value == h.value
    ensures g.weight == h.weight
  {
    if market > 0 && h.value > 0 { NearestIsOne(g.weight.value, h.weight.value, h.value * WHOLE, market); }
  }

  lemma {:induction false} RowsAreOpenAssets(base: string, positions: map<AssetId, Position>, order: seq<AssetId>,
                                             quotes: map<AssetId, Quote>)
    requires forall a | a in order :: a in positions
    ensures var rows, assets := RowsOf(base, positions, order, quotes), OpenAssets(positions, order);
      && |rows| == |assets|
      && forall i | 0 <= i < |assets| ::
           && assets[i] in positions && positions[assets[i]].quantity > 0
           && rows[i] == Valued(base, assets[i], positions[assets[i]], quotes)
    decreases |order|
  {
    if order != [] {
      RowsAreOpenAssets(base, positions, order[..|order| - 1], quotes);
    }
  }

  lemma {:induction false} TallyFacts(rows: seq<Holding>)
    ensures TallyOf(rows).estimated <==> exists h :: h in rows && h.estimated
    ensures TallyOf(rows).fits <==> forall h | h in rows :: RowFits(h)
    decreases |rows|
  {
    if rows != [] {
      var front, last := rows[..|rows| - 1], rows[|rows| - 1];
      TallyFacts(front);
      assert rows == front + [last];
    }
  }

  /** What the rebuild computes, whether or not it fits. */
  function ModelOf(base: string, book: Book, order: seq<AssetId>, quotes: map<AssetId, Quote>): ReadModel
    requires forall a | a in order :: a in book.positions
  {
    var rows := RowsOf(base, book.positions, order, quotes);
    ReadModel(SummaryOf(book, rows), WithWeights(rows, TallyOf(rows).market))
  }

  lemma WeightedRowTells(base: string, a: AssetId, p: Position, quotes: map<AssetId, Quote>, market: int)
    requires p.quantity > 0
    ensures var row := Valued(base, a, p, quotes);
            var h := row.(weight := Weight(row.value, market));
            RowTells(base, p, QuoteFor(quotes, a), h) && WeightTells(h, market)
  {
    var row := Valued(base, a, p, quotes);
    ValuedTells(base, a, p, quotes, Weight(row.value, market));
    if market > 0 && row.value > 0 { DivideRoundIsNearest(row.value * WHOLE, market); }
  }

  lemma SummaryOfTells(book: Book, rows: seq<Holding>, weighted: seq<Holding>)
    requires weighted == WithWeights(rows, TallyOf(rows).market)
    ensures SummaryTells(book, weighted, Total(ValuesOf(weighted)), SummaryOf(book, rows))
    ensures Total(ValuesOf(weighted)) == TallyOf(rows).market
  {
    MarketIsTotal(rows);
    TallyFacts(rows);
    WeightsKeepValues(rows, TallyOf(rows).market);
    EstimatesKept(rows, weighted);
    var pnl := SummaryOf(book, rows).pnl;
    if book.invested > 0 { DivideRoundIsNearest(pnl * WHOLE, book.invested); }
  }

  lemma EstimatesKept(rows: seq<Holding>, weighted: seq<Holding>)
    requires |weighted| == |rows| && forall i | 0 <= i < |rows| :: weighted[i].estimated == rows[i].estimated
    ensures (exists h :: h in weighted && h.estimated) <==> exists h :: h in rows && h.estimated
  {
    if h :| h in rows && h.estimated {
      var i :| 0 <= i < |rows| && rows[i] == h;
      assert weighted[i] in weighted;
    }
    if h :| h in weighted && h.estimated {
      var i :| 0 <= i < |rows| && weighted[i] == h;
      assert rows[i] in rows;
    }
  }

  lemma RowsTell(base: string, positions: map<AssetId, Position>, order: seq<AssetId>, quotes: map<AssetId, Quote>,
                 market: int)
    requires forall a | a in order :: a in positions
    ensures RowsTold(base, positions, OpenAssets(positions, order), quotes, market,
                     WithWeights(RowsOf(base, positions, order, quotes), market))
  {
    var assets := OpenAssets(positions, order);
    RowsAreOpenAssets(base, positions, order, quotes);
    forall i | 0 <= i < |assets| ensures RowTold(base, positions, assets[i], quotes, market,
                                                 WithWeights(RowsOf(base, positions, order, quotes), market)[i]) {
      WeightedRowTells(base, assets[i], positions[assets[i]], quotes, market);
    }
  }

  lemma ModelOfTells(base: string, book: Book, order: seq<AssetId>, quotes: map<AssetId, Quote>)
    requires forall a | a in order :: a in book.positions
    ensures Tells(base, book, order, quotes, ModelOf(base, book, order, quotes))
  {
    var rows := RowsOf(base, book.positions, order, quotes);
    RowsTell(base, book.positions, order, quotes, TallyOf(rows).market);
    SummaryOfTells(book, rows, WithWeights(rows, TallyOf(rows).market));
  }

  lemma RowsToldOnce(base: string, positions: map<AssetId, Position>, order: seq<AssetId>, quotes: map<AssetId, Quote>,
                     rows: seq<Holding>, others: seq<Holding>)
    requires forall a | a in order :: a in positions
    requires RowsTold(base, positions, OpenAssets(positions, order), quotes, Total(ValuesOf(rows)), rows)
    requires RowsTold(base, positions, OpenAssets(positions, order), quotes, Total(ValuesOf(others)), others)
    ensures rows == others
  {
    var assets := OpenAssets(positions, order);
    RowsAreOpenAssets(base, positions, order, quotes);
    forall i | 0 <= i < |assets| ensures rows[i].(weight := others[i].weight) == others[i] {
      assert RowTold(base, positions, assets[i], quotes, Total(ValuesOf(rows)), rows[i]);
      assert RowTold(base, positions, assets[i], quotes, Total(ValuesOf(others)), others[i]);
      RowTellsOnce(base, positions[assets[i]], QuoteFor(quotes, assets[i]), rows[i], others[i]);
    }
    forall i | 0 <= i < |rows| ensures ValuesOf(rows)[i] == ValuesOf(others)[i] {
      assert rows[i].value == others[i].value;
    }
    assert ValuesOf(rows) == ValuesOf(others);
    forall i | 0 <= i < |assets| ensures rows[i] == others[i] {
      assert RowTold(base, positions, assets[i], quotes, Total(ValuesOf(rows)), rows[i]);
      assert RowTold(base, positions, assets[i], quotes, Total(ValuesOf(others)), others[i]);
      WeightTellsOnce(rows[i], others[i], Total(ValuesOf(rows)));
    }
  }

  /** A book has one such read model. */
  lemma TellsOnce(base: string, book: Book, order: seq<AssetId>, quotes: map<AssetId, Quote>,
                  m: ReadModel, n: ReadModel)
    requires forall a | a in order :: a in book.positions
    requires Tells(base, book, order, quotes, m) && Tells(base, book, order, quotes, n)
    ensures m == n
  {
    RowsToldOnce(base, book.positions, order, quotes, m.holdings, n.holdings);
    PercentTellsOnce(m.summary.pnlPct, n.summary.pnlPct, m.summary.pnl, book.invested);
  }

  lemma FitsIff(base: string, book: Book, order: seq<AssetId>, quotes: map<AssetId, Quote>)
    requires forall a | a in order :: a in book.positions
    ensures var m := ModelOf(base, book, order, quotes);
            Finalized(base, book, order, quotes) == if ModelFits(m) then Some(m) else None
  {
    var rows := RowsOf(base, book.positions, order, quotes);
    var weighted := WithWeights(rows, TallyOf(rows).market);
    TallyFacts(rows);
    if forall h | h in rows :: RowFits(h) {
      forall h | h in weighted ensures RowFits(h) {
        var i :| 0 <= i < |rows| && weighted[i] == h;
        assert RowFits(rows[i]);
      }
    }
    if forall h | h in weighted :: RowFits(h) {
      forall h | h in rows ensures RowFits(h) {
        var i :| 0 <= i < |rows| && rows[i] == h;
        assert RowFits(weighted[i]);
      }
    }
  }

  /** A rebuild succeeds with the read model that tells what the book and the
      quotes say, when its amounts fit and its total is not negative, and fails
      otherwise. */
  lemma FinalizedIff(base: string, book: Book, order: seq<AssetId>, quotes: map<AssetId, Quote>, m: ReadModel)
    requires forall a | a in order :: a in book.positions
    ensures Finalized(base, book, order, quotes) == Some(m) <==> Tells(base, book, order, quotes, m) && ModelFits(m)
  {
    ModelOfTells(base, book, order, quotes);
    FitsIff(base, book, order, quotes);
    if Tells(base, book, order, quotes, m) {
      TellsOnce(base, book, order, quotes, m, ModelOf(base, book, order, quotes));
    }
  }

  /** `PortfolioState::finalize`. */
  method Finalize(base: string, book: Book, order: seq<AssetId>, quotes: map<AssetId, Quote>)
      returns (result: Option<ReadModel>)
    requires Enumerates(order, book.positions)
    ensures result == Finalized(base, book, order, quotes)
    ensures forall m :: result == Some(m) <==> Tells(base, book, order, quotes, m) && ModelFits(m)
  {
    forall m ensures Finalized(base, book, order, quotes) == Some(m)
                     <==> Tells(base, book, order, quotes, m) && ModelFits(m) {
      FinalizedIff(base, book, order, quotes, m);
    }
    RowsStartWithoutWeights(base, quotes, book.positions, order);
    var rows, market, estimated, ok := CollectRows(ValuerOf(base, quotes), book.positions, order);
    if !ok {
      return None;
    }
    assert rows == RowsOf(base, book.positions, order, quotes);
    result := Summarize(book, rows, market, estimated);
  }

  // ----- What the rows of a rebuild say -----

  lemma RowValuesAreNonNegative(base: string, positions: map<AssetId, Position>, order: seq<AssetId>,
                                quotes: map<AssetId, Quote>)
    requires (forall a | a in order :: a in positions) && PositionsOk(positions) && QuotesOk(quotes)
    ensures NonNegative(ValuesOf(RowsOf(base, positions, order, quotes)))
    ensures forall h | h in RowsOf(base, positions, order, quotes) :: RowConstraintsHold(h)
  {
    var rows := RowsOf(base, positions, order, quotes);
    RowsComeFromPositions(base, positions, order, quotes);
    forall h | h in rows ensures RowConstraintsHold(h) {
      ValuedFitsTable(base, h.asset, positions[h.asset], quotes);
    }
    forall i | 0 <= i < |rows| ensures ValuesOf(rows)[i] >= 0 {
      assert rows[i] in rows;
    }
  }

  /** What a client may read off a row: the table accepts it, the API decodes
      it, it comes from one position and one set of quotes, and its value is the
      shown price times the quantity when it is available, its cost otherwise. */
  ghost predicate ShownSoundly(base: string, positions: map<AssetId, Position>, quotes: map<AssetId, Quote>,
                               h: Holding) {
    && RowConstraintsHold(h) && QualityOf(h).Some?
    && RowFrom(base, positions, quotes, h)
    && var q := QualityOf(h).value;
       if q.available then q.price.Some? && h.value == PriceTimesQuantity(q.price.value, h.quantity)
       else h.value == h.cost
  }

  lemma WeightedRowIsSound(base: string, positions: map<AssetId, Position>, quotes: map<AssetId, Quote>, row: Holding,
                           weight: Option<int>)
    requires RowConstraintsHold(row) && RowFrom(base, positions, quotes, row)
    requires weight.Some? ==> 0 <= weight.value <= WHOLE
    ensures ShownSoundly(base, positions, quotes, row.(weight := weight))
  {
    TableRowsDecode(row.(weight := weight));
  }

  lemma AllRowsAreSound(base: string, positions: map<AssetId, Position>, order: seq<AssetId>,
                        quotes: map<AssetId, Quote>)
    requires (forall a | a in order :: a in positions) && PositionsOk(positions) && QuotesOk(quotes)
    ensures var rows := RowsOf(base, positions, order, quotes);
            forall i | 0 <= i < |rows| ::
              ShownSoundly(base, positions, quotes, WithWeights(rows, Total(ValuesOf(rows)))[i])
  {
    var rows := RowsOf(base, positions, order, quotes);
    var values := ValuesOf(rows);
    RowsComeFromPositions(base, positions, order, quotes);
    RowValuesAreNonNegative(base, positions, order, quotes);
    forall i | 0 <= i < |rows| ensures ShownSoundly(base, positions, quotes, WithWeights(rows, Total(values))[i]) {
      assert rows[i] in rows;
      WeightInRange(values, i);
      WeightedRowIsSound(base, positions, quotes, rows[i], Weight(rows[i].value, Total(values)));
    }
  }

  /** Weights change no value. */
  lemma WeightsKeepValues(rows: seq<Holding>, total: int)
    ensures ValuesOf(WithWeights(rows, total)) == ValuesOf(rows)
  {
  }

  lemma FinalizedFacts(base: string, book: Book, order: seq<AssetId>, quotes: map<AssetId, Quote>, rows: seq<Holding>,
                       model: ReadModel)
    requires (forall a | a in order :: a in book.positions) && Finalized(base, book, order, quotes) == Some(model)
    requires rows == RowsOf(base, book.positions, order, quotes)
    ensures model.holdings == WithWeights(rows, Total(ValuesOf(rows)))
    ensures model.summary.totalValue == book.cash + Total(ValuesOf(model.holdings)) >= 0
  {
    MarketIsTotal(rows);
    WeightsKeepValues(rows, Total(ValuesOf(rows)));
  }

  lemma FinalizedRowsAreSound(base: string, book: Book, order: seq<AssetId>, quotes: map<AssetId, Quote>,
                              model: ReadModel)
    requires PositionsOk(book.positions) && QuotesOk(quotes)
    requires (forall a | a in order :: a in book.positions) && Finalized(base, book, order, quotes) == Some(model)
    ensures forall h | h in model.holdings :: ShownSoundly(base, book.positions, quotes, h)
    ensures model.summary.totalValue == book.cash + Total(ValuesOf(model.holdings)) >= 0
  {
    FinalizedFacts(base, book, order, quotes, RowsOf(base, book.positions, order, quotes), model);
    AllRowsAreSound(base, book.positions, order, quotes);
  }

  lemma ReplayedPositionsOk(base: string, events: seq<Event>, book: Book)
    requires LedgerOk(events) && Replayed(base, events) == Some(book)
    ensures PositionsOk(book.positions)
  {
    ReplayIffNeverShort(base, events);
  }

  /** From ledger to API: every ledger the database accepts that replays and is
      finalised gives sound rows, and the total is cash plus the shown values. */
  lemma RebuiltRowsAreSound(base: string, events: seq<Event>, order: seq<AssetId>, quotes: map<AssetId, Quote>,
                            book: Book, model: ReadModel)
    requires LedgerOk(events) && QuotesOk(quotes) && Replayed(base, events) == Some(book)
    requires Enumerates(order, book.positions) && Finalized(base, book, order, quotes) == Some(model)
    ensures forall h | h in model.holdings :: ShownSoundly(base, book.positions, quotes, h)
    ensures model.summary.totalValue == book.cash + Total(ValuesOf(model.holdings)) >= 0
  {
    ReplayedPositionsOk(base, events, book);
    FinalizedRowsAreSound(base, book, order, quotes, model);
  }

  lemma RowOfAsset(rows: seq<Holding>, total: int, a: AssetId)
    ensures (exists h :: h in WithWeights(rows, total) && h.asset == a) <==> exists h :: h in rows && h.asset == a
  {
    var weighted := WithWeights(rows, total);
    if exists h :: h in rows && h.asset == a {
      var i :| 0 <= i < |rows| && rows[i].asset == a;
      assert weighted[i] in weighted;
    }
    if exists h :: h in weighted && h.asset == a {
      var i :| 0 <= i < |rows| && weighted[i].asset == a;
      assert rows[i] in rows;
    }
  }

  /** The open positions are shown, and nothing else. */
  lemma ExactlyOpenPositionsAreShown(base: string, book: Book, order: seq<AssetId>, quotes: map<AssetId, Quote>,
                                     model: ReadModel, a: AssetId)
    requires Enumerates(order, book.positions) && Finalized(base, book, order, quotes) == Some(model)
    ensures (exists h :: h in model.holdings && h.asset == a) <==> a in book.positions && book.positions[a].quantity > 0
  {
    var rows := RowsOf(base, book.positions, order, quotes);
    FinalizedFacts(base, book, order, quotes, rows, model);
    RowOfAsset(rows, Total(ValuesOf(rows)), a);
    RowsComeFromPositions(base, book.positions, order, quotes);
  }
}
