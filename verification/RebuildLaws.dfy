/** What the summary of a rebuild says of the ledger it came from. */
module RebuildLaws {
  import opened Ledger
  import opened Replay
  import opened ReplayLaws
  import opened CostLaws
  import opened Valuation
  import opened Rebuild

  // ----- The invested capital -----

  /** The invested capital never falls below zero. */
  lemma {:induction false} InvestedIsNonNegative(base: string, events: seq<Event>)
    requires LedgerOk(events) && Replayed(base, events).Some?
    ensures Replayed(base, events).value.invested >= 0
    decreases |events|
  {
    if events != [] {
      InvestedIsNonNegative(base, events[..|events| - 1]);
      ConvertedIsNonNegative(base, events[|events| - 1]);
    }
  }

  // ----- Costs of rows -----

  function SumCosts(positions: map<AssetId, Position>, order: seq<AssetId>): int
    requires forall a | a in order :: a in positions
  {
    if order == [] then 0
    else SumCosts(positions, order[..|order| - 1]) + positions[order[|order| - 1]].cost
  }

  lemma {:induction false} OthersDoNotCount(positions: map<AssetId, Position>, order: seq<AssetId>, a: AssetId)
    requires a !in order && forall b | b in order :: b in positions
    ensures forall b | b in order :: b in positions - {a}
    ensures SumCosts(positions - {a}, order) == SumCosts(positions, order)
    decreases |order|
  {
    if order != [] {
      OthersDoNotCount(positions, order[..|order| - 1], a);
    }
  }

  /** The total cost does not depend on the order of the positions. */
  lemma {:induction false} TotalCostInOrder(positions: map<AssetId, Position>, order: seq<AssetId>)
    requires Enumerates(order, positions)
    ensures SumCosts(positions, order) == TotalCost(positions)
    decreases |order|
  {
    if order == [] {
      assert positions == map[];
    } else {
      var front, a := order[..|order| - 1], order[|order| - 1];
      assert order == front + [a];
      assert a in order;
      OthersDoNotCount(positions, front, a);
      TotalCostInOrder(positions - {a}, front);
      TotalCostSplit(positions, a);
    }
  }

  /** What the holdings are worth above their cost. */
  function Appreciation(rows: seq<Holding>): int {
    if rows == [] then 0 else Appreciation(rows[..|rows| - 1]) + rows[|rows| - 1].value - rows[|rows| - 1].cost
  }

  /** Rows that show the costs of their positions are worth those costs and the
      appreciation; a closed position has no cost. */
  lemma {:induction false} ValueIsCostAndAppreciation(value: Valuer, positions: map<AssetId, Position>,
                                                      order: seq<AssetId>)
    requires PositionsOk(positions) && forall a | a in order :: a in positions
    requires forall a | a in order :: value(a, positions[a]).cost == positions[a].cost
    ensures var rows := RowsBy(value, positions, order);
            Total(ValuesOf(rows)) == SumCosts(positions, order) + Appreciation(rows)
    decreases |order|
  {
    if order != [] {
      var front, a := order[..|order| - 1], order[|order| - 1];
      var rows := RowsBy(value, positions, order);
      ValueIsCostAndAppreciation(value, positions, front);
      assert PositionOk(positions[a]);
      if positions[a].quantity > 0 {
        assert rows[..|rows| - 1] == RowsBy(value, positions, front);
        assert ValuesOf(rows)[..|rows| - 1] == ValuesOf(rows[..|rows| - 1]);
      }
    }
  }

  lemma ValuedAtCost(base: string, positions: map<AssetId, Position>, order: seq<AssetId>, quotes: map<AssetId, Quote>)
    requires PositionsOk(positions) && forall a | a in order :: a in positions
    ensures var rows := RowsOf(base, positions, order, quotes);
            Total(ValuesOf(rows)) == SumCosts(positions, order) + Appreciation(rows)
  {
    ValueIsCostAndAppreciation(ValuerOf(base, quotes), positions, order);
  }

  lemma {:induction false} WeightsKeepAppreciation(rows: seq<Holding>, total: int)
    ensures Appreciation(WithWeights(rows, total)) == Appreciation(rows)
    decreases |rows|
  {
    if rows != [] {
      var front := rows[..|rows| - 1];
      WeightsKeepAppreciation(front, total);
      assert WithWeights(rows, total)[..|rows| - 1] == WithWeights(front, total);
    }
  }

  // ----- The summary -----

  lemma ProfitOfModel(base: string, events: seq<Event>, order: seq<AssetId>, quotes: map<AssetId, Quote>, book: Book,
                      m: ReadModel)
    requires LedgerOk(events) && Replayed(base, events) == Some(book)
    requires Enumerates(order, book.positions) && Finalized(base, book, order, quotes) == Some(m)
    ensures m.summary.pnl == TotalGain(base, events) + Appreciation(m.holdings)
  {
    var rows := RowsOf(base, book.positions, order, quotes);
    ReplayedPositionsOk(base, events, book);
    FinalizedFacts(base, book, order, quotes, rows, m);
    FinalizedIff(base, book, order, quotes, m);
    ValuedAtCost(base, book.positions, order, quotes);
    TotalCostInOrder(book.positions, order);
    WeightsKeepAppreciation(rows, Total(ValuesOf(rows)));
    WeightsKeepValues(rows, Total(ValuesOf(rows)));
    ProfitIsTotalGain(base, events);
  }

  /** What the summary of a rebuilt portfolio says: the cash and the invested
      capital of the ledger; as profit, what the operations gained and what the
      holdings are worth above their cost; active, unless there is neither cash
      nor an open position; estimated, exactly when a shown value is or an
      operation was applied on an assumption. */
  lemma SummaryTellsTheLedger(base: string, events: seq<Event>, order: seq<AssetId>, quotes: map<AssetId, Quote>,
                              book: Book, m: ReadModel)
    requires LedgerOk(events) && Replayed(base, events) == Some(book)
    requires Enumerates(order, book.positions) && Finalized(base, book, order, quotes) == Some(m)
    ensures m.summary.cash == book.cash == CashIn(base, events) - CashOut(base, events)
    ensures m.summary.invested == book.invested >= 0
    ensures m.summary.pnl == m.summary.totalValue - book.invested == TotalGain(base, events) + Appreciation(m.holdings)
    ensures PercentTells(m.summary.pnlPct, m.summary.pnl, book.invested)
    ensures m.summary.active <==>
              m.summary.cash != 0 || exists a :: a in book.positions && book.positions[a].quantity > 0
    ensures m.summary.estimated <==>
              (exists h :: h in m.holdings && h.estimated)
              || exists i :: 0 <= i < |events| && Approximate(base, events[i])
  {
    FinalizedIff(base, book, order, quotes, m);
    InvestedIsNonNegative(base, events);
    CashIsInLessOut(base, events);
    ProfitOfModel(base, events, order, quotes, book, m);
    ActiveIffOpen(base, book, order, quotes, m);
  }

  lemma ActiveIffOpen(base: string, book: Book, order: seq<AssetId>, quotes: map<AssetId, Quote>, m: ReadModel)
    requires Enumerates(order, book.positions) && Finalized(base, book, order, quotes) == Some(m)
    ensures m.holdings != [] <==> exists a :: a in book.positions && book.positions[a].quantity > 0
  {
    if m.holdings != [] {
      ExactlyOpenPositionsAreShown(base, book, order, quotes, m, m.holdings[0].asset);
      assert m.holdings[0] in m.holdings;
    }
    if a :| a in book.positions && book.positions[a].quantity > 0 {
      ExactlyOpenPositionsAreShown(base, book, order, quotes, m, a);
    }
  }

  /** A percentage has the sign of what it measures, and no profit is none. */
  lemma PercentHasSign(pct: Option<int>, part: int, whole: int)
    requires whole > 0 && PercentTells(pct, part, whole)
    ensures part >= 0 ==> pct.value >= 0
    ensures part <= 0 ==> pct.value <= 0
    ensures part == whole ==> pct.value == WHOLE
  {
    MultiplesApart(0, pct.value, whole);
    MultiplesApart(pct.value, 0, whole);
    MultiplesApart(WHOLE, pct.value, whole);
    MultiplesApart(pct.value, WHOLE, whole);
  }
}
