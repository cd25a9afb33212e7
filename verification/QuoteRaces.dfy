/** Quote updates and rebuilds that interleave: a rebuild reads the ledger and
    the quotes, and installs its rows in a later transaction; the API reads the
    installed rows and never the quotes. */
module QuoteRaces {
  import opened Ledger
  import opened Replay
  import opened ReplayLaws
  import opened Valuation
  import opened Rebuild

  type RunId = nat

  /** What one rebuild read and what it made of it; a history field. */
  datatype Made = Made(portfolio: PortfolioId, book: Book, quotes: map<AssetId, Quote>, model: ReadModel)

  /** `bases` are the base currencies of the portfolios; they never change. */
  datatype Sys = Sys(
    bases: map<PortfolioId, string>,
    quotes: map<AssetId, Quote>,
    runs: map<RunId, Made>,
    store: map<PortfolioId, Made>)

  datatype Step =
    | SetQuote(asset: AssetId, quote: Quote)
    | DropQuote(asset: AssetId)
    | ReadInputs(run: RunId, portfolio: PortfolioId, events: seq<Event>, order: seq<AssetId>)
    | Install(run: RunId)
    | Crash(run: RunId)

  /** The ledger read is one the database accepts, and the rebuild succeeds. */
  ghost predicate Rebuildable(s: Sys, p: PortfolioId, events: seq<Event>, order: seq<AssetId>) {
    && p in s.bases && LedgerOk(events)
    && Replayed(s.bases[p], events).Some?
    && Enumerates(order, Replayed(s.bases[p], events).value.positions)
    && Finalized(s.bases[p], Replayed(s.bases[p], events).value, order, s.quotes).Some?
  }

  ghost function Exec(s: Sys, step: Step): Sys {
    match step
    case SetQuote(a, q) => if q.price >= 0 then s.(quotes := s.quotes[a := q]) else s
    case DropQuote(a) => s.(quotes := s.quotes - {a})
    case ReadInputs(run, p, events, order) =>
      if run in s.runs || !Rebuildable(s, p, events, order) then s
      else
        var book := Replayed(s.bases[p], events).value;
        s.(runs := s.runs[run := Made(p, book, s.quotes, Finalized(s.bases[p], book, order, s.quotes).value)])
    case Install(run) =>
      if run !in s.runs then s
      else s.(store := s.store[s.runs[run].portfolio := s.runs[run]], runs := s.runs - {run})
    case Crash(run) => s.(runs := s.runs - {run})
  }

  ghost function RunAll(s: Sys, steps: seq<Step>): Sys
    decreases |steps|
  {
    if steps == [] then s else RunAll(Exec(s, steps[0]), steps[1..])
  }

  function Init(bases: map<PortfolioId, string>): Sys { Sys(bases, map[], map[], map[]) }

  // ----- No torn valuation -----

  /** Every row of the model comes from the book and the quotes of its own
      rebuild, and the total is the sum of these rows and the cash. */
  ghost predicate OneRebuild(bases: map<PortfolioId, string>, m: Made) {
    && m.portfolio in bases
    && (forall h | h in m.model.holdings :: ShownSoundly(bases[m.portfolio], m.book.positions, m.quotes, h))
    && m.model.summary.totalValue == m.book.cash + Total(ValuesOf(m.model.holdings))
  }

  ghost predicate Inv(s: Sys) {
    && QuotesOk(s.quotes)
    && (forall w {:trigger OneRebuild(s.bases, s.runs[w])} | w in s.runs :: OneRebuild(s.bases, s.runs[w]))
    && (forall p {:trigger OneRebuild(s.bases, s.store[p])} | p in s.store ::
        OneRebuild(s.bases, s.store[p]) && s.store[p].portfolio == p)
  }

  lemma StepKeepsInv(s: Sys, step: Step)
    requires Inv(s)
    ensures Inv(Exec(s, step)) && Exec(s, step).bases == s.bases
  {
    var s' := Exec(s, step);
    if step.ReadInputs? && s' != s {
      var p := step.portfolio;
      var book := Replayed(s.bases[p], step.events).value;
      RebuiltRowsAreSound(s.bases[p], step.events, step.order, s.quotes, book,
                          Finalized(s.bases[p], book, step.order, s.quotes).value);
      assert OneRebuild(s.bases, s'.runs[step.run]);
    }
    forall w | w in s'.runs ensures OneRebuild(s'.bases, s'.runs[w]) {
      if !(step.ReadInputs? && w == step.run) { assert OneRebuild(s.bases, s.runs[w]); }
    }
    forall p | p in s'.store ensures OneRebuild(s'.bases, s'.store[p]) && s'.store[p].portfolio == p {
      if p in s.store { assert OneRebuild(s.bases, s.store[p]); }
      if step.Install? && step.run in s.runs { assert OneRebuild(s.bases, s.runs[step.run]); }
    }
  }

  lemma {:induction false} RunKeepsInv(s: Sys, steps: seq<Step>)
    requires Inv(s)
    ensures Inv(RunAll(s, steps)) && RunAll(s, steps).bases == s.bases
    decreases |steps|
  {
    if steps != [] {
      StepKeepsInv(s, steps[0]);
      RunKeepsInv(Exec(s, steps[0]), steps[1..]);
    }
  }

  /** Whatever quotes were written and however many rebuilds overlapped: what the
      API shows of a holding comes from one rebuild. All that is shown of a quote
      (price, currency, provider, times) belongs to the one quote that rebuild
      read for the asset; an available row is valued with it, any other at its
      cost; the total is the sum of the shown values and the cash of the same
      rebuild. */
  lemma NoTornValuation(bases: map<PortfolioId, string>, steps: seq<Step>, p: PortfolioId, h: Holding)
    requires p in RunAll(Init(bases), steps).store && h in RunAll(Init(bases), steps).store[p].model.holdings
    ensures var made := RunAll(Init(bases), steps).store[p];
      && made.portfolio == p && p in bases && QualityOf(h).Some?
      && made.model.summary.totalValue == made.book.cash + Total(ValuesOf(made.model.holdings))
      && var shown := QualityOf(h).value;
      && (shown.price.Some? || shown.currency.Some? || shown.provider.Some? || shown.asOf.Some?
          || shown.recordedAt.Some? ==>
            && h.asset in made.quotes
            && var q := made.quotes[h.asset];
               && shown.price == Some(q.price) && shown.currency == Some(q.currency) && shown.provider == q.provider
               && shown.asOf == Some(q.asOf) && shown.recordedAt == Some(q.recordedAt))
      && (shown.available <==> h.asset in made.quotes && made.quotes[h.asset].currency == bases[p])
      && h.value == (if shown.available then PriceTimesQuantity(made.quotes[h.asset].price, h.quantity) else h.cost)
      && (shown.available ==> Nearest(h.value, made.quotes[h.asset].price * h.quantity, SCALE))
      && (h.estimated <==> !shown.available)
  {
    RunKeepsInv(Init(bases), steps);
    var s := RunAll(Init(bases), steps);
    assert OneRebuild(s.bases, s.store[p]);
    assert ShownSoundly(bases[p], s.store[p].book.positions, s.store[p].quotes, h);
    if h.asset in s.store[p].quotes {
      DivideRoundIsNearest(s.store[p].quotes[h.asset].price * h.quantity, SCALE);
    }
  }

  /** Until the next install for a portfolio, no quote update, rebuild or crash
      changes what it shows. */
  lemma {:induction false} ShownUntilInstalled(s: Sys, steps: seq<Step>, p: PortfolioId)
    requires p in s.store && NeverInstalls(s, steps, p)
    ensures p in RunAll(s, steps).store && RunAll(s, steps).store[p] == s.store[p]
    decreases |steps|
  {
    if steps != [] {
      ShownUntilInstalled(Exec(s, steps[0]), steps[1..], p);
    }
  }

  ghost predicate NeverInstalls(s: Sys, steps: seq<Step>, p: PortfolioId)
    decreases |steps|
  {
    steps == []
    || (!(steps[0].Install? && steps[0].run in s.runs && s.runs[steps[0].run].portfolio == p)
        && NeverInstalls(Exec(s, steps[0]), steps[1..], p))
  }
}
