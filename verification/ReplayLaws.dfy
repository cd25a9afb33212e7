/** What every replay keeps: quantities are the sum of the moves, costs are
    conserved, and money that only moves makes no profit. */
module ReplayLaws {
  import opened Ledger
  import opened Replay

  // ----- Rounding -----

  /** Rounding misses by at most half of the divisor, and never leaves an
      interval with whole ends. */
  lemma DivideRoundFacts(n: int, d: int)
    requires n >= 0 && d > 0
    ensures DivideRound(n, d) >= 0
    ensures -d <= 2 * (DivideRound(n, d) * d - n) <= d
  {
    var q, r := n / d, n % d;
    assert n == q * d + r;
    if 2 * r >= d {
      assert (q + 1) * d == q * d + d;
    }
  }

  /** `r` is the whole number nearest to `n / d`; of two equally near ones it is
      the one away from zero. */
  predicate Nearest(r: int, n: int, d: int) {
    if n >= 0 then -d < 2 * (r * d - n) <= d else -d <= 2 * (r * d - n) < d
  }

  lemma DivideRoundIsNearest(n: int, d: int)
    requires d > 0
    ensures Nearest(DivideRound(n, d), n, d)
  {
    var m := if n >= 0 then n else -n;
    var q, r := m / d, m % d;
    assert m == q * d + r;
    assert (q + 1) * d == q * d + d;
    assert -q * d == -(q * d) && -(q + 1) * d == -(q * d) - d;
  }

  /** There is only one such number. */
  lemma NearestIsOne(r: int, s: int, n: int, d: int)
    requires d > 0 && Nearest(r, n, d) && Nearest(s, n, d)
    ensures r == s
  {
    MultiplesApart(r, s, d);
    MultiplesApart(s, r, d);
  }

  lemma MultiplesApart(r: int, s: int, d: int)
    requires d > 0
    ensures r > s ==> r * d >= s * d + d
  {
    if r > s {
      assert (r - s - 1) * d >= 0;
      assert (r - s - 1) * d == r * d - s * d - d;
    }
  }

  lemma DivideRoundBelow(n: int, d: int, c: int)
    requires n >= 0 && d > 0 && n <= c * d
    ensures DivideRound(n, d) <= c
  {
    var q, r := n / d, n % d;
    assert n == q * d + r;
    if q >= c {
      assert q * d >= c * d;
    }
  }

  /** A partial reduction releases between nothing and the whole cost. */
  lemma ReleasedIsPart(p: Position, quantity: int)
    requires p.cost >= 0 && 0 < quantity <= p.quantity
    ensures 0 <= Released(p, quantity) <= p.cost
  {
    if quantity < p.quantity {
      assert 0 <= p.cost * quantity <= p.cost * p.quantity;
      DivideRoundFacts(p.cost * quantity, p.quantity);
      DivideRoundBelow(p.cost * quantity, p.quantity, p.cost);
    }
  }

  // ----- Books stay sound -----

  predicate PositionOk(p: Position) {
    p.quantity >= 0 && p.cost >= 0 && (p.quantity == 0 ==> p.cost == 0)
  }

  ghost predicate PositionsOk(positions: map<AssetId, Position>) {
    forall a {:trigger positions[a]} | a in positions :: PositionOk(positions[a])
  }

  lemma IncreaseKeeps(positions: map<AssetId, Position>, a: AssetId, quantity: int, cost: int)
    requires PositionsOk(positions) && quantity > 0
    ensures PositionsOk(Increase(positions, a, quantity, cost))
  {
  }

  lemma ReduceKeeps(positions: map<AssetId, Position>, a: AssetId, quantity: int)
    requires PositionsOk(positions) && quantity > 0 && CanReduce(positions, a, quantity)
    ensures PositionsOk(Reduce(positions, a, quantity))
    ensures Reduce(positions, a, quantity)[a].cost == positions[a].cost - Released(positions[a], quantity)
    ensures 0 <= Released(positions[a], quantity)
  {
    ReleasedIsPart(positions[a], quantity);
  }

  /** What an operation is worth in the base currency: its cash when that is its
      currency, the cash times the rate, rounded, when it has a rate, and nothing
      otherwise. */
  ghost predicate WorthInBase(base: string, e: Event, amount: int) {
    if e.currency == base then amount == e.cash
    else if e.rate.Some? then Nearest(amount, e.cash * e.rate.value, SCALE)
    else amount == 0
  }

  lemma ConvertedIsWorth(base: string, e: Event)
    ensures WorthInBase(base, e, Converted(base, e))
    ensures forall amount | WorthInBase(base, e, amount) :: amount == Converted(base, e)
  {
    if e.currency != base && e.rate.Some? {
      var n := e.cash * e.rate.value;
      DivideRoundIsNearest(n, SCALE);
      assert e.cash == 0 ==> n == 0;
      forall amount | WorthInBase(base, e, amount) ensures amount == Converted(base, e) {
        NearestIsOne(amount, Converted(base, e), n, SCALE);
      }
    }
  }

  lemma ConvertedIsNonNegative(base: string, e: Event)
    requires EventOk(e)
    ensures Converted(base, e) >= 0
  {
    if e.rate.Some? {
      assert e.cash * e.rate.value >= 0;
      DivideRoundFacts(e.cash * e.rate.value, SCALE);
    }
  }

  predicate Feasible(base: string, book: Book, e: Event) { Apply(base, book, e).Some? }

  lemma ApplyKeepsPositions(base: string, book: Book, e: Event)
    requires PositionsOk(book.positions) && EventOk(e) && Feasible(base, book, e)
    ensures PositionsOk(Apply(base, book, e).value.positions)
  {
    var c := Converted(base, e);
    var positions := book.positions;
    match e.opType
    case Sell => ReduceKeeps(positions, e.asset.value, e.quantity.value);
    case TransferOut =>
      if e.asset.Some? && e.quantity.Some? { ReduceKeeps(positions, e.asset.value, e.quantity.value); }
    case SymbolChange =>
      ReduceKeeps(positions, e.asset.value, e.quantity.value);
      IncreaseKeeps(Reduce(positions, e.asset.value, e.quantity.value), e.related.value, e.quantity.value,
                    Released(positions[e.asset.value], e.quantity.value));
    case Adjustment =>
      var added :=
        if e.asset.Some? && e.quantity.Some? then Increase(positions, e.asset.value, e.quantity.value, c)
        else positions;
      if e.asset.Some? && e.quantity.Some? { IncreaseKeeps(positions, e.asset.value, e.quantity.value, c); }
      if e.related.Some? && e.relatedQuantity.Some? { ReduceKeeps(added, e.related.value, e.relatedQuantity.value); }
    case _ =>
  }

  ghost predicate LedgerOk(events: seq<Event>) {
    forall i | 0 <= i < |events| :: EventOk(events[i])
  }

  // ----- Quantities are the sum of the moves -----

  datatype Move = In(asset: AssetId, quantity: int) | Out(asset: AssetId, quantity: int)

  function InMove(a: Option<AssetId>, q: Option<int>): seq<Move> {
    if a.Some? && q.Some? then [In(a.value, q.value)] else []
  }

  function OutMove(a: Option<AssetId>, q: Option<int>): seq<Move> {
    if a.Some? && q.Some? then [Out(a.value, q.value)] else []
  }

  /** What an operation moves, in order; `None` when it lacks a field it needs. */
  function MovesOf(e: Event): Option<seq<Move>> {
    match e.opType
    case Buy => if e.asset.Some? && e.quantity.Some? then Some(InMove(e.asset, e.quantity)) else None
    case Sell => if e.asset.Some? && e.quantity.Some? then Some(OutMove(e.asset, e.quantity)) else None
    case Split => if e.asset.Some? && e.quantity.Some? then Some(InMove(e.asset, e.quantity)) else None
    case SpinOff =>
      if e.related.Some? && e.relatedQuantity.Some? then Some(InMove(e.related, e.relatedQuantity)) else None
    case SymbolChange =>
      if e.asset.Some? && e.related.Some? && e.quantity.Some?
      then Some(OutMove(e.asset, e.quantity) + InMove(e.related, e.quantity)) else None
    case TransferIn => Some(InMove(e.asset, e.quantity))
    case TransferOut => Some(OutMove(e.asset, e.quantity))
    case Adjustment => Some(InMove(e.asset, e.quantity) + OutMove(e.related, e.relatedQuantity))
    case _ => Some([])
  }

  function Signed(m: Move, a: AssetId): int {
    if m.asset != a then 0 else if m.In? then m.quantity else -m.quantity
  }

  /** Inflows minus outflows of an asset. */
  function Net(moves: seq<Move>, a: AssetId): int {
    if moves == [] then 0 else Net(moves[..|moves| - 1], a) + Signed(moves[|moves| - 1], a)
  }

  /** No move takes more than is there. */
  ghost predicate NeverShort(moves: seq<Move>) {
    forall i {:trigger moves[i]} | 0 <= i < |moves| && moves[i].Out? ::
        Net(moves[..i], moves[i].asset) >= moves[i].quantity
  }

  function AllMoves(events: seq<Event>): Option<seq<Move>>
    decreases |events|
  {
    if events == [] then Some([])
    else
      var front, last := AllMoves(events[..|events| - 1]), MovesOf(events[|events| - 1]);
      if front.Some? && last.Some? then Some(front.value + last.value) else None
  }

  function QuantityOf(positions: map<AssetId, Position>, a: AssetId): int {
    if a in positions then positions[a].quantity else 0
  }

  lemma NetSnoc(moves: seq<Move>, m: Move, a: AssetId)
    ensures Net(moves + [m], a) == Net(moves, a) + Signed(m, a)
  {
    assert (moves + [m])[..|moves|] == moves;
  }

  lemma NeverShortSnoc(moves: seq<Move>, m: Move)
    ensures NeverShort(moves + [m]) <==> NeverShort(moves) && (m.Out? ==> Net(moves, m.asset) >= m.quantity)
  {
    var all := moves + [m];
    assert all[..|moves|] == moves && all[|moves|] == m;
    forall i | 0 <= i < |moves| ensures all[i] == moves[i] && all[..i] == moves[..i] {}
    if NeverShort(all) {
      forall i | 0 <= i < |moves| && moves[i].Out? ensures Net(moves[..i], moves[i].asset) >= moves[i].quantity {
        assert all[i].Out?;
      }
    }
  }

  /** The positions hold what the moves left. */
  ghost predicate Tallies(positions: map<AssetId, Position>, moves: seq<Move>) {
    forall a :: QuantityOf(positions, a) == Net(moves, a)
  }

  lemma TallyIn(positions: map<AssetId, Position>, moves: seq<Move>, a: AssetId, quantity: int, cost: int)
    requires Tallies(positions, moves) && NeverShort(moves)
    ensures Tallies(Increase(positions, a, quantity, cost), moves + [In(a, quantity)])
            && NeverShort(moves + [In(a, quantity)])
  {
    NeverShortSnoc(moves, In(a, quantity));
    forall x ensures QuantityOf(Increase(positions, a, quantity, cost), x) == Net(moves + [In(a, quantity)], x) {
      NetSnoc(moves, In(a, quantity), x);
    }
  }

  lemma TallyOut(positions: map<AssetId, Position>, moves: seq<Move>, a: AssetId, quantity: int)
    requires Tallies(positions, moves) && NeverShort(moves) && quantity > 0
    ensures CanReduce(positions, a, quantity) <==> NeverShort(moves + [Out(a, quantity)])
    ensures CanReduce(positions, a, quantity) ==> Tallies(Reduce(positions, a, quantity), moves + [Out(a, quantity)])
  {
    assert QuantityOf(positions, a) == Net(moves, a);
    NeverShortSnoc(moves, Out(a, quantity));
    if CanReduce(positions, a, quantity) {
      forall x ensures QuantityOf(Reduce(positions, a, quantity), x) == Net(moves + [Out(a, quantity)], x) {
        NetSnoc(moves, Out(a, quantity), x);
      }
    }
  }

  lemma ApplyTallies(base: string, book: Book, e: Event, moves: seq<Move>)
    requires Tallies(book.positions, moves) && NeverShort(moves) && EventOk(e)
    ensures Feasible(base, book, e) <==> MovesOf(e).Some? && NeverShort(moves + MovesOf(e).value)
    ensures Feasible(base, book, e) ==> Tallies(Apply(base, book, e).value.positions, moves + MovesOf(e).value)
  {
    assert moves + [] == moves;
    var positions := book.positions;
    var c := Converted(base, e);
    if e.asset.Some? && e.quantity.Some? {
      var a, q := e.asset.value, e.quantity.value;
      TallyIn(positions, moves, a, q, c);
      TallyIn(positions, moves, a, q, 0);
      TallyOut(positions, moves, a, q);
    }
    match e.opType
    case SpinOff =>
      if MovesOf(e).Some? { TallyIn(positions, moves, e.related.value, e.relatedQuantity.value, 0); }
    case SymbolChange =>
      if MovesOf(e).Some? { SymbolChangeTallies(positions, moves, e.asset.value, e.related.value, e.quantity.value); }
    case Adjustment =>
      AdjustmentTallies(positions, moves, e, c);
    case _ =>
  }

  lemma SymbolChangeTallies(positions: map<AssetId, Position>, moves: seq<Move>, a: AssetId, b: AssetId, quantity: int)
    requires Tallies(positions, moves) && NeverShort(moves) && quantity > 0
    ensures var all := moves + ([Out(a, quantity)] + [In(b, quantity)]);
      && (CanReduce(positions, a, quantity) <==> NeverShort(all))
      && (CanReduce(positions, a, quantity) ==>
            Tallies(Increase(Reduce(positions, a, quantity), b, quantity, Released(positions[a], quantity)), all))
  {
    TallyOut(positions, moves, a, quantity);
    assert moves + ([Out(a, quantity)] + [In(b, quantity)]) == (moves + [Out(a, quantity)]) + [In(b, quantity)];
    NeverShortSnoc(moves + [Out(a, quantity)], In(b, quantity));
    if CanReduce(positions, a, quantity) {
      TallyIn(Reduce(positions, a, quantity), moves + [Out(a, quantity)], b, quantity,
              Released(positions[a], quantity));
    }
  }

  lemma AdjustmentTallies(positions: map<AssetId, Position>, moves: seq<Move>, e: Event, c: int)
    requires Tallies(positions, moves) && NeverShort(moves) && EventOk(e)
    ensures var added :=
              if e.asset.Some? && e.quantity.Some? then Increase(positions, e.asset.value, e.quantity.value, c)
              else positions;
            var all := moves + (InMove(e.asset, e.quantity) + OutMove(e.related, e.relatedQuantity));
            if e.related.Some? && e.relatedQuantity.Some? then
              && (CanReduce(added, e.related.value, e.relatedQuantity.value) <==> NeverShort(all))
              && (CanReduce(added, e.related.value, e.relatedQuantity.value) ==>
                    Tallies(Reduce(added, e.related.value, e.relatedQuantity.value), all))
            else Tallies(added, all) && NeverShort(all)
  {
    var added :=
      if e.asset.Some? && e.quantity.Some? then Increase(positions, e.asset.value, e.quantity.value, c)
      else positions;
    var first := moves + InMove(e.asset, e.quantity);
    assert moves + (InMove(e.asset, e.quantity) + OutMove(e.related, e.relatedQuantity))
        == first + OutMove(e.related, e.relatedQuantity);
    assert first + [] == first && moves + [] == moves;
    if e.asset.Some? && e.quantity.Some? {
      TallyIn(positions, moves, e.asset.value, e.quantity.value, c);
    }
    if e.related.Some? && e.relatedQuantity.Some? {
      TallyOut(added, first, e.related.value, e.relatedQuantity.value);
    }
  }

  lemma NeverShortPrefix(moves: seq<Move>, more: seq<Move>)
    requires NeverShort(moves + more)
    ensures NeverShort(moves)
  {
    var all := moves + more;
    forall i | 0 <= i < |moves| && moves[i].Out? ensures Net(moves[..i], moves[i].asset) >= moves[i].quantity {
      assert all[i] == moves[i] && all[..i] == moves[..i];
    }
  }

  /** A ledger replays exactly when every operation has the fields it needs and
      no move takes more of an asset than earlier moves brought; the book then
      holds, of every asset, inflows minus outflows, and no position has a
      negative quantity or cost or a cost without a quantity. */
  lemma {:induction false} ReplayIffNeverShort(base: string, events: seq<Event>)
    requires LedgerOk(events)
    ensures Replayed(base, events).Some? <==> AllMoves(events).Some? && NeverShort(AllMoves(events).value)
    ensures Replayed(base, events).Some? ==>
              && Tallies(Replayed(base, events).value.positions, AllMoves(events).value)
              && PositionsOk(Replayed(base, events).value.positions)
    decreases |events|
  {
    if events != [] {
      var front, last := events[..|events| - 1], events[|events| - 1];
      ReplayIffNeverShort(base, front);
      if AllMoves(front).Some? {
        if Replayed(base, front).Some? {
          ApplyTallies(base, Replayed(base, front).value, last, AllMoves(front).value);
          if Feasible(base, Replayed(base, front).value, last) {
            ApplyKeepsPositions(base, Replayed(base, front).value, last);
          }
        } else if MovesOf(last).Some? && NeverShort(AllMoves(front).value + MovesOf(last).value) {
          NeverShortPrefix(AllMoves(front).value, MovesOf(last).value);
        }
      }
    }
  }

  // ----- Cash and the estimated flag -----

  /** Operations that bring cash in, and those that take it out. */
  predicate BringsCash(e: Event) { e.opType in {Deposit, Sell, Dividend, Interest, TransferIn, Adjustment} }

  predicate TakesCash(e: Event) { e.opType in {Withdrawal, Buy, Fee, Tax, TransferOut} }

  function CashIn(base: string, events: seq<Event>): int {
    if events == [] then 0
    else
      var last := events[|events| - 1];
      CashIn(base, events[..|events| - 1]) + (if BringsCash(last) then Converted(base, last) else 0)
  }

  function CashOut(base: string, events: seq<Event>): int {
    if events == [] then 0
    else
      var last := events[|events| - 1];
      CashOut(base, events[..|events| - 1]) + (if TakesCash(last) then Converted(base, last) else 0)
  }

  /** The figures of the operation rest on an assumption of the replay. */
  predicate Approximate(base: string, e: Event) {
    (e.currency != base && e.cash != 0 && e.rate.None?) || e.opType in {Split, SpinOff}
  }

  lemma ApplyCash(base: string, book: Book, e: Event, next: Book)
    requires EventOk(e) && Apply(base, book, e) == Some(next)
    ensures next.cash == book.cash + (if BringsCash(e) then Converted(base, e) else 0)
                                   - (if TakesCash(e) then Converted(base, e) else 0)
    ensures next.estimated <==> book.estimated || Approximate(base, e)
  {
    ConvertedIsNonNegative(base, e);
  }

  /** The cash of a ledger is what came in less what went out, in the base
      currency; and the book is marked as estimated exactly when an operation
      lacks a rate, or is a split or a spin-off. */
  lemma {:induction false} CashIsInLessOut(base: string, events: seq<Event>)
    requires LedgerOk(events) && Replayed(base, events).Some?
    ensures Replayed(base, events).value.cash == CashIn(base, events) - CashOut(base, events)
    ensures Replayed(base, events).value.estimated <==> exists i :: 0 <= i < |events| && Approximate(base, events[i])
    decreases |events|
  {
    if events != [] {
      var front, last := events[..|events| - 1], events[|events| - 1];
      assert events == front + [last];
      CashIsInLessOut(base, front);
      ApplyCash(base, Replayed(base, front).value, last, Replayed(base, events).value);
      if exists i :: 0 <= i < |front| && Approximate(base, front[i]) {
        var i :| 0 <= i < |front| && Approximate(base, front[i]);
        assert Approximate(base, events[i]);
      }
    }
  }

  // ----- Cash, without the conversion -----

  /** What an operation adds to cash, exactly, in units of one over the scale. */
  function ExactFlow(base: string, e: Event): int {
    var amount := if e.currency == base then e.cash * SCALE else if e.rate.Some? then e.cash * e.rate.value else 0;
    if BringsCash(e) then amount else if TakesCash(e) then -amount else 0
  }

  function ExactCash(base: string, events: seq<Event>): int {
    if events == [] then 0 else ExactCash(base, events[..|events| - 1]) + ExactFlow(base, events[|events| - 1])
  }

  /** How many operations are converted with a rate. */
  function Conversions(base: string, events: seq<Event>): nat {
    if events == [] then 0
    else
      var last := events[|events| - 1];
      Conversions(base, events[..|events| - 1]) + (if last.currency != base && last.rate.Some? then 1 else 0)
  }

  lemma FlowIsExactUpToRounding(base: string, e: Event)
    ensures var amount := Converted(base, e);
            var flow := (if BringsCash(e) then amount else 0) - (if TakesCash(e) then amount else 0);
            if e.currency != base && e.rate.Some? then -SCALE <= 2 * (flow * SCALE - ExactFlow(base, e)) <= SCALE
            else flow * SCALE == ExactFlow(base, e)
  {
    ConvertedIsWorth(base, e);
  }

  /** The cash of a ledger is the exact sum of what its operations brought less
      what they took, up to half a minor unit for each conversion with a rate. */
  lemma {:induction false} CashIsExactUpToRounding(base: string, events: seq<Event>)
    requires LedgerOk(events) && Replayed(base, events).Some?
    ensures var off := Replayed(base, events).value.cash * SCALE - ExactCash(base, events);
            -(Conversions(base, events) * SCALE) <= 2 * off <= Conversions(base, events) * SCALE
    decreases |events|
  {
    if events != [] {
      var front, last := events[..|events| - 1], events[|events| - 1];
      CashIsExactUpToRounding(base, front);
      ApplyCash(base, Replayed(base, front).value, last, Replayed(base, events).value);
      FlowIsExactUpToRounding(base, last);
    }
  }
}
