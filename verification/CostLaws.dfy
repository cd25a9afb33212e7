/** Cost basis and book profit of a replay. */
module CostLaws {
  import opened Ledger
  import opened Replay
  import opened ReplayLaws

  // ----- Selling in parts -----

  /** What is left of a position after a reduction. */
  function Left(p: Position, quantity: int): Position {
    Position(p.quantity - quantity, Max(p.cost - Released(p, quantity), 0))
  }

  function Sum(parts: seq<int>): int {
    if parts == [] then 0 else parts[0] + Sum(parts[1..])
  }

  function ReleasedInParts(p: Position, parts: seq<int>): int
    decreases |parts|
  {
    if parts == [] then 0 else Released(p, parts[0]) + ReleasedInParts(Left(p, parts[0]), parts[1..])
  }

  lemma {:induction false} SumOfPositive(parts: seq<int>)
    requires forall i | 0 <= i < |parts| :: parts[i] > 0
    ensures Sum(parts) >= |parts|
  {
    if parts != [] { SumOfPositive(parts[1..]); }
  }

  /** However a position is sold out, in any number of parts of any sizes, the
      released costs add up to its cost exactly: no rounding error is left. */
  lemma {:induction false} SellingOutReleasesAll(p: Position, parts: seq<int>)
    requires PositionOk(p) && Sum(parts) == p.quantity && forall i | 0 <= i < |parts| :: parts[i] > 0
    ensures ReleasedInParts(p, parts) == p.cost
    decreases |parts|
  {
    if parts != [] {
      SumOfPositive(parts[1..]);
      ReleasedIsPart(p, parts[0]);
      SellingOutReleasesAll(Left(p, parts[0]), parts[1..]);
    }
  }

  /** A partial sale keeps the average cost, up to half a minor unit on the whole
      position: what is left is the cost in proportion, rounded. */
  lemma AverageCostKept(p: Position, quantity: int)
    requires PositionOk(p) && 0 < quantity <= p.quantity
    ensures Left(p, quantity).cost == p.cost - Released(p, quantity)
    ensures -p.quantity <= 2 * (Left(p, quantity).cost * p.quantity - p.cost * (p.quantity - quantity)) <= p.quantity
  {
    ReleasedIsPart(p, quantity);
    ReleasedIsShare(p, quantity);
    Distribute(p.cost, Released(p, quantity), p.quantity, quantity);
  }

  lemma ReleasedIsShare(p: Position, quantity: int)
    requires PositionOk(p) && 0 < quantity <= p.quantity
    ensures -p.quantity <= 2 * (Released(p, quantity) * p.quantity - p.cost * quantity) <= p.quantity
  {
    if quantity < p.quantity {
      assert p.cost * quantity >= 0;
      DivideRoundFacts(p.cost * quantity, p.quantity);
    }
  }

  lemma Distribute(cost: int, released: int, whole: int, part: int)
    ensures (cost - released) * whole - cost * (whole - part) == cost * part - released * whole
  {
  }

  // ----- The total cost -----

  ghost function TotalCost(positions: map<AssetId, Position>): int
    decreases |positions|
  {
    if positions == map[] then 0
    else
      var a :| a in positions;
      positions[a].cost + TotalCost(positions - {a})
  }

  lemma {:induction false} TotalCostSplit(positions: map<AssetId, Position>, a: AssetId)
    requires a in positions
    ensures TotalCost(positions) == positions[a].cost + TotalCost(positions - {a})
    decreases |positions|
  {
    var b :| b in positions && TotalCost(positions) == positions[b].cost + TotalCost(positions - {b});
    if a != b {
      TotalCostSplit(positions - {b}, a);
      TotalCostSplit(positions - {a}, b);
      assert positions - {b} - {a} == positions - {a} - {b};
    }
  }

  function CostOf(positions: map<AssetId, Position>, a: AssetId): int {
    if a in positions then positions[a].cost else 0
  }

  lemma TotalCostUpdate(positions: map<AssetId, Position>, a: AssetId, p: Position)
    ensures TotalCost(positions[a := p]) == TotalCost(positions) - CostOf(positions, a) + p.cost
  {
    TotalCostSplit(positions[a := p], a);
    if a in positions {
      TotalCostSplit(positions, a);
      assert positions[a := p] - {a} == positions - {a};
    } else {
      assert positions[a := p] - {a} == positions;
    }
  }

  lemma IncreaseAddsCost(positions: map<AssetId, Position>, a: AssetId, quantity: int, cost: int)
    requires cost >= 0
    ensures TotalCost(Increase(positions, a, quantity, cost)) == TotalCost(positions) + cost
  {
    var p := if a in positions then positions[a] else Position(0, 0);
    TotalCostUpdate(positions, a, Position(p.quantity + quantity, p.cost + cost));
  }

  lemma ReduceReleasesCost(positions: map<AssetId, Position>, a: AssetId, quantity: int)
    requires PositionsOk(positions) && quantity > 0 && CanReduce(positions, a, quantity)
    ensures TotalCost(Reduce(positions, a, quantity)) == TotalCost(positions) - Released(positions[a], quantity)
    ensures Released(positions[a], quantity) >= 0
  {
    ReleasedIsPart(positions[a], quantity);
    TotalCostUpdate(positions, a, Left(positions[a], quantity));
  }

  // ----- Book profit -----

  /** Cash plus cost of the positions, less the invested capital. */
  ghost function Profit(book: Book): int { book.cash + TotalCost(book.positions) - book.invested }

  /** The cost an operation takes out of positions. */
  function TakenOut(base: string, book: Book, e: Event): int {
    match e.opType
    case Sell => if e.asset.Some? && e.quantity.Some? && e.asset.value in book.positions
                 then Released(book.positions[e.asset.value], e.quantity.value) else 0
    case TransferOut => if e.asset.Some? && e.quantity.Some? && e.asset.value in book.positions
                        then Released(book.positions[e.asset.value], e.quantity.value) else 0
    case Adjustment =>
      var added := if e.asset.Some? && e.quantity.Some?
                   then Increase(book.positions, e.asset.value, e.quantity.value, Converted(base, e))
                   else book.positions;
      if e.related.Some? && e.relatedQuantity.Some? && e.related.value in added
      then Released(added[e.related.value], e.relatedQuantity.value) else 0
    case _ => 0
  }

  /** The cost an operation brings into positions. */
  function BroughtIn(base: string, e: Event): int {
    if e.asset.Some? && e.quantity.Some? && e.opType in {Buy, TransferIn, Adjustment} then Converted(base, e) else 0
  }

  /** Cost is conserved: what is there is what was there, plus what was brought
      in, less what was taken out. A symbol change carries the cost over. */
  lemma ApplyMovesCost(base: string, book: Book, e: Event)
    requires PositionsOk(book.positions) && EventOk(e) && Feasible(base, book, e)
    ensures TotalCost(Apply(base, book, e).value.positions)
              == TotalCost(book.positions) + BroughtIn(base, e) - TakenOut(base, book, e)
  {
    ConvertedIsNonNegative(base, e);
    var c := Converted(base, e);
    var positions := book.positions;
    match e.opType
    case Buy => IncreaseAddsCost(positions, e.asset.value, e.quantity.value, c);
    case Split => IncreaseAddsCost(positions, e.asset.value, e.quantity.value, 0);
    case TransferIn =>
      if e.asset.Some? && e.quantity.Some? { IncreaseAddsCost(positions, e.asset.value, e.quantity.value, c); }
    case Sell => ReduceReleasesCost(positions, e.asset.value, e.quantity.value);
    case TransferOut =>
      if e.asset.Some? && e.quantity.Some? { ReduceReleasesCost(positions, e.asset.value, e.quantity.value); }
    case SpinOff => IncreaseAddsCost(positions, e.related.value, e.relatedQuantity.value, 0);
    case SymbolChange =>
      ReduceReleasesCost(positions, e.asset.value, e.quantity.value);
      IncreaseAddsCost(Reduce(positions, e.asset.value, e.quantity.value), e.related.value, e.quantity.value,
                       Released(positions[e.asset.value], e.quantity.value));
    case Adjustment => AdjustmentCost(base, book, e);
    case _ =>
  }

  /** The money side of an operation. */
  lemma ApplyMovesMoney(base: string, book: Book, e: Event)
    requires Feasible(base, book, e)
    ensures var next := Apply(base, book, e).value;
            next.cash - next.invested == book.cash - book.invested + Money(base, book, e)
  {
  }

  /** What an operation adds to cash less invested capital. */
  function Money(base: string, book: Book, e: Event): int {
    var c := Converted(base, e);
    match e.opType
    case Buy => -c
    case Sell => c
    case Dividend => c
    case Interest => c
    case Fee => -c
    case Tax => -c
    case Withdrawal => -Max(c - book.invested, 0)
    case TransferOut => -Max(c - book.invested, 0)
    case Adjustment => Max(c, 0)
    case _ => 0
  }

  lemma AdjustmentCost(base: string, book: Book, e: Event)
    requires PositionsOk(book.positions) && EventOk(e) && Feasible(base, book, e) && e.opType == Adjustment
    ensures TotalCost(Apply(base, book, e).value.positions)
              == TotalCost(book.positions) + (if e.asset.Some? && e.quantity.Some? then Converted(base, e) else 0)
                 - TakenOut(base, book, e)
  {
    ConvertedIsNonNegative(base, e);
    var c := Converted(base, e);
    var added :=
      if e.asset.Some? && e.quantity.Some? then Increase(book.positions, e.asset.value, e.quantity.value, c)
      else book.positions;
    if e.asset.Some? && e.quantity.Some? {
      IncreaseAddsCost(book.positions, e.asset.value, e.quantity.value, c);
      IncreaseKeeps(book.positions, e.asset.value, e.quantity.value, c);
    }
    if e.related.Some? && e.relatedQuantity.Some? {
      ReduceReleasesCost(added, e.related.value, e.relatedQuantity.value);
    }
  }

  /** What an operation adds to the book profit: a sale gains its proceeds less
      the released cost, income and charges their amount; a transfer of an asset
      with a cash amount counts that amount twice. */
  function Gain(base: string, book: Book, e: Event): int {
    Money(base, book, e) + BroughtIn(base, e) - TakenOut(base, book, e)
  }

  lemma StepGain(base: string, book: Book, e: Event, next: Book)
    requires PositionsOk(book.positions) && EventOk(e) && Apply(base, book, e) == Some(next)
    ensures Profit(next) == Profit(book) + Gain(base, book, e)
  {
    ApplyMovesMoney(base, book, e);
    ApplyMovesCost(base, book, e);
  }

  ghost function TotalGain(base: string, events: seq<Event>): int
    requires Replayed(base, events).Some?
    decreases |events|
  {
    if events == [] then 0
    else
      var front := events[..|events| - 1];
      TotalGain(base, front) + Gain(base, Replayed(base, front).value, events[|events| - 1])
  }

  lemma ReplaySound(base: string, events: seq<Event>)
    requires LedgerOk(events) && Replayed(base, events).Some?
    ensures PositionsOk(Replayed(base, events).value.positions)
  {
    ReplayIffNeverShort(base, events);
  }

  lemma LastGain(base: string, events: seq<Event>, front: seq<Event>, book: Book, next: Book)
    requires LedgerOk(events) && events != [] && front == events[..|events| - 1]
    requires Replayed(base, front) == Some(book) && Replayed(base, events) == Some(next)
    ensures Profit(next) - Profit(book) == TotalGain(base, events) - TotalGain(base, front)
  {
    ReplaySound(base, front);
    StepGain(base, book, events[|events| - 1], next);
  }

  lemma FrontReplays(base: string, events: seq<Event>) returns (front: seq<Event>, book: Book)
    requires LedgerOk(events) && events != [] && Replayed(base, events).Some?
    ensures front == events[..|events| - 1] && LedgerOk(front) && Replayed(base, front) == Some(book)
  {
    front := events[..|events| - 1];
    book := Replayed(base, front).value;
  }

  /** The books of a ledger balance: cash plus cost is the invested capital plus
      the gains of its operations. */
  ghost predicate Balanced(base: string, events: seq<Event>) {
    Replayed(base, events).Some? ==> Profit(Replayed(base, events).value) == TotalGain(base, events)
  }

  lemma EmptyBookHasNoProfit()
    ensures Profit(EMPTY_BOOK) == 0
  {
    assert TotalCost(map[]) == 0;
  }

  lemma NoEventsBalance(base: string, events: seq<Event>)
    requires events == []
    ensures Balanced(base, events)
  {
    EmptyBookHasNoProfit();
  }

  lemma OneMoreEventBalances(base: string, events: seq<Event>)
    requires LedgerOk(events) && events != [] && Balanced(base, events[..|events| - 1])
    ensures Balanced(base, events)
  {
    if Replayed(base, events).Some? {
      var front, book := FrontReplays(base, events);
      LastGain(base, events, front, book, Replayed(base, events).value);
    }
  }

  /** Every ledger balances. */
  lemma {:induction false} ProfitIsTotalGain(base: string, events: seq<Event>)
    requires LedgerOk(events)
    ensures Balanced(base, events)
    decreases |events|
  {
    if events == [] {
      NoEventsBalance(base, events);
    } else {
      ProfitIsTotalGain(base, events[..|events| - 1]);
      OneMoreEventBalances(base, events);
    }
  }

  predicate Neutral(e: Event) {
    e.opType in {Buy, Deposit, Split, SpinOff, SymbolChange}
  }

  lemma {:induction false} NeutralGainsNothing(base: string, events: seq<Event>)
    requires Replayed(base, events).Some? && forall i | 0 <= i < |events| :: Neutral(events[i])
    ensures TotalGain(base, events) == 0
    decreases |events|
  {
    if events != [] {
      NeutralGainsNothing(base, events[..|events| - 1]);
    }
  }

  /** Money that only moves makes no profit: after any number of deposits, buys,
      splits, spin-offs and symbol changes, cash and cost add up to what was
      deposited. */
  lemma NeutralLedgerMakesNoProfit(base: string, events: seq<Event>)
    requires LedgerOk(events) && Replayed(base, events).Some? && forall i | 0 <= i < |events| :: Neutral(events[i])
    ensures var book := Replayed(base, events).value; book.cash + TotalCost(book.positions) == book.invested
  {
    ProfitIsTotalGain(base, events);
    NeutralGainsNothing(base, events);
  }
}
