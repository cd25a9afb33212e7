/** Replaying the posted operations of a portfolio into cash, invested capital
    and positions. Quantities and rates are scaled by ten digits, amounts are
    minor units. */
module Replay {
  import opened Ledger

  const SCALE := 10000000000

  /** A posted operation as the worker reads it: decimals already scaled. */
  datatype Event = Event(
    asset: Option<AssetId>,
    related: Option<AssetId>,
    opType: OperationType,
    quantity: Option<int>,
    relatedQuantity: Option<int>,
    cash: int,
    currency: string,
    rate: Option<int>)

  datatype Position = Position(quantity: int, cost: int)

  datatype Book = Book(cash: int, invested: int, positions: map<AssetId, Position>, estimated: bool)

  const EMPTY_BOOK := Book(0, 0, map[], false)

  /** CHECK constraints of the operations table on what is replayed. */
  predicate EventOk(e: Event) {
    && e.cash >= 0 && (e.rate.Some? ==> e.rate.value > 0)
    && (e.quantity.Some? ==> e.quantity.value > 0)
    && (e.relatedQuantity.Some? ==> e.relatedQuantity.value > 0)
  }

  // ----- Arithmetic -----

  /** Division rounded half away from zero, as truncation and remainder give it. */
  function DivideRound(n: int, d: int): int
    requires d > 0
  {
    if n >= 0 then n / d + (if 2 * (n % d) >= d then 1 else 0)
    else -((-n) / d + (if 2 * ((-n) % d) >= d then 1 else 0))
  }

  function Max(a: int, b: int): int { if a >= b then a else b }

  /** The cash of an operation in the base currency. Without a rate a foreign
      amount counts as zero and the book is marked as estimated. */
  function Converted(base: string, e: Event): int {
    if e.cash == 0 then 0
    else if e.currency == base then e.cash
    else if e.rate.None? then 0
    else DivideRound(e.cash * e.rate.value, SCALE)
  }

  predicate RateMissing(base: string, e: Event) {
    e.cash != 0 && e.currency != base && e.rate.None?
  }

  // ----- Positions -----

  function Increase(positions: map<AssetId, Position>, a: AssetId, quantity: int, cost: int): map<AssetId, Position> {
    var p := if a in positions then positions[a] else Position(0, 0);
    positions[a := Position(p.quantity + quantity, p.cost + Max(cost, 0))]
  }

  /** The cost released by taking `quantity` out of a position. */
  function Released(p: Position, quantity: int): int {
    if p.quantity == quantity then p.cost
    else if p.quantity > 0 then DivideRound(p.cost * quantity, p.quantity)
    else 0
  }

  predicate CanReduce(positions: map<AssetId, Position>, a: AssetId, quantity: int) {
    a in positions && positions[a].quantity >= quantity
  }

  function Reduce(positions: map<AssetId, Position>, a: AssetId, quantity: int): map<AssetId, Position>
    requires CanReduce(positions, a, quantity)
  {
    var p := positions[a];
    positions[a := Position(p.quantity - quantity, Max(p.cost - Released(p, quantity), 0))]
  }

  // ----- One operation -----

  /** The book after the operation; `None` when it lacks a field it needs or
      takes more than the position holds. */
  function Apply(base: string, book: Book, e: Event): Option<Book> {
    var c := Converted(base, e);
    var b := book.(estimated := book.estimated || RateMissing(base, e));
    match e.opType
    case Deposit => Some(b.(cash := b.cash + c, invested := b.invested + c))
    case Withdrawal => Some(b.(cash := b.cash - c, invested := Max(b.invested - c, 0)))
    case Buy =>
      if e.asset.None? || e.quantity.None? then None
      else Some(b.(cash := b.cash - c, positions := Increase(b.positions, e.asset.value, e.quantity.value, c)))
    case Sell =>
      if e.asset.None? || e.quantity.None? || !CanReduce(b.positions, e.asset.value, e.quantity.value) then None
      else Some(b.(cash := b.cash + c, positions := Reduce(b.positions, e.asset.value, e.quantity.value)))
    case Dividend => Some(b.(cash := b.cash + c))
    case Interest => Some(b.(cash := b.cash + c))
    case Fee => Some(b.(cash := b.cash - c))
    case Tax => Some(b.(cash := b.cash - c))
    case TransferIn =>
      var moved := b.(cash := b.cash + c, invested := b.invested + c);
      if e.asset.Some? && e.quantity.Some?
      then Some(moved.(positions := Increase(b.positions, e.asset.value, e.quantity.value, c)))
      else Some(moved)
    case TransferOut =>
      var moved := b.(cash := b.cash - c, invested := Max(b.invested - c, 0));
      if e.asset.Some? && e.quantity.Some? then
        if CanReduce(b.positions, e.asset.value, e.quantity.value)
        then Some(moved.(positions := Reduce(b.positions, e.asset.value, e.quantity.value)))
        else None
      else Some(moved)
    case Split =>
      if e.asset.None? || e.quantity.None? then None
      else Some(b.(positions := Increase(b.positions, e.asset.value, e.quantity.value, 0), estimated := true))
    case SpinOff =>
      if e.related.None? || e.relatedQuantity.None? then None
      else Some(b.(positions := Increase(b.positions, e.related.value, e.relatedQuantity.value, 0), estimated := true))
    case SymbolChange =>
      if e.asset.None? || e.related.None? || e.quantity.None?
         || !CanReduce(b.positions, e.asset.value, e.quantity.value) then None
      else
        var released := Released(b.positions[e.asset.value], e.quantity.value);
        Some(b.(positions := Increase(Reduce(b.positions, e.asset.value, e.quantity.value),
                                      e.related.value, e.quantity.value, released)))
    case Adjustment =>
      var added :=
        if e.asset.Some? && e.quantity.Some? then Increase(b.positions, e.asset.value, e.quantity.value, c)
        else b.positions;
      var funded := b.(cash := if c > 0 then b.cash + c else b.cash);
      if e.related.Some? && e.relatedQuantity.Some? then
        if CanReduce(added, e.related.value, e.relatedQuantity.value)
        then Some(funded.(positions := Reduce(added, e.related.value, e.relatedQuantity.value)))
        else None
      else Some(funded.(positions := added))
  }

  /** The book after a ledger, in replay order. */
  function Replayed(base: string, events: seq<Event>): Option<Book>
    decreases |events|
  {
    if events == [] then Some(EMPTY_BOOK)
    else
      match Replayed(base, events[..|events| - 1])
      case None => None
      case Some(book) => Apply(base, book, events[|events| - 1])
  }

  // ----- The state object -----

  /** `PortfolioState`. After an error the rebuild drops the object, so nothing
      is said of its fields then. */
  class PortfolioState {
    const base: string
    var cash: int
    var invested: int
    var positions: map<AssetId, Position>
    var estimated: bool

    ghost function State(): Book
      reads this
    {
      Book(cash, invested, positions, estimated)
    }

    constructor (base: string)
      ensures State() == EMPTY_BOOK && this.base == base
    {
      this.base := base;
      cash, invested, positions, estimated := 0, 0, map[], false;
    }

    method IncreasePosition(a: AssetId, quantity: int, cost: int)
      modifies this`positions
      ensures positions == Increase(old(positions), a, quantity, cost)
    {
      if a !in positions {
        positions := positions[a := Position(0, 0)];
      }
      var p := positions[a];
      positions := positions[a := Position(p.quantity + quantity, p.cost + Max(cost, 0))];
    }

    method ReducePosition(a: AssetId, quantity: int) returns (ok: bool, released: int)
      modifies this`positions
      ensures ok <==> CanReduce(old(positions), a, quantity)
      ensures ok ==> positions == Reduce(old(positions), a, quantity)
      ensures ok ==> released == Released(old(positions)[a], quantity)
    {
      if a !in positions || positions[a].quantity < quantity {
        return false, 0;
      }
      var p := positions[a];
      released :=
        if p.quantity == quantity then p.cost
        else if p.quantity > 0 then DivideRound(p.cost * quantity, p.quantity)
        else 0;
      positions := positions[a := Position(p.quantity - quantity, Max(p.cost - released, 0))];
      ok := true;
    }

    method ApplyOperation(e: Event) returns (ok: bool)
      modifies this`cash, this`invested, this`positions, this`estimated
      ensures ok <==> Apply(base, old(State()), e).Some?
      ensures ok ==> State() == Apply(base, old(State()), e).value
    {
      var c := Converted(base, e);
      if RateMissing(base, e) {
        estimated := true;
      }
      ok := true;
      var released := 0;
      match e.opType {
        case Deposit =>
          cash, invested := cash + c, invested + c;
        case Withdrawal =>
          cash, invested := cash - c, Max(invested - c, 0);
        case Buy =>
          if e.asset.None? || e.quantity.None? { return false; }
          IncreasePosition(e.asset.value, e.quantity.value, c);
          cash := cash - c;
        case Sell =>
          if e.asset.None? || e.quantity.None? { return false; }
          ok, released := ReducePosition(e.asset.value, e.quantity.value);
          if ok { cash := cash + c; }
        case Dividend =>
          cash := cash + c;
        case Interest =>
          cash := cash + c;
        case Fee =>
          cash := cash - c;
        case Tax =>
          cash := cash - c;
        case TransferIn =>
          cash, invested := cash + c, invested + c;
          if e.asset.Some? && e.quantity.Some? {
            IncreasePosition(e.asset.value, e.quantity.value, c);
          }
        case TransferOut =>
          cash, invested := cash - c, Max(invested - c, 0);
          if e.asset.Some? && e.quantity.Some? {
            ok, released := ReducePosition(e.asset.value, e.quantity.value);
          }
        case Split =>
          if e.asset.None? || e.quantity.None? { return false; }
          IncreasePosition(e.asset.value, e.quantity.value, 0);
          estimated := true;
        case SpinOff =>
          if e.related.None? || e.relatedQuantity.None? { return false; }
          IncreasePosition(e.related.value, e.relatedQuantity.value, 0);
          estimated := true;
        case SymbolChange =>
          if e.asset.None? || e.related.None? || e.quantity.None? { return false; }
          ok, released := ReducePosition(e.asset.value, e.quantity.value);
          if ok {
            IncreasePosition(e.related.value, e.quantity.value, released);
          }
        case Adjustment =>
          if c > 0 { cash := cash + c; }
          if e.asset.Some? && e.quantity.Some? {
            IncreasePosition(e.asset.value, e.quantity.value, c);
          }
          if e.related.Some? && e.relatedQuantity.Some? {
            ok, released := ReducePosition(e.related.value, e.relatedQuantity.value);
          }
      }
    }
  }

  /** The replay loop of `rebuild_portfolio_state`. */
  method ReplayAll(base: string, events: seq<Event>) returns (state: PortfolioState, ok: bool)
    ensures fresh(state)
    ensures ok <==> Replayed(base, events).Some?
    ensures ok ==> state.State() == Replayed(base, events).value
  {
    state := new PortfolioState(base);
    for i := 0 to |events|
      invariant fresh(state) && state.base == base
      invariant Replayed(base, events[..i]) == Some(state.State())
    {
      assert events[..i + 1][..i] == events[..i];
      ok := state.ApplyOperation(events[i]);
      if !ok {
        FailureStays(base, events, i + 1);
        return;
      }
    }
    assert events[..|events|] == events;
    ok := true;
  }

  lemma {:induction false} FailureStays(base: string, events: seq<Event>, n: nat)
    requires n <= |events| && Replayed(base, events[..n]).None?
    ensures Replayed(base, events).None?
    decreases |events|
  {
    if n == |events| {
      assert events[..n] == events;
    } else {
      assert events[..|events| - 1][..n] == events[..n];
      FailureStays(base, events[..|events| - 1], n);
    }
  }
}
