/** Live positions of one strategy execution, with stored profit-and-loss fields. Money is exact. */
module PositionMonitor {
  import opened MapSum
  import Portfolio

  datatype Side = LONG | SHORT

  datatype Position = Position(symbol: string, quantity: int, entryPrice: real, currentPrice: real, side: Side)

  datatype Book = Book(
    positions: map<string, Position>,
    totalPnl: real, realizedPnl: real, unrealizedPnl: real, dailyPnl: real,
    totalTrades: nat, winningTrades: nat, losingTrades: nat)

  function Empty(): Book {
    Book(map[], 0.0, 0.0, 0.0, 0.0, 0, 0, 0)
  }

  function MarketValue(pos: Position): real {
    Portfolio.Amount(pos.quantity, pos.currentPrice)
  }

  function CostBasis(pos: Position): real {
    Portfolio.Amount(pos.quantity, pos.entryPrice)
  }

  function UnrealizedPnl(pos: Position): real {
    if pos.side.LONG? then MarketValue(pos) - CostBasis(pos) else CostBasis(pos) - MarketValue(pos)
  }

  function MarketValues(positions: map<string, Position>): map<string, real> {
    map s | s in positions :: MarketValue(positions[s])
  }

  function UnrealizedPnls(positions: map<string, Position>): map<string, real> {
    map s | s in positions :: UnrealizedPnl(positions[s])
  }

  // ---------- the three operations ----------

  datatype Operation =
    | Add(symbol: string, quantity: int, entryPrice: real, side: Side)
    | Close(symbol: string, exitPrice: real)
    | Update(prices: map<string, real>)

  function AddStep(b: Book, symbol: string, quantity: int, entryPrice: real, side: Side): Book {
    if symbol !in b.positions then
      b.(positions := b.positions[symbol := Position(symbol, quantity, entryPrice, entryPrice, side)])
    else
      var held := b.positions[symbol];
      var total := held.quantity + quantity;
      if total == 0 then b.(positions := b.positions - {symbol})
      else
        var average := Portfolio.PerShare(CostBasis(held) + Portfolio.Amount(quantity, entryPrice), total);
        b.(positions := b.positions[symbol := Position(symbol, total, average, entryPrice, side)])
  }

  function ClosingPnl(pos: Position, exitPrice: real): real {
    Portfolio.Amount(pos.quantity, if pos.side.LONG? then exitPrice - pos.entryPrice else pos.entryPrice - exitPrice)
  }

  function CloseStep(b: Book, symbol: string, exitPrice: real): (Book, real) {
    if symbol !in b.positions then (b, 0.0)
    else
      var pnl := ClosingPnl(b.positions[symbol], exitPrice);
      (Book(b.positions - {symbol}, b.totalPnl + pnl, b.realizedPnl + pnl, b.unrealizedPnl, b.dailyPnl + pnl,
            b.totalTrades + 1, b.winningTrades + (if pnl > 0.0 then 1 else 0), b.losingTrades + if pnl < 0.0 then 1 else 0),
       pnl)
  }

  function Repriced(positions: map<string, Position>, prices: map<string, real>): map<string, Position> {
    map s | s in positions :: if s in prices then positions[s].(currentPrice := prices[s]) else positions[s]
  }

  ghost function UpdateStep(b: Book, prices: map<string, real>): Book {
    var positions := Repriced(b.positions, prices);
    var unrealized := Total(UnrealizedPnls(positions));
    b.(positions := positions, unrealizedPnl := unrealized, totalPnl := b.realizedPnl + unrealized)
  }

  ghost function Step(b: Book, op: Operation): Book {
    match op
    case Add(symbol, quantity, entryPrice, side) => AddStep(b, symbol, quantity, entryPrice, side)
    case Close(symbol, exitPrice) => CloseStep(b, symbol, exitPrice).0
    case Update(prices) => UpdateStep(b, prices)
  }

  ghost function Run(b: Book, ops: seq<Operation>): Book
    decreases |ops|
  {
    if ops == [] then b else Run(Step(b, ops[0]), ops[1..])
  }

  // ---------- the stored fields ----------

  ghost predicate FieldsAgree(b: Book) {
    && b.totalPnl == b.realizedPnl + b.unrealizedPnl
    && b.dailyPnl == b.realizedPnl
    && b.winningTrades + b.losingTrades <= b.totalTrades
  }

  /** On every run the total is realized plus unrealized, and the daily figure is never reset apart from the realized one. */
  lemma {:induction false} RunFieldsAgree(b: Book, ops: seq<Operation>)
    requires FieldsAgree(b)
    ensures FieldsAgree(Run(b, ops))
    decreases |ops|
  {
    if ops != [] {
      RunFieldsAgree(Step(b, ops[0]), ops[1..]);
    }
  }

  // What the positions still held are worth, as opposed to the stored figure.
  ghost function LivePnl(b: Book): real {
    Total(UnrealizedPnls(b.positions))
  }

  lemma CloseLeavesStale(b: Book, symbol: string, exitPrice: real)
    requires symbol in b.positions
    ensures LivePnl(CloseStep(b, symbol, exitPrice).0) == LivePnl(b) - UnrealizedPnl(b.positions[symbol])
  {
    var pnls := UnrealizedPnls(b.positions);
    assert UnrealizedPnls(b.positions - {symbol}) == pnls - {symbol};
    TotalRemove(pnls, symbol);
  }

  lemma {:induction false} ClosesLeaveStale(b: Book, ops: seq<Operation>)
    requires forall i :: 0 <= i < |ops| ==> ops[i].Close?
    ensures var b' := Run(b, ops);
            && b'.unrealizedPnl == b.unrealizedPnl
            && b'.positions.Keys <= b.positions.Keys
            && (forall s :: s in b'.positions ==> b'.positions[s] == b.positions[s])
            && LivePnl(b) == LivePnl(b') + Total(UnrealizedPnls(b.positions - b'.positions.Keys))
    decreases |ops|
  {
    if ops == [] {
      assert b.positions - b.positions.Keys == map[];
      assert UnrealizedPnls(map[]) == map[];
    } else {
      var b1 := Step(b, ops[0]);
      ClosesLeaveStale(b1, ops[1..]);
      var b', s := Run(b, ops), ops[0].symbol;
      if s in b.positions {
        CloseLeavesStale(b, s, ops[0].exitPrice);
        var gone := UnrealizedPnls(b.positions - b'.positions.Keys);
        assert gone - {s} == UnrealizedPnls(b1.positions - b'.positions.Keys);
        TotalRemove(gone, s);
      }
    }
  }

  /**
   After a price update followed only by closes, the stored unrealized P&L exceeds that of the live positions by
   exactly what the closed positions stood at when the prices were last updated.
   */
  lemma StoredPnlGoesStale(b: Book, prices: map<string, real>, closes: seq<Operation>)
    requires forall i :: 0 <= i < |closes| ==> closes[i].Close?
    ensures var updated := Step(b, Update(prices));
            var b' := Run(updated, closes);
            b'.unrealizedPnl - LivePnl(b') == Total(UnrealizedPnls(updated.positions - b'.positions.Keys))
  {
    ClosesLeaveStale(Step(b, Update(prices)), closes);
  }

  // ---------- single operations ----------

  /**
   Adding to a position conserves cost: the new one costs what the old one and the addition did, at the last entry's
   price and side. Quantities that cancel remove the position and book nothing.
   */
  lemma AddConservesCost(b: Book, symbol: string, quantity: int, entryPrice: real, side: Side)
    ensures var u := AddStep(b, symbol, quantity, entryPrice, side);
            var held := if symbol in b.positions then b.positions[symbol].quantity else 0;
            var cost := if symbol in b.positions then b.positions[symbol].quantity as real * b.positions[symbol].entryPrice
                        else 0.0;
            && u == b.(positions := u.positions)
            && (forall s :: s != symbol ==> (s in u.positions <==> s in b.positions))
            && (forall s :: s != symbol && s in b.positions ==> u.positions[s] == b.positions[s])
            && (symbol in u.positions <==> symbol !in b.positions || held + quantity != 0)
            && (symbol in u.positions ==>
                  var pos := u.positions[symbol];
                  && (pos.symbol, pos.quantity, pos.currentPrice, pos.side) == (symbol, held + quantity, entryPrice, side)
                  && pos.quantity as real * pos.entryPrice == cost + quantity as real * entryPrice)
  {
    if symbol in b.positions {
      var total := b.positions[symbol].quantity + quantity;
      if total != 0 {
        var basis := CostBasis(b.positions[symbol]) + Portfolio.Amount(quantity, entryPrice);
        assert basis / total as real * total as real == basis;
      }
    }
  }

  /** An update changes the price of each held symbol it names and recomputes the two figures that depend on it. */
  lemma UpdateEffect(b: Book, prices: map<string, real>)
    ensures var u := Step(b, Update(prices));
            && u.positions.Keys == b.positions.Keys
            && (forall s :: s in b.positions ==>
                  u.positions[s] == if s in prices then b.positions[s].(currentPrice := prices[s]) else b.positions[s])
            && u.unrealizedPnl == LivePnl(u) && u.totalPnl == b.realizedPnl + LivePnl(u) && u.realizedPnl == b.realizedPnl
            && (u.dailyPnl, u.totalTrades, u.winningTrades, u.losingTrades)
               == (b.dailyPnl, b.totalTrades, b.winningTrades, b.losingTrades)
  {
  }

  /** A short position gains exactly what the same position held long would lose, at its price and on closing. */
  lemma ShortMirrorsLong(pos: Position, exitPrice: real)
    ensures UnrealizedPnl(pos.(side := SHORT)) == -UnrealizedPnl(pos.(side := LONG))
    ensures ClosingPnl(pos.(side := SHORT), exitPrice) == -ClosingPnl(pos.(side := LONG), exitPrice)
    ensures ClosingPnl(pos.(side := LONG), exitPrice) == pos.quantity as real * (exitPrice - pos.entryPrice)
  {
    var q := pos.quantity as real;
    assert q * (pos.entryPrice - exitPrice) == -(q * (exitPrice - pos.entryPrice));
  }

  lemma PnlAtPrice(pos: Position, price: real)
    ensures ClosingPnl(pos.(currentPrice := price), price) == UnrealizedPnl(pos.(currentPrice := price))
  {
    var q := pos.quantity as real;
    assert q * (price - pos.entryPrice) == q * price - q * pos.entryPrice;
    assert q * (pos.entryPrice - price) == q * pos.entryPrice - q * price;
  }

  /** Closing at the price of the last update realizes exactly what the position contributed to the unrealized P&L. */
  lemma CloseRealizesShare(b: Book, prices: map<string, real>, symbol: string)
    requires symbol in b.positions && symbol in prices
    ensures var updated := Step(b, Update(prices));
            var (closed, pnl) := CloseStep(updated, symbol, prices[symbol]);
            && updated.positions[symbol] == b.positions[symbol].(currentPrice := prices[symbol])
            && updated.unrealizedPnl == LivePnl(closed) + pnl
            && closed.realizedPnl == b.realizedPnl + pnl
            && symbol !in closed.positions
  {
    var updated := Step(b, Update(prices));
    CloseLeavesStale(updated, symbol, prices[symbol]);
    PnlAtPrice(b.positions[symbol], prices[symbol]);
  }

  // The P&L of the closes of a run that found their position.
  ghost function ClosedPnls(b: Book, ops: seq<Operation>): seq<real>
    decreases |ops|
  {
    if ops == [] then []
    else
      (if ops[0].Close? && ops[0].symbol in b.positions then [CloseStep(b, ops[0].symbol, ops[0].exitPrice).1] else [])
      + ClosedPnls(Step(b, ops[0]), ops[1..])
  }

  function Gained(pnls: seq<real>): real {
    if pnls == [] then 0.0 else pnls[0] + Gained(pnls[1..])
  }

  function Wins(pnls: seq<real>): nat {
    if pnls == [] then 0 else (if pnls[0] > 0.0 then 1 else 0) + Wins(pnls[1..])
  }

  function Losses(pnls: seq<real>): nat {
    if pnls == [] then 0 else (if pnls[0] < 0.0 then 1 else 0) + Losses(pnls[1..])
  }

  /** On every run the realized P&L and the trade counts are those of the closes that found their position. */
  lemma {:induction false} ClosesAreBooked(b: Book, ops: seq<Operation>)
    ensures var u, pnls := Run(b, ops), ClosedPnls(b, ops);
            && u.realizedPnl == b.realizedPnl + Gained(pnls) && u.dailyPnl == b.dailyPnl + Gained(pnls)
            && u.totalTrades == b.totalTrades + |pnls|
            && u.winningTrades == b.winningTrades + Wins(pnls) && u.losingTrades == b.losingTrades + Losses(pnls)
    decreases |ops|
  {
    if ops != [] {
      var next := Step(b, ops[0]);
      ClosesAreBooked(next, ops[1..]);
      var rest := ClosedPnls(next, ops[1..]);
      if ops[0].Close? && ops[0].symbol in b.positions {
        var pnl := CloseStep(b, ops[0].symbol, ops[0].exitPrice).1;
        assert ([pnl] + rest)[1..] == rest;
      } else {
        assert [] + rest == rest;
      }
    }
  }

  // ---------- agreement with the backtest account ----------

  // A buy, or a sale of everything held.
  datatype Fill = BuyFill(symbol: string, quantity: int, price: real) | SellAll(symbol: string, price: real)

  const NO_CHARGES := Portfolio.Rates(0.0, 0.0)

  function AsOrder(a: Portfolio.Account, f: Fill): Portfolio.Order {
    match f
    case BuyFill(symbol, quantity, price) => Portfolio.Order(Portfolio.Buy, symbol, quantity, price, 0)
    case SellAll(symbol, price) =>
      Portfolio.Order(Portfolio.Sell, symbol, if symbol in a.positions then a.positions[symbol].quantity else 1, price, 0)
  }

  function AsOperation(f: Fill): Operation {
    match f
    case BuyFill(symbol, quantity, price) => Add(symbol, quantity, price, LONG)
    case SellAll(symbol, price) => Close(symbol, price)
  }

  predicate SamePositions(a: map<string, Portfolio.Position>, b: map<string, Position>) {
    && a.Keys == b.Keys
    && forall s :: s in a ==> a[s].quantity == b[s].quantity && a[s].avgPrice == b[s].entryPrice && b[s].side == LONG
  }

  predicate Agree(a: Portfolio.Account, b: Book) {
    Portfolio.PositiveHoldings(a) && SamePositions(a.positions, b.positions) && a.realizedPnl == b.realizedPnl
  }

  // Both implementations fed with the fills the account accepts.
  ghost function RunBoth(a: Portfolio.Account, b: Book, fills: seq<Fill>): (Portfolio.Account, Book)
    requires Portfolio.PositiveHoldings(a)
    decreases |fills|
  {
    if fills == [] then (a, b)
    else
      var (a', outcome) := Portfolio.Step(NO_CHARGES, a, AsOrder(a, fills[0]));
      Portfolio.StepKeepsHoldings(NO_CHARGES, a, AsOrder(a, fills[0]));
      RunBoth(a', if outcome.Executed? then Step(b, AsOperation(fills[0])) else b, fills[1..])
  }

  lemma SalePnl(pos: Position, price: real)
    requires pos.side == LONG
    ensures ClosingPnl(pos, price) == Portfolio.NetProceeds(NO_CHARGES, pos.quantity, price) - CostBasis(pos)
  {
    var q := pos.quantity as real;
    assert q * (price - pos.entryPrice) == q * price - q * pos.entryPrice;
  }

  lemma FillKeepsAgreement(a: Portfolio.Account, b: Book, f: Fill)
    requires Agree(a, b)
    ensures var (a', outcome) := Portfolio.Step(NO_CHARGES, a, AsOrder(a, f));
            Agree(a', if outcome.Executed? then Step(b, AsOperation(f)) else b)
  {
    Portfolio.StepKeepsHoldings(NO_CHARGES, a, AsOrder(a, f));
    var (a', outcome) := Portfolio.Step(NO_CHARGES, a, AsOrder(a, f));
    if outcome.Executed? && f.SellAll? {
      SalePnl(b.positions[f.symbol], f.price);
      assert a'.realizedPnl == a.realizedPnl
          + (Portfolio.NetProceeds(NO_CHARGES, a.positions[f.symbol].quantity, f.price) - CostBasis(b.positions[f.symbol]));
    }
  }

  /** Without charges, both implementations hold the same shares at the same average price and realize the same P&L. */
  lemma {:induction false} ImplementationsAgree(a: Portfolio.Account, b: Book, fills: seq<Fill>)
    requires Agree(a, b)
    ensures Agree(RunBoth(a, b, fills).0, RunBoth(a, b, fills).1)
    decreases |fills|
  {
    if fills != [] {
      var (a', outcome) := Portfolio.Step(NO_CHARGES, a, AsOrder(a, fills[0]));
      FillKeepsAgreement(a, b, fills[0]);
      ImplementationsAgree(a', if outcome.Executed? then Step(b, AsOperation(fills[0])) else b, fills[1..]);
    }
  }

  // ---------- the monitor ----------

  class Monitor {
    var positions: map<string, Position>
    var totalPnl: real
    var realizedPnl: real
    var unrealizedPnl: real
    var dailyPnl: real
    var totalTrades: nat
    var winningTrades: nat
    var losingTrades: nat

    function View(): Book
      reads this
    {
      Book(positions, totalPnl, realizedPnl, unrealizedPnl, dailyPnl, totalTrades, winningTrades, losingTrades)
    }

    constructor ()
      ensures View() == Empty()
    {
      positions := map[];
      totalPnl, realizedPnl, unrealizedPnl, dailyPnl := 0.0, 0.0, 0.0, 0.0;
      totalTrades, winningTrades, losingTrades := 0, 0, 0;
    }

    method AddPosition(symbol: string, quantity: int, entryPrice: real, side: Side)
      modifies this`positions
      ensures View() == AddStep(old(View()), symbol, quantity, entryPrice, side)
    {
      if symbol in positions {
        var existing := positions[symbol];
        var totalQuantity := existing.quantity + quantity;
        if totalQuantity == 0 {
          positions := positions - {symbol};
          return;
        }
        var avgPrice := Portfolio.PerShare(
          Portfolio.Amount(existing.quantity, existing.entryPrice) + Portfolio.Amount(quantity, entryPrice), totalQuantity);
        positions := positions[symbol := Position(symbol, totalQuantity, avgPrice, entryPrice, side)];
      } else {
        positions := positions[symbol := Position(symbol, quantity, entryPrice, entryPrice, side)];
      }
    }

    method ClosePosition(symbol: string, exitPrice: real) returns (pnl: real)
      modifies this
      ensures (View(), pnl) == CloseStep(old(View()), symbol, exitPrice)
    {
      if symbol !in positions {
        return 0.0;
      }
      var position := positions[symbol];
      if position.side == LONG {
        pnl := Portfolio.Amount(position.quantity, exitPrice - position.entryPrice);
      } else {
        pnl := Portfolio.Amount(position.quantity, position.entryPrice - exitPrice);
      }
      realizedPnl := realizedPnl + pnl;
      totalPnl := totalPnl + pnl;
      dailyPnl := dailyPnl + pnl;
      totalTrades := totalTrades + 1;
      if pnl > 0.0 {
        winningTrades := winningTrades + 1;
      } else if pnl < 0.0 {
        losingTrades := losingTrades + 1;
      }
      positions := positions - {symbol};
    }

    method UpdatePrices(prices: map<string, real>)
      modifies this`positions, this`unrealizedPnl, this`totalPnl
      ensures View() == UpdateStep(old(View()), prices)
    {
      SetPrices(prices);
      var unrealized := SumUnrealized();
      unrealizedPnl := unrealized;
      totalPnl := realizedPnl + unrealizedPnl;
    }

    method SetPrices(prices: map<string, real>)
      modifies this`positions
      ensures positions == Repriced(old(positions), prices)
    {
      var pending := prices.Keys;
      while pending != {}
        invariant pending <= prices.Keys && positions.Keys == old(positions).Keys
        invariant forall s :: s in positions ==>
                    positions[s] == if s in prices && s !in pending
                                    then old(positions)[s].(currentPrice := prices[s]) else old(positions)[s]
        decreases |pending|
      {
        var symbol :| symbol in pending;
        if symbol in positions {
          positions := positions[symbol := positions[symbol].(currentPrice := prices[symbol])];
        }
        pending := pending - {symbol};
      }
    }

    method SumUnrealized() returns (sum: real)
      ensures sum == Total(UnrealizedPnls(positions))
    {
      sum := 0.0;
      var pending := positions.Keys;
      ghost var rest := UnrealizedPnls(positions);
      while pending != {}
        invariant pending == rest.Keys <= positions.Keys
        invariant forall s :: s in pending ==> rest[s] == UnrealizedPnl(positions[s])
        invariant sum + Total(rest) == Total(UnrealizedPnls(positions))
        decreases |pending|
      {
        var s :| s in pending;
        TotalRemove(rest, s);
        sum := sum + UnrealizedPnl(positions[s]);
        pending, rest := pending - {s}, rest - {s};
      }
    }

    method GetPortfolioValue() returns (value: real)
      ensures value == Total(MarketValues(positions))
    {
      value := 0.0;
      var pending := positions.Keys;
      ghost var rest := MarketValues(positions);
      while pending != {}
        invariant pending == rest.Keys <= positions.Keys
        invariant forall s :: s in pending ==> rest[s] == MarketValue(positions[s])
        invariant value + Total(rest) == Total(MarketValues(positions))
        decreases |pending|
      {
        var s :| s in pending;
        TotalRemove(rest, s);
        value := value + MarketValue(positions[s]);
        pending, rest := pending - {s}, rest - {s};
      }
    }
  }
}
