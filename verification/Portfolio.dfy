/** The backtest account: weighted-average cost, commission on both sides, tax on sells. Money is exact. */
module Portfolio {
  import opened MapSum
  import opened Options

  datatype Position = Position(symbol: string, quantity: int, avgPrice: real)

  datatype Side = Buy | Sell

  datatype Trade = Trade(timestamp: int, symbol: string, side: Side, quantity: int, price: real, commission: real, pnl: Option<real>)

  datatype Rates = Rates(commission: real, tax: real)

  datatype Account = Account(
    cash: real, positions: map<string, Position>, history: seq<Trade>, realizedPnl: real, totalCommission: real)

  datatype Outcome = Executed | Refused | InvalidArguments

  datatype Order = Order(side: Side, symbol: string, quantity: int, price: real, timestamp: int)

  function Open(initialCash: real): Account {
    Account(initialCash, map[], [], 0.0, 0.0)
  }

  // ---------- one order ----------

  function Amount(quantity: int, price: real): real {
    quantity as real * price
  }

  function Charge(amount: real, rate: real): real {
    amount * rate
  }

  function PerShare(basis: real, quantity: int): real
    requires quantity != 0
  {
    basis / quantity as real
  }

  function CostOf(pos: Position): real {
    Amount(pos.quantity, pos.avgPrice)
  }

  function Averaged(held: Option<Position>, symbol: string, quantity: int, price: real): Position
    requires quantity > 0 && (held.Some? ==> held.value.quantity > 0)
  {
    match held
    case None => Position(symbol, quantity, price)
    case Some(pos) =>
      var total := pos.quantity + quantity;
      pos.(avgPrice := PerShare(CostOf(pos) + Amount(quantity, price), total), quantity := total)
  }

  function Held(a: Account, symbol: string): Option<Position> {
    if symbol in a.positions then Some(a.positions[symbol]) else None
  }

  predicate PositiveHoldings(a: Account) {
    forall s :: s in a.positions ==>
      a.positions[s].symbol == s && a.positions[s].quantity > 0 && a.positions[s].avgPrice > 0.0
  }

  function BuyStep(r: Rates, a: Account, o: Order): (Account, Outcome)
    requires PositiveHoldings(a)
  {
    if o.quantity <= 0 || o.price <= 0.0 then (a, InvalidArguments)
    else
      var cost := Amount(o.quantity, o.price);
      var commission := Charge(cost, r.commission);
      if cost + commission > a.cash then (a, Refused)
      else
        (Account(a.cash - (cost + commission),
                 a.positions[o.symbol := Averaged(Held(a, o.symbol), o.symbol, o.quantity, o.price)],
                 a.history + [Trade(o.timestamp, o.symbol, Buy, o.quantity, o.price, commission, None)],
                 a.realizedPnl, a.totalCommission + commission), Executed)
  }

  function NetProceeds(r: Rates, quantity: int, price: real): real {
    var proceeds := Amount(quantity, price);
    proceeds - Charge(proceeds, r.commission) - Charge(proceeds, r.tax)
  }

  function Reduced(positions: map<string, Position>, symbol: string, quantity: int): map<string, Position>
    requires symbol in positions
  {
    if positions[symbol].quantity == quantity then positions - {symbol}
    else positions[symbol := positions[symbol].(quantity := positions[symbol].quantity - quantity)]
  }

  function SellStep(r: Rates, a: Account, o: Order): (Account, Outcome) {
    if o.quantity <= 0 || o.price <= 0.0 then (a, InvalidArguments)
    else if o.symbol !in a.positions || a.positions[o.symbol].quantity < o.quantity then (a, Refused)
    else
      var commission := Charge(Amount(o.quantity, o.price), r.commission);
      var net := NetProceeds(r, o.quantity, o.price);
      var pnl := net - Amount(o.quantity, a.positions[o.symbol].avgPrice);
      (Account(a.cash + net, Reduced(a.positions, o.symbol, o.quantity),
               a.history + [Trade(o.timestamp, o.symbol, Sell, o.quantity, o.price, commission, Some(pnl))],
               a.realizedPnl + pnl, a.totalCommission + commission), Executed)
  }

  function Step(r: Rates, a: Account, o: Order): (Account, Outcome)
    requires PositiveHoldings(a)
  {
    if o.side.Buy? then BuyStep(r, a, o) else SellStep(r, a, o)
  }

  lemma AveragedPositive(held: Option<Position>, symbol: string, quantity: int, price: real)
    requires quantity > 0 && price > 0.0
    requires held.Some? ==> held.value.quantity > 0 && held.value.avgPrice > 0.0
    ensures var pos := Averaged(held, symbol, quantity, price);
            && pos.quantity > 0 && pos.avgPrice > 0.0
            && CostOf(pos) == Amount(quantity, price) + (if held.None? then 0.0 else CostOf(held.value))
  {
    if held.Some? {
      var basis := CostOf(held.value) + Amount(quantity, price);
      assert CostOf(held.value) > 0.0 && Amount(quantity, price) > 0.0;
      var total := (held.value.quantity + quantity) as real;
      assert basis / total * total == basis;
      assert basis / total > 0.0;
    }
  }

  /** Held quantities and average prices stay positive; an order that is not executed changes nothing. */
  lemma StepKeepsHoldings(r: Rates, a: Account, o: Order)
    requires PositiveHoldings(a)
    ensures PositiveHoldings(Step(r, a, o).0)
    ensures Step(r, a, o).1 != Executed ==> Step(r, a, o).0 == a
  {
    if o.side.Buy? && o.quantity > 0 && o.price > 0.0 {
      AveragedPositive(Held(a, o.symbol), o.symbol, o.quantity, o.price);
    }
  }

  function SharesHeld(a: Account, symbol: string): int {
    if symbol in a.positions then a.positions[symbol].quantity else 0
  }

  /**
   An order with positive quantity and price is refused exactly when the cash cannot pay the shares with commission,
   or the shares are not there to sell; an executed one changes the shares held by its quantity and no other holding.
   */
  lemma RefusedIff(r: Rates, a: Account, o: Order)
    requires PositiveHoldings(a) && o.quantity > 0 && o.price > 0.0
    ensures Step(r, a, o).1 == Refused <==>
            if o.side.Buy? then Amount(o.quantity, o.price) * (1.0 + r.commission) > a.cash
            else SharesHeld(a, o.symbol) < o.quantity
    ensures Step(r, a, o).1 == Executed <==> Step(r, a, o).1 != Refused
    ensures Step(r, a, o).1 == Executed ==>
              SharesHeld(Step(r, a, o).0, o.symbol)
              == SharesHeld(a, o.symbol) + if o.side.Buy? then o.quantity else -o.quantity
    ensures forall s :: s != o.symbol ==> Held(Step(r, a, o).0, s) == Held(a, s)
  {
    var cost := Amount(o.quantity, o.price);
    assert cost * (1.0 + r.commission) == cost + Charge(cost, r.commission);
  }

  // ---------- runs ----------

  function Run(r: Rates, a: Account, orders: seq<Order>): Account
    requires PositiveHoldings(a)
    decreases |orders|
  {
    if orders == [] then a
    else
      StepKeepsHoldings(r, a, orders[0]);
      Run(r, Step(r, a, orders[0]).0, orders[1..])
  }

  // ---------- equity and cost basis ----------

  function PriceOf(prices: map<string, real>, pos: Position): real {
    if pos.symbol in prices then prices[pos.symbol] else pos.avgPrice
  }

  function Values(positions: map<string, Position>, prices: map<string, real>): map<string, real> {
    map s | s in positions :: Amount(positions[s].quantity, PriceOf(prices, positions[s]))
  }

  function Costs(positions: map<string, Position>): map<string, real> {
    map s | s in positions :: CostOf(positions[s])
  }

  function GainOf(pos: Position, prices: map<string, real>): real {
    Amount(pos.quantity, PriceOf(prices, pos)) - CostOf(pos)
  }

  function Gains(positions: map<string, Position>, prices: map<string, real>): map<string, real> {
    map s | s in positions :: GainOf(positions[s], prices)
  }

  ghost function Equity(a: Account, prices: map<string, real>): real {
    a.cash + Total(Values(a.positions, prices))
  }

  ghost function UnrealizedPnl(a: Account, prices: map<string, real>): real {
    Total(Gains(a.positions, prices))
  }

  ghost function TotalPnl(a: Account, prices: map<string, real>): real {
    a.realizedPnl + UnrealizedPnl(a, prices)
  }

  ghost function CostBasis(a: Account): real {
    Total(Costs(a.positions))
  }

  function BuyCommissions(history: seq<Trade>): real {
    if history == [] then 0.0
    else
      BuyCommissions(history[..|history| - 1])
      + if history[|history| - 1].side.Buy? then history[|history| - 1].commission else 0.0
  }

  lemma CostsUpdated(positions: map<string, Position>, s: string, pos: Position)
    ensures Total(Costs(positions[s := pos]))
            == Total(Costs(positions)) - (if s in positions then CostOf(positions[s]) else 0.0) + CostOf(pos)
  {
    var costs := Costs(positions);
    assert Costs(positions[s := pos]) == costs[s := CostOf(pos)];
    TotalUpdate(costs, s, CostOf(pos));
  }

  lemma CostsRemoved(positions: map<string, Position>, s: string)
    requires s in positions
    ensures Total(Costs(positions - {s})) == Total(Costs(positions)) - CostOf(positions[s])
  {
    assert Costs(positions - {s}) == Costs(positions) - {s};
    TotalRemove(Costs(positions), s);
  }

  lemma ReducedCosts(positions: map<string, Position>, s: string, quantity: int)
    requires s in positions
    ensures Total(Costs(Reduced(positions, s, quantity)))
            == Total(Costs(positions)) - CostOf(positions[s].(quantity := quantity))
  {
    var held := positions[s];
    var rest := held.(quantity := held.quantity - quantity);
    if rest.quantity == 0 {
      CostsRemoved(positions, s);
    } else {
      CostsUpdated(positions, s, rest);
      PartialSale(held, quantity);
    }
  }

  lemma PartialSale(held: Position, sold: int)
    ensures CostOf(held.(quantity := held.quantity - sold)) == CostOf(held) - CostOf(held.(quantity := sold))
  {
    assert (held.quantity - sold) as real == held.quantity as real - sold as real;
  }

  lemma BoughtCosts(positions: map<string, Position>, s: string, pos: Position, paid: real)
    requires CostOf(pos) == paid + (if s in positions then CostOf(positions[s]) else 0.0)
    ensures Total(Costs(positions[s := pos])) == Total(Costs(positions)) + paid
  {
    CostsUpdated(positions, s, pos);
  }

  /** A buy adds exactly what it paid for the shares to the cost basis; a sell removes its share at average cost. */
  lemma CostBasisConserved(r: Rates, a: Account, o: Order)
    requires PositiveHoldings(a) && Step(r, a, o).1 == Executed
    ensures CostBasis(Step(r, a, o).0) == CostBasis(a)
            + if o.side.Buy? then Amount(o.quantity, o.price) else -Amount(o.quantity, a.positions[o.symbol].avgPrice)
  {
    var s := o.symbol;
    if o.side.Buy? {
      AveragedPositive(Held(a, s), s, o.quantity, o.price);
      BoughtCosts(a.positions, s, Averaged(Held(a, s), s, o.quantity, o.price), Amount(o.quantity, o.price));
    } else {
      ReducedCosts(a.positions, s, o.quantity);
    }
  }

  // Cash plus cost basis moves only with realized P&L and with commissions paid on buys.
  ghost predicate Balanced(initialCash: real, a: Account) {
    a.cash + CostBasis(a) == initialCash + a.realizedPnl - BuyCommissions(a.history)
  }

  lemma BuyCommissionsAppend(history: seq<Trade>, t: Trade)
    ensures BuyCommissions(history + [t]) == BuyCommissions(history) + if t.side.Buy? then t.commission else 0.0
  {
    assert (history + [t])[..|history|] == history;
  }

  lemma BuyKeepsBalance(r: Rates, a: Account, o: Order, initialCash: real)
    requires PositiveHoldings(a) && Balanced(initialCash, a) && o.side.Buy? && Step(r, a, o).1 == Executed
    ensures Balanced(initialCash, Step(r, a, o).0)
  {
    var a' := Step(r, a, o).0;
    var cost := Amount(o.quantity, o.price);
    CostBasisConserved(r, a, o);
    BuyCommissionsAppend(a.history, a'.history[|a.history|]);
    assert a'.cash == a.cash - (cost + Charge(cost, r.commission));
  }

  lemma SellKeepsBalance(r: Rates, a: Account, o: Order, initialCash: real)
    requires PositiveHoldings(a) && Balanced(initialCash, a) && o.side.Sell? && Step(r, a, o).1 == Executed
    ensures Balanced(initialCash, Step(r, a, o).0)
  {
    var a' := Step(r, a, o).0;
    CostBasisConserved(r, a, o);
    BuyCommissionsAppend(a.history, a'.history[|a.history|]);
    assert a'.cash == a.cash + NetProceeds(r, o.quantity, o.price);
  }

  lemma StepKeepsBalance(r: Rates, a: Account, o: Order, initialCash: real)
    requires PositiveHoldings(a) && Balanced(initialCash, a)
    ensures Balanced(initialCash, Step(r, a, o).0)
  {
    if Step(r, a, o).1 == Executed {
      if o.side.Buy? {
        BuyKeepsBalance(r, a, o, initialCash);
      } else {
        SellKeepsBalance(r, a, o, initialCash);
      }
    }
  }

  // ---------- charges ----------

  // The value traded on one side, before charges.
  function Traded(history: seq<Trade>, side: Side): real {
    if history == [] then 0.0
    else
      var t := history[|history| - 1];
      Traded(history[..|history| - 1], side) + if t.side == side then t.quantity as real * t.price else 0.0
  }

  lemma TradedAppend(history: seq<Trade>, t: Trade, side: Side)
    ensures Traded(history + [t], side)
            == Traded(history, side) + if t.side == side then t.quantity as real * t.price else 0.0
  {
    assert (history + [t])[..|history|] == history;
  }

  lemma ChargeAdds(a: real, b: real, rate: real)
    ensures Charge(a + b, rate) == Charge(a, rate) + Charge(b, rate)
  {
  }

  // Cash and commissions follow from the rates and the values traded.
  predicate Charged(r: Rates, initialCash: real, a: Account) {
    var bought, sold := Traded(a.history, Buy), Traded(a.history, Sell);
    && a.cash == initialCash - bought - Charge(bought, r.commission)
                 + sold - Charge(sold, r.commission) - Charge(sold, r.tax)
    && BuyCommissions(a.history) == Charge(bought, r.commission)
    && a.totalCommission == Charge(bought, r.commission) + Charge(sold, r.commission)
  }

  // The record of an executed order: the order, its commission and, for a sale, the P&L.
  function RecordOf(r: Rates, a: Account, o: Order): Trade
    requires o.side.Sell? ==> o.symbol in a.positions
  {
    Trade(o.timestamp, o.symbol, o.side, o.quantity, o.price, Charge(Amount(o.quantity, o.price), r.commission),
          if o.side.Buy? then None
          else Some(NetProceeds(r, o.quantity, o.price) - Amount(o.quantity, a.positions[o.symbol].avgPrice)))
  }

  /** An executed order adds exactly its record to the history. */
  lemma TradeRecorded(r: Rates, a: Account, o: Order)
    requires PositiveHoldings(a) && Step(r, a, o).1 == Executed
    ensures Step(r, a, o).0.history == a.history + [RecordOf(r, a, o)]
  {
  }

  // The effect of one more trade on what was traded and charged.
  lemma OneMoreTraded(r: Rates, a: Account, o: Order)
    requires PositiveHoldings(a) && Step(r, a, o).1 == Executed
    ensures var h, h', value := a.history, Step(r, a, o).0.history, Amount(o.quantity, o.price);
            && Traded(h', Buy) == Traded(h, Buy) + (if o.side.Buy? then value else 0.0)
            && Traded(h', Sell) == Traded(h, Sell) + (if o.side.Sell? then value else 0.0)
            && BuyCommissions(h') == BuyCommissions(h) + if o.side.Buy? then Charge(value, r.commission) else 0.0
  {
    var t := RecordOf(r, a, o);
    TradeRecorded(r, a, o);
    TradedAppend(a.history, t, Buy);
    TradedAppend(a.history, t, Sell);
    BuyCommissionsAppend(a.history, t);
  }

  lemma BuyCharged(r: Rates, a: Account, o: Order, initialCash: real)
    requires PositiveHoldings(a) && Charged(r, initialCash, a) && o.side.Buy? && Step(r, a, o).1 == Executed
    ensures Charged(r, initialCash, Step(r, a, o).0)
  {
    OneMoreTraded(r, a, o);
    ChargeAdds(Traded(a.history, Buy), Amount(o.quantity, o.price), r.commission);
  }

  lemma SellCharged(r: Rates, a: Account, o: Order, initialCash: real)
    requires PositiveHoldings(a) && Charged(r, initialCash, a) && o.side.Sell? && Step(r, a, o).1 == Executed
    ensures Charged(r, initialCash, Step(r, a, o).0)
  {
    OneMoreTraded(r, a, o);
    ChargeAdds(Traded(a.history, Sell), Amount(o.quantity, o.price), r.commission);
    ChargeAdds(Traded(a.history, Sell), Amount(o.quantity, o.price), r.tax);
  }

  lemma StepCharged(r: Rates, a: Account, o: Order, initialCash: real)
    requires PositiveHoldings(a) && Charged(r, initialCash, a)
    ensures Charged(r, initialCash, Step(r, a, o).0)
  {
    if Step(r, a, o).1 == Executed {
      if o.side.Buy? {
        BuyCharged(r, a, o, initialCash);
      } else {
        SellCharged(r, a, o, initialCash);
      }
    }
  }

  lemma {:induction false} RunCharged(r: Rates, a: Account, orders: seq<Order>, initialCash: real)
    requires PositiveHoldings(a) && Charged(r, initialCash, a)
    ensures Charged(r, initialCash, Run(r, a, orders))
    decreases |orders|
  {
    if orders != [] {
      StepKeepsHoldings(r, a, orders[0]);
      StepCharged(r, a, orders[0], initialCash);
      RunCharged(r, Step(r, a, orders[0]).0, orders[1..], initialCash);
    }
  }

  // The same with the rates multiplied out.
  predicate FollowsRates(r: Rates, initialCash: real, a: Account) {
    var bought, sold := Traded(a.history, Buy), Traded(a.history, Sell);
    && a.cash == initialCash - (1.0 + r.commission) * bought + (1.0 - r.commission - r.tax) * sold
    && BuyCommissions(a.history) == r.commission * bought
    && a.totalCommission == r.commission * (bought + sold)
  }

  lemma CashInRates(cash: real, initialCash: real, bought: real, sold: real, c: real, t: real)
    requires cash == initialCash - bought - Charge(bought, c) + sold - Charge(sold, c) - Charge(sold, t)
    ensures cash == initialCash - (1.0 + c) * bought + (1.0 - c - t) * sold
  {
    assert (1.0 + c) * bought == bought + bought * c;
    assert (1.0 - c - t) * sold == sold - sold * c - sold * t;
  }

  lemma CommissionInRates(bought: real, sold: real, c: real)
    ensures Charge(bought, c) == c * bought
    ensures Charge(bought, c) + Charge(sold, c) == c * (bought + sold)
  {
  }

  lemma ChargedFollows(r: Rates, initialCash: real, a: Account)
    requires Charged(r, initialCash, a)
    ensures FollowsRates(r, initialCash, a)
  {
    var bought, sold := Traded(a.history, Buy), Traded(a.history, Sell);
    CashInRates(a.cash, initialCash, bought, sold, r.commission, r.tax);
    CommissionInRates(bought, sold, r.commission);
  }

  /**
   On every run, from the rates and what the history says was traded: cash is the initial cash less the purchases with
   their commission plus the sales less commission and tax, and the commissions are the rate on either side's value.
   */
  lemma ChargesFollowRates(r: Rates, initialCash: real, orders: seq<Order>)
    ensures FollowsRates(r, initialCash, Run(r, Open(initialCash), orders))
  {
    RunCharged(r, Open(initialCash), orders, initialCash);
    ChargedFollows(r, initialCash, Run(r, Open(initialCash), orders));
  }

  // ---------- equity against prices ----------

  /** Where no price is given, a position is worth what it cost. */
  lemma EquityAtCost(a: Account)
    ensures Equity(a, map[]) == a.cash + CostBasis(a)
  {
    assert Values(a.positions, map[]) == Costs(a.positions);
  }

  lemma AmountMoves(n: int, p: real, q: real)
    ensures Amount(n, q) - Amount(n, p) == Amount(n, q - p)
  {
  }

  lemma NoShares(p: real)
    ensures Amount(0, p) == 0.0
  {
  }

  lemma ValuesMove(positions: map<string, Position>, prices: map<string, real>, s: string, p: real)
    requires forall t :: t in positions ==> positions[t].symbol == t
    ensures Values(positions, prices[s := p])
            == if s in positions then Values(positions, prices)[s := Amount(positions[s].quantity, p)]
               else Values(positions, prices)
  {
  }

  lemma HeldValueMoves(a: Account, prices: map<string, real>, s: string, p: real)
    requires PositiveHoldings(a) && s in prices && s in a.positions
    ensures var n := a.positions[s].quantity;
            Total(Values(a.positions, prices[s := p])) == Total(Values(a.positions, prices)) - Amount(n, prices[s]) + Amount(n, p)
  {
    var values := Values(a.positions, prices);
    var n := a.positions[s].quantity;
    ValuesMove(a.positions, prices, s, p);
    TotalUpdate(values, s, Amount(n, p));
    assert values[s] == Amount(n, prices[s]);
  }

  /** A change of one price moves the equity by the shares held of that symbol times the change, and by nothing else. */
  lemma EquityMovesWithPrice(a: Account, prices: map<string, real>, s: string, p: real)
    requires PositiveHoldings(a) && s in prices
    ensures Equity(a, prices[s := p]) - Equity(a, prices) == Amount(SharesHeld(a, s), p - prices[s])
  {
    if s in a.positions {
      HeldValueMoves(a, prices, s, p);
      AmountMoves(a.positions[s].quantity, prices[s], p);
    } else {
      ValuesMove(a.positions, prices, s, p);
      NoShares(p - prices[s]);
    }
  }

  // ---------- replaying the history ----------

  // One recorded trade applied with the record alone: no rates, a sell's cash recovered from its P&L.
  function Replayed(a: Account, t: Trade): Account {
    var s := t.symbol;
    if t.side.Buy? then
      if t.quantity <= 0 || (s in a.positions && a.positions[s].quantity <= 0) then a
      else
        Account(a.cash - (Amount(t.quantity, t.price) + t.commission),
                a.positions[s := Averaged(Held(a, s), s, t.quantity, t.price)],
                a.history + [t], a.realizedPnl, a.totalCommission + t.commission)
    else if s !in a.positions || t.pnl.None? then a
    else
      Account(a.cash + (t.pnl.value + Amount(t.quantity, a.positions[s].avgPrice)), Reduced(a.positions, s, t.quantity),
              a.history + [t], a.realizedPnl + t.pnl.value, a.totalCommission + t.commission)
  }

  function Replay(initialCash: real, history: seq<Trade>): Account {
    if history == [] then Open(initialCash)
    else Replayed(Replay(initialCash, history[..|history| - 1]), history[|history| - 1])
  }

  lemma ReplayAppend(initialCash: real, history: seq<Trade>, t: Trade)
    ensures Replay(initialCash, history + [t]) == Replayed(Replay(initialCash, history), t)
  {
    assert (history + [t])[..|history|] == history;
  }

  lemma BuyReplays(r: Rates, a: Account, o: Order)
    requires PositiveHoldings(a) && BuyStep(r, a, o).1 == Executed
    ensures var a' := BuyStep(r, a, o).0;
            |a'.history| == |a.history| + 1 && a'.history == a.history + [a'.history[|a.history|]]
            && Replayed(a, a'.history[|a.history|]) == a'
  {
  }

  lemma SellReplays(r: Rates, a: Account, o: Order)
    requires SellStep(r, a, o).1 == Executed
    ensures var a' := SellStep(r, a, o).0;
            |a'.history| == |a.history| + 1 && a'.history == a.history + [a'.history[|a.history|]]
            && Replayed(a, a'.history[|a.history|]) == a'
  {
    var a' := SellStep(r, a, o).0;
    assert a'.realizedPnl - a.realizedPnl
        == NetProceeds(r, o.quantity, o.price) - Amount(o.quantity, a.positions[o.symbol].avgPrice);
  }

  lemma StepReplays(r: Rates, a: Account, o: Order, initialCash: real)
    requires PositiveHoldings(a) && Replay(initialCash, a.history) == a
    ensures Replay(initialCash, Step(r, a, o).0.history) == Step(r, a, o).0
  {
    var (a', outcome) := Step(r, a, o);
    if outcome == Executed {
      if o.side.Buy? {
        BuyReplays(r, a, o);
      } else {
        SellReplays(r, a, o);
      }
      ReplayAppend(initialCash, a.history, a'.history[|a.history|]);
    }
  }

  // ---------- what holds on every run ----------

  ghost predicate Sound(initialCash: real, a: Account) {
    PositiveHoldings(a) && Balanced(initialCash, a) && Replay(initialCash, a.history) == a
  }

  lemma StepSound(r: Rates, a: Account, o: Order, initialCash: real)
    requires Sound(initialCash, a)
    ensures Sound(initialCash, Step(r, a, o).0)
  {
    StepKeepsHoldings(r, a, o);
    StepKeepsBalance(r, a, o, initialCash);
    StepReplays(r, a, o, initialCash);
  }

  lemma {:induction false} RunSound(r: Rates, a: Account, orders: seq<Order>, initialCash: real)
    requires Sound(initialCash, a)
    ensures Sound(initialCash, Run(r, a, orders))
    decreases |orders|
  {
    if orders != [] {
      StepSound(r, a, orders[0], initialCash);
      RunSound(r, Step(r, a, orders[0]).0, orders[1..], initialCash);
    }
  }

  lemma OpenSound(initialCash: real)
    ensures Sound(initialCash, Open(initialCash))
  {
    assert Costs(map[]) == map[];
  }

  lemma SoundEquity(initialCash: real, a: Account, prices: map<string, real>)
    requires Sound(initialCash, a)
    ensures Equity(a, prices) == initialCash + TotalPnl(a, prices) - BuyCommissions(a.history)
  {
    TotalDifference(Values(a.positions, prices), Costs(a.positions), Gains(a.positions, prices));
  }

  /** On every run and for every price map: equity is initial cash plus total P&L minus the commissions paid on buys. */
  lemma EquityIdentity(r: Rates, initialCash: real, orders: seq<Order>, prices: map<string, real>)
    ensures var a := Run(r, Open(initialCash), orders);
            && PositiveHoldings(a)
            && Equity(a, prices) == initialCash + TotalPnl(a, prices) - BuyCommissions(a.history)
  {
    OpenSound(initialCash);
    RunSound(r, Open(initialCash), orders, initialCash);
    SoundEquity(initialCash, Run(r, Open(initialCash), orders), prices);
  }

  /** The trade history alone reproduces cash, positions, realized P&L and total commission, whatever the rates were. */
  lemma HistoryReproducesAccount(r: Rates, initialCash: real, orders: seq<Order>)
    ensures Replay(initialCash, Run(r, Open(initialCash), orders).history) == Run(r, Open(initialCash), orders)
  {
    OpenSound(initialCash);
    RunSound(r, Open(initialCash), orders, initialCash);
  }

  // ---------- cash ----------

  lemma {:induction false} CashStaysNonNegative(r: Rates, a: Account, orders: seq<Order>)
    requires PositiveHoldings(a) && a.cash >= 0.0 && r.commission + r.tax <= 1.0
    ensures Run(r, a, orders).cash >= 0.0
    decreases |orders|
  {
    if orders != [] {
      var o := orders[0];
      StepKeepsHoldings(r, a, o);
      if o.side.Sell? && o.quantity > 0 && o.price > 0.0 {
        NetProceedsSign(r, o.quantity, o.price);
      }
      CashStaysNonNegative(r, Step(r, a, o).0, orders[1..]);
    }
  }

  lemma NetProceedsSign(r: Rates, quantity: int, price: real)
    requires quantity > 0 && price > 0.0
    ensures NetProceeds(r, quantity, price) == Amount(quantity, price) * (1.0 - r.commission - r.tax)
    ensures r.commission + r.tax <= 1.0 ==> NetProceeds(r, quantity, price) >= 0.0
  {
    var proceeds := Amount(quantity, price);
    assert proceeds > 0.0;
    var share := 1.0 - r.commission - r.tax;
    assert proceeds * share == proceeds - proceeds * r.commission - proceeds * r.tax;
    if share >= 0.0 {
      assert proceeds * share >= 0.0;
    }
  }

  // A price at which one share sells for less than nothing, by the given amount.
  lemma LosingPrice(r: Rates, loss: real) returns (price: real)
    requires loss > 0.0 && r.commission + r.tax > 1.0
    ensures price > 0.0 && NetProceeds(r, 1, price) == -loss
  {
    var excess := r.commission + r.tax - 1.0;
    price := loss / excess;
    assert price * excess == loss;
    NetProceedsSign(r, 1, price);
    assert Amount(1, price) == price;
    assert price * (1.0 - r.commission - r.tax) == -(price * excess);
  }

  // A price the cash covers, commission included.
  lemma AffordablePrice(r: Rates, cash: real) returns (price: real)
    requires cash > 0.0
    ensures price > 0.0 && Amount(1, price) + Charge(Amount(1, price), r.commission) <= cash
  {
    var c := if r.commission >= 0.0 then r.commission else -r.commission;
    price := cash / (1.0 + c);
    assert price * (1.0 + c) == cash && Amount(1, price) == price;
    assert price * r.commission <= price * c;
  }

  // A share bought cheaply and sold so high that the charges exceed all the cash.
  lemma ExcessiveChargesOverdraw(r: Rates, initialCash: real) returns (orders: seq<Order>)
    requires initialCash > 0.0 && r.commission + r.tax > 1.0
    ensures Run(r, Open(initialCash), orders).cash < 0.0
  {
    var a := Open(initialCash);
    var low := AffordablePrice(r, initialCash);
    var buy := Order(Buy, "X", 1, low, 0);
    StepKeepsHoldings(r, a, buy);
    var a1 := BuyStep(r, a, buy).0;
    assert a1.cash >= 0.0 && a1.positions == map["X" := Position("X", 1, low)];
    var high := LosingPrice(r, a1.cash + 1.0);
    var sell := Order(Sell, "X", 1, high, 1);
    StepKeepsHoldings(r, a1, sell);
    var a2 := SellStep(r, a1, sell).0;
    assert a2.cash == a1.cash + NetProceeds(r, 1, high);
    orders := [buy, sell];
    assert orders[1..] == [sell] && [sell][1..] == [];
    assert Run(r, a2, []) == a2 && Run(r, a1, [sell]) == a2;
  }

  /** Cash stays non-negative on every run exactly when commission and tax together take at most all the proceeds. */
  lemma CashNonNegativeIff(r: Rates, initialCash: real)
    requires initialCash > 0.0
    ensures r.commission + r.tax <= 1.0 <==> (forall orders: seq<Order> :: Run(r, Open(initialCash), orders).cash >= 0.0)
  {
    if r.commission + r.tax <= 1.0 {
      forall orders: seq<Order> ensures Run(r, Open(initialCash), orders).cash >= 0.0 {
        CashStaysNonNegative(r, Open(initialCash), orders);
      }
    } else {
      var orders := ExcessiveChargesOverdraw(r, initialCash);
    }
  }
}
