/** The account object of the backtest engine, proved against the account steps of Portfolio. */
module PortfolioManager {
  import opened MapSum
  import opened Options
  import opened Portfolio

  datatype EquityPoint = EquityPoint(timestamp: int, equity: real, cash: real, positionValue: real)

  class Manager {
    const initialCash: real
    const rates: Rates
    var cash: real
    var positions: map<string, Position>
    var tradeHistory: seq<Trade>
    var equityCurve: seq<EquityPoint>
    var realizedPnl: real
    var totalCommission: real

    function View(): Account
      reads this
    {
      Account(cash, positions, tradeHistory, realizedPnl, totalCommission)
    }

    ghost predicate Valid()
      reads this
    {
      Sound(initialCash, View())
    }

    constructor (initialCash: real, rates: Rates)
      requires initialCash > 0.0
      ensures Valid() && View() == Open(initialCash) && equityCurve == []
      ensures this.initialCash == initialCash && this.rates == rates
    {
      this.initialCash, this.rates := initialCash, rates;
      cash, positions, tradeHistory, equityCurve := initialCash, map[], [], [];
      realizedPnl, totalCommission := 0.0, 0.0;
      assert Costs(map[]) == map[];
    }

    /** The constructor's argument check: no account for a non-positive balance. */
    static method Create(initialCash: real, rates: Rates) returns (m: Manager?)
      ensures m == null <==> initialCash <= 0.0
      ensures m != null ==> fresh(m) && m.Valid() && m.View() == Open(initialCash) && m.rates == rates
    {
      if initialCash <= 0.0 {
        return null;
      }
      m := new Manager(initialCash, rates);
    }

    method ExecuteBuy(symbol: string, quantity: int, price: real, timestamp: int) returns (outcome: Outcome)
      requires Valid()
      modifies this`cash, this`positions, this`tradeHistory, this`totalCommission
      ensures (View(), outcome) == BuyStep(rates, old(View()), Order(Buy, symbol, quantity, price, timestamp))
      ensures outcome == Executed ==>
                var value := Amount(quantity, price);
                && cash == old(cash) - (value + Charge(value, rates.commission))
                && totalCommission == old(totalCommission) + Charge(value, rates.commission)
      ensures Valid()
    {
      ghost var before, order := View(), Order(Buy, symbol, quantity, price, timestamp);
      if quantity <= 0 || price <= 0.0 {
        return InvalidArguments;
      }
      var cost := Amount(quantity, price);
      var commission := Charge(cost, rates.commission);
      var totalCost := cost + commission;
      if totalCost > cash {
        return Refused;
      }
      cash := cash - totalCost;
      totalCommission := totalCommission + commission;
      if symbol in positions {
        var pos := positions[symbol];
        var totalQuantity := pos.quantity + quantity;
        var totalCostBasis := Amount(pos.quantity, pos.avgPrice) + Amount(quantity, price);
        positions := positions[symbol := pos.(avgPrice := PerShare(totalCostBasis, totalQuantity), quantity := totalQuantity)];
      } else {
        positions := positions[symbol := Position(symbol, quantity, price)];
      }
      tradeHistory := tradeHistory + [Trade(timestamp, symbol, Buy, quantity, price, commission, None)];
      assert positions == before.positions[symbol := Averaged(Held(before, symbol), symbol, quantity, price)];
      assert (View(), Executed) == Step(rates, before, order);
      StepSound(rates, before, order, initialCash);
      return Executed;
    }

    method ExecuteSell(symbol: string, quantity: int, price: real, timestamp: int) returns (outcome: Outcome)
      requires Valid()
      modifies this`cash, this`positions, this`tradeHistory, this`totalCommission, this`realizedPnl
      ensures (View(), outcome) == SellStep(rates, old(View()), Order(Sell, symbol, quantity, price, timestamp))
      ensures outcome == Executed ==>
                var value := Amount(quantity, price);
                && cash == old(cash) + (value - Charge(value, rates.commission) - Charge(value, rates.tax))
                && totalCommission == old(totalCommission) + Charge(value, rates.commission)
      ensures Valid()
    {
      ghost var before, order := View(), Order(Sell, symbol, quantity, price, timestamp);
      if quantity <= 0 || price <= 0.0 {
        return InvalidArguments;
      }
      if symbol !in positions {
        return Refused;
      }
      var pos := positions[symbol];
      if pos.quantity < quantity {
        return Refused;
      }
      var proceeds := Amount(quantity, price);
      var commission := Charge(proceeds, rates.commission);
      var tax := Charge(proceeds, rates.tax);
      var netProceeds := proceeds - commission - tax;
      cash := cash + netProceeds;
      totalCommission := totalCommission + commission;
      var costBasis := Amount(quantity, pos.avgPrice);
      var pnl := netProceeds - costBasis;
      realizedPnl := realizedPnl + pnl;
      pos := pos.(quantity := pos.quantity - quantity);
      if pos.quantity == 0 {
        positions := positions - {symbol};
      } else {
        positions := positions[symbol := pos];
      }
      tradeHistory := tradeHistory + [Trade(timestamp, symbol, Sell, quantity, price, commission, Some(pnl))];
      assert netProceeds == NetProceeds(rates, quantity, price);
      assert positions == Reduced(before.positions, symbol, quantity);
      assert (View(), Executed) == Step(rates, before, order);
      StepSound(rates, before, order, initialCash);
      return Executed;
    }

    // The generator sum inside get_equity.
    method SumPositionValues(currentPrices: map<string, real>) returns (positionValue: real)
      ensures positionValue == Total(Values(positions, currentPrices))
    {
      positionValue := 0.0;
      var pending := positions.Keys;
      ghost var rest := Values(positions, currentPrices);
      while pending != {}
        invariant pending == rest.Keys <= positions.Keys
        invariant forall s :: s in pending ==> rest[s] == Amount(positions[s].quantity, PriceOf(currentPrices, positions[s]))
        invariant positionValue + Total(rest) == Total(Values(positions, currentPrices))
        decreases |pending|
      {
        var s :| s in pending;
        TotalRemove(rest, s);
        positionValue := positionValue + Amount(positions[s].quantity, PriceOf(currentPrices, positions[s]));
        pending, rest := pending - {s}, rest - {s};
      }
    }

    method GetEquity(currentPrices: map<string, real>) returns (equity: real)
      requires Valid()
      ensures equity == Equity(View(), currentPrices)
      ensures equity == initialCash + TotalPnl(View(), currentPrices) - BuyCommissions(tradeHistory)
    {
      var positionValue := SumPositionValues(currentPrices);
      SoundEquity(initialCash, View(), currentPrices);
      return cash + positionValue;
    }

    method GetUnrealizedPnl(currentPrices: map<string, real>) returns (unrealized: real)
      ensures unrealized == UnrealizedPnl(View(), currentPrices)
    {
      unrealized := 0.0;
      var pending := positions.Keys;
      ghost var rest := Gains(positions, currentPrices);
      while pending != {}
        invariant pending == rest.Keys <= positions.Keys
        invariant forall s :: s in pending ==> rest[s] == GainOf(positions[s], currentPrices)
        invariant unrealized + Total(rest) == Total(Gains(positions, currentPrices))
        decreases |pending|
      {
        var s :| s in pending;
        TotalRemove(rest, s);
        unrealized := unrealized + GainOf(positions[s], currentPrices);
        pending, rest := pending - {s}, rest - {s};
      }
    }

    method GetTotalPnl(currentPrices: map<string, real>) returns (pnl: real)
      ensures pnl == TotalPnl(View(), currentPrices)
    {
      var unrealized := GetUnrealizedPnl(currentPrices);
      return realizedPnl + unrealized;
    }

    method UpdateEquityCurve(timestamp: int, currentPrices: map<string, real>)
      requires Valid()
      modifies this`equityCurve
      ensures var equity := Equity(View(), currentPrices);
              equityCurve == old(equityCurve) + [EquityPoint(timestamp, equity, cash, equity - cash)]
    {
      var equity := GetEquity(currentPrices);
      equityCurve := equityCurve + [EquityPoint(timestamp, equity, cash, equity - cash)];
    }
  }
}
