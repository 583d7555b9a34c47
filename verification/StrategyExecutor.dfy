/** The loop that places the initial orders, over a live monitor and an order table. */
module StrategyExecutor {
  import opened PositionMonitor
  import opened InitialOrders

  // The execution's order rows; an identifier is a row number here.
  class OrderTable {
    var orders: seq<OrderRecord>

    constructor ()
      ensures orders == []
    {
      orders := [];
    }

    method CreateOrder(symbol: string, quantity: int) returns (id: nat)
      modifies this
      ensures id == |old(orders)| && orders == old(orders) + [OrderRecord(symbol, quantity, PENDING)]
    {
      id := |orders|;
      orders := orders + [OrderRecord(symbol, quantity, PENDING)];
    }

    method UpdateOrderStatus(id: nat, status: Status)
      requires id < |orders|
      modifies this
      ensures orders == old(orders)[id := old(orders)[id].(status := status)]
    {
      orders := orders[id := orders[id].(status := status)];
    }
  }

  /** Returns whether a database error ended the loop. */
  method ExecuteInitialOrders(
    c: RiskConfig, symbols: seq<string>, allocation: map<string, real>, capital: real,
    monitor: Monitor, table: OrderTable, envs: seq<Environment>) returns (aborted: bool, ghost deployed: seq<real>)
    requires |symbols| == |envs|
    modifies monitor, table
    ensures Placement(monitor.View(), table.orders, deployed, aborted)
            == Place(c, capital, allocation, Placement(old(monitor.View()), old(table.orders), [], false), symbols, envs)
  {
    ghost var start := Placement(monitor.View(), table.orders, [], false);
    aborted, deployed := false, [];
    for i := 0 to |symbols|
      invariant !aborted
      invariant Placement(monitor.View(), table.orders, deployed, false)
                == Place(c, capital, allocation, start, symbols[..i], envs[..i])
    {
      PlacePrefix(c, capital, allocation, start, symbols, envs, i);
      var raised, value := ExecuteOne(c, symbols[i], Allocated(allocation, symbols[i]), capital, monitor, table, envs[i],
                                      allocation, deployed);
      deployed := value;
      if raised {
        PlaceStopped(c, capital, allocation, start, symbols, envs, i + 1);
        return true, deployed;
      }
    }
    assert symbols[..|symbols|] == symbols && envs[..|envs|] == envs;
  }

  /** One turn of the loop. */
  method ExecuteOne(
    c: RiskConfig, symbol: string, share: real, capital: real, monitor: Monitor, table: OrderTable, env: Environment,
    ghost allocation: map<string, real>, ghost before: seq<real>) returns (raised: bool, ghost deployed: seq<real>)
    requires share == Allocated(allocation, symbol)
    modifies monitor, table
    ensures Placement(monitor.View(), table.orders, deployed, raised)
            == PlaceOne(c, capital, allocation, Placement(old(monitor.View()), old(table.orders), before, false), symbol, env)
  {
    deployed := before;
    if share <= 0.0 {
      return false, deployed;
    }
    var quantity := QuantityFor(capital, share);
    if quantity <= 0 {
      return false, deployed;
    }
    if env.createRaises {
      return true, deployed;
    }
    var id := table.CreateOrder(symbol, quantity);
    var portfolioValue := monitor.GetPortfolioValue();
    if portfolioValue == 0.0 {
      portfolioValue := capital;
    }
    if env.checkRaises {
      return true, deployed;
    }
    var violations, warnings := CheckOrder(c, symbol, BUY, quantity, PRICE, map[], portfolioValue, env.dailyPnl);
    if |violations| > 0 {
      assert violations[0] in violations;
      if env.rejectRaises {
        return true, deployed;
      }
      table.UpdateOrderStatus(id, REJECTED);
      return false, deployed;
    }
    assert Passes(c, symbol, BUY, OrderValue(quantity), map[], portfolioValue, env.dailyPnl);
    var failed := env.acceptRaises;
    if !failed {
      table.UpdateOrderStatus(id, ACCEPTED);
      monitor.AddPosition(symbol, quantity, PRICE, LONG);
      deployed := deployed + [OrderValue(quantity)];
      failed := env.positionsRaise;
    }
    if failed {
      if env.rejectRaises {
        return true, deployed;
      }
      table.UpdateOrderStatus(id, REJECTED);
    }
    return false, deployed;
  }

  lemma PlacePrefix(
    c: RiskConfig, capital: real, allocation: map<string, real>, start: Placement, symbols: seq<string>,
    envs: seq<Environment>, i: nat)
    requires |symbols| == |envs| && i < |symbols|
    requires !Place(c, capital, allocation, start, symbols[..i], envs[..i]).aborted
    ensures Place(c, capital, allocation, start, symbols[..i + 1], envs[..i + 1])
            == PlaceOne(c, capital, allocation, Place(c, capital, allocation, start, symbols[..i], envs[..i]), symbols[i], envs[i])
  {
    assert symbols[..i + 1][..i] == symbols[..i] && envs[..i + 1][..i] == envs[..i];
  }

  // Nothing happens after an error.
  lemma {:induction false} PlaceStopped(
    c: RiskConfig, capital: real, allocation: map<string, real>, start: Placement, symbols: seq<string>,
    envs: seq<Environment>, i: nat)
    requires |symbols| == |envs| && i <= |symbols|
    requires Place(c, capital, allocation, start, symbols[..i], envs[..i]).aborted
    ensures Place(c, capital, allocation, start, symbols, envs) == Place(c, capital, allocation, start, symbols[..i], envs[..i])
    decreases |symbols|
  {
    var n := |symbols| - 1;
    if i == |symbols| {
      assert symbols[..i] == symbols && envs[..i] == envs;
    } else {
      assert symbols[..n][..i] == symbols[..i] && envs[..n][..i] == envs[..i];
      PlaceStopped(c, capital, allocation, start, symbols[..n], envs[..n], i);
    }
  }
}
