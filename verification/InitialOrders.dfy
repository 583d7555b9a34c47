/**
 Initial orders of a strategy: one limit order per allocated symbol, each checked against limits taken from the
 holdings the earlier orders have built up. Money is exact.
 */
module InitialOrders {
  import opened MapSum
  import Portfolio
  import opened PositionMonitor

  // ---------- the risk check ----------

  datatype RiskConfig = RiskConfig(
    maxTotalExposure: real, maxPositionSize: real, maxDailyLoss: real, maxDailyLossAmount: real,
    minOrderSize: real, maxOrderSize: real)

  datatype OrderSide = BUY | SELL

  datatype Violation =
    | MinOrderSize | MaxOrderSize | MaxPosition | MaxExposure | DailyLossAmount | DailyLossPercent

  datatype Warning = PositionWarning | DailyLossWarning

  function Abs(x: real): real {
    if x < 0.0 then -x else x
  }

  function ShareOf(part: real, whole: real): real {
    if whole > 0.0 then part / whole else 0.0
  }

  function ValueHeld(current: map<string, real>, symbol: string): real {
    if symbol in current then current[symbol] else 0.0
  }

  // The figures the limits are compared with.
  datatype Figures = Figures(value: real, positionShare: real, exposure: real, dailyPnl: real, lossShare: real)

  ghost function FiguresFor(
    symbol: string, side: OrderSide, value: real, current: map<string, real>, portfolioValue: real, dailyPnl: real): Figures
  {
    Figures(value,
            ShareOf(ValueHeld(current, symbol) + (if side.BUY? then value else -value), portfolioValue),
            Total(current) + (if side.BUY? then value else 0.0),
            dailyPnl, Abs(ShareOf(dailyPnl, portfolioValue)))
  }

  predicate Breaks(c: RiskConfig, v: Violation, f: Figures) {
    match v
    case MinOrderSize => f.value < c.minOrderSize
    case MaxOrderSize => f.value > c.maxOrderSize
    case MaxPosition => f.positionShare > c.maxPositionSize
    case MaxExposure => f.exposure > c.maxTotalExposure
    case DailyLossAmount => f.dailyPnl < 0.0 && Abs(f.dailyPnl) > c.maxDailyLossAmount
    case DailyLossPercent => f.dailyPnl < 0.0 && f.lossShare > c.maxDailyLoss
  }

  ghost predicate Passes(
    c: RiskConfig, symbol: string, side: OrderSide, value: real, current: map<string, real>,
    portfolioValue: real, dailyPnl: real)
  {
    forall v: Violation :: !Breaks(c, v, FiguresFor(symbol, side, value, current, portfolioValue, dailyPnl))
  }

  method SumValues(current: map<string, real>) returns (sum: real)
    ensures sum == Total(current)
  {
    sum := 0.0;
    var rest := current;
    while rest != map[]
      invariant sum + Total(rest) == Total(current)
      decreases |rest|
    {
      var k :| k in rest;
      TotalRemove(rest, k);
      sum := sum + rest[k];
      rest := rest - {k};
    }
  }

  /** Collects every broken limit, and a warning exactly where the corresponding limit holds but is near. */
  method CheckOrder(
    c: RiskConfig, symbol: string, side: OrderSide, quantity: int, price: real, current: map<string, real>,
    portfolioValue: real, dailyPnl: real) returns (violations: seq<Violation>, warnings: seq<Warning>)
    ensures var f := FiguresFor(symbol, side, Portfolio.Amount(quantity, price), current, portfolioValue, dailyPnl);
            && (forall v: Violation :: v in violations <==> Breaks(c, v, f))
            && (PositionWarning in warnings <==> c.maxPositionSize >= f.positionShare > c.maxPositionSize * 0.8)
            && (DailyLossWarning in warnings <==> dailyPnl < 0.0 && c.maxDailyLoss >= f.lossShare > c.maxDailyLoss * 0.7)
    ensures PositionWarning in warnings ==> MaxPosition !in violations
    ensures DailyLossWarning in warnings ==> DailyLossPercent !in violations
  {
    var orderValue := Portfolio.Amount(quantity, price);
    var newValue := ValueHeld(current, symbol) + if side == BUY then orderValue else -orderValue;
    var exposure := SumValues(current);
    exposure := exposure + if side == BUY then orderValue else 0.0;
    var f := Figures(orderValue, ShareOf(newValue, portfolioValue), exposure, dailyPnl, Abs(ShareOf(dailyPnl, portfolioValue)));
    violations, warnings := CompareWithLimits(c, f);
  }

  method CompareWithLimits(c: RiskConfig, f: Figures) returns (violations: seq<Violation>, warnings: seq<Warning>)
    ensures forall v: Violation :: v in violations <==> Breaks(c, v, f)
    ensures PositionWarning in warnings <==> c.maxPositionSize >= f.positionShare > c.maxPositionSize * 0.8
    ensures DailyLossWarning in warnings <==> f.dailyPnl < 0.0 && c.maxDailyLoss >= f.lossShare > c.maxDailyLoss * 0.7
  {
    violations, warnings := [], [];
    if f.value < c.minOrderSize {
      violations := violations + [MinOrderSize];
    }
    if f.value > c.maxOrderSize {
      violations := violations + [MaxOrderSize];
    }
    if f.positionShare > c.maxPositionSize {
      violations := violations + [MaxPosition];
    } else if f.positionShare > c.maxPositionSize * 0.8 {
      warnings := warnings + [PositionWarning];
    }
    if f.exposure > c.maxTotalExposure {
      violations := violations + [MaxExposure];
    }
    var lossViolations, lossWarnings := CompareLosses(c, f);
    violations, warnings := violations + lossViolations, warnings + lossWarnings;
  }

  // The daily loss limits matter only on a losing day.
  method CompareLosses(c: RiskConfig, f: Figures) returns (violations: seq<Violation>, warnings: seq<Warning>)
    ensures forall v: Violation :: v in violations <==> (v.DailyLossAmount? || v.DailyLossPercent?) && Breaks(c, v, f)
    ensures PositionWarning !in warnings
    ensures DailyLossWarning in warnings <==> f.dailyPnl < 0.0 && c.maxDailyLoss >= f.lossShare > c.maxDailyLoss * 0.7
  {
    violations, warnings := [], [];
    if f.dailyPnl < 0.0 {
      if Abs(f.dailyPnl) > c.maxDailyLossAmount {
        violations := violations + [DailyLossAmount];
      }
      if f.lossShare > c.maxDailyLoss {
        violations := violations + [DailyLossPercent];
      } else if f.lossShare > c.maxDailyLoss * 0.7 {
        warnings := warnings + [DailyLossWarning];
      }
    }
  }

  // ---------- what passes ----------

  function Portion(share: real, whole: real): real {
    share * whole
  }

  // A share of a portfolio worth nothing counts as none.
  predicate WithinShare(limit: real, part: real, whole: real) {
    if whole > 0.0 then part <= Portion(limit, whole) else 0.0 <= limit
  }

  lemma ShareWithin(limit: real, part: real, whole: real)
    ensures ShareOf(part, whole) <= limit <==> WithinShare(limit, part, whole)
  {
    if whole > 0.0 {
      var share := part / whole;
      assert share * whole == part;
      assert share <= limit <==> share * whole <= limit * whole;
    }
  }

  lemma LossShareWithin(limit: real, dailyPnl: real, whole: real)
    requires dailyPnl < 0.0
    ensures Abs(ShareOf(dailyPnl, whole)) <= limit <==> WithinShare(limit, -dailyPnl, whole)
  {
    ShareWithin(limit, -dailyPnl, whole);
    if whole > 0.0 {
      var share := dailyPnl / whole;
      assert share * whole == dailyPnl;
      assert share < 0.0;
      assert (-share) * whole == -dailyPnl;
      assert (-dailyPnl) / whole == -share by {
        var other := (-dailyPnl) / whole;
        assert other * whole == -dailyPnl;
        assert (other + share) * whole == 0.0;
      }
    }
  }

  /** The orders that pass, in amounts of money: no limit is left out and none is stricter than it reads. */
  lemma PassesIff(
    c: RiskConfig, symbol: string, side: OrderSide, value: real, current: map<string, real>, whole: real, dailyPnl: real)
    ensures Passes(c, symbol, side, value, current, whole, dailyPnl) <==>
            && c.minOrderSize <= value <= c.maxOrderSize
            && WithinShare(c.maxPositionSize, ValueHeld(current, symbol) + (if side.BUY? then value else -value), whole)
            && Total(current) + (if side.BUY? then value else 0.0) <= c.maxTotalExposure
            && (dailyPnl < 0.0 ==> -dailyPnl <= c.maxDailyLossAmount && WithinShare(c.maxDailyLoss, -dailyPnl, whole))
  {
    var f := FiguresFor(symbol, side, value, current, whole, dailyPnl);
    ShareWithin(c.maxPositionSize, ValueHeld(current, symbol) + (if side.BUY? then value else -value), whole);
    if dailyPnl < 0.0 {
      LossShareWithin(c.maxDailyLoss, dailyPnl, whole);
    }
    EveryLimit(c, f);
    assert Passes(c, symbol, side, value, current, whole, dailyPnl) <==> forall v: Violation :: !Breaks(c, v, f);
  }

  lemma EveryLimit(c: RiskConfig, f: Figures)
    ensures (forall v: Violation :: !Breaks(c, v, f)) <==>
            && c.minOrderSize <= f.value <= c.maxOrderSize && f.positionShare <= c.maxPositionSize
            && f.exposure <= c.maxTotalExposure
            && (f.dailyPnl < 0.0 ==> -f.dailyPnl <= c.maxDailyLossAmount && f.lossShare <= c.maxDailyLoss)
  {
    if forall v: Violation :: !Breaks(c, v, f) {
      assert !Breaks(c, MinOrderSize, f) && !Breaks(c, MaxOrderSize, f) && !Breaks(c, MaxPosition, f);
      assert !Breaks(c, MaxExposure, f) && !Breaks(c, DailyLossAmount, f) && !Breaks(c, DailyLossPercent, f);
    }
  }

  // ---------- placing the orders ----------

  const PRICE: real := 100.0

  datatype Status = PENDING | ACCEPTED | REJECTED

  datatype OrderRecord = OrderRecord(symbol: string, quantity: int, status: Status)

  // What the database answers while one symbol is handled: which calls raise, and the day's P&L it reports.
  datatype Environment = Environment(
    createRaises: bool, checkRaises: bool, dailyPnl: real, acceptRaises: bool, positionsRaise: bool, rejectRaises: bool)

  // `deployed` lists the values of the orders that reached the monitor, oldest first.
  datatype Placement = Placement(book: Book, orders: seq<OrderRecord>, deployed: seq<real>, aborted: bool)

  // int() of a quotient truncates towards zero.
  function Truncate(x: real): int {
    if x >= 0.0 then x.Floor else -((-x).Floor)
  }

  function Allocated(allocation: map<string, real>, symbol: string): real {
    if symbol in allocation then allocation[symbol] else 0.0
  }

  function QuantityFor(capital: real, share: real): int {
    Truncate(capital * share / PRICE)
  }

  function OrderValue(quantity: int): real {
    Portfolio.Amount(quantity, PRICE)
  }

  ghost function Holdings(b: Book): real {
    Total(MarketValues(b.positions))
  }

  function WithLast(orders: seq<OrderRecord>, status: Status): seq<OrderRecord>
    requires orders != []
  {
    orders[|orders| - 1 := orders[|orders| - 1].(status := status)]
  }

  // The rejection branch: the status update may itself raise, which ends the loop.
  function Rejected(p: Placement, raises: bool): Placement
    requires p.orders != []
  {
    if raises then p.(aborted := true) else p.(orders := WithLast(p.orders, REJECTED))
  }

  function Submitted(p: Placement, symbol: string, quantity: int, env: Environment): Placement
    requires p.orders != []
  {
    if env.acceptRaises then Rejected(p, env.rejectRaises)
    else
      var held := Placement(AddStep(p.book, symbol, quantity, PRICE, LONG), WithLast(p.orders, ACCEPTED),
                            p.deployed + [OrderValue(quantity)], false);
      if env.positionsRaise then Rejected(held, env.rejectRaises) else held
  }

  // The order passes against what is held, or against the capital while nothing is.
  ghost predicate Admitted(c: RiskConfig, capital: real, p: Placement, symbol: string, quantity: int, dailyPnl: real) {
    Passes(c, symbol, BUY, OrderValue(quantity), map[],
           if Holdings(p.book) == 0.0 then capital else Holdings(p.book), dailyPnl)
  }

  ghost function PlaceQuantity(
    c: RiskConfig, capital: real, p: Placement, symbol: string, quantity: int, env: Environment): Placement
  {
    if env.createRaises then p.(aborted := true)
    else
      var created := p.(orders := p.orders + [OrderRecord(symbol, quantity, PENDING)]);
      if env.checkRaises then created.(aborted := true)
      else if !Admitted(c, capital, p, symbol, quantity, env.dailyPnl) then Rejected(created, env.rejectRaises)
      else Submitted(created, symbol, quantity, env)
  }

  ghost function PlaceOne(
    c: RiskConfig, capital: real, allocation: map<string, real>, p: Placement, symbol: string, env: Environment): Placement
    requires !p.aborted
  {
    var share := Allocated(allocation, symbol);
    var quantity := QuantityFor(capital, share);
    if share <= 0.0 || quantity <= 0 then p else PlaceQuantity(c, capital, p, symbol, quantity, env)
  }

  ghost function Place(
    c: RiskConfig, capital: real, allocation: map<string, real>, p: Placement, symbols: seq<string>, envs: seq<Environment>)
    : Placement
    requires |symbols| == |envs|
  {
    if symbols == [] then p
    else
      var n := |symbols| - 1;
      var before := Place(c, capital, allocation, p, symbols[..n], envs[..n]);
      if before.aborted then before else PlaceOne(c, capital, allocation, before, symbols[n], envs[n])
  }

  const NOTHING := Placement(PositionMonitor.Empty(), [], [], false)

  // ---------- what the limits add up to ----------

  function Sum(xs: seq<real>): real {
    if xs == [] then 0.0 else Sum(xs[..|xs| - 1]) + xs[|xs| - 1]
  }

  function Pow(b: real, n: nat): real {
    if n == 0 then 1.0 else b * Pow(b, n - 1)
  }

  function PositivePart(x: real): real {
    if x > 0.0 then x else 0.0
  }

  // The sum of the positive allocations, an entry of the symbol list at a time.
  function PositiveShares(allocation: map<string, real>, symbols: seq<string>): real {
    if symbols == [] then 0.0
    else
      var n := |symbols| - 1;
      PositiveShares(allocation, symbols[..n]) + PositivePart(Allocated(allocation, symbols[n]))
  }

  /** The quantity is the greatest whole number of shares the allotted capital pays; for a negative allotment the least. */
  lemma QuantityIsGreatest(capital: real, share: real)
    ensures var q := QuantityFor(capital, share);
            if capital * share >= 0.0 then q >= 0 && q as real * 100.0 <= capital * share < (q + 1) as real * 100.0
            else q <= 0 && (q - 1) as real * 100.0 < capital * share <= q as real * 100.0
  {
    var x := capital * share / PRICE;
    assert x * PRICE == capital * share;
  }

  /**
   What one turn does: nothing without a positive allocation that pays at least one share, else one order with that
   quantity. It is ACCEPTED only if the check lets it pass and the status can be written; its shares are bought exactly
   then; a failing call on the way either rejects the order or ends the loop.
   */
  lemma TurnOutcome(
    c: RiskConfig, capital: real, allocation: map<string, real>, p: Placement, symbol: string, env: Environment)
    requires !p.aborted
    ensures var p' := PlaceOne(c, capital, allocation, p, symbol, env);
            var share := if symbol in allocation then allocation[symbol] else 0.0;
            var q := QuantityFor(capital, share);
            if share <= 0.0 || q <= 0 then p' == p
            else if env.createRaises then p' == p.(aborted := true)
            else
              var whole := if Holdings(p.book) == 0.0 then capital else Holdings(p.book);
              var passes := Passes(c, symbol, BUY, q as real * 100.0, map[], whole, env.dailyPnl);
              var buys := !env.checkRaises && passes && !env.acceptRaises;
              var fails := !buys || env.positionsRaise;
              && p'.orders == p.orders + [OrderRecord(symbol, q,
                   if env.checkRaises then PENDING
                   else if fails && !env.rejectRaises then REJECTED
                   else if buys then ACCEPTED else PENDING)]
              && p'.aborted == (env.checkRaises || (fails && env.rejectRaises))
              && p'.book == (if buys then AddStep(p.book, symbol, q, 100.0, LONG) else p.book)
              && p'.deployed == (if buys then p.deployed + [q as real * 100.0] else p.deployed)
  {
    var q := QuantityFor(capital, Allocated(allocation, symbol));
    if !env.createRaises {
      QuantityOutcome(c, capital, p, symbol, q, env);
    }
  }

  lemma QuantityOutcome(c: RiskConfig, capital: real, p: Placement, symbol: string, q: int, env: Environment)
    requires !p.aborted && !env.createRaises
    ensures var p' := PlaceQuantity(c, capital, p, symbol, q, env);
            var buys := !env.checkRaises && Admitted(c, capital, p, symbol, q, env.dailyPnl) && !env.acceptRaises;
            var fails := !buys || env.positionsRaise;
            && p'.orders == p.orders + [OrderRecord(symbol, q,
                 if env.checkRaises then PENDING
                 else if fails && !env.rejectRaises then REJECTED
                 else if buys then ACCEPTED else PENDING)]
            && p'.aborted == (env.checkRaises || (fails && env.rejectRaises))
            && p'.book == (if buys then AddStep(p.book, symbol, q, PRICE, LONG) else p.book)
            && p'.deployed == (if buys then p.deployed + [OrderValue(q)] else p.deployed)
  {
    var o := OrderRecord(symbol, q, PENDING);
    AcceptedAppend(p.orders, o, ACCEPTED);
    AcceptedAppend(p.orders, o, REJECTED);
    AcceptedAppend(p.orders, o.(status := ACCEPTED), REJECTED);
  }

  // Everything is held long, at the one price.
  predicate AtPar(b: Book) {
    forall s :: s in b.positions ==> b.positions[s].currentPrice == PRICE && b.positions[s].quantity > 0
  }

  lemma AddAtPar(b: Book, symbol: string, quantity: int)
    requires AtPar(b) && quantity > 0
    ensures AtPar(AddStep(b, symbol, quantity, PRICE, LONG))
    ensures Holdings(AddStep(b, symbol, quantity, PRICE, LONG)) == Holdings(b) + OrderValue(quantity)
  {
    var b' := AddStep(b, symbol, quantity, PRICE, LONG);
    var values := MarketValues(b.positions);
    var value := MarketValue(b'.positions[symbol]);
    assert MarketValues(b'.positions) == values[symbol := value];
    TotalUpdate(values, symbol, value);
  }

  // Each order after the first is limited by what the earlier ones hold, the first by the capital.
  predicate Limited(m: real, capital: real, deployed: seq<real>) {
    deployed == [] ||
    (var front, last := deployed[..|deployed| - 1], deployed[|deployed| - 1];
     && Limited(m, capital, front)
     && 0.0 < last <= Portion(m, if front == [] then capital else Sum(front)))
  }

  ghost predicate Sound(c: RiskConfig, capital: real, p: Placement) {
    && AtPar(p.book)
    && Holdings(p.book) == Sum(p.deployed)
    && Limited(c.maxPositionSize, capital, p.deployed)
  }

  lemma SumAppend(xs: seq<real>, x: real)
    ensures Sum(xs + [x]) == Sum(xs) + x
  {
    assert (xs + [x])[..|xs|] == xs;
  }

  lemma {:induction false} LimitedPositive(m: real, capital: real, deployed: seq<real>)
    requires Limited(m, capital, deployed)
    ensures deployed != [] ==> Sum(deployed) > 0.0
    ensures Sum(deployed) >= 0.0
  {
    if deployed != [] {
      LimitedPositive(m, capital, deployed[..|deployed| - 1]);
    }
  }

  lemma LimitedAppend(m: real, capital: real, deployed: seq<real>, v: real)
    requires Limited(m, capital, deployed) && v > 0.0
    requires v <= Portion(m, if deployed == [] then capital else Sum(deployed))
    ensures Limited(m, capital, deployed + [v])
  {
    assert (deployed + [v])[..|deployed|] == deployed;
  }

  lemma PassedLimit(c: RiskConfig, symbol: string, value: real, whole: real, dailyPnl: real)
    requires Passes(c, symbol, BUY, value, map[], whole, dailyPnl) && whole > 0.0
    ensures value <= Portion(c.maxPositionSize, whole)
  {
    PassesIff(c, symbol, BUY, value, map[], whole, dailyPnl);
  }

  lemma PositiveFactor(a: real, b: real)
    requires b > 0.0 && a * b > 0.0
    ensures a > 0.0
  {
  }

  lemma PositiveOrder(capital: real, share: real)
    requires share > 0.0 && QuantityFor(capital, share) > 0
    ensures capital > 0.0 && 0.0 < OrderValue(QuantityFor(capital, share)) <= Portion(capital, share)
  {
    var x := capital * share / PRICE;
    assert x * PRICE == capital * share;
    assert x >= QuantityFor(capital, share) as real;
    PositiveFactor(capital, share);
  }

  lemma DeployedSound(c: RiskConfig, capital: real, p: Placement, symbol: string, quantity: int, dailyPnl: real)
    requires Sound(c, capital, p) && quantity > 0 && capital > 0.0
    requires Admitted(c, capital, p, symbol, quantity, dailyPnl)
    ensures Limited(c.maxPositionSize, capital, p.deployed + [OrderValue(quantity)])
    ensures AtPar(AddStep(p.book, symbol, quantity, PRICE, LONG))
    ensures Holdings(AddStep(p.book, symbol, quantity, PRICE, LONG)) == Sum(p.deployed + [OrderValue(quantity)])
  {
    var v := OrderValue(quantity);
    LimitedPositive(c.maxPositionSize, capital, p.deployed);
    PassedLimit(c, symbol, v, if Holdings(p.book) == 0.0 then capital else Holdings(p.book), dailyPnl);
    AddAtPar(p.book, symbol, quantity);
    SumAppend(p.deployed, v);
    LimitedAppend(c.maxPositionSize, capital, p.deployed, v);
  }

  lemma PlaceOneSound(
    c: RiskConfig, capital: real, allocation: map<string, real>, p: Placement, symbol: string, env: Environment)
    requires Sound(c, capital, p) && !p.aborted
    ensures Sound(c, capital, PlaceOne(c, capital, allocation, p, symbol, env))
  {
    var share := Allocated(allocation, symbol);
    var quantity := QuantityFor(capital, share);
    if share > 0.0 && quantity > 0 {
      PositiveOrder(capital, share);
      if Admitted(c, capital, p, symbol, quantity, env.dailyPnl) {
        DeployedSound(c, capital, p, symbol, quantity, env.dailyPnl);
      }
    }
  }

  lemma {:induction false} PlaceSound(
    c: RiskConfig, capital: real, allocation: map<string, real>, symbols: seq<string>, envs: seq<Environment>)
    requires |symbols| == |envs|
    ensures Sound(c, capital, Place(c, capital, allocation, NOTHING, symbols, envs))
    decreases |symbols|
  {
    if symbols == [] {
      assert MarketValues(map[]) == map[];
    } else {
      var n := |symbols| - 1;
      PlaceSound(c, capital, allocation, symbols[..n], envs[..n]);
      var before := Place(c, capital, allocation, NOTHING, symbols[..n], envs[..n]);
      if !before.aborted {
        PlaceOneSound(c, capital, allocation, before, symbols[n], envs[n]);
      }
    }
  }

  function Geometric(m: real, k: nat, capital: real): real {
    m * Pow(1.0 + m, k) * capital
  }

  lemma {:induction false} GeometricBound(m: real, capital: real, deployed: seq<real>)
    requires Limited(m, capital, deployed) && deployed != []
    ensures Sum(deployed) <= Geometric(m, |deployed| - 1, capital)
    decreases |deployed|
  {
    var n := |deployed| - 1;
    var front := deployed[..n];
    if n == 0 {
      assert front == [] && Sum(deployed) == deployed[0];
      assert Geometric(m, 0, capital) == Portion(m, capital);
    } else {
      GeometricBound(m, capital, front);
      LimitedPositive(m, capital, front);
      Compound(m, Sum(front), deployed[n], n - 1, capital);
    }
  }

  lemma Compound(m: real, held: real, next: real, k: nat, capital: real)
    requires held > 0.0 && 0.0 < next <= Portion(m, held) && held <= Geometric(m, k, capital)
    ensures held + next <= Geometric(m, k + 1, capital)
  {
    PositiveFactor(m, held);
    var power := Pow(1.0 + m, k);
    ScaleUp(held, m * power * capital, 1.0 + m);
    assert (1.0 + m) * (m * power * capital) == m * ((1.0 + m) * power) * capital;
  }

  lemma ScaleUp(a: real, b: real, factor: real)
    requires a <= b && factor >= 0.0
    ensures factor * a <= factor * b
  {
  }

  /**
   After k orders have reached the monitor, the value deployed is at most m(1+m)^(k-1) times the capital; the first
   is within m times the capital and each later one within m times what was held before it.
   */
  lemma DeploymentBound(
    c: RiskConfig, capital: real, allocation: map<string, real>, symbols: seq<string>, envs: seq<Environment>)
    requires |symbols| == |envs|
    ensures var p := Place(c, capital, allocation, NOTHING, symbols, envs);
            && Limited(c.maxPositionSize, capital, p.deployed)
            && Holdings(p.book) == Sum(p.deployed)
            && (p.deployed == [] ==> Holdings(p.book) == 0.0)
            && (p.deployed != [] ==>
                  Holdings(p.book) <= Geometric(c.maxPositionSize, |p.deployed| - 1, capital))
  {
    PlaceSound(c, capital, allocation, symbols, envs);
    var p := Place(c, capital, allocation, NOTHING, symbols, envs);
    if p.deployed != [] {
      GeometricBound(c.maxPositionSize, capital, p.deployed);
    }
  }

  // Each listed symbol's part of the capital, added up.
  function AllocatedValue(allocation: map<string, real>, symbols: seq<string>, capital: real): real {
    if symbols == [] then 0.0
    else
      var n := |symbols| - 1;
      AllocatedValue(allocation, symbols[..n], capital) + Portion(capital, PositivePart(Allocated(allocation, symbols[n])))
  }

  lemma PortionAdds(money: real, a: real, b: real)
    ensures Portion(money, a + b) == Portion(money, a) + Portion(money, b)
  {
  }

  lemma {:induction false} AllocatedValueIsPortion(allocation: map<string, real>, symbols: seq<string>, capital: real)
    ensures AllocatedValue(allocation, symbols, capital) == Portion(capital, PositiveShares(allocation, symbols))
  {
    if symbols != [] {
      var n := |symbols| - 1;
      AllocatedValueIsPortion(allocation, symbols[..n], capital);
      PortionAdds(capital, PositiveShares(allocation, symbols[..n]), PositivePart(Allocated(allocation, symbols[n])));
    }
  }

  lemma PortionNonNegative(money: real, share: real)
    requires money >= 0.0 && share >= 0.0
    ensures Portion(money, share) >= 0.0
  {
  }

  lemma {:induction false} HoldingsWithinAllocated(
    c: RiskConfig, capital: real, allocation: map<string, real>, symbols: seq<string>, envs: seq<Environment>)
    requires |symbols| == |envs|
    ensures Holdings(Place(c, capital, allocation, NOTHING, symbols, envs).book)
            <= AllocatedValue(allocation, symbols, PositivePart(capital))
    decreases |symbols|
  {
    if symbols == [] {
      assert MarketValues(map[]) == map[];
    } else {
      var n := |symbols| - 1;
      HoldingsWithinAllocated(c, capital, allocation, symbols[..n], envs[..n]);
      PortionNonNegative(PositivePart(capital), PositivePart(Allocated(allocation, symbols[n])));
      var before := Place(c, capital, allocation, NOTHING, symbols[..n], envs[..n]);
      if !before.aborted {
        PlaceSound(c, capital, allocation, symbols[..n], envs[..n]);
        PlaceOneAdds(c, capital, allocation, before, symbols[n], envs[n]);
      }
    }
  }

  /** Never more than the capital times the positive allocations listed. */
  lemma AllocationBound(
    c: RiskConfig, capital: real, allocation: map<string, real>, symbols: seq<string>, envs: seq<Environment>)
    requires |symbols| == |envs|
    ensures Holdings(Place(c, capital, allocation, NOTHING, symbols, envs).book)
            <= Portion(PositivePart(capital), PositiveShares(allocation, symbols))
  {
    HoldingsWithinAllocated(c, capital, allocation, symbols, envs);
    AllocatedValueIsPortion(allocation, symbols, PositivePart(capital));
  }

  lemma PlaceOneAdds(
    c: RiskConfig, capital: real, allocation: map<string, real>, p: Placement, symbol: string, env: Environment)
    requires Sound(c, capital, p) && !p.aborted
    ensures Holdings(PlaceOne(c, capital, allocation, p, symbol, env).book)
            <= Holdings(p.book) + Portion(PositivePart(capital), PositivePart(Allocated(allocation, symbol)))
  {
    var share := Allocated(allocation, symbol);
    var quantity := QuantityFor(capital, share);
    PortionNonNegative(PositivePart(capital), PositivePart(share));
    if share > 0.0 && quantity > 0 {
      PositiveOrder(capital, share);
      AddAtPar(p.book, symbol, quantity);
    }
  }

  /**
   The limit is taken against the holdings, not the capital: once anything is held, an order of the same value passes
   the position limit exactly when the limit is the whole portfolio or more, and a larger one only then.
   */
  lemma EqualOrderNeedsWholePortfolio(c: RiskConfig, symbol: string, held: real, value: real, dailyPnl: real)
    requires 0.0 < held <= value
    ensures Passes(c, symbol, BUY, value, map[], held, dailyPnl) ==> c.maxPositionSize >= 1.0
    ensures !Breaks(c, MaxPosition, FiguresFor(symbol, BUY, held, map[], held, dailyPnl)) <==> c.maxPositionSize >= 1.0
  {
    if Passes(c, symbol, BUY, value, map[], held, dailyPnl) {
      PassedLimit(c, symbol, value, held, dailyPnl);
    }
    ShareWithin(c.maxPositionSize, held, held);
    WholeAtLeast(c.maxPositionSize, held);
  }

  lemma WholeAtLeast(share: real, held: real)
    requires held > 0.0
    ensures held <= Portion(share, held) <==> share >= 1.0
  {
    assert Portion(share, held) - held == (share - 1.0) * held;
  }

  // ---------- orders and shares ----------

  function AcceptedValue(orders: seq<OrderRecord>): real {
    if orders == [] then 0.0
    else
      var last := orders[|orders| - 1];
      AcceptedValue(orders[..|orders| - 1]) + if last.status.ACCEPTED? then OrderValue(last.quantity) else 0.0
  }

  lemma AcceptedAppend(orders: seq<OrderRecord>, o: OrderRecord, status: Status)
    ensures AcceptedValue(orders + [o]) == AcceptedValue(orders) + if o.status.ACCEPTED? then OrderValue(o.quantity) else 0.0
    ensures WithLast(orders + [o], status) == orders + [o.(status := status)]
  {
    assert (orders + [o])[..|orders|] == orders;
  }

  // The answers under which an order that reached the monitor ends up REJECTED: only the position write fails.
  predicate Orphans(env: Environment) {
    !env.createRaises && !env.checkRaises && !env.acceptRaises && env.positionsRaise && !env.rejectRaises
  }

  // The turn puts shares in the monitor and leaves their order REJECTED.
  ghost predicate OrphanTurn(
    c: RiskConfig, capital: real, allocation: map<string, real>, p: Placement, symbol: string, env: Environment)
  {
    var quantity := QuantityFor(capital, Allocated(allocation, symbol));
    && !p.aborted && Allocated(allocation, symbol) > 0.0 && quantity > 0
    && Admitted(c, capital, p, symbol, quantity, env.dailyPnl) && Orphans(env)
  }

  // How far the value deployed runs ahead of the orders marked ACCEPTED.
  function Gap(p: Placement): real {
    Sum(p.deployed) - AcceptedValue(p.orders)
  }

  lemma RejectedGap(p: Placement, o: OrderRecord, raises: bool)
    requires p.orders != [] && p.orders == p.orders[..|p.orders| - 1] + [o]
    ensures Gap(Rejected(p, raises))
            == Gap(p) + if !raises && o.status.ACCEPTED? then OrderValue(o.quantity) else 0.0
  {
    var front := p.orders[..|p.orders| - 1];
    AcceptedAppend(front, o, REJECTED);
    AcceptedAppend(front, o.(status := REJECTED), REJECTED);
  }

  lemma SubmittedGap(p: Placement, front: seq<OrderRecord>, symbol: string, quantity: int, env: Environment)
    requires p.orders == front + [OrderRecord(symbol, quantity, PENDING)]
    ensures Gap(Submitted(p, symbol, quantity, env))
            == Gap(p) + if !env.acceptRaises && env.positionsRaise && !env.rejectRaises then OrderValue(quantity) else 0.0
  {
    var o := OrderRecord(symbol, quantity, PENDING);
    assert p.orders[..|p.orders| - 1] == front;
    if env.acceptRaises {
      RejectedGap(p, o, env.rejectRaises);
    } else {
      var accepted := o.(status := ACCEPTED);
      var held := Placement(AddStep(p.book, symbol, quantity, PRICE, LONG), WithLast(p.orders, ACCEPTED),
                            p.deployed + [OrderValue(quantity)], false);
      AcceptedAppend(front, o, ACCEPTED);
      AcceptedAppend(front, accepted, ACCEPTED);
      SumAppend(p.deployed, OrderValue(quantity));
      assert held.orders == front + [accepted] && held.orders[..|held.orders| - 1] == front;
      assert Gap(held) == Gap(p);
      if env.positionsRaise {
        RejectedGap(held, accepted, env.rejectRaises);
      }
    }
  }

  lemma PlaceQuantityGap(c: RiskConfig, capital: real, p: Placement, symbol: string, quantity: int, env: Environment)
    ensures Gap(PlaceQuantity(c, capital, p, symbol, quantity, env))
            == Gap(p) + if Admitted(c, capital, p, symbol, quantity, env.dailyPnl) && Orphans(env)
                        then OrderValue(quantity) else 0.0
  {
    if !env.createRaises {
      var o := OrderRecord(symbol, quantity, PENDING);
      var created := p.(orders := p.orders + [o]);
      AcceptedAppend(p.orders, o, REJECTED);
      assert Gap(created) == Gap(p) && created.orders[..|p.orders|] == p.orders;
      if !env.checkRaises {
        RejectedGap(created, o, env.rejectRaises);
        SubmittedGap(created, p.orders, symbol, quantity, env);
      }
    }
  }

  // One turn widens the gap by the value of its order if it orphans it, and not otherwise.
  lemma PlaceOneGap(
    c: RiskConfig, capital: real, allocation: map<string, real>, p: Placement, symbol: string, env: Environment)
    requires !p.aborted
    ensures Gap(PlaceOne(c, capital, allocation, p, symbol, env))
            == Gap(p) + if OrphanTurn(c, capital, allocation, p, symbol, env)
                        then OrderValue(QuantityFor(capital, Allocated(allocation, symbol))) else 0.0
  {
    PlaceQuantityGap(c, capital, p, symbol, QuantityFor(capital, Allocated(allocation, symbol)), env);
  }

  ghost predicate OrphanedAt(
    c: RiskConfig, capital: real, allocation: map<string, real>, symbols: seq<string>, envs: seq<Environment>, k: nat)
    requires |symbols| == |envs| && k < |symbols|
  {
    OrphanTurn(c, capital, allocation, Place(c, capital, allocation, NOTHING, symbols[..k], envs[..k]), symbols[k], envs[k])
  }

  // The value of the orders orphaned along the way.
  ghost function OrphanedValue(
    c: RiskConfig, capital: real, allocation: map<string, real>, symbols: seq<string>, envs: seq<Environment>): real
    requires |symbols| == |envs|
  {
    if symbols == [] then 0.0
    else
      var n := |symbols| - 1;
      OrphanedValue(c, capital, allocation, symbols[..n], envs[..n])
      + if OrphanedAt(c, capital, allocation, symbols, envs, n)
        then OrderValue(QuantityFor(capital, Allocated(allocation, symbols[n]))) else 0.0
  }

  lemma {:induction false} GapIsOrphaned(
    c: RiskConfig, capital: real, allocation: map<string, real>, symbols: seq<string>, envs: seq<Environment>)
    requires |symbols| == |envs|
    ensures Gap(Place(c, capital, allocation, NOTHING, symbols, envs))
            == OrphanedValue(c, capital, allocation, symbols, envs)
    decreases |symbols|
  {
    if symbols != [] {
      var n := |symbols| - 1;
      var before := Place(c, capital, allocation, NOTHING, symbols[..n], envs[..n]);
      GapIsOrphaned(c, capital, allocation, symbols[..n], envs[..n]);
      if !before.aborted {
        PlaceOneGap(c, capital, allocation, before, symbols[n], envs[n]);
      }
    }
  }

  lemma {:induction false} OrphanedPositiveIff(
    c: RiskConfig, capital: real, allocation: map<string, real>, symbols: seq<string>, envs: seq<Environment>)
    requires |symbols| == |envs|
    ensures OrphanedValue(c, capital, allocation, symbols, envs) >= 0.0
    ensures OrphanedValue(c, capital, allocation, symbols, envs) == 0.0 <==>
            (forall k: nat :: k < |symbols| ==> !OrphanedAt(c, capital, allocation, symbols, envs, k))
    decreases |symbols|
  {
    if symbols != [] {
      var n := |symbols| - 1;
      OrphanedPositiveIff(c, capital, allocation, symbols[..n], envs[..n]);
      forall k: nat | k < n
        ensures OrphanedAt(c, capital, allocation, symbols, envs, k)
                <==> OrphanedAt(c, capital, allocation, symbols[..n], envs[..n], k)
      {
        assert symbols[..n][..k] == symbols[..k] && envs[..n][..k] == envs[..k];
      }
      if OrphanedAt(c, capital, allocation, symbols, envs, n) {
        PositiveOrder(capital, Allocated(allocation, symbols[n]));
      }
    }
  }

  /** The value held exceeds that of the orders marked ACCEPTED by exactly the orders orphaned. */
  lemma HoldingsExceedAccepted(
    c: RiskConfig, capital: real, allocation: map<string, real>, symbols: seq<string>, envs: seq<Environment>)
    requires |symbols| == |envs|
    ensures var p := Place(c, capital, allocation, NOTHING, symbols, envs);
            Holdings(p.book) == AcceptedValue(p.orders) + OrphanedValue(c, capital, allocation, symbols, envs)
  {
    GapIsOrphaned(c, capital, allocation, symbols, envs);
    PlaceSound(c, capital, allocation, symbols, envs);
  }

  /**
   The value held is that of the orders marked ACCEPTED exactly when no order that reached the monitor met a failed
   position write, with every other call of its turn succeeding.
   */
  lemma HoldingsAreAcceptedOrdersIff(
    c: RiskConfig, capital: real, allocation: map<string, real>, symbols: seq<string>, envs: seq<Environment>)
    requires |symbols| == |envs|
    ensures var p := Place(c, capital, allocation, NOTHING, symbols, envs);
            Holdings(p.book) == AcceptedValue(p.orders) <==>
            (forall k: nat :: k < |symbols| ==> !OrphanedAt(c, capital, allocation, symbols, envs, k))
  {
    HoldingsExceedAccepted(c, capital, allocation, symbols, envs);
    OrphanedPositiveIff(c, capital, allocation, symbols, envs);
  }

  /** An orphaned order is marked REJECTED while its shares stay in the monitor. */
  lemma FailedPositionWriteOrphansShares(
    c: RiskConfig, capital: real, allocation: map<string, real>, p: Placement, symbol: string, env: Environment)
    requires OrphanTurn(c, capital, allocation, p, symbol, env) && AtPar(p.book)
    ensures var quantity := QuantityFor(capital, Allocated(allocation, symbol));
            var p' := PlaceOne(c, capital, allocation, p, symbol, env);
            && p'.orders == p.orders + [OrderRecord(symbol, quantity, REJECTED)]
            && Holdings(p'.book) == Holdings(p.book) + OrderValue(quantity) > Holdings(p.book)
  {
    var quantity := QuantityFor(capital, Allocated(allocation, symbol));
    AcceptedAppend(p.orders, OrderRecord(symbol, quantity, PENDING), ACCEPTED);
    AcceptedAppend(p.orders, OrderRecord(symbol, quantity, ACCEPTED), REJECTED);
    AddAtPar(p.book, symbol, quantity);
    PositiveOrder(capital, Allocated(allocation, symbol));
  }
}
