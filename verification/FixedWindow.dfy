/** The Redis script behind the login limiter: a counter per key, expiring a whole number of seconds after it starts. */
module FixedWindow {
  import opened Clock
  import opened Options

  datatype Config = Config(limit: int, window: int)

  datatype Counter = Counter(count: int, expiresAt: int)

  // One check: its time, whether a lockout key was seen, and whether the script call itself failed.
  datatype Check = Check(at: int, lockoutSeen: bool, scriptFails: bool)

  datatype Outcome = Admitted | RateLimited | Locked | AdmittedUncounted

  // int(window.Seconds()) truncates towards zero.
  function WholeSeconds(window: int): int {
    if window >= 0 then window / SECOND else -((-window) / SECOND)
  }

  // What EXPIRE makes of the window: a key given no positive time to live is deleted at once.
  function Ttl(c: Config): int {
    WholeSeconds(c.window) * SECOND
  }

  function Live(k: Option<Counter>, now: int): Option<Counter> {
    if k.Some? && now >= k.value.expiresAt then None else k
  }

  function Script(c: Config, k: Option<Counter>, now: int): (Option<Counter>, int) {
    match Live(k, now)
    case Some(counter) => (Some(counter.(count := counter.count + 1)), counter.count + 1)
    case None => (if Ttl(c) > 0 then Some(Counter(1, now + Ttl(c))) else None, 1)
  }

  function Step(c: Config, k: Option<Counter>, e: Check): (Option<Counter>, Outcome) {
    if e.lockoutSeen then (k, Locked)
    else if e.scriptFails then (k, AdmittedUncounted)
    else
      var (k', count) := Script(c, k, e.at);
      (k', if count > c.limit then RateLimited else Admitted)
  }

  function After(c: Config, k: Option<Counter>, es: seq<Check>): Option<Counter>
    decreases |es|
  {
    if es == [] then k else After(c, Step(c, k, es[0]).0, es[1..])
  }

  // Checks the script itself admitted; those let through because the call failed are not counted.
  function AdmittedCount(c: Config, k: Option<Counter>, es: seq<Check>): int
    decreases |es|
  {
    if es == [] then 0
    else (if Step(c, k, es[0]).1.Admitted? then 1 else 0) + AdmittedCount(c, Step(c, k, es[0]).0, es[1..])
  }

  predicate InOrder(es: seq<Check>) {
    forall i, j :: 0 <= i < j < |es| ==> es[i].at <= es[j].at
  }

  // ---------- what any interval can admit ----------

  predicate Sound(c: Config, k: Option<Counter>, now: int) {
    k.Some? ==> k.value.count >= 1 && k.value.expiresAt <= now + Ttl(c)
  }

  lemma {:induction false} AfterSound(c: Config, k: Option<Counter>, es: seq<Check>, now: int)
    requires InOrder(es) && (es != [] ==> es[|es| - 1].at <= now)
    requires Sound(c, k, if es == [] then now else es[0].at)
    ensures Sound(c, After(c, k, es), now)
    decreases |es|
  {
    if es != [] {
      if |es| > 1 {
        assert es[0].at <= es[1].at;
      }
      AfterSound(c, Step(c, k, es[0]).0, es[1..], now);
    }
  }

  // Windows a fresh key can start between two times, each admitting up to the limit.
  function FreshBudget(c: Config, start: int, end: int): int
    requires Ttl(c) > 0
  {
    if start > end then 0 else c.limit * (1 + (end - start) / Ttl(c))
  }

  // What is left of the current window, then fresh ones.
  function Budget(c: Config, k: Option<Counter>, start: int, end: int): int
    requires Ttl(c) > 0
  {
    match Live(k, start)
    case None => FreshBudget(c, start, end)
    case Some(counter) => Max(0, c.limit - counter.count) + FreshBudget(c, counter.expiresAt, end)
  }

  lemma Monotone(k: int, a: int, b: int)
    requires k >= 0 && a <= b
    ensures k * a <= k * b
  {
  }

  lemma QuotientBelow(n: int, d: int, m: int)
    requires d > 0 && n < d * m
    ensures n / d < m
  {
    if n / d >= m {
      Monotone(d, m, n / d);
      assert false;
    }
  }

  lemma Quotients(a: int, b: int, d: int)
    requires d > 0 && a <= b
    ensures a / d <= b / d
  {
    QuotientBelow(a, d, b / d + 1);
  }

  lemma OneWindowFewer(n: int, d: int)
    requires d > 0
    ensures n / d == 1 + (n - d) / d
  {
    var q := (n - d) / d;
    assert n - d == d * q + (n - d) % d;
    assert d * (q + 2) == d * q + d + d;
    QuotientBelow(n, d, q + 2);
    assert n < d * (n / d) + d;
    if n / d <= q {
      Monotone(d, n / d, q);
      assert false;
    }
  }

  lemma FreshBudgetMonotone(c: Config, start: int, later: int, end: int)
    requires Ttl(c) > 0 && c.limit >= 0 && start <= later
    ensures FreshBudget(c, later, end) <= FreshBudget(c, start, end)
    ensures FreshBudget(c, start, end) >= 0
  {
    if later <= end {
      Quotients(end - later, end - start, Ttl(c));
      Monotone(c.limit, 1 + (end - later) / Ttl(c), 1 + (end - start) / Ttl(c));
    } else if start <= end {
      Quotients(0, end - start, Ttl(c));
      Monotone(c.limit, 0, 1 + (end - start) / Ttl(c));
    }
  }

  // A fresh window started now costs one budget window.
  lemma FreshBudgetStep(c: Config, start: int, end: int)
    requires Ttl(c) > 0 && c.limit >= 0 && start <= end
    ensures c.limit + FreshBudget(c, start + Ttl(c), end) <= FreshBudget(c, start, end)
  {
    OneWindowFewer(end - start, Ttl(c));
    var n := (end - start - Ttl(c)) / Ttl(c);
    assert c.limit * (1 + (1 + n)) == c.limit + c.limit * (1 + n);
    if start + Ttl(c) > end {
      Quotients(0, end - start, Ttl(c));
      Monotone(c.limit, 1, 1 + (end - start) / Ttl(c));
    }
  }

  lemma {:induction false} WithinBudget(c: Config, k: Option<Counter>, es: seq<Check>, start: int, end: int)
    requires Ttl(c) > 0 && c.limit >= 0 && InOrder(es)
    requires es != [] ==> start <= es[0].at && es[|es| - 1].at <= end
    ensures AdmittedCount(c, k, es) <= Budget(c, k, start, end)
    decreases |es|
  {
    FreshBudgetMonotone(c, start, start, end);
    if Live(k, start).Some? {
      FreshBudgetMonotone(c, k.value.expiresAt, k.value.expiresAt, end);
    }
    if es != [] {
      var now, rest := es[0].at, es[1..];
      var k' := Step(c, k, es[0]).0;
      assert rest != [] ==> es[0].at <= es[1].at && rest[|rest| - 1] == es[|es| - 1];
      assert now <= end by {
        assert es[0].at <= es[|es| - 1].at;
      }
      WithinBudget(c, k', rest, now, end);
      BudgetLater(c, k, start, now, end);
      if !es[0].lockoutSeen && !es[0].scriptFails && Live(k, now).None? {
        FreshBudgetStep(c, now, end);
      }
    }
  }

  lemma BudgetLater(c: Config, k: Option<Counter>, start: int, now: int, end: int)
    requires Ttl(c) > 0 && c.limit >= 0 && start <= now
    ensures Budget(c, k, now, end) <= Budget(c, k, start, end)
  {
    FreshBudgetMonotone(c, start, now, end);
    if Live(k, start).Some? && Live(k, now).None? {
      FreshBudgetMonotone(c, k.value.expiresAt, now, end);
    }
  }

  // Checks the script admitted from check i through check j of a run on an absent key.
  function AdmittedBetween(c: Config, es: seq<Check>, i: nat, j: nat): int
    requires i <= j < |es|
  {
    AdmittedCount(c, After(c, None, es[..i]), es[i..j + 1])
  }

  // The budget of a live key is greatest when it has a nanosecond to go and one check counted.
  lemma BudgetBound(c: Config, k: Option<Counter>, start: int, end: int)
    requires Ttl(c) > 0 && c.limit >= 0 && start <= end && (k.Some? ==> k.value.count >= 1)
    ensures var d := end - start;
            Budget(c, k, start, end)
            <= Max(c.limit * (1 + d / Ttl(c)), Max(0, c.limit - 1) + c.limit * (1 + (d - 1) / Ttl(c)))
  {
    if Live(k, start).Some? {
      FreshBudgetMonotone(c, start + 1, k.value.expiresAt, end);
      if start == end {
        QuotientOfMinusOne(Ttl(c));
      }
    }
  }

  lemma QuotientOfMinusOne(d: int)
    requires d > 0
    ensures -1 / d == -1
  {
  }

  /** An interval of d nanoseconds admits at most the larger of: whole windows, or a part window then whole ones. */
  lemma IntervalBound(c: Config, es: seq<Check>, i: nat, j: nat)
    requires Ttl(c) > 0 && c.limit >= 0 && InOrder(es) && i <= j < |es|
    ensures var d := es[j].at - es[i].at;
            AdmittedBetween(c, es, i, j)
            <= Max(c.limit * (1 + d / Ttl(c)), Max(0, c.limit - 1) + c.limit * (1 + (d - 1) / Ttl(c)))
  {
    var start, end := es[i].at, es[j].at;
    var k := After(c, None, es[..i]);
    AfterSound(c, None, es[..i], start);
    var window := es[i..j + 1];
    assert forall n :: 0 <= n < |window| ==> window[n] == es[i + n];
    assert InOrder(window);
    WithinBudget(c, k, window, start, end);
    BudgetBound(c, k, start, end);
  }

  // ---------- single checks ----------

  /**
   The answer to one check: refused if the lockout key is seen, let through uncounted if the script fails, both leaving
   the counter alone; otherwise it counts, and is admitted exactly if the limit was not yet reached in its window.
   */
  lemma CheckOutcomeIff(c: Config, k: Option<Counter>, e: Check)
    ensures var (k', outcome) := Step(c, k, e);
            var live := k.Some? && e.at < k.value.expiresAt;
            && (outcome == Locked <==> e.lockoutSeen)
            && (outcome == AdmittedUncounted <==> !e.lockoutSeen && e.scriptFails)
            && (e.lockoutSeen || e.scriptFails ==> k' == k)
            && (!e.lockoutSeen && !e.scriptFails ==>
                  && (outcome == Admitted <==> (if live then k.value.count else 0) < c.limit)
                  && (live ==> k' == Some(Counter(k.value.count + 1, k.value.expiresAt)))
                  && (!live && c.window >= SECOND ==>
                        k' == Some(Counter(1, e.at + c.window / SECOND * SECOND)))
                  && (!live && c.window < SECOND ==> k' == None))
  {
  }

  // Counted checks before the window of a counter ends.
  predicate Inside(es: seq<Check>, end: int) {
    forall i :: 0 <= i < |es| ==> es[i].at < end && !es[i].lockoutSeen && !es[i].scriptFails
  }

  /** Within one window exactly what is left of the limit is admitted, and refused checks do not prolong the window. */
  lemma {:induction false} WindowExact(c: Config, k: Counter, es: seq<Check>)
    requires Inside(es, k.expiresAt)
    ensures AdmittedCount(c, Some(k), es) == Min(|es|, Max(0, c.limit - k.count))
    ensures After(c, Some(k), es) == Some(Counter(k.count + |es|, k.expiresAt))
    decreases |es|
  {
    if es != [] {
      assert Step(c, Some(k), es[0]).0 == Some(Counter(k.count + 1, k.expiresAt));
      assert Inside(es[1..], k.expiresAt);
      WindowExact(c, Counter(k.count + 1, k.expiresAt), es[1..]);
    }
  }

  // ---------- the window as configured ----------

  predicate TwiceTheLimit(c: Config, es: seq<Check>, i: nat, j: nat)
    requires i <= j < |es|
  {
    es[j].at - es[i].at <= c.window ==> AdmittedBetween(c, es, i, j) <= 2 * Max(0, c.limit)
  }

  // A window that a whole number of seconds can express, or a limit too small for the difference to show.
  predicate Expressible(c: Config) {
    c.limit <= 0 || c.window < 0 || (c.window >= SECOND && (c.window % SECOND == 0 || c.limit == 1))
  }

  lemma {:induction false} NothingAdmitted(c: Config, k: Option<Counter>, es: seq<Check>)
    requires c.limit <= 0 && (k.Some? ==> k.value.count >= 1)
    ensures AdmittedCount(c, k, es) == 0
    ensures After(c, k, es).Some? ==> After(c, k, es).value.count >= 1
    decreases |es|
  {
    if es != [] {
      NothingAdmitted(c, Step(c, k, es[0]).0, es[1..]);
    }
  }

  lemma TtlFacts(c: Config)
    requires c.window >= SECOND
    ensures SECOND <= Ttl(c) <= c.window < Ttl(c) + SECOND
    ensures Ttl(c) == c.window <==> c.window % SECOND == 0
  {
  }

  lemma ShortInterval(c: Config, d: int)
    requires c.limit >= 1 && c.window >= SECOND && (c.window % SECOND == 0 || c.limit == 1) && d <= c.window
    ensures c.limit * (1 + d / Ttl(c)) <= 2 * c.limit
    ensures Max(0, c.limit - 1) + c.limit * (1 + (d - 1) / Ttl(c)) <= 2 * c.limit
  {
    var ttl := Ttl(c);
    TtlFacts(c);
    QuotientBelow(d, ttl, 2);
    Monotone(c.limit, 1 + d / ttl, 2);
    if c.limit > 1 {
      QuotientBelow(d - 1, ttl, 1);
      Monotone(c.limit, 1 + (d - 1) / ttl, 1);
    } else {
      QuotientBelow(d - 1, ttl, 2);
    }
  }

  lemma ExpressibleSuffices(c: Config, es: seq<Check>, i: nat, j: nat)
    requires Expressible(c) && InOrder(es) && i <= j < |es|
    ensures TwiceTheLimit(c, es, i, j)
  {
    var d := es[j].at - es[i].at;
    assert i < j ==> es[i].at <= es[j].at;
    if c.limit <= 0 {
      NothingAdmitted(c, None, es[..i]);
      NothingAdmitted(c, After(c, None, es[..i]), es[i..j + 1]);
    } else if d <= c.window {
      TtlFacts(c);
      IntervalBound(c, es, i, j);
      ShortInterval(c, d);
    }
  }

  function Checks(n: int, at: int): seq<Check> {
    if n <= 0 then [] else [Check(at, false, false)] + Checks(n - 1, at)
  }

  lemma ChecksAt(n: int, at: int)
    ensures |Checks(n, at)| == Max(0, n)
    ensures forall i :: 0 <= i < |Checks(n, at)| ==> Checks(n, at)[i] == Check(at, false, false)
  {
  }

  // A sub-second window is no window: the key is deleted as soon as it is made.
  lemma {:induction false} AlwaysFresh(c: Config, n: nat, at: int)
    requires Ttl(c) <= 0 && c.limit >= 1
    ensures AdmittedCount(c, None, Checks(n, at)) == n
  {
    if n > 0 {
      assert Checks(n, at)[1..] == Checks(n - 1, at);
      AlwaysFresh(c, n - 1, at);
    }
  }

  lemma {:induction false} ChecksInLiveWindow(c: Config, k: Counter, n: nat, at: int, rest: seq<Check>)
    requires at < k.expiresAt && k.count + n <= c.limit
    ensures After(c, Some(k), Checks(n, at)) == Some(k.(count := k.count + n))
    ensures AdmittedCount(c, Some(k), Checks(n, at) + rest)
            == n + AdmittedCount(c, Some(k.(count := k.count + n)), rest)
    decreases n
  {
    if n == 0 {
      assert Checks(n, at) + rest == rest;
    } else {
      var es := Checks(n, at) + rest;
      assert es[0] == Check(at, false, false) && es[1..] == Checks(n - 1, at) + rest;
      assert Checks(n, at)[1..] == Checks(n - 1, at);
      ChecksInLiveWindow(c, k.(count := k.count + 1), n - 1, at, rest);
    }
  }

  lemma ChecksStartWindow(c: Config, k: Option<Counter>, at: int, rest: seq<Check>)
    requires Ttl(c) > 0 && c.limit >= 1 && Live(k, at).None?
    ensures AdmittedCount(c, k, Checks(c.limit, at) + rest)
            == c.limit + AdmittedCount(c, Some(Counter(c.limit, at + Ttl(c))), rest)
  {
    var es := Checks(c.limit, at) + rest;
    assert es[0] == Check(at, false, false) && es[1..] == Checks(c.limit - 1, at) + rest;
    ChecksInLiveWindow(c, Counter(1, at + Ttl(c)), c.limit - 1, at, rest);
  }

  // One early check, the rest of the limit at the very end of its window, then two full windows.
  function Straddle(c: Config): seq<Check> {
    var ttl := Ttl(c);
    [Check(0, false, false)] + (Checks(c.limit - 1, ttl - 1) + (Checks(c.limit, ttl) + Checks(c.limit, 2 * ttl)))
  }

  lemma StraddleInOrder(c: Config)
    requires c.limit >= 2 && Ttl(c) >= SECOND
    ensures var es := Straddle(c);
            && InOrder(es) && |es| == 3 * c.limit
            && es[1].at == Ttl(c) - 1 && es[|es| - 1].at == 2 * Ttl(c)
  {
    ChecksAt(c.limit - 1, Ttl(c) - 1);
    ChecksAt(c.limit, Ttl(c));
    ChecksAt(c.limit, 2 * Ttl(c));
  }

  lemma StraddleCount(c: Config)
    requires c.limit >= 2 && Ttl(c) >= SECOND
    ensures AdmittedCount(c, Some(Counter(1, Ttl(c))), Straddle(c)[1..]) == 3 * c.limit - 1
  {
    var ttl := Ttl(c);
    var b, d := Checks(c.limit, ttl), Checks(c.limit, 2 * ttl);
    assert Straddle(c)[1..] == Checks(c.limit - 1, ttl - 1) + (b + d);
    ChecksInLiveWindow(c, Counter(1, ttl), c.limit - 1, ttl - 1, b + d);
    ChecksStartWindow(c, Some(Counter(c.limit, ttl)), ttl, d);
    ChecksStartWindow(c, Some(Counter(c.limit, 2 * ttl)), 2 * ttl, []);
    assert d + [] == d;
  }

  lemma StraddleOverAdmits(c: Config)
    requires c.limit >= 2 && c.window >= SECOND && c.window % SECOND != 0
    ensures InOrder(Straddle(c)) && |Straddle(c)| > 1 && !TwiceTheLimit(c, Straddle(c), 1, |Straddle(c)| - 1)
  {
    TtlFacts(c);
    StraddleInOrder(c);
    StraddleCount(c);
    var es := Straddle(c);
    assert es[1..|es|] == es[1..];
    assert es[..1] == [es[0]] && es[..1][1..] == [];
    assert After(c, None, es[..1]) == Some(Counter(1, Ttl(c)));
  }

  /** Any interval as short as the configured window admits at most twice the limit, exactly when Expressible. */
  lemma TwiceTheLimitIff(c: Config)
    ensures Expressible(c) <==>
            (forall es: seq<Check>, i: nat, j: nat :: InOrder(es) && i <= j < |es| ==> TwiceTheLimit(c, es, i, j))
  {
    if Expressible(c) {
      forall es: seq<Check>, i: nat, j: nat | InOrder(es) && i <= j < |es| ensures TwiceTheLimit(c, es, i, j) {
        ExpressibleSuffices(c, es, i, j);
      }
    } else if c.window < SECOND {
      var n := 2 * c.limit + 1;
      var es := Checks(n, 0);
      ChecksAt(n, 0);
      AlwaysFresh(c, n, 0);
      assert es[..0] == [] && es[0..|es|] == es;
      assert InOrder(es) && !TwiceTheLimit(c, es, 0, |es| - 1);
    } else {
      StraddleOverAdmits(c);
    }
  }

  /** The limiter the service builds: five checks a minute, so at most ten in any minute. */
  lemma DefaultAdmitsTen(es: seq<Check>, i: nat, j: nat)
    requires InOrder(es) && i <= j < |es| && es[j].at - es[i].at <= 60 * SECOND
    ensures AdmittedBetween(Config(5, 60 * SECOND), es, i, j) <= 10
  {
    ExpressibleSuffices(Config(5, 60 * SECOND), es, i, j);
  }
}
