/** The Redis token bucket of the order service: floor-rounded refill, timestamps moved by denials, idle expiry. */
module TokenBucket {
  import opened Clock
  import opened Options

  const IDLE_TTL: int := 60 * SECOND

  // Configurations NewLimiter accepts.
  datatype Config = Config(rate: int, burst: int) {
    predicate Valid() {
      rate >= 1 && burst >= 1
    }
  }

  // The hash stored under one key, and when Redis drops it.
  datatype Entry = Entry(tokens: int, lastUpdate: int, expiresAt: int)

  datatype Answer = Allowed | Denied | NotPositive | ExceedsBurst | Cleared

  datatype Request = Take(n: int, at: int) | Reset(at: int)

  // Division by a positive constant rounds down in Dafny for both signs, as math.floor does.
  function Refill(rate: int, elapsed: int): int {
    elapsed * rate / SECOND
  }

  // What the script reads; `expiring` says whether Redis honours the expiry.
  function Visible(e: Option<Entry>, expiring: bool, now: int): Option<Entry> {
    if e.Some? && expiring && now >= e.value.expiresAt then None else e
  }

  // The tokens both scripts see at `now`.
  function Level(c: Config, e: Option<Entry>, expiring: bool, now: int): int {
    match Visible(e, expiring, now)
    case None => c.burst
    case Some(b) => Min(b.tokens + Refill(c.rate, now - b.lastUpdate), c.burst)
  }

  function Step(c: Config, e: Option<Entry>, expiring: bool, r: Request): (Option<Entry>, Answer) {
    match r
    case Reset(_) => (None, Cleared)
    case Take(n, now) =>
      if n <= 0 then (e, NotPositive)
      else if n > c.burst then (e, ExceedsBurst)
      else
        var level := Level(c, e, expiring, now);
        if level >= n then (Some(Entry(level - n, now, now + IDLE_TTL)), Allowed)
        else (Some(Entry(level, now, now + IDLE_TTL)), Denied)
  }

  function After(c: Config, e: Option<Entry>, expiring: bool, rs: seq<Request>): Option<Entry>
    decreases |rs|
  {
    if rs == [] then e
    else After(c, Step(c, e, expiring, rs[0]).0, expiring, rs[1..])
  }

  function Answers(c: Config, e: Option<Entry>, expiring: bool, rs: seq<Request>): seq<Answer>
    decreases |rs|
  {
    if rs == [] then []
    else [Step(c, e, expiring, rs[0]).1] + Answers(c, Step(c, e, expiring, rs[0]).0, expiring, rs[1..])
  }

  // Tokens granted to the requests, in order.
  function Granted(c: Config, e: Option<Entry>, expiring: bool, rs: seq<Request>): int
    decreases |rs|
  {
    if rs == [] then 0
    else
      (if rs[0].Take? && Step(c, e, expiring, rs[0]).1.Allowed? then rs[0].n else 0)
      + Granted(c, Step(c, e, expiring, rs[0]).0, expiring, rs[1..])
  }

  function Resets(rs: seq<Request>): int {
    if rs == [] then 0 else (if rs[0].Reset? then 1 else 0) + Resets(rs[1..])
  }

  // The clock never goes back.
  predicate InOrder(rs: seq<Request>) {
    forall i, j :: 0 <= i < j < |rs| ==> rs[i].at <= rs[j].at
  }

  // The invariant of a stored entry, seen from any time at or after its last update.
  predicate Sound(c: Config, e: Option<Entry>, now: int) {
    e.Some? ==> 0 <= e.value.tokens <= c.burst && e.value.lastUpdate <= now
                && e.value.expiresAt == e.value.lastUpdate + IDLE_TTL
  }

  lemma LevelInRange(c: Config, e: Option<Entry>, expiring: bool, now: int)
    requires c.Valid() && Sound(c, e, now)
    ensures 0 <= Level(c, e, expiring, now) <= c.burst
  {
    if e.Some? {
      assert (now - e.value.lastUpdate) * c.rate >= 0;
    }
  }

  lemma StepSound(c: Config, e: Option<Entry>, expiring: bool, r: Request)
    requires c.Valid() && Sound(c, e, r.at)
    ensures Sound(c, Step(c, e, expiring, r).0, r.at)
  {
    LevelInRange(c, e, expiring, r.at);
  }

  lemma {:induction false} AfterSound(c: Config, e: Option<Entry>, expiring: bool, rs: seq<Request>, now: int)
    requires c.Valid() && InOrder(rs)
    requires rs == [] ==> Sound(c, e, now)
    requires rs != [] ==> Sound(c, e, rs[0].at) && rs[|rs| - 1].at <= now
    ensures Sound(c, After(c, e, expiring, rs), now)
    decreases |rs|
  {
    if rs != [] {
      StepSound(c, e, expiring, rs[0]);
      assert InOrder(rs[1..]);
      if |rs| > 1 {
        assert rs[0].at <= rs[1].at;
      }
      AfterSound(c, Step(c, e, expiring, rs[0]).0, expiring, rs[1..], now);
    }
  }

  // ---------- how much a window can grant ----------

  // Tokens a stored entry stands for at `now` without rounding, scaled by a second and capped at a full bucket.
  function Potential(c: Config, e: Option<Entry>, now: int): int {
    match e
    case None => c.burst * SECOND
    case Some(b) => Min(b.tokens * SECOND + (now - b.lastUpdate) * c.rate, c.burst * SECOND)
  }

  lemma PotentialInRange(c: Config, e: Option<Entry>, now: int)
    requires c.Valid() && Sound(c, e, now)
    ensures 0 <= Potential(c, e, now) <= c.burst * SECOND
  {
    if e.Some? {
      assert (now - e.value.lastUpdate) * c.rate >= 0;
    }
  }

  lemma Distribute(a: int, b: int, k: int)
    ensures (a + b) * k == a * k + b * k
  {
  }

  lemma PotentialGrows(c: Config, e: Option<Entry>, start: int, now: int)
    requires c.Valid() && start <= now
    ensures Potential(c, e, now) <= Potential(c, e, start) + (now - start) * c.rate
  {
    assert (now - start) * c.rate >= 0;
    if e.Some? {
      Distribute(now - start, start - e.value.lastUpdate, c.rate);
    }
  }

  // Rounding down never shows more tokens than the potential holds.
  lemma LevelWithinPotential(c: Config, e: Option<Entry>, now: int)
    ensures Level(c, e, false, now) * SECOND <= Potential(c, e, now)
  {
    if e.Some? {
      RoundedDown((now - e.value.lastUpdate) * c.rate);
    }
  }

  lemma RoundedDown(n: int)
    ensures n / SECOND * SECOND <= n
  {
  }

  lemma FreshEntry(c: Config, tokens: int, now: int)
    ensures Potential(c, Some(Entry(tokens, now, now + IDLE_TTL)), now) <= tokens * SECOND
  {
    assert (now - now) * c.rate == 0;
  }

  function Paid(c: Config, e: Option<Entry>, r: Request): int {
    if r.Take? && Step(c, e, false, r).1.Allowed? then r.n else 0
  }

  lemma TakePays(c: Config, e: Option<Entry>, n: int, now: int)
    ensures Paid(c, e, Take(n, now)) * SECOND + Potential(c, Step(c, e, false, Take(n, now)).0, now) <= Potential(c, e, now)
  {
    var level := Level(c, e, false, now);
    LevelWithinPotential(c, e, now);
    if 0 < n <= c.burst {
      FreshEntry(c, if level >= n then level - n else level, now);
    }
  }

  // A request pays for its tokens out of the potential, which only time and Reset replenish.
  lemma PotentialStep(c: Config, e: Option<Entry>, r: Request, start: int)
    requires c.Valid() && Sound(c, e, start) && start <= r.at
    ensures Paid(c, e, r) * SECOND + Potential(c, Step(c, e, false, r).0, r.at)
            <= Potential(c, e, start) + (r.at - start) * c.rate + (if r.Reset? then c.burst * SECOND else 0)
  {
    PotentialGrows(c, e, start, r.at);
    match r {
      case Reset(now) => PotentialInRange(c, e, now);
      case Take(n, now) => TakePays(c, e, n, now);
    }
  }

  lemma AtLeastFactor(a: int, k: int)
    requires a >= 0 && k >= 1
    ensures a * k >= a
  {
  }

  lemma {:induction false} GrantedWithinPotential(c: Config, e: Option<Entry>, rs: seq<Request>, start: int)
    requires c.Valid() && InOrder(rs) && Sound(c, e, start)
    requires rs != [] && start <= rs[0].at
    ensures Granted(c, e, false, rs) * SECOND
            <= Potential(c, e, start) + (rs[|rs| - 1].at - start) * c.rate + Resets(rs) * (c.burst * SECOND)
    decreases |rs|
  {
    var r, rest, last := rs[0], rs[1..], rs[|rs| - 1].at;
    var e' := Step(c, e, false, r).0;
    StepSound(c, e, false, r);
    PotentialStep(c, e, r, start);
    PotentialInRange(c, e', r.at);
    Distribute(if r.Reset? then 1 else 0, Resets(rest), c.burst * SECOND);
    if rest != [] {
      assert rest[|rest| - 1] == rs[|rs| - 1];
      GrantedWithinPotential(c, e', rest, r.at);
      Distribute(last - r.at, r.at - start, c.rate);
    }
  }

  // The requests i..j of a run, granted from the state the earlier ones left.
  function GrantedBetween(c: Config, expiring: bool, rs: seq<Request>, i: nat, j: nat): int
    requires i <= j < |rs|
  {
    Granted(c, After(c, None, expiring, rs[..i]), expiring, rs[i..j + 1])
  }

  // Tokens granted from request i through request j, against the seconds between the two.
  predicate WithinBound(c: Config, expiring: bool, rs: seq<Request>, i: nat, j: nat)
    requires i <= j < |rs|
  {
    GrantedBetween(c, expiring, rs, i, j) * SECOND
    <= (1 + Resets(rs[i..j + 1])) * (c.burst * SECOND) + (rs[j].at - rs[i].at) * c.rate
  }

  /** A bucket that never expires keeps every window within burst plus refill, one extra burst per Reset. */
  lemma WindowBoundNeverExpiring(c: Config, rs: seq<Request>, i: nat, j: nat)
    requires c.Valid() && InOrder(rs) && i <= j < |rs|
    ensures WithinBound(c, false, rs, i, j)
  {
    var e, window := After(c, None, false, rs[..i]), rs[i..j + 1];
    AfterSound(c, None, false, rs[..i], rs[i].at);
    assert window[|window| - 1] == rs[j];
    GrantedWithinPotential(c, e, window, rs[i].at);
    PotentialInRange(c, e, rs[i].at);
  }

  // ---------- expiry ----------

  // Two stores every later script call reads alike, expiry honoured on the left and ignored on the right.
  ghost predicate Indistinguishable(c: Config, left: Option<Entry>, right: Option<Entry>, now: int) {
    forall t :: t >= now ==> Level(c, left, true, t) == Level(c, right, false, t)
  }

  lemma SameEntryIndistinguishable(c: Config, e: Option<Entry>, now: int)
    requires c.Valid() && c.burst <= 60 * c.rate && Sound(c, e, now)
    ensures Indistinguishable(c, e, e, now)
  {
    forall t | t >= now ensures Level(c, e, true, t) == Level(c, e, false, t) {
      if e.Some? && t >= e.value.expiresAt {
        assert (t - e.value.lastUpdate) * c.rate >= IDLE_TTL * c.rate;
      }
    }
  }

  // One request answered alike leaves two stores that read alike.
  lemma AlikeStep(c: Config, left: Option<Entry>, right: Option<Entry>, r: Request, now: int)
    requires c.Valid() && c.burst <= 60 * c.rate && now <= r.at
    requires Sound(c, left, now) && Sound(c, right, now) && Indistinguishable(c, left, right, now)
    ensures Step(c, left, true, r).1 == Step(c, right, false, r).1
    ensures Sound(c, Step(c, left, true, r).0, r.at) && Sound(c, Step(c, right, false, r).0, r.at)
    ensures Indistinguishable(c, Step(c, left, true, r).0, Step(c, right, false, r).0, r.at)
  {
    assert Level(c, left, true, r.at) == Level(c, right, false, r.at);
    StepSound(c, left, true, r);
    StepSound(c, right, false, r);
    var left' := Step(c, left, true, r).0;
    if left' == Step(c, right, false, r).0 {
      SameEntryIndistinguishable(c, left', r.at);
    }
  }

  lemma {:induction false} ExpiryUnobservable(c: Config, left: Option<Entry>, right: Option<Entry>, rs: seq<Request>, now: int)
    requires c.Valid() && c.burst <= 60 * c.rate && InOrder(rs)
    requires Sound(c, left, now) && Sound(c, right, now) && Indistinguishable(c, left, right, now)
    requires rs != [] ==> now <= rs[0].at
    ensures Answers(c, left, true, rs) == Answers(c, right, false, rs)
    ensures Granted(c, left, true, rs) == Granted(c, right, false, rs)
    ensures Indistinguishable(c, After(c, left, true, rs), After(c, right, false, rs),
                              if rs == [] then now else rs[|rs| - 1].at)
    decreases |rs|
  {
    if rs != [] {
      AlikeStep(c, left, right, rs[0], now);
      ExpiryUnobservable(c, Step(c, left, true, rs[0]).0, Step(c, right, false, rs[0]).0, rs[1..], rs[0].at);
    }
  }

  /** Expiry after 60 idle seconds changes no answer exactly when a minute refills the whole bucket. */
  lemma ExpiryInvisibleIff(c: Config)
    requires c.Valid()
    ensures c.burst <= 60 * c.rate <==>
            (forall rs: seq<Request> :: InOrder(rs) ==> Answers(c, None, true, rs) == Answers(c, None, false, rs))
  {
    if c.burst <= 60 * c.rate {
      forall rs: seq<Request> | InOrder(rs) ensures Answers(c, None, true, rs) == Answers(c, None, false, rs) {
        ExpiryUnobservable(c, None, None, rs, if rs == [] then 0 else rs[0].at);
      }
    } else {
      var rs := DrainTwice(c);
      DrainTwiceRun(c);
      assert Answers(c, None, true, rs)[1] != Answers(c, None, false, rs)[1];
    }
  }

  // Empty the bucket, come back after exactly the idle time, and empty it again.
  function DrainTwice(c: Config): seq<Request> {
    [Take(c.burst, 0), Take(c.burst, IDLE_TTL)]
  }

  lemma SingleRequest(c: Config, e: Option<Entry>, expiring: bool, r: Request)
    ensures Answers(c, e, expiring, [r]) == [Step(c, e, expiring, r).1]
    ensures Granted(c, e, expiring, [r]) == if r.Take? && Step(c, e, expiring, r).1.Allowed? then r.n else 0
  {
    assert [r][1..] == [];
  }

  lemma DrainTwiceRun(c: Config)
    requires c.Valid() && c.burst > 60 * c.rate
    ensures InOrder(DrainTwice(c))
    ensures Answers(c, None, true, DrainTwice(c)) == [Allowed, Allowed]
    ensures Answers(c, None, false, DrainTwice(c)) == [Allowed, Denied]
    ensures Granted(c, None, true, DrainTwice(c)) == 2 * c.burst
  {
    var rs := DrainTwice(c);
    var e := Some(Entry(0, 0, IDLE_TTL));
    assert Refill(c.rate, IDLE_TTL) == 60 * c.rate by {
      assert IDLE_TTL * c.rate == SECOND * (60 * c.rate);
    }
    var tail := [Take(c.burst, IDLE_TTL)];
    assert rs[1..] == tail && tail[1..] == [];
    assert Step(c, None, true, rs[0]) == Step(c, None, false, rs[0]) == (e, Allowed);
    assert Step(c, e, true, tail[0]).1 == Allowed && Step(c, e, false, tail[0]).1 == Denied;
    SingleRequest(c, e, true, tail[0]);
    SingleRequest(c, e, false, tail[0]);
  }

  lemma WindowBoundExpiring(c: Config, rs: seq<Request>, i: nat, j: nat)
    requires c.Valid() && c.burst <= 60 * c.rate && InOrder(rs) && i <= j < |rs|
    ensures WithinBound(c, true, rs, i, j)
  {
    var before := rs[..i];
    var start := if i == 0 then rs[0].at else before[i - 1].at;
    ExpiryUnobservable(c, None, None, before, rs[0].at);
    AfterSound(c, None, true, before, start);
    AfterSound(c, None, false, before, start);
    ExpiryUnobservable(c, After(c, None, true, before), After(c, None, false, before), rs[i..j + 1], start);
    WindowBoundNeverExpiring(c, rs, i, j);
  }

  lemma DrainTwiceBreaksBound(c: Config)
    requires c.Valid() && c.burst > 60 * c.rate
    ensures InOrder(DrainTwice(c)) && !WithinBound(c, true, DrainTwice(c), 0, 1)
  {
    var rs := DrainTwice(c);
    DrainTwiceRun(c);
    assert rs[..0] == [] && rs[0..2] == rs;
    assert Resets(rs[1..]) == 0;
    assert Resets(rs) == 0;
    assert (rs[1].at - rs[0].at) * c.rate == IDLE_TTL * c.rate;
  }

  /** With expiry, the window bound holds on every run exactly when a minute refills the whole bucket. */
  lemma WindowBoundIff(c: Config)
    requires c.Valid()
    ensures c.burst <= 60 * c.rate <==>
            (forall rs: seq<Request>, i: nat, j: nat :: InOrder(rs) && i <= j < |rs| ==> WithinBound(c, true, rs, i, j))
  {
    if c.burst <= 60 * c.rate {
      forall rs: seq<Request>, i: nat, j: nat | InOrder(rs) && i <= j < |rs| ensures WithinBound(c, true, rs, i, j) {
        WindowBoundExpiring(c, rs, i, j);
      }
    } else {
      DrainTwiceBreaksBound(c);
    }
  }

  // ---------- denials move the timestamp ----------

  // Requests so close together that none of the gaps is worth a whole token.
  predicate FastPolling(c: Config, last: int, rs: seq<Request>)
    decreases |rs|
  {
    rs == [] ||
    (rs[0].Take? && 0 <= (rs[0].at - last) * c.rate < SECOND && FastPolling(c, rs[0].at, rs[1..]))
  }

  /** Polling faster than one token accrues starves: however long it lasts, only the tokens at the start are granted. */
  lemma {:induction false} FastPollingStarves(c: Config, e: Entry, rs: seq<Request>)
    requires c.Valid() && 0 <= e.tokens <= c.burst && e.expiresAt == e.lastUpdate + IDLE_TTL
    requires FastPolling(c, e.lastUpdate, rs)
    requires forall i :: 0 <= i < |rs| ==> rs[i].Take? && 1 <= rs[i].n <= c.burst
    ensures Granted(c, Some(e), true, rs) <= e.tokens
    decreases |rs|
  {
    if rs != [] {
      var elapsed := rs[0].at - e.lastUpdate;
      if elapsed >= 0 {
        AtLeastFactor(elapsed, c.rate);
      }
      assert Refill(c.rate, elapsed) == 0;
      FastPollingStarves(c, Step(c, Some(e), true, rs[0]).0.value, rs[1..]);
    }
  }

  lemma {:induction false} GrantedNonNegative(c: Config, e: Option<Entry>, expiring: bool, rs: seq<Request>)
    ensures Granted(c, e, expiring, rs) >= 0
    decreases |rs|
  {
    if rs != [] {
      GrantedNonNegative(c, Step(c, e, expiring, rs[0]).0, expiring, rs[1..]);
    }
  }

  // From an empty bucket, a gap worth a token or more lets a one-token request through, expired or not.
  lemma EmptyBucketStep(c: Config, e: Entry, at: int)
    requires c.Valid() && e.tokens == 0 && e.expiresAt == e.lastUpdate + IDLE_TTL && e.lastUpdate <= at
    ensures var gained := (at - e.lastUpdate) * c.rate;
            && (Step(c, Some(e), true, Take(1, at)).1 == Allowed <==> gained >= SECOND)
            && (gained < SECOND ==> Step(c, Some(e), true, Take(1, at)).0 == Some(Entry(0, at, at + IDLE_TTL)))
  {
    var elapsed := at - e.lastUpdate;
    AtLeastFactor(elapsed, c.rate);
    WholeTokens(elapsed * c.rate);
  }

  lemma WholeTokens(n: int)
    requires n >= 0
    ensures n / SECOND >= 1 <==> n >= SECOND
    ensures n / SECOND >= 0
  {
  }

  /** From an empty bucket, one-token requests get nothing at all exactly when no gap between them is worth a token. */
  lemma {:induction false} StarvesIff(c: Config, e: Entry, rs: seq<Request>)
    requires c.Valid() && e.tokens == 0 && e.expiresAt == e.lastUpdate + IDLE_TTL
    requires InOrder(rs) && (rs != [] ==> e.lastUpdate <= rs[0].at)
    requires forall i :: 0 <= i < |rs| ==> rs[i].Take? && rs[i].n == 1
    ensures Granted(c, Some(e), true, rs) == 0 <==> FastPolling(c, e.lastUpdate, rs)
    decreases |rs|
  {
    if rs != [] {
      assert rs[0] == Take(1, rs[0].at);
      EmptyBucketStep(c, e, rs[0].at);
      GrantedNonNegative(c, Step(c, Some(e), true, rs[0]).0, true, rs[1..]);
      NotNegative(rs[0].at - e.lastUpdate, c.rate);
      if (rs[0].at - e.lastUpdate) * c.rate < SECOND {
        assert |rs| > 1 ==> rs[0].at <= rs[1].at;
        StarvesIff(c, Step(c, Some(e), true, rs[0]).0.value, rs[1..]);
      }
    }
  }

  lemma NotNegative(a: int, k: int)
    requires a >= 0 && k >= 0
    ensures a * k >= 0
  {
  }

  // ---------- single requests ----------

  lemma FloorAtLeast(x: int, k: int)
    ensures x / SECOND >= k <==> x >= k * SECOND
  {
  }

  /** On a stored bucket a request is allowed exactly when its tokens, with what has accrued since, cover it. */
  lemma AllowedIff(c: Config, e: Entry, n: int, now: int)
    requires now < e.expiresAt
    ensures Step(c, Some(e), true, Take(n, now)).1 == Allowed <==>
            1 <= n <= c.burst && e.tokens * SECOND + (now - e.lastUpdate) * c.rate >= n * SECOND
  {
    FloorAtLeast((now - e.lastUpdate) * c.rate, n - e.tokens);
  }

  /** A bucket never used, reset, or expired is full. */
  lemma MissingIsFull(c: Config, e: Option<Entry>, n: int, now: int)
    requires e.Some? ==> now >= e.value.expiresAt
    ensures Step(c, e, true, Take(n, now)).1 == Allowed <==> 1 <= n <= c.burst
  {
  }

  lemma LevelNow(c: Config, tokens: int, now: int)
    requires tokens <= c.burst
    ensures Level(c, Some(Entry(tokens, now, now + IDLE_TTL)), true, now) == tokens
  {
    assert (now - now) * c.rate == 0;
  }

  // All at one instant.
  predicate Instant(rs: seq<Request>, now: int) {
    forall i :: 0 <= i < |rs| ==> rs[i].at == now
  }

  lemma {:induction false} SameLevelSameAnswers(c: Config, a: Option<Entry>, b: Option<Entry>, rs: seq<Request>, now: int)
    requires Level(c, a, true, now) == Level(c, b, true, now) && Instant(rs, now)
    ensures Answers(c, a, true, rs) == Answers(c, b, true, rs)
    decreases |rs|
  {
    if rs != [] {
      SameLevelSameAnswers(c, Step(c, a, true, rs[0]).0, Step(c, b, true, rs[0]).0, rs[1..], now);
    }
  }

  /** A denial costs no tokens: every request of the same instant is answered as if the denied one had not been made. */
  lemma DenialIsFree(c: Config, e: Option<Entry>, n: int, now: int, rs: seq<Request>)
    requires Step(c, e, true, Take(n, now)).1 == Denied && Instant(rs, now)
    ensures Answers(c, Step(c, e, true, Take(n, now)).0, true, rs) == Answers(c, e, true, rs)
  {
    LevelNow(c, Level(c, e, true, now), now);
    SameLevelSameAnswers(c, Step(c, e, true, Take(n, now)).0, e, rs, now);
  }

  /** A grant costs exactly its tokens: a further request of the same instant is allowed exactly if both together were. */
  lemma GrantSpends(c: Config, e: Option<Entry>, n: int, m: int, now: int)
    requires Step(c, e, true, Take(n, now)).1 == Allowed && m >= 1
    ensures Step(c, Step(c, e, true, Take(n, now)).0, true, Take(m, now)).1 == Allowed <==>
            Step(c, e, true, Take(n + m, now)).1 == Allowed
  {
    LevelNow(c, Level(c, e, true, now) - n, now);
  }

  // ---------- the limiter ----------

  /** GetRemaining tells exactly which AllowN calls the same instant would let through. */
  lemma RemainingIsExact(c: Config, e: Option<Entry>, n: int, now: int)
    requires c.Valid() && Sound(c, e, now)
    ensures Step(c, e, true, Take(n, now)).1 == Allowed <==> 1 <= n <= Level(c, e, true, now)
  {
    LevelInRange(c, e, true, now);
  }

  class Limiter {
    const config: Config
    var store: map<string, Entry>

    constructor (rate: int, burst: int)
      requires rate >= 1
      ensures config == Config(rate, if burst <= 0 then rate else burst) && store == map[]
      ensures config.Valid()
    {
      config := Config(rate, if burst <= 0 then rate else burst);
      store := map[];
    }

    static method NewLimiter(rate: int, burst: int) returns (l: Limiter?)
      ensures l == null <==> rate <= 0
      ensures l != null ==> fresh(l) && l.store == map[] && l.config == Config(rate, if burst <= 0 then rate else burst)
    {
      if rate <= 0 {
        return null;
      }
      l := new Limiter(rate, burst);
    }

    function Stored(key: string): Option<Entry>
      reads this
    {
      if key in store then Some(store[key]) else None
    }

    /** The argument checks of AllowN, then the script. */
    method AllowN(key: string, n: int, now: int) returns (answer: Answer)
      modifies this
      ensures (Stored(key), answer) == Step(config, old(Stored(key)), true, Take(n, now))
      ensures forall k :: k != key ==> Stored(k) == old(Stored(k))
      ensures answer == Allowed <==>
              1 <= n <= config.burst
              && (key in old(store) && now < old(store)[key].expiresAt ==>
                    old(store)[key].tokens * SECOND + (now - old(store)[key].lastUpdate) * config.rate >= n * SECOND)
    {
      if key in store && now < store[key].expiresAt {
        AllowedIff(config, store[key], n, now);
      }
      if n <= 0 {
        return NotPositive;
      }
      if n > config.burst {
        return ExceedsBurst;
      }
      var tokens, lastUpdate := config.burst, now;
      if key in store && now < store[key].expiresAt {
        tokens, lastUpdate := store[key].tokens, store[key].lastUpdate;
      }
      var tokensToAdd := Refill(config.rate, now - lastUpdate);
      tokens := Min(tokens + tokensToAdd, config.burst);
      if tokens >= n {
        tokens := tokens - n;
        store := store[key := Entry(tokens, now, now + IDLE_TTL)];
        return Allowed;
      } else {
        store := store[key := Entry(tokens, now, now + IDLE_TTL)];
        return Denied;
      }
    }

    method Clear(key: string, now: int) returns (answer: Answer)
      modifies this
      ensures (Stored(key), answer) == Step(config, old(Stored(key)), true, Reset(now))
      ensures forall k :: k != key ==> Stored(k) == old(Stored(k))
    {
      store := store - {key};
      return Cleared;
    }

    method GetRemaining(key: string, now: int) returns (remaining: int)
      ensures remaining == Level(config, Stored(key), true, now)
    {
      if key !in store || now >= store[key].expiresAt {
        return config.burst;
      }
      var tokensToAdd := Refill(config.rate, now - store[key].lastUpdate);
      return Min(store[key].tokens + tokensToAdd, config.burst);
    }
  }
}
