/** The in-memory login limiter: attempts per window, lockout after repeated failures, periodic cleanup. */
module AuthLimiter {
  import opened Clock
  import opened Options

  const DAY: int := 24 * 3600 * SECOND

  // Times are nanoseconds since the zero time of the source's clock, so an unset time is 0.
  datatype AuthState = AuthState(attempts: int, failedCount: int, lastAttempt: int, lockedUntil: int)

  datatype Config = Config(loginLimit: int, window: int, lockoutLimit: int, lockoutTime: int)

  datatype Outcome = Admitted | Locked | RateLimited | Recorded

  // Everything that happens to one identifier.
  datatype Event = Check(at: int) | Fail(at: int) | Clear(at: int) | Cleanup(at: int)

  function Default(): Config {
    Config(5, 60 * SECOND, 10, 15 * 60 * SECOND)
  }

  function CheckStep(c: Config, s: Option<AuthState>, now: int): (Option<AuthState>, Outcome) {
    if s.None? then (Some(AuthState(1, 0, now, 0)), Admitted)
    else
      var st := s.value;
      if now < st.lockedUntil then (s, Locked)
      else if now - st.lastAttempt > c.window then (Some(st.(attempts := 1, lastAttempt := now)), Admitted)
      else
        (Some(st.(attempts := st.attempts + 1, lastAttempt := now)),
         if st.attempts + 1 > c.loginLimit then RateLimited else Admitted)
  }

  function FailStep(c: Config, s: Option<AuthState>, now: int): Option<AuthState> {
    var st := if s.None? then AuthState(0, 0, 0, 0) else s.value;
    if st.failedCount + 1 >= c.lockoutLimit then Some(st.(failedCount := 0, lockedUntil := now + c.lockoutTime))
    else Some(st.(failedCount := st.failedCount + 1))
  }

  function ClearStep(s: Option<AuthState>): Option<AuthState> {
    if s.None? then None else Some(s.value.(failedCount := 0))
  }

  predicate Stale(st: AuthState, now: int) {
    now - st.lastAttempt > DAY && now > st.lockedUntil
  }

  function CleanupStep(s: Option<AuthState>, now: int): Option<AuthState> {
    if s.Some? && Stale(s.value, now) then None else s
  }

  function Step(c: Config, s: Option<AuthState>, e: Event): (Option<AuthState>, Outcome) {
    match e
    case Check(now) => CheckStep(c, s, now)
    case Fail(now) => (FailStep(c, s, now), Recorded)
    case Clear(_) => (ClearStep(s), Recorded)
    case Cleanup(now) => (CleanupStep(s, now), Recorded)
  }

  function After(c: Config, s: Option<AuthState>, es: seq<Event>): Option<AuthState>
    decreases |es|
  {
    if es == [] then s else After(c, Step(c, s, es[0]).0, es[1..])
  }

  function AdmittedCount(c: Config, s: Option<AuthState>, es: seq<Event>): int
    decreases |es|
  {
    if es == [] then 0
    else (if Step(c, s, es[0]).1.Admitted? then 1 else 0) + AdmittedCount(c, Step(c, s, es[0]).0, es[1..])
  }

  predicate InOrder(es: seq<Event>) {
    forall i, j :: 0 <= i < j < |es| ==> es[i].at <= es[j].at
  }

  predicate Sound(s: Option<AuthState>) {
    s.Some? ==> s.value.attempts >= 0
  }

  lemma {:induction false} AfterSound(c: Config, s: Option<AuthState>, es: seq<Event>)
    requires Sound(s)
    ensures Sound(After(c, s, es))
    decreases |es|
  {
    if es != [] {
      AfterSound(c, Step(c, s, es[0]).0, es[1..]);
    }
  }

  // ---------- the window bound ----------

  // Once an attempt falls inside the interval, the counter only climbs until the interval ends.
  lemma {:induction false} AttemptsUseUpTheLimit(c: Config, st: AuthState, es: seq<Event>, start: int)
    requires c.window <= DAY && start <= st.lastAttempt
    requires forall i :: 0 <= i < |es| ==> start <= es[i].at <= start + c.window
    ensures AdmittedCount(c, Some(st), es) <= Max(0, c.loginLimit - st.attempts)
    decreases |es|
  {
    if es != [] {
      var s' := Step(c, Some(st), es[0]).0;
      AttemptsUseUpTheLimit(c, s'.value, es[1..], start);
    }
  }

  lemma {:induction false} IntervalBound(c: Config, s: Option<AuthState>, es: seq<Event>, start: int)
    requires c.window <= DAY && Sound(s)
    requires forall i :: 0 <= i < |es| ==> start <= es[i].at <= start + c.window
    ensures AdmittedCount(c, s, es) <= Max(1, c.loginLimit)
    decreases |es|
  {
    if es != [] {
      var s' := Step(c, s, es[0]).0;
      if s'.Some? && s'.value.lastAttempt >= start {
        AttemptsUseUpTheLimit(c, s'.value, es[1..], start);
      }
      IntervalBound(c, s', es[1..], start);
    }
  }

  // Checks admitted from event i through event j of a run on a fresh identifier.
  function AdmittedBetween(c: Config, es: seq<Event>, i: nat, j: nat): int
    requires i <= j < |es|
  {
    AdmittedCount(c, After(c, None, es[..i]), es[i..j + 1])
  }

  predicate WindowRespected(c: Config, es: seq<Event>, i: nat, j: nat)
    requires i <= j < |es|
  {
    es[j].at - es[i].at <= c.window ==> AdmittedBetween(c, es, i, j) <= Max(1, c.loginLimit)
  }

  // Fill the window, let the cleanup forget the identifier, and check once more.
  function FillForgetCheck(c: Config): seq<Event> {
    Checks(Max(1, c.loginLimit), 1) + [Cleanup(DAY + 2), Check(DAY + 2)]
  }

  function Checks(n: int, at: int): seq<Event> {
    if n <= 0 then [] else [Check(at)] + Checks(n - 1, at)
  }

  lemma {:induction false} ChecksAdmitted(c: Config, st: AuthState, n: int, at: int, rest: seq<Event>)
    requires c.window >= 0 && st.lastAttempt == at && st.lockedUntil <= at && n >= 0
    requires n > 0 ==> st.attempts + n <= c.loginLimit
    ensures AdmittedCount(c, Some(st), Checks(n, at) + rest)
            == n + AdmittedCount(c, Some(st.(attempts := st.attempts + n)), rest)
    decreases n
  {
    if n == 0 {
      assert Checks(n, at) + rest == rest;
    } else {
      var es := Checks(n, at) + rest;
      assert es[0] == Check(at) && es[1..] == Checks(n - 1, at) + rest;
      ChecksAdmitted(c, st.(attempts := st.attempts + 1), n - 1, at, rest);
    }
  }

  lemma ChecksAt(n: int, at: int)
    ensures |Checks(n, at)| == Max(0, n) && forall i :: 0 <= i < |Checks(n, at)| ==> Checks(n, at)[i] == Check(at)
  {
  }

  // What comes after the filled window: the entry is dropped, so the last check starts afresh.
  lemma ForgetThenCheck(c: Config, st: AuthState)
    requires st.lastAttempt == 1 && st.lockedUntil == 0
    ensures AdmittedCount(c, Some(st), [Cleanup(DAY + 2), Check(DAY + 2)]) == 1
  {
    var rest, last := [Cleanup(DAY + 2), Check(DAY + 2)], [Check(DAY + 2)];
    assert rest[1..] == last && last[1..] == [];
    assert Step(c, Some(st), rest[0]) == (None, Recorded);
    assert AdmittedCount(c, None, last) == 1;
  }

  lemma FillForgetCheckCount(c: Config)
    requires c.window >= 0
    ensures AdmittedCount(c, None, FillForgetCheck(c)) == Max(1, c.loginLimit) + 1
  {
    var limit := Max(1, c.loginLimit);
    var rest := [Cleanup(DAY + 2), Check(DAY + 2)];
    var es := FillForgetCheck(c);
    var st := AuthState(1, 0, 1, 0);
    assert es[0] == Check(1) && es[1..] == Checks(limit - 1, 1) + rest;
    assert Step(c, None, es[0]) == (Some(st), Admitted);
    ChecksAdmitted(c, st, limit - 1, 1, rest);
    ForgetThenCheck(c, st.(attempts := st.attempts + (limit - 1)));
  }

  lemma FillForgetCheckInOrder(c: Config)
    ensures InOrder(FillForgetCheck(c)) && |FillForgetCheck(c)| == Max(1, c.loginLimit) + 2
    ensures FillForgetCheck(c)[0].at == 1 && FillForgetCheck(c)[|FillForgetCheck(c)| - 1].at == DAY + 2
  {
    ChecksAt(Max(1, c.loginLimit), 1);
  }

  lemma ForgettingOverAdmits(c: Config)
    requires c.window > DAY
    ensures var es := FillForgetCheck(c);
            InOrder(es) && !WindowRespected(c, es, 0, |es| - 1)
  {
    var es := FillForgetCheck(c);
    FillForgetCheckInOrder(c);
    FillForgetCheckCount(c);
    assert es[..0] == [] && es[0..|es|] == es;
  }

  /**
   No interval as short as the window admits more than the limit, whatever failures, clears and cleanups
   interleave: on every run exactly when the window does not outlast the cleanup age. The first check of an
   identifier is admitted even under a limit below one.
   */
  lemma WindowRespectedIff(c: Config)
    ensures c.window <= DAY <==>
            (forall es: seq<Event>, i: nat, j: nat :: InOrder(es) && i <= j < |es| ==> WindowRespected(c, es, i, j))
  {
    if c.window <= DAY {
      forall es: seq<Event>, i: nat, j: nat | InOrder(es) && i <= j < |es| ensures WindowRespected(c, es, i, j) {
        if es[j].at - es[i].at <= c.window {
          AfterSound(c, None, es[..i]);
          IntervalBound(c, After(c, None, es[..i]), es[i..j + 1], es[i].at);
        }
      }
    } else {
      ForgettingOverAdmits(c);
    }
  }

  // ---------- exactly which checks are admitted ----------

  /** The answer to one check: Locked before the end of the lock; after a pause longer than the window, admitted. */
  lemma CheckOutcomeIff(c: Config, s: Option<AuthState>, now: int)
    ensures var outcome := Step(c, s, Check(now)).1;
            && (outcome == Locked <==> s.Some? && now < s.value.lockedUntil)
            && (outcome == Admitted <==>
                  s.None? || (now >= s.value.lockedUntil
                              && (now - s.value.lastAttempt > c.window || s.value.attempts < c.loginLimit)))
  {
  }

  // Checks that never pause for longer than the window, on an identifier that is not locked.
  predicate Steady(c: Config, last: int, lockedUntil: int, es: seq<Event>)
    decreases |es|
  {
    es == [] ||
    (es[0].Check? && lockedUntil <= es[0].at && es[0].at - last <= c.window && Steady(c, es[0].at, lockedUntil, es[1..]))
  }

  function LastTime(last: int, es: seq<Event>): int {
    if es == [] then last else es[|es| - 1].at
  }

  /**
   Of checks that keep coming within the window exactly what is left of the limit is admitted, and every refused one
   counts as an attempt too; the first check after a longer pause is admitted again.
   */
  lemma {:induction false} SteadyChecks(c: Config, st: AuthState, es: seq<Event>, next: int)
    requires Steady(c, st.lastAttempt, st.lockedUntil, es)
    requires next - LastTime(st.lastAttempt, es) > c.window && st.lockedUntil <= next
    ensures AdmittedCount(c, Some(st), es) == Min(|es|, Max(0, c.loginLimit - st.attempts))
    ensures Step(c, After(c, Some(st), es), Check(next)).1 == Admitted
    decreases |es|
  {
    if es != [] {
      var st' := st.(attempts := st.attempts + 1, lastAttempt := es[0].at);
      assert Step(c, Some(st), es[0]).0 == Some(st');
      assert LastTime(st'.lastAttempt, es[1..]) == LastTime(st.lastAttempt, es);
      SteadyChecks(c, st', es[1..], next);
    }
  }

  // ---------- lockout ----------

  /** A failure counts, and locks for exactly lockoutTime when it reaches the limit, starting a new count. */
  lemma FailureEffect(c: Config, s: Option<AuthState>, now: int)
    ensures var s' := Step(c, s, Fail(now)).0;
            var count := (if s.Some? then s.value.failedCount else 0) + 1;
            && s'.Some?
            && s'.value.lockedUntil == (if count >= c.lockoutLimit then now + c.lockoutTime
                                        else if s.Some? then s.value.lockedUntil else 0)
            && s'.value.failedCount == (if count >= c.lockoutLimit then 0 else count)
            && (s'.value.attempts, s'.value.lastAttempt)
               == (if s.Some? then (s.value.attempts, s.value.lastAttempt) else (0, 0))
  {
  }

  /** A lock ends: unless the failures reach the limit again, no check from its end on is answered Locked. */
  lemma {:induction false} LockEnds(c: Config, s: Option<AuthState>, es: seq<Event>, end: int, i: nat)
    requires end >= 0 && (s.Some? ==> s.value.lockedUntil <= end)
    requires FailedCount(s) >= 0 && FailedCount(s) + Failures(es) < c.lockoutLimit
    requires i < |es| && es[i].Check? && es[i].at >= end
    ensures Step(c, After(c, s, es[..i]), es[i]).1 != Locked
    decreases |es|
  {
    if i > 0 {
      FailuresNonNegative(es[1..]);
      CountStep(c, s, es[0]);
      assert es[..i][1..] == es[1..][..i - 1];
      LockEnds(c, Step(c, s, es[0]).0, es[1..], end, i - 1);
    }
  }

  predicate LockedThrough(s: Option<AuthState>, until: int) {
    s.Some? && s.value.lockedUntil >= until
  }

  lemma {:induction false} LockHolds(c: Config, s: Option<AuthState>, es: seq<Event>, lockedAt: int, i: nat)
    requires InOrder(es) && LockedThrough(s, lockedAt + c.lockoutTime) && i < |es|
    requires lockedAt <= es[0].at
    requires es[i].Check? && es[i].at < lockedAt + c.lockoutTime
    ensures Step(c, After(c, s, es[..i]), es[i]).1 == Locked
    decreases |es|
  {
    if i > 0 {
      assert es[0].at <= es[i].at;
      assert es[..i][1..] == es[1..][..i - 1];
      LockHolds(c, Step(c, s, es[0]).0, es[1..], lockedAt, i - 1);
    }
  }

  function Failures(es: seq<Event>): int {
    if es == [] then 0 else (if es[0].Fail? then 1 else 0) + Failures(es[1..])
  }

  function FailedCount(s: Option<AuthState>): int {
    if s.None? then 0 else s.value.failedCount
  }

  lemma FailuresNonNegative(es: seq<Event>)
    ensures Failures(es) >= 0
  {
  }

  predicate NoClears(es: seq<Event>) {
    forall i :: 0 <= i < |es| ==> !es[i].Clear?
  }

  // When the entry of an identifier was last used, and until when it is locked.
  datatype Use = Use(lastAttempt: int, lockedUntil: int)

  function UseOf(s: Option<AuthState>): Option<Use> {
    if s.None? then None else Some(Use(s.value.lastAttempt, s.value.lockedUntil))
  }

  // A check counts as a use unless the lock turns it away; a failure does not, not even the one that makes the entry.
  function Used(u: Option<Use>, e: Event): Option<Use> {
    match e
    case Check(now) =>
      if u.None? then Some(Use(now, 0))
      else if now < u.value.lockedUntil then u
      else Some(u.value.(lastAttempt := now))
    case Fail(_) => if u.None? then Some(Use(0, 0)) else u
    case Clear(_) => u
    case Cleanup(_) => if Forgotten(u, e) then None else u
  }

  // A cleanup over a day after the last use, with no lock running.
  predicate Forgotten(u: Option<Use>, e: Event) {
    e.Cleanup? && u.Some? && e.at - u.value.lastAttempt > DAY && e.at > u.value.lockedUntil
  }

  // No cleanup forgets the identifier while failures are on record.
  predicate Remembered(u: Option<Use>, count: int, es: seq<Event>)
    decreases |es|
  {
    es == [] ||
    ((Forgotten(u, es[0]) ==> count == 0)
     && Remembered(Used(u, es[0]), if es[0].Clear? then 0 else if es[0].Fail? then count + 1 else count, es[1..]))
  }

  // One event below the limit.
  lemma CountStep(c: Config, s: Option<AuthState>, e: Event)
    requires e.Fail? ==> FailedCount(s) + 1 < c.lockoutLimit
    ensures UseOf(Step(c, s, e).0) == Used(UseOf(s), e)
    ensures FailedCount(Step(c, s, e).0)
            == if e.Clear? || Forgotten(UseOf(s), e) then 0 else if e.Fail? then FailedCount(s) + 1 else FailedCount(s)
  {
  }

  // Below the limit, remembered failures add up.
  lemma {:induction false} FailuresAdd(c: Config, s: Option<AuthState>, es: seq<Event>)
    requires NoClears(es) && FailedCount(s) + Failures(es) < c.lockoutLimit
    requires Remembered(UseOf(s), FailedCount(s), es)
    ensures FailedCount(After(c, s, es)) == FailedCount(s) + Failures(es)
    decreases |es|
  {
    if es != [] {
      FailuresNonNegative(es[1..]);
      CountStep(c, s, es[0]);
      FailuresAdd(c, Step(c, s, es[0]).0, es[1..]);
    }
  }

  // A forgotten failure is never made up for.
  lemma {:induction false} ForgottenLost(c: Config, s: Option<AuthState>, es: seq<Event>)
    requires NoClears(es) && FailedCount(s) >= 0 && FailedCount(s) + Failures(es) < c.lockoutLimit
    ensures FailedCount(After(c, s, es)) <= FailedCount(s) + Failures(es)
    ensures !Remembered(UseOf(s), FailedCount(s), es) ==> FailedCount(After(c, s, es)) < FailedCount(s) + Failures(es)
    decreases |es|
  {
    if es != [] {
      FailuresNonNegative(es[1..]);
      CountStep(c, s, es[0]);
      ForgottenLost(c, Step(c, s, es[0]).0, es[1..]);
    }
  }

  /** Without clears and below the limit, every failure counts exactly when no cleanup forgets those on record. */
  lemma FailuresAddIff(c: Config, s: Option<AuthState>, es: seq<Event>)
    requires NoClears(es) && FailedCount(s) >= 0 && FailedCount(s) + Failures(es) < c.lockoutLimit
    ensures FailedCount(After(c, s, es)) == FailedCount(s) + Failures(es) <==> Remembered(UseOf(s), FailedCount(s), es)
  {
    ForgottenLost(c, s, es);
    if Remembered(UseOf(s), FailedCount(s), es) {
      FailuresAdd(c, s, es);
    }
  }

  // Every cleanup has a check, in the run or before it, at most a day earlier.
  predicate CheckedDaily(u: Option<Use>, es: seq<Event>) {
    forall k :: 0 <= k < |es| && es[k].Cleanup? ==>
      (u.Some? && es[k].at - u.value.lastAttempt <= DAY)
      || exists m :: 0 <= m < k && es[m].Check? && es[k].at - es[m].at <= DAY
  }

  // The clock has passed the last use and any lock.
  predicate Behind(u: Option<Use>, es: seq<Event>) {
    u.Some? ==> forall i :: 0 <= i < |es| ==> u.value.lastAttempt <= es[i].at && u.value.lockedUntil <= es[i].at
  }

  predicate AfterZero(es: seq<Event>) {
    forall i :: 0 <= i < |es| ==> es[i].at >= 0
  }

  lemma CheckedDailyStep(u: Option<Use>, es: seq<Event>)
    requires es != [] && InOrder(es) && AfterZero(es) && Behind(u, es) && CheckedDaily(u, es)
    ensures !Forgotten(u, es[0])
    ensures Behind(Used(u, es[0]), es[1..]) && CheckedDaily(Used(u, es[0]), es[1..])
  {
    var rest, u' := es[1..], Used(u, es[0]);
    assert es[0] == es[0] && forall i :: 0 <= i < |rest| ==> rest[i] == es[i + 1] && es[0].at <= es[i + 1].at;
    forall k | 0 <= k < |rest| && rest[k].Cleanup?
      ensures (u'.Some? && rest[k].at - u'.value.lastAttempt <= DAY)
              || exists m :: 0 <= m < k && rest[m].Check? && rest[k].at - rest[m].at <= DAY
    {
      assert es[k + 1].Cleanup?;
      if !(u.Some? && es[k + 1].at - u.value.lastAttempt <= DAY) {
        var m :| 0 <= m < k + 1 && es[m].Check? && es[k + 1].at - es[m].at <= DAY;
        if m > 0 {
          assert rest[m - 1] == es[m];
        }
      }
    }
  }

  /** An identifier checked at most a day before every cleanup is never forgotten, so all its failures count. */
  lemma {:induction false} DailyChecksRemember(u: Option<Use>, count: int, es: seq<Event>)
    requires InOrder(es) && AfterZero(es) && Behind(u, es) && CheckedDaily(u, es)
    ensures Remembered(u, count, es)
    decreases |es|
  {
    if es != [] {
      CheckedDailyStep(u, es);
      assert InOrder(es[1..]) && AfterZero(es[1..]);
      DailyChecksRemember(Used(u, es[0]), if es[0].Clear? then 0 else if es[0].Fail? then count + 1 else count, es[1..]);
    }
  }

  /**
   The failure that reaches the limit rejects every check of the next lockoutTime, whatever comes in between; the
   failures before it may be spread over checks and cleanups, as long as none of the cleanups forgets them.
   */
  lemma LockoutBlocks(c: Config, s: Option<AuthState>, before: seq<Event>, at: int, after: seq<Event>, i: nat)
    requires NoClears(before) && Remembered(UseOf(s), FailedCount(s), before)
    requires FailedCount(s) + Failures(before) == c.lockoutLimit - 1
    requires InOrder([Fail(at)] + after) && i < |after|
    requires after[i].Check? && after[i].at < at + c.lockoutTime
    ensures var locked := Step(c, After(c, s, before), Fail(at)).0;
            Step(c, After(c, locked, after[..i]), after[i]).1 == Locked
  {
    FailuresAdd(c, s, before);
    var es := [Fail(at)] + after;
    assert es[0].at <= es[1].at && es[1..] == after;
    assert InOrder(after) by {
      assert forall k :: 0 <= k < |after| ==> after[k] == es[k + 1];
    }
    LockHolds(c, Step(c, After(c, s, before), Fail(at)).0, after, at, i);
  }

  // ---------- the limiter ----------

  class Limiter {
    const config: Config
    var localState: map<string, AuthState>

    constructor ()
      ensures config == Default() && localState == map[]
    {
      config := Default();
      localState := map[];
    }

    function State(id: string): Option<AuthState>
      reads this
    {
      if id in localState then Some(localState[id]) else None
    }

    method CheckLocal(id: string, now: int) returns (outcome: Outcome)
      modifies this
      ensures (State(id), outcome) == Step(config, old(State(id)), Check(now))
      ensures forall k :: k != id ==> State(k) == old(State(k))
    {
      if id !in localState {
        localState := localState[id := AuthState(1, 0, now, 0)];
        return Admitted;
      }
      var state := localState[id];
      if now < state.lockedUntil {
        return Locked;
      }
      if now - state.lastAttempt > config.window {
        localState := localState[id := state.(attempts := 1, lastAttempt := now)];
        return Admitted;
      }
      state := state.(attempts := state.attempts + 1, lastAttempt := now);
      localState := localState[id := state];
      if state.attempts > config.loginLimit {
        return RateLimited;
      }
      return Admitted;
    }

    method RecordFailedLocal(id: string, now: int)
      modifies this
      ensures State(id) == Step(config, old(State(id)), Fail(now)).0
      ensures forall k :: k != id ==> State(k) == old(State(k))
    {
      if id !in localState {
        localState := localState[id := AuthState(0, 0, 0, 0)];
      }
      var state := localState[id].(failedCount := localState[id].failedCount + 1);
      if state.failedCount >= config.lockoutLimit {
        state := state.(lockedUntil := now + config.lockoutTime, failedCount := 0);
      }
      localState := localState[id := state];
    }

    method ClearFailedAttempts(id: string, now: int)
      modifies this
      ensures State(id) == Step(config, old(State(id)), Clear(now)).0
      ensures forall k :: k != id ==> State(k) == old(State(k))
    {
      if id in localState {
        localState := localState[id := localState[id].(failedCount := 0)];
      }
    }

    /** Visits every entry and removes the stale ones. */
    method CleanupExpired(now: int)
      modifies this
      ensures forall k :: State(k) == Step(config, old(State(k)), Cleanup(now)).0
    {
      var pending := localState.Keys;
      while pending != {}
        invariant pending <= old(localState).Keys
        invariant forall k :: k in pending ==> State(k) == old(State(k))
        invariant forall k :: k !in pending ==> State(k) == Step(config, old(State(k)), Cleanup(now)).0
        decreases |pending|
      {
        var id :| id in pending;
        var state := localState[id];
        if now - state.lastAttempt > DAY && now > state.lockedUntil {
          localState := localState - {id};
        }
        pending := pending - {id};
      }
    }
  }
}
