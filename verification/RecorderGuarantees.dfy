/** What every run of the recorder guarantees: order, wake-ups, counters, stored rows and an orderly Stop. */
module RecorderGuarantees {
  import opened MarketData
  import opened BatchBuffer
  import opened RecorderInvariant
  import opened RecorderProtocol
  import Writer = TimescaleWriter

  /** Messages leave in the order they were accepted, none lost and none repeated, in every interleaving. */
  lemma AcceptedInOrder(s: State)
    requires Reachable(s)
    ensures s.accepted == Flatten(s.handed) + InFlight(s.flusher) + s.core.buffer
    ensures |s.core.buffer| <= 2 * s.core.maxSize
    ensures s.core.totalMessages == |s.accepted|
  {
    ReachableInvariant(s);
  }

  /** Add reports success exactly for the logged messages, and logs each call at most once. */
  lemma AcceptedExactlyWhenLogged(s: State, id: nat)
    requires Reachable(s)
    ensures (id in s.adders && s.adders[id] == Returned(Accepted)) <==> (exists i :: 0 <= i < |s.accepted| && s.accepted[i].id == id)
    ensures DistinctIds(s.accepted)
  {
    ReachableInvariant(s);
  }

  /** A buffer at or over the threshold always has a wake-up pending or taken; it holds during shutdown too. */
  lemma WakeupNeverLost(s: State)
    requires Reachable(s) && |s.core.buffer| >= s.core.maxSize
    ensures s.core.token || s.flusher == Woken(true)
  {
    ReachableInvariant(s);
  }

  /** The reported counters are exact: flushes and their failures, final flush left out, and refused calls. */
  lemma CountersAreExact(s: State)
    requires Reachable(s)
    ensures s.core.totalFlushes == Flushes(s.handed) && s.core.dropped == |DroppedIds(s.adders)|
    ensures !s.flusher.InCallback? ==> s.core.totalErrors == Unsuccessful(s.handed)
    ensures s.flusher.InCallback? ==> s.core.totalErrors == Unsuccessful(s.handed) - 1
  {
    ReachableInvariant(s);
  }

  /** When Stop returns on an uncancelled context, only Adds already past the running check can be left behind. */
  lemma StopAccounting(s: State)
    requires Reachable(s) && s.stopper.StopReturned? && !s.cancelled
    ensures s.accepted == Flatten(s.handed) + s.core.buffer
    ensures forall c :: c in s.core.buffer ==> c.id in s.enteredAtStop
    ensures DistinctIds(s.core.buffer)
    ensures s.enteredAtStop == {} ==> s.core.buffer == [] && s.accepted == Flatten(s.handed)
  {
    ReachableInvariant(s);
    assert s.accepted == Flatten(s.handed) + s.core.buffer;
    var n := |s.accepted| - |s.core.buffer|;
    assert s.core.buffer == s.accepted[n..];
    if s.core.buffer != [] {
      assert s.core.buffer[0].id in s.enteredAtStop;
    }
  }

  lemma {:induction false} SucceededDistinct(handed: seq<HandedBatch>)
    requires DistinctIds(Flatten(handed))
    ensures DistinctIds(Succeeded(handed))
    ensures forall c :: c in Succeeded(handed) ==> c in Flatten(handed)
  {
    if handed != [] {
      var front, last := handed[..|handed| - 1], handed[|handed| - 1];
      var all := Flatten(handed);
      var n := |Flatten(front)|;
      assert forall i :: 0 <= i < n ==> Flatten(front)[i] == all[i];
      assert forall i :: 0 <= i < |last.batch| ==> last.batch[i] == all[n + i];
      SucceededDistinct(front);
      forall c, d | c in Succeeded(front) && d in last.batch ensures c.id != d.id {
        var i :| 0 <= i < n && Flatten(front)[i] == c;
        var j :| 0 <= j < |last.batch| && last.batch[j] == d;
        assert all[i].id != all[n + j].id;
      }
    }
  }

  lemma {:induction false} AllSucceeded(handed: seq<HandedBatch>)
    requires forall i :: 0 <= i < |handed| ==> handed[i].succeeded
    ensures Succeeded(handed) == Flatten(handed)
  {
    if handed != [] {
      AllSucceeded(handed[..|handed| - 1]);
    }
  }

  /** The stored rows are those of the batches reported stored, each accepted call at most once. */
  lemma StoredExactlyOnce(s: State)
    requires Reachable(s)
    ensures s.db.ticks == Ticks(Messages(Succeeded(s.handed))) && s.db.books == OrderBooks(Messages(Succeeded(s.handed)))
    ensures DistinctIds(Succeeded(s.handed))
    ensures forall c :: c in Succeeded(s.handed) ==> c in s.accepted
    ensures (forall i :: 0 <= i < |s.handed| ==> s.handed[i].succeeded) && InFlight(s.flusher) == s.core.buffer == [] ==>
              s.db.ticks == Ticks(Messages(s.accepted)) && s.db.books == OrderBooks(Messages(s.accepted))
  {
    ReachableInvariant(s);
    var n := |Flatten(s.handed)|;
    assert s.accepted[..n] == Flatten(s.handed);
    assert forall i :: 0 <= i < n ==> Flatten(s.handed)[i] == s.accepted[i];
    SucceededDistinct(s.handed);
    if (forall i :: 0 <= i < |s.handed| ==> s.handed[i].succeeded) && InFlight(s.flusher) == s.core.buffer == [] {
      AllSucceeded(s.handed);
      assert s.accepted == Flatten(s.handed);
    }
  }

  // ---------- when messages are taken ----------

  /** Add succeeds exactly below twice the threshold, and raises the wake-up exactly from the threshold on. */
  lemma AddAcceptedIff(s: State, id: nat)
    requires Enabled(s, LockAdd(id))
    ensures var u := Apply(s, LockAdd(id));
            var room := |s.core.buffer| < 2 * s.core.maxSize;
            && u.adders[id] == Returned(if room then Accepted else Full)
            && u.core.buffer == (if room then s.core.buffer + [Call(id, s.adders[id].message)] else s.core.buffer)
            && (u.core.token <==> s.core.token || (room && |s.core.buffer| + 1 >= s.core.maxSize))
  {
  }

  /**
   A tick takes the whole buffer exactly when the threshold is reached or the last take is a timeout ago; otherwise it
   leaves the buffer and its clock alone.
   */
  lemma TickTakesIff(s: State, now: int)
    requires s.flusher.Selecting? && s.core.buffer != []
    ensures var u := Apply(Apply(s, SeeTick), LockAndTake(now));
            var due := |s.core.buffer| >= s.core.maxSize || now - s.core.lastFlow >= s.core.flushTimeout;
            && (u.flusher == Taken(s.core.buffer) <==> due)
            && (due ==> u.core.buffer == [] && u.core.lastFlow == now)
            && (!due ==> u.flusher.Selecting? && u.core == s.core)
  {
  }

  /** A wake-up takes whatever is there. */
  lemma WakeupTakes(s: State, now: int)
    requires s.flusher.Selecting? && s.core.token
    ensures var u := Apply(Apply(s, SeeToken), LockAndTake(now));
            && !u.core.token && u.core.buffer == []
            && u.flusher == (if s.core.buffer == [] then Selecting else Taken(s.core.buffer))
            && u.core.lastFlow == (if s.core.buffer == [] then s.core.lastFlow else now)
  {
  }

  /** So does a requested flush, whatever the threshold and the clock say. */
  lemma RequestedFlushTakes(s: State, now: int)
    requires s.flusher.Selecting? && s.core.buffer != []
    ensures var u := Apply(Apply(Apply(s, RequestFlush), SeeToken), LockAndTake(now));
            u.flusher == Taken(s.core.buffer) && u.core.buffer == []
  {
    WakeupTakes(Apply(s, RequestFlush), now);
  }

  // The first n accepted messages have left the buffer.
  predicate TakenUpTo(s: State, n: nat) {
    |s.accepted| - |s.core.buffer| >= n
  }

  // They have left it, or no take has happened after the given time.
  predicate WaitingSince(s: State, n: nat, time: int) {
    n <= |s.accepted| && (TakenUpTo(s, n) || s.core.lastFlow <= time)
  }

  lemma WaitingMoves(s: State, a: Action, n: nat, time: int)
    requires Enabled(s, a) && MovesMessages(a)
    ensures TakenUpTo(s, n) ==> TakenUpTo(Apply(s, a), n)
    ensures WaitingSince(s, n, time) ==> WaitingSince(Apply(s, a), n, time)
    ensures s.accepted <= Apply(s, a).accepted && Apply(s, a).core.flushTimeout == s.core.flushTimeout
  {
  }

  lemma WaitingControl(s: State, a: Action, n: nat, time: int)
    requires Enabled(s, a) && !MovesMessages(a)
    ensures TakenUpTo(s, n) ==> TakenUpTo(Apply(s, a), n)
    ensures WaitingSince(s, n, time) ==> WaitingSince(Apply(s, a), n, time)
    ensures s.accepted <= Apply(s, a).accepted && Apply(s, a).core.flushTimeout == s.core.flushTimeout
  {
    ControlFrame(s, a);
  }

  lemma WaitingStep(s: State, a: Action, n: nat, time: int)
    requires Enabled(s, a)
    ensures TakenUpTo(s, n) ==> TakenUpTo(Apply(s, a), n)
    ensures WaitingSince(s, n, time) ==> WaitingSince(Apply(s, a), n, time)
    ensures s.accepted <= Apply(s, a).accepted && Apply(s, a).core.flushTimeout == s.core.flushTimeout
  {
    if MovesMessages(a) {
      WaitingMoves(s, a, n, time);
    } else {
      WaitingControl(s, a, n, time);
    }
  }

  lemma DueLook(s: State, now: int, n: nat, time: int)
    requires Enabled(s, LockAndTake(now)) && WaitingSince(s, n, time) && now >= time + s.core.flushTimeout
    ensures TakenUpTo(Apply(s, LockAndTake(now)), n)
  {
  }

  predicate LooksAfter(actions: seq<Action>, time: int) {
    exists i :: 0 <= i < |actions| && actions[i].LockAndTake? && actions[i].now >= time
  }

  lemma {:induction false} WaitingRun(s: State, actions: seq<Action>, u: State, n: nat, time: int)
    requires Reaches(s, actions, u) && WaitingSince(s, n, time)
    requires TakenUpTo(s, n) || LooksAfter(actions, time + s.core.flushTimeout)
    ensures TakenUpTo(u, n) && s.accepted <= u.accepted
    decreases |actions|
  {
    if actions != [] {
      var a := actions[0];
      WaitingStep(s, a, n, time);
      if a.LockAndTake? && a.now >= time + s.core.flushTimeout {
        DueLook(s, a.now, n, time);
      } else if !TakenUpTo(s, n) {
        var i :| 0 <= i < |actions| && actions[i].LockAndTake? && actions[i].now >= time + s.core.flushTimeout;
        assert actions[1..][i - 1] == actions[i];
      }
      WaitingRun(Apply(s, a), actions[1..], u, n, time);
    }
  }

  /**
   How long a message can wait: once the flusher has looked at the buffer at any moment a timeout or more after a given
   time, everything accepted by then has been taken, in order, whatever else the run does. So with ticks every timeout
   a message is taken within two of them and the callback in between.
   */
  lemma NothingOutwaitsTimeout(s: State, actions: seq<Action>, u: State, time: int)
    requires Reachable(s) && s.core.lastFlow <= time && Reaches(s, actions, u)
    requires LooksAfter(actions, time + s.core.flushTimeout)
    ensures s.accepted <= Flatten(u.handed) + InFlight(u.flusher)
  {
    WaitingRun(s, actions, u, |s.accepted|, time);
    ReachableRun(s, actions, u);
    ReachableInvariant(u);
    var taken := Flatten(u.handed) + InFlight(u.flusher);
    assert u.accepted == taken + u.core.buffer;
    assert |taken| >= |s.accepted| && u.accepted[..|s.accepted|] == s.accepted;
    assert taken[..|s.accepted|] == u.accepted[..|s.accepted|];
  }

  // ---------- the final flush ----------

  /** The final flush makes up to three attempts with the same batch, and stops at the first that succeeds. */
  lemma FinalFlushAttempts(s: State, env: Writer.Environment)
    requires s.flusher.InFinalCallback?
    ensures var u := Apply(s, ReturnFromFinalCallback(env));
            var stored := Writer.Outcome(Messages(s.flusher.batch), Seen(s, env), s.maxRetries).None?;
            && (stored || s.flusher.attempt >= 2 ==> u.flusher.Closing?)
            && (!stored && s.flusher.attempt < 2 ==> u.flusher == InFinalCallback(s.flusher.batch, s.flusher.attempt + 1))
    ensures Enabled(s, ReturnFromFinalCallback(env))
  {
  }

  /** The reported size is the buffer's, as long as it fits 32 bits. */
  lemma SizeIsExact(s: State)
    requires Reachable(s) && |s.core.buffer| < 0x8000_0000
    ensures s.core.currentSize == |s.core.buffer|
  {
    ReachableInvariant(s);
  }
}
