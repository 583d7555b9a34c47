/** What a shutdown of the recorder can leave behind, and exactly when. */
module RecorderShutdown {
  import opened MarketData
  import opened BatchBuffer
  import opened RecorderGuarantees
  import opened RecorderInvariant
  import opened RecorderProtocol
  import Writer = TimescaleWriter

  predicate PastFinalTake(f: Flusher) {
    Exiting(f) && !f.Leaving?
  }

  lemma LateMessageStep(s: State, a: Action)
    requires PastFinalTake(s.flusher) && Enabled(s, a)
    ensures PastFinalTake(Apply(s, a).flusher) && s.core.buffer <= Apply(s, a).core.buffer
  {
    if MovesMessages(a) {
      LateMessageMoves(s, a);
    } else {
      LateMessageControl(s, a);
    }
  }

  lemma LateMessageMoves(s: State, a: Action)
    requires PastFinalTake(s.flusher) && Enabled(s, a) && MovesMessages(a)
    ensures PastFinalTake(Apply(s, a).flusher) && s.core.buffer <= Apply(s, a).core.buffer
  {
  }

  lemma LateMessageControl(s: State, a: Action)
    requires PastFinalTake(s.flusher) && Enabled(s, a) && !MovesMessages(a)
    ensures PastFinalTake(Apply(s, a).flusher) && s.core.buffer <= Apply(s, a).core.buffer
  {
  }

  /** Whatever is in the buffer once the flusher has taken its last batch stays there: no later step hands it over. */
  lemma {:induction false} LateMessagesStay(s: State, actions: seq<Action>, s': State)
    requires PastFinalTake(s.flusher) && Reaches(s, actions, s')
    ensures PastFinalTake(s'.flusher) && s.core.buffer <= s'.core.buffer
    decreases |actions|
  {
    if actions != [] {
      LateMessageStep(s, actions[0]);
      LateMessagesStay(Apply(s, actions[0]), actions[1..], s');
    }
  }

  /** Cancelling the context leaves `running` set, so Add goes on accepting messages nobody will hand over. */
  lemma CancelStrandsLaterAdds(s: State, id: nat, m: Message)
    requires Reachable(s) && s.flusher.Finished? && s.stopper.NotCalled? && id !in s.adders
    requires |s.core.buffer| < 2 * s.core.maxSize
    ensures s.exit.ViaCancel? && s.core.running
    ensures var s' := Apply(Apply(s, EnterAdd(id, m)), LockAdd(id));
            s'.adders[id] == Returned(Accepted) && s'.core.buffer == s.core.buffer + [Call(id, m)]
  {
    ReachableInvariant(s);
  }

  // No further Add enters.
  predicate NoEntries(actions: seq<Action>) {
    forall a :: a in actions ==> !a.EnterAdd?
  }

  ghost predicate CanReachClosed(s: State, s': State) {
    exists actions :: Reaches(s, actions, s') && NoEntries(actions)
  }

  lemma StayClosed(s: State)
    ensures CanReachClosed(s, s)
  {
    assert Reaches(s, [], s);
  }

  lemma Advance(s: State, s': State, a: Action)
    requires CanReachClosed(s, s') && Enabled(s', a) && !a.EnterAdd?
    ensures CanReachClosed(s, Apply(s', a))
  {
    var actions :| Reaches(s, actions, s') && NoEntries(actions);
    ReachesAppend(s, actions, s', a);
    assert NoEntries(actions + [a]);
  }

  // The state but for what the flusher changes.
  predicate SameCalls(s: State, s': State) {
    && s'.adders == s.adders && s'.stopper == s.stopper && s'.cancelled == s.cancelled
    && s'.core.maxSize == s.core.maxSize && s'.core.stopClosed == s.core.stopClosed
  }

  lemma FlushToSelect(s0: State, s: State, env: Writer.Environment) returns (s': State)
    requires CanReachClosed(s0, s) && (s.flusher.Taken? || s.flusher.InCallback?)
    ensures CanReachClosed(s0, s') && SameCalls(s, s') && s'.flusher.Selecting?
  {
    s' := s;
    if s'.flusher.Taken? {
      Advance(s0, s', EnterCallback);
      s' := Apply(s', EnterCallback);
    }
    Advance(s0, s', ReturnFromCallback(env));
    s' := Apply(s', ReturnFromCallback(env));
  }

  // Whatever the flusher is at, it gets back to its select.
  lemma BackToSelect(s0: State, s: State, env: Writer.Environment) returns (s': State)
    requires CanReachClosed(s0, s) && !Exiting(s.flusher)
    ensures CanReachClosed(s0, s') && SameCalls(s, s') && s'.flusher.Selecting?
  {
    s' := s;
    if s.flusher.NotStarted? {
      Advance(s0, s', StartFlusher);
      s' := Apply(s', StartFlusher);
    } else if s.flusher.Woken? {
      Advance(s0, s', LockAndTake(0));
      s' := Apply(s', LockAndTake(0));
    }
    if !s'.flusher.Selecting? {
      s' := FlushToSelect(s0, s', env);
    }
  }

  // The retries of the final flush run out at the latest.
  lemma FinishCallback(s0: State, s: State, env: Writer.Environment) returns (s': State)
    requires CanReachClosed(s0, s) && s.flusher.InFinalCallback?
    ensures CanReachClosed(s0, s') && SameCalls(s, s') && s'.core.buffer == s.core.buffer && s'.flusher.Closing?
    decreases if s.flusher.attempt < FINAL_RETRIES then FINAL_RETRIES - s.flusher.attempt else 0
  {
    Advance(s0, s, ReturnFromFinalCallback(env));
    s' := Apply(s, ReturnFromFinalCallback(env));
    if s'.flusher.InFinalCallback? {
      s' := FinishCallback(s0, s', env);
    }
  }

  // With its last batch taken, the flusher finishes and Stop returns; the buffer is left as it is.
  lemma FinishStop(s0: State, s: State, env: Writer.Environment) returns (s': State)
    requires CanReachClosed(s0, s) && s.stopper.Waiting? && (s.flusher.FinalTaken? || s.flusher.Closing?)
    ensures CanReachClosed(s0, s') && s'.stopper.StopReturned? && s'.cancelled == s.cancelled
    ensures s'.adders == s.adders && s'.core.buffer == s.core.buffer
  {
    s' := s;
    if s'.flusher.FinalTaken? {
      Advance(s0, s', EnterFinalCallback);
      s' := FinishCallback(s0, Apply(s', EnterFinalCallback), env);
    }
    Advance(s0, s', CloseDone);
    s' := Apply(s', CloseDone);
    Advance(s0, s', SeeDone);
    s' := Apply(s', SeeDone);
  }

  // After the flip, the flusher comes round to see it and takes its last batch.
  lemma ReachFinalTake(s0: State, s: State, env: Writer.Environment) returns (s': State)
    requires CanReachClosed(s0, s) && !Exiting(s.flusher) && s.stopper.Swapped?
    ensures CanReachClosed(s0, s') && s'.stopper.Waiting? && s'.cancelled == s.cancelled && s'.adders == s.adders
    ensures s'.core.maxSize == s.core.maxSize && s'.core.buffer == [] && (s'.flusher.FinalTaken? || s'.flusher.Closing?)
  {
    Advance(s0, s, CloseStop);
    s' := BackToSelect(s0, Apply(s, CloseStop), env);
    Advance(s0, s', SeeStop);
    s' := Apply(s', SeeStop);
    Advance(s0, s', LockAndTakeFinal);
    s' := Apply(s', LockAndTakeFinal);
  }

  /**
   Any Add past the check when Stop flips it, wherever the flusher is and whatever answer its callbacks get, can be
   reported accepted and still be in the buffer when Stop returns, never to be handed over.
   */
  lemma StopCanStrand(s: State, id: nat, env: Writer.Environment) returns (u: State)
    requires Reachable(s) && s.core.running && !s.cancelled && id in EnteredIds(s.adders)
    ensures CanReach(Apply(s, SwapRunning), u) && u.stopper.StopReturned? && !u.cancelled
    ensures u.adders == s.adders[id := Returned(Accepted)] && u.core.buffer == [Call(id, s.adders[id].message)]
  {
    ReachableInvariant(s);
    var s0 := Apply(s, SwapRunning);
    StayClosed(s0);
    u := ReachFinalTake(s0, s0, env);
    Advance(s0, u, LockAdd(id));
    u := FinishStop(s0, Apply(u, LockAdd(id)), env);
    var actions :| Reaches(s0, actions, u) && NoEntries(actions);
  }

  lemma FlipStep(s: State, a: Action)
    requires !s.core.running && Enabled(s, a)
    ensures !Apply(s, a).core.running && Apply(s, a).enteredAtStop == s.enteredAtStop
  {
    if MovesMessages(a) {
      MessageFrame(s, a);
      MessageSettings(s, a);
    } else {
      FlipControl(s, a);
    }
  }

  lemma FlipControl(s: State, a: Action)
    requires !s.core.running && Enabled(s, a) && !MovesMessages(a)
    ensures !Apply(s, a).core.running && Apply(s, a).enteredAtStop == s.enteredAtStop
  {
  }

  // Once flipped, `running` stays down and the Adds that were past the check stay the same.
  lemma {:induction false} FlipStays(s: State, actions: seq<Action>, s': State)
    requires Reaches(s, actions, s') && !s.core.running
    ensures !s'.core.running && s'.enteredAtStop == s.enteredAtStop
    decreases |actions|
  {
    if actions != [] {
      FlipStep(s, actions[0]);
      FlipStays(Apply(s, actions[0]), actions[1..], s');
    }
  }

  /** Stop is sure to leave nothing behind exactly when no Add is past the running check at the moment it is called. */
  lemma StopDrainsIff(s: State)
    requires Reachable(s) && s.core.running && !s.cancelled
    ensures EnteredIds(s.adders) == {} <==>
            (forall u :: CanReach(Apply(s, SwapRunning), u) && u.stopper.StopReturned? && !u.cancelled ==> u.core.buffer == [])
  {
    var s0 := Apply(s, SwapRunning);
    if EnteredIds(s.adders) == {} {
      forall u | CanReach(s0, u) && u.stopper.StopReturned? && !u.cancelled ensures u.core.buffer == [] {
        var actions :| Reaches(s0, actions, u);
        ReachableStep(s, SwapRunning);
        ReachableRun(s0, actions, u);
        FlipStays(s0, actions, u);
        StopAccounting(u);
      }
    } else {
      var id :| id in EnteredIds(s.adders);
      var u := StopCanStrand(s, id, Writer.Environment(false, []));
    }
  }

  // ---------- shutdown through the context ----------

  lemma ReachCancelledTake(s0: State, s: State, env: Writer.Environment) returns (s': State)
    requires CanReachClosed(s0, s) && !Exiting(s.flusher) && s.cancelled
    ensures CanReachClosed(s0, s') && s'.adders == s.adders && s'.core.maxSize == s.core.maxSize
    ensures s'.core.buffer == [] && PastFinalTake(s'.flusher)
  {
    s' := BackToSelect(s0, s, env);
    Advance(s0, s', SeeCancel);
    s' := Apply(s', SeeCancel);
    Advance(s0, s', LockAndTakeFinal);
    s' := Apply(s', LockAndTakeFinal);
  }

  /** The same Add can be stranded when the context is cancelled instead. */
  lemma CancelCanStrand(s: State, id: nat, env: Writer.Environment) returns (u: State)
    requires Reachable(s) && s.core.running && !s.cancelled && id in EnteredIds(s.adders)
    ensures CanReachClosed(Apply(s, Cancel), u) && PastFinalTake(u.flusher)
    ensures u.adders == s.adders[id := Returned(Accepted)] && u.core.buffer == [Call(id, s.adders[id].message)]
  {
    ReachableInvariant(s);
    var s0 := Apply(s, Cancel);
    StayClosed(s0);
    u := ReachCancelledTake(s0, s0, env);
    Advance(s0, u, LockAdd(id));
    u := Apply(u, LockAdd(id));
  }

  // With no Add under way and none entering, the last take leaves the buffer empty for good.
  ghost predicate Drained(s: State) {
    (forall id :: id in s.adders ==> !s.adders[id].Entered?) && (PastFinalTake(s.flusher) ==> s.core.buffer == [])
  }

  lemma DrainedStep(s: State, a: Action)
    requires Drained(s) && Enabled(s, a) && !a.EnterAdd?
    ensures Drained(Apply(s, a))
  {
    CallsUntouched(s, a);
    if MovesMessages(a) {
      DrainedMoves(s, a);
    } else {
      DrainedControl(s, a);
    }
  }

  lemma DrainedMoves(s: State, a: Action)
    requires Drained(s) && Enabled(s, a) && MovesMessages(a) && !a.EnterAdd? && !a.LockAdd?
    ensures PastFinalTake(Apply(s, a).flusher) ==> Apply(s, a).core.buffer == []
  {
  }

  lemma DrainedControl(s: State, a: Action)
    requires Drained(s) && Enabled(s, a) && !MovesMessages(a)
    ensures PastFinalTake(Apply(s, a).flusher) ==> Apply(s, a).core.buffer == []
  {
  }

  lemma {:induction false} DrainedRun(s: State, actions: seq<Action>, s': State)
    requires Drained(s) && Reaches(s, actions, s') && NoEntries(actions)
    ensures Drained(s')
    decreases |actions|
  {
    if actions != [] {
      DrainedStep(s, actions[0]);
      assert NoEntries(actions[1..]);
      DrainedRun(Apply(s, actions[0]), actions[1..], s');
    }
  }

  /**
   For a caller that first sees to it that no more Adds enter: cancelling the context is sure to have every accepted
   message handed over exactly when no Add is past the running check at that moment.
   */
  lemma CancelDrainsIff(s: State)
    requires Reachable(s) && s.core.running && !s.cancelled
    ensures EnteredIds(s.adders) == {} <==>
            (forall u :: CanReachClosed(Apply(s, Cancel), u) && PastFinalTake(u.flusher) ==> u.core.buffer == [])
  {
    var s0 := Apply(s, Cancel);
    if EnteredIds(s.adders) == {} {
      ReachableInvariant(s);
      assert forall id :: id in s.adders && s.adders[id].Entered? ==> id in EnteredIds(s.adders);
      forall u | CanReachClosed(s0, u) && PastFinalTake(u.flusher) ensures u.core.buffer == [] {
        var actions :| Reaches(s0, actions, u) && NoEntries(actions);
        DrainedRun(s0, actions, u);
      }
    } else {
      var id :| id in EnteredIds(s.adders);
      var u := CancelCanStrand(s, id, Writer.Environment(false, []));
    }
  }

  // ---------- what a cancelled context still stores ----------

  predicate CallbackRunning(f: Flusher) {
    f.InCallback? || f.InFinalCallback?
  }

  // The context is gone, and with it every transaction a callback could begin.
  predicate NothingCommits(s: State) {
    s.cancelled && (CallbackRunning(s.flusher) ==> s.doomed)
  }

  lemma DoomedReturn(s: State, a: Action)
    requires NothingCommits(s) && Enabled(s, a) && (a.ReturnFromCallback? || a.ReturnFromFinalCallback?)
    ensures NothingCommits(Apply(s, a)) && Apply(s, a).db == s.db
  {
  }

  lemma DoomedOther(s: State, a: Action)
    requires NothingCommits(s) && Enabled(s, a) && MovesMessages(a) && !a.ReturnFromCallback? && !a.ReturnFromFinalCallback?
    ensures NothingCommits(Apply(s, a)) && Apply(s, a).db == s.db
  {
  }

  lemma DoomedControl(s: State, a: Action)
    requires NothingCommits(s) && Enabled(s, a) && !MovesMessages(a)
    ensures NothingCommits(Apply(s, a)) && Apply(s, a).db == s.db
  {
  }

  lemma {:induction false} NothingCommitsRun(s: State, actions: seq<Action>, s': State)
    requires NothingCommits(s) && Reaches(s, actions, s')
    ensures NothingCommits(s') && s'.db == s.db
    decreases |actions|
  {
    if actions != [] {
      var a := actions[0];
      if a.ReturnFromCallback? || a.ReturnFromFinalCallback? {
        DoomedReturn(s, a);
      } else if MovesMessages(a) {
        DoomedOther(s, a);
      } else {
        DoomedControl(s, a);
      }
      NothingCommitsRun(Apply(s, a), actions[1..], s');
    }
  }

  // What the callback in progress may still make of the tables.
  function AfterCallback(s: State, env: Writer.Environment): Writer.Database {
    if CallbackRunning(s.flusher) then Writer.After(s.db, Messages(s.flusher.batch), Seen(s, env), s.maxRetries) else s.db
  }

  ghost predicate StoresAtMostCallback(s: State, s': State) {
    s'.db == s.db || exists env :: s'.db == AfterCallback(s, env)
  }

  lemma StoreReturn(s: State, a: Action)
    requires s.cancelled && Enabled(s, a) && (a.ReturnFromCallback? || a.ReturnFromFinalCallback?)
    ensures NothingCommits(Apply(s, a))
    ensures Apply(s, a).db == AfterCallback(s, if a.ReturnFromCallback? then a.env else a.finalEnv)
  {
  }

  lemma StoreOther(s: State, a: Action)
    requires s.cancelled && CallbackRunning(s.flusher) && Enabled(s, a)
    requires !a.ReturnFromCallback? && !a.ReturnFromFinalCallback?
    ensures Apply(s, a).db == s.db && Apply(s, a).cancelled && AfterSame(s, Apply(s, a))
  {
  }

  predicate AfterSame(s: State, s': State) {
    s'.flusher == s.flusher && s'.doomed == s.doomed && s'.maxRetries == s.maxRetries
  }

  /**
   The final flush of a cancelled shutdown stores nothing: once the context is cancelled, at most the batch of a callback
   that was already at work is still stored, and everything else not yet written is lost.
   */
  lemma {:induction false} CancelLosesUnwritten(s: State, actions: seq<Action>, s': State)
    requires s.cancelled && Reaches(s, actions, s')
    ensures StoresAtMostCallback(s, s')
    ensures NothingCommits(s) ==> s'.db == s.db
    decreases |actions|
  {
    if NothingCommits(s) {
      NothingCommitsRun(s, actions, s');
    } else if actions != [] {
      var a := actions[0];
      if a.ReturnFromCallback? || a.ReturnFromFinalCallback? {
        StoreReturn(s, a);
        NothingCommitsRun(Apply(s, a), actions[1..], s');
        assert s'.db == AfterCallback(s, if a.ReturnFromCallback? then a.env else a.finalEnv);
      } else {
        StoreOther(s, a);
        CancelLosesUnwritten(Apply(s, a), actions[1..], s');
        if s'.db != s.db {
          var env :| s'.db == AfterCallback(Apply(s, a), env);
          assert AfterCallback(Apply(s, a), env) == AfterCallback(s, env);
        }
      }
    }
  }

  predicate HasRows(messages: seq<Message>) {
    Ticks(messages) != [] || OrderBooks(messages) != []
  }

  // A callback that entered before the cancel has rows to store and an attempt to store them with.
  predicate CanStillStore(s: State) {
    CallbackRunning(s.flusher) && !s.doomed && s.maxRetries > 0 && HasRows(Messages(s.flusher.batch))
  }

  lemma NothingToStore(s: State, env: Writer.Environment)
    requires !CanStillStore(s)
    ensures AfterCallback(s, env) == s.db
  {
    if CallbackRunning(s.flusher) && !HasRows(Messages(s.flusher.batch)) {
      assert s.db.ticks + [] == s.db.ticks && s.db.books + [] == s.db.books;
    }
  }

  lemma StoreAfterCancel(s: State) returns (s': State)
    requires CanStillStore(s)
    ensures CanReach(s, s') && s'.db != s.db
  {
    var env := Writer.Environment(false, [Writer.Attempt(true, true, true, true)]);
    var messages := Messages(s.flusher.batch);
    assert env.attempts[0].Commits(Ticks(messages), OrderBooks(messages));
    assert messages != [];
    var a := if s.flusher.InCallback? then ReturnFromCallback(env) else ReturnFromFinalCallback(env);
    ReachSelf(s);
    OneMore(s, s, a);
    s' := Apply(s, a);
    assert |s'.db.ticks| + |s'.db.books| > |s.db.ticks| + |s.db.books|;
  }

  /** After a cancel the tables are sure to stay as they are exactly when no callback from before it can still store. */
  lemma CancelStoresNothingIff(s: State)
    requires s.cancelled
    ensures !CanStillStore(s) <==> (forall s' :: CanReach(s, s') ==> s'.db == s.db)
  {
    if CanStillStore(s) {
      var s' := StoreAfterCancel(s);
    } else {
      forall s' | CanReach(s, s') ensures s'.db == s.db {
        var actions :| Reaches(s, actions, s');
        CancelLosesUnwritten(s, actions, s');
        if s'.db != s.db {
          var env :| s'.db == AfterCallback(s, env);
          NothingToStore(s, env);
        }
      }
    }
  }
}
