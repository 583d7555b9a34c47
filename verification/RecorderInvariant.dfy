/** What every reachable state of the recorder satisfies, and that each atomic step keeps it. */
module RecorderInvariant {
  import opened MarketData
  import opened BatchBuffer
  import opened RecorderProtocol
  import Writer = TimescaleWriter

  function Flatten(handed: seq<HandedBatch>): seq<Call> {
    if handed == [] then []
    else Flatten(handed[..|handed| - 1]) + handed[|handed| - 1].batch
  }

  function Succeeded(handed: seq<HandedBatch>): seq<Call> {
    if handed == [] then []
    else Succeeded(handed[..|handed| - 1]) + SucceededIn(handed[|handed| - 1])
  }

  function SucceededIn(h: HandedBatch): seq<Call> {
    if h.succeeded then h.batch else []
  }

  // Taken under the lock, callback not yet entered.
  function InFlight(f: Flusher): seq<Call> {
    if f.Taken? || f.FinalTaken? then f.batch else []
  }

  predicate Exiting(f: Flusher) {
    f.Leaving? || f.FinalTaken? || f.InFinalCallback? || f.Closing? || f.Finished?
  }

  // ---- order and conservation ----
  ghost predicate Fifo(s: State) {
    s.accepted == Flatten(s.handed) + InFlight(s.flusher) + s.core.buffer
  }

  ghost predicate Bounded(s: State) {
    s.core.maxSize >= 1 && |s.core.buffer| <= 2 * s.core.maxSize
  }

  // The two counters that follow the buffer and the log.
  ghost predicate SizeCounters(s: State) {
    s.core.currentSize == Int32(|s.core.buffer|) && s.core.totalMessages == |s.accepted|
  }

  ghost predicate NoLostWakeup(s: State) {
    |s.core.buffer| >= s.core.maxSize ==> s.core.token || s.flusher == Woken(true)
  }

  // The callback in progress works on the last batch handed over, which is not yet marked.
  ghost predicate CallbackLog(s: State) {
    && ((s.flusher.Taken? || s.flusher.FinalTaken?) ==> s.flusher.batch != [])
    && ((s.flusher.InCallback? || s.flusher.InFinalCallback?) ==>
          && s.handed != []
          && s.handed[|s.handed| - 1] == HandedBatch(s.flusher.batch, s.flusher.InFinalCallback?, false)
          && s.flusher.batch != [])
    && (s.flusher.InFinalCallback? ==> s.flusher.attempt < FINAL_RETRIES)
  }

  ghost predicate Stored(s: State) {
    && s.db.ticks == Ticks(Messages(Succeeded(s.handed)))
    && s.db.books == OrderBooks(Messages(Succeeded(s.handed)))
  }

  function Flushes(handed: seq<HandedBatch>): nat {
    if handed == [] then 0
    else Flushes(handed[..|handed| - 1]) + if handed[|handed| - 1].onExit then 0 else 1
  }

  function Unsuccessful(handed: seq<HandedBatch>): nat {
    if handed == [] then 0
    else Unsuccessful(handed[..|handed| - 1]) + UnsuccessfulIn(handed[|handed| - 1])
  }

  function UnsuccessfulIn(h: HandedBatch): nat {
    if h.onExit || h.succeeded then 0 else 1
  }

  function DroppedIds(adders: map<nat, Adder>): set<nat> {
    set id | id in adders && adders[id].Returned? && !adders[id].result.Accepted?
  }

  // The counters Metrics reports, read off the logs. The final flush is in none of the flush counters.
  ghost predicate FlushCounters(s: State) {
    && s.core.totalFlushes == Flushes(s.handed)
    && s.core.totalErrors + (if s.flusher.InCallback? then 1 else 0) == Unsuccessful(s.handed)
  }

  ghost predicate DropCounter(s: State) {
    s.core.dropped == |DroppedIds(s.adders)|
  }

  // ---- identities of the calls ----
  ghost predicate CallsReturned(s: State) {
    forall i :: 0 <= i < |s.accepted| ==>
      s.accepted[i].id in s.adders && s.adders[s.accepted[i].id] == Returned(Accepted)
  }

  ghost predicate DistinctIds(calls: seq<Call>) {
    forall i, j :: 0 <= i < j < |calls| ==> calls[i].id != calls[j].id
  }

  ghost predicate EveryAcceptedLogged(s: State) {
    forall id :: id in s.adders && s.adders[id] == Returned(Accepted) ==>
      exists i :: 0 <= i < |s.accepted| && s.accepted[i].id == id
  }

  ghost predicate IdsIn(calls: seq<Call>, ids: set<nat>) {
    forall i :: 0 <= i < |calls| ==> calls[i].id in ids
  }

  // ---- shutdown ----
  ghost predicate StopFlags(s: State) {
    && (s.core.running <==> s.stopper.NotCalled?)
    && (s.core.stopClosed <==> s.stopper.Waiting? || s.stopper.StopReturned?)
    && (s.stopper.StopReturned? ==> s.flusher.Finished?)
  }

  ghost predicate ExitFlags(s: State) {
    && (s.exit.NotExiting? <==> !Exiting(s.flusher))
    && (s.exit.ViaStop? ==> s.core.stopClosed)
    && (s.exit.ViaCancel? ==> s.cancelled)
  }

  // Once Stop has flipped `running`, only Adds that were past the check by then can still append.
  ghost predicate LateAdds(s: State) {
    && (!s.core.running ==> EnteredIds(s.adders) <= s.enteredAtStop)
    && (s.exit.ViaStop? && !s.flusher.Leaving? ==> IdsIn(s.core.buffer, s.enteredAtStop))
  }

  ghost predicate Invariant(s: State) {
    && Fifo(s) && Bounded(s) && SizeCounters(s) && NoLostWakeup(s) && CallbackLog(s) && Stored(s) && FlushCounters(s) && DropCounter(s)
    && CallsReturned(s) && DistinctIds(s.accepted) && EveryAcceptedLogged(s)
    && StopFlags(s) && ExitFlags(s) && LateAdds(s)
  }

  lemma InitialInvariant(s: State)
    requires Initial(s)
    ensures Invariant(s)
  {
  }

  lemma FlattenAppend(handed: seq<HandedBatch>, h: HandedBatch)
    ensures Flatten(handed + [h]) == Flatten(handed) + h.batch
    ensures Succeeded(handed + [h]) == Succeeded(handed) + SucceededIn(h)
  {
    assert (handed + [h])[..|handed|] == handed;
  }

  lemma CountsAppend(handed: seq<HandedBatch>, h: HandedBatch)
    ensures Flushes(handed + [h]) == Flushes(handed) + if h.onExit then 0 else 1
    ensures Unsuccessful(handed + [h]) == Unsuccessful(handed) + UnsuccessfulIn(h)
  {
    assert (handed + [h])[..|handed|] == handed;
  }

  // The steps of Add, of the two takes and of the callback; all others are control steps.
  predicate MovesMessages(a: Action) {
    a.EnterAdd? || a.LockAdd? || a.LockAndTake? || a.LockAndTakeFinal? || a.EnterCallback? || a.EnterFinalCallback?
    || a.ReturnFromCallback? || a.ReturnFromFinalCallback?
  }

  lemma ControlFrame(s: State, a: Action)
    requires Enabled(s, a) && !MovesMessages(a)
    ensures var s' := Apply(s, a);
            && s'.adders == s.adders && s'.accepted == s.accepted && s'.handed == s.handed && s'.db == s.db
  {
  }

  // The control steps that touch the core: a token, or the two halves of Stop.
  predicate TouchesCore(a: Action) {
    a.RequestFlush? || a.SeeToken? || a.SwapRunning? || a.CloseStop?
  }

  predicate SameContents(c: Core<Call>, c': Core<Call>) {
    && c'.maxSize == c.maxSize && c'.buffer == c.buffer && c'.currentSize == c.currentSize
    && c'.totalMessages == c.totalMessages && c'.totalFlushes == c.totalFlushes && c'.totalErrors == c.totalErrors
    && c'.dropped == c.dropped
  }

  lemma ControlCoreUntouched(s: State, a: Action)
    requires Enabled(s, a) && !MovesMessages(a) && !TouchesCore(a)
    ensures Apply(s, a).core == s.core
  {
  }

  lemma ControlCoreTouched(s: State, a: Action)
    requires Enabled(s, a) && TouchesCore(a)
    ensures SameContents(s.core, Apply(s, a).core)
  {
  }

  lemma ControlCore(s: State, a: Action)
    requires Enabled(s, a) && !MovesMessages(a)
    ensures SameContents(s.core, Apply(s, a).core)
  {
    if TouchesCore(a) {
      ControlCoreTouched(s, a);
    } else {
      ControlCoreUntouched(s, a);
    }
  }

  lemma ControlFlusher(s: State, a: Action)
    requires Enabled(s, a) && !MovesMessages(a)
    ensures var flusher := Apply(s, a).flusher;
            InFlight(flusher) == InFlight(s.flusher) && flusher.InCallback? == s.flusher.InCallback?
  {
  }

  lemma MessageFrame(s: State, a: Action)
    requires Enabled(s, a) && MovesMessages(a)
    ensures var s' := Apply(s, a);
            && s'.stopper == s.stopper && s'.exit == s.exit && s'.cancelled == s.cancelled
            && s'.enteredAtStop == s.enteredAtStop
            && (Exiting(s'.flusher) <==> Exiting(s.flusher)) && (s.flusher.Finished? ==> s'.flusher.Finished?)
  {
  }

  predicate SameSettings(s: State, s': State) {
    && s'.core.maxSize == s.core.maxSize && s'.core.running == s.core.running
    && s'.core.stopClosed == s.core.stopClosed
  }

  lemma AddSettings(s: State, a: Action)
    requires Enabled(s, a) && (a.EnterAdd? || a.LockAdd?)
    ensures SameSettings(s, Apply(s, a))
  {
  }

  lemma TakeSettings(s: State, a: Action)
    requires Enabled(s, a) && (a.LockAndTake? || a.LockAndTakeFinal?)
    ensures SameSettings(s, Apply(s, a))
  {
  }

  lemma CallbackSettings(s: State, a: Action)
    requires Enabled(s, a)
    requires a.EnterCallback? || a.EnterFinalCallback? || a.ReturnFromCallback? || a.ReturnFromFinalCallback?
    ensures SameSettings(s, Apply(s, a))
  {
  }

  lemma MessageSettings(s: State, a: Action)
    requires Enabled(s, a) && MovesMessages(a)
    ensures SameSettings(s, Apply(s, a))
  {
    if a.EnterAdd? || a.LockAdd? {
      AddSettings(s, a);
    } else if a.LockAndTake? || a.LockAndTakeFinal? {
      TakeSettings(s, a);
    } else {
      CallbackSettings(s, a);
    }
  }

  lemma AppendNothing<T>(xs: seq<T>)
    ensures xs + [] == xs
  {
  }

  lemma MarkLastEffect(handed: seq<HandedBatch>, ok: bool)
    requires handed != []
    ensures Flatten(MarkLast(handed, ok)) == Flatten(handed)
    ensures !handed[|handed| - 1].succeeded ==>
              Succeeded(MarkLast(handed, ok)) == Succeeded(handed) + (if ok then handed[|handed| - 1].batch else [])
  {
    var front := handed[..|handed| - 1];
    assert MarkLast(handed, ok)[..|handed| - 1] == front;
    AppendNothing(Succeeded(front));
  }

  lemma MarkLastCounts(handed: seq<HandedBatch>, ok: bool)
    requires handed != [] && !handed[|handed| - 1].succeeded
    ensures Flushes(MarkLast(handed, ok)) == Flushes(handed)
    ensures Unsuccessful(MarkLast(handed, ok))
            == Unsuccessful(handed) - if ok && !handed[|handed| - 1].onExit then 1 else 0
  {
    assert MarkLast(handed, ok)[..|handed| - 1] == handed[..|handed| - 1];
  }

  lemma Regroup<T>(xs: seq<T>, ys: seq<T>, zs: seq<T>)
    ensures xs + ys + zs == (xs + ys) + [] + zs
  {
    AppendNothing(xs + ys);
  }

  // Entering the callback moves the batch from in flight to handed over.
  lemma FifoEnter(s: State, onExit: bool)
    requires Fifo(s) && Enabled(s, if onExit then EnterFinalCallback else EnterCallback)
    ensures Fifo(Apply(s, if onExit then EnterFinalCallback else EnterCallback))
  {
    FlattenAppend(s.handed, HandedBatch(s.flusher.batch, onExit, false));
    Regroup(Flatten(s.handed), s.flusher.batch, s.core.buffer);
  }

  // Returning from it leaves what was handed over.
  lemma FifoReturn(s: State, a: Action)
    requires Fifo(s) && CallbackLog(s) && Enabled(s, a) && (a.ReturnFromCallback? || a.ReturnFromFinalCallback?)
    ensures Fifo(Apply(s, a))
  {
    var s' := Apply(s, a);
    MarkLastEffect(s.handed, s'.handed[|s.handed| - 1].succeeded);
    assert Flatten(s'.handed) == Flatten(s.handed) && InFlight(s'.flusher) == InFlight(s.flusher) == [];
  }

  lemma FifoAdd(s: State, a: Action)
    requires Fifo(s) && Enabled(s, a) && (a.EnterAdd? || a.LockAdd?)
    ensures Fifo(Apply(s, a))
  {
    assert Apply(s, a).handed == s.handed && Apply(s, a).flusher == s.flusher;
  }

  lemma FifoTake(s: State, a: Action)
    requires Fifo(s) && Enabled(s, a) && (a.LockAndTake? || a.LockAndTakeFinal?)
    ensures Fifo(Apply(s, a))
  {
    var s' := Apply(s, a);
    var flat := Flatten(s.handed);
    TakeFrame(s, a);
    AppendNothing(flat);
    AppendNothing(flat + s.core.buffer);
    assert flat + InFlight(s'.flusher) + s'.core.buffer == flat + s.core.buffer;
  }

  // A take leaves the buffer, or moves it whole.
  lemma TakeFrame(s: State, a: Action)
    requires Enabled(s, a) && (a.LockAndTake? || a.LockAndTakeFinal?)
    ensures var s' := Apply(s, a);
            && s'.accepted == s.accepted && s'.handed == s.handed && InFlight(s.flusher) == []
            && ((InFlight(s'.flusher) == [] && s'.core.buffer == s.core.buffer)
                || (InFlight(s'.flusher) == s.core.buffer && s'.core.buffer == []))
  {
  }

  lemma FifoStep(s: State, a: Action)
    requires Fifo(s) && CallbackLog(s) && Enabled(s, a)
    ensures Fifo(Apply(s, a))
  {
    if a.EnterCallback? || a.EnterFinalCallback? {
      FifoEnter(s, a.EnterFinalCallback?);
    } else if a.ReturnFromCallback? || a.ReturnFromFinalCallback? {
      FifoReturn(s, a);
    } else if a.EnterAdd? || a.LockAdd? {
      FifoAdd(s, a);
    } else if a.LockAndTake? || a.LockAndTakeFinal? {
      FifoTake(s, a);
    } else {
      ControlFrame(s, a);
      ControlCore(s, a);
      ControlFlusher(s, a);
    }
  }

  lemma BoundedMessages(s: State, a: Action)
    requires Bounded(s) && Enabled(s, a) && MovesMessages(a)
    ensures Bounded(Apply(s, a))
  {
  }

  lemma BoundedStep(s: State, a: Action)
    requires Bounded(s) && Enabled(s, a)
    ensures Bounded(Apply(s, a))
  {
    if MovesMessages(a) {
      BoundedMessages(s, a);
    } else {
      ControlCore(s, a);
    }
  }

  lemma WakeupMessages(s: State, a: Action)
    requires NoLostWakeup(s) && Enabled(s, a) && s.core.maxSize >= 1 && MovesMessages(a)
    ensures NoLostWakeup(Apply(s, a))
  {
  }

  lemma WakeupControl(s: State, a: Action)
    requires NoLostWakeup(s) && Enabled(s, a) && !MovesMessages(a)
    ensures NoLostWakeup(Apply(s, a))
  {
  }

  lemma WakeupStep(s: State, a: Action)
    requires NoLostWakeup(s) && Enabled(s, a) && s.core.maxSize >= 1
    ensures NoLostWakeup(Apply(s, a))
  {
    if MovesMessages(a) {
      WakeupMessages(s, a);
    } else {
      WakeupControl(s, a);
    }
  }

  lemma SizeCountersMessages(s: State, a: Action)
    requires SizeCounters(s) && Enabled(s, a) && MovesMessages(a)
    ensures SizeCounters(Apply(s, a))
  {
    if a.LockAdd? {
      var (core, result) := AddLocked(s.core, Call(a.id, s.adders[a.id].message));
      assert result.Accepted? ==> core.currentSize == Int32(|core.buffer|);
    } else if a.LockAndTake? || a.LockAndTakeFinal? {
      assert Int32(0) == 0;
    } else {
      assert Apply(s, a).core.buffer == s.core.buffer && Apply(s, a).core.currentSize == s.core.currentSize;
    }
  }

  lemma SizeCountersStep(s: State, a: Action)
    requires SizeCounters(s) && Enabled(s, a)
    ensures SizeCounters(Apply(s, a))
  {
    if MovesMessages(a) {
      SizeCountersMessages(s, a);
    } else {
      ControlFrame(s, a);
      ControlCore(s, a);
    }
  }

  lemma CallbackLogStep(s: State, a: Action)
    requires CallbackLog(s) && Enabled(s, a)
    ensures CallbackLog(Apply(s, a))
  {
    if a.EnterCallback? || a.EnterFinalCallback? {
      CallbackLogEnter(s, a);
    } else if a.ReturnFromFinalCallback? {
      CallbackLogRetry(s, a);
    } else if MovesMessages(a) {
      CallbackLogLock(s, a);
    } else {
      CallbackLogControl(s, a);
    }
  }

  lemma CallbackLogLock(s: State, a: Action)
    requires CallbackLog(s) && Enabled(s, a) && MovesMessages(a)
    requires !a.EnterCallback? && !a.EnterFinalCallback? && !a.ReturnFromFinalCallback?
    ensures CallbackLog(Apply(s, a))
  {
  }

  lemma CallbackLogControl(s: State, a: Action)
    requires CallbackLog(s) && Enabled(s, a) && !MovesMessages(a)
    ensures CallbackLog(Apply(s, a))
  {
  }

  lemma CallbackLogEnter(s: State, a: Action)
    requires CallbackLog(s) && Enabled(s, a) && (a.EnterCallback? || a.EnterFinalCallback?)
    ensures CallbackLog(Apply(s, a))
  {
  }

  lemma CallbackLogRetry(s: State, a: Action)
    requires CallbackLog(s) && Enabled(s, a) && a.ReturnFromFinalCallback?
    ensures CallbackLog(Apply(s, a))
  {
  }

  lemma RowsGrow(done: seq<Call>, batch: seq<Call>)
    ensures Ticks(Messages(done + batch)) == Ticks(Messages(done)) + Ticks(Messages(batch))
    ensures OrderBooks(Messages(done + batch)) == OrderBooks(Messages(done)) + OrderBooks(Messages(batch))
  {
    assert Messages(done + batch) == Messages(done) + Messages(batch);
    TicksDistribute(Messages(done), Messages(batch));
    OrderBooksDistribute(Messages(done), Messages(batch));
  }

  lemma WriteEffect(db: Writer.Database, done: seq<Call>, batch: seq<Call>, env: Writer.Environment, maxRetries: nat)
    requires batch != []
    requires db.ticks == Ticks(Messages(done)) && db.books == OrderBooks(Messages(done))
    ensures var ok := Writer.Outcome(Messages(batch), env, maxRetries).None?;
            var db' := Writer.After(db, Messages(batch), env, maxRetries);
            var done' := done + (if ok then batch else []);
            db'.ticks == Ticks(Messages(done')) && db'.books == OrderBooks(Messages(done'))
  {
    RowsGrow(done, batch);
    AppendNothing(done);
  }

  // The writer's effect on the tables is the mark's effect on the log.
  lemma StoredMark(s: State, env: Writer.Environment)
    requires Stored(s) && CallbackLog(s) && (s.flusher.InCallback? || s.flusher.InFinalCallback?)
    ensures var messages := Messages(s.flusher.batch);
            var done := Succeeded(MarkLast(s.handed, Writer.Outcome(messages, env, s.maxRetries).None?));
            var db := Writer.After(s.db, messages, env, s.maxRetries);
            db.ticks == Ticks(Messages(done)) && db.books == OrderBooks(Messages(done))
  {
    MarkLastEffect(s.handed, Writer.Outcome(Messages(s.flusher.batch), env, s.maxRetries).None?);
    WriteEffect(s.db, Succeeded(s.handed), s.flusher.batch, env, s.maxRetries);
  }

  lemma StoredReturn(s: State, a: Action)
    requires Stored(s) && CallbackLog(s) && Enabled(s, a) && (a.ReturnFromCallback? || a.ReturnFromFinalCallback?)
    ensures Stored(Apply(s, a))
  {
    StoredMark(s, Seen(s, if a.ReturnFromCallback? then a.env else a.finalEnv));
  }

  lemma StoredStep(s: State, a: Action)
    requires Stored(s) && CallbackLog(s) && Enabled(s, a)
    ensures Stored(Apply(s, a))
  {
    if a.ReturnFromCallback? || a.ReturnFromFinalCallback? {
      StoredReturn(s, a);
    } else if a.EnterCallback? || a.EnterFinalCallback? {
      FlattenAppend(s.handed, HandedBatch(s.flusher.batch, a.EnterFinalCallback?, false));
      assert Succeeded(s.handed) + [] == Succeeded(s.handed);
    } else if MovesMessages(a) {
      assert Apply(s, a).handed == s.handed && Apply(s, a).db == s.db;
    } else {
      ControlFrame(s, a);
    }
  }

  lemma FlushCountersReturn(s: State, a: Action)
    requires FlushCounters(s) && CallbackLog(s) && Enabled(s, a) && (a.ReturnFromCallback? || a.ReturnFromFinalCallback?)
    ensures FlushCounters(Apply(s, a))
  {
    var env := if a.ReturnFromCallback? then a.env else a.finalEnv;
    MarkLastCounts(s.handed, Writer.Outcome(Messages(s.flusher.batch), Seen(s, env), s.maxRetries).None?);
  }

  lemma FlushCountersEnter(s: State)
    requires FlushCounters(s) && Enabled(s, EnterCallback)
    ensures FlushCounters(Apply(s, EnterCallback))
  {
    CountsAppend(s.handed, HandedBatch(s.flusher.batch, false, false));
  }

  lemma FlushCountersEnterFinal(s: State)
    requires FlushCounters(s) && Enabled(s, EnterFinalCallback)
    ensures FlushCounters(Apply(s, EnterFinalCallback))
  {
    CountsAppend(s.handed, HandedBatch(s.flusher.batch, true, false));
  }

  lemma FlushCountersOther(s: State, a: Action)
    requires FlushCounters(s) && Enabled(s, a) && (a.EnterAdd? || a.LockAdd? || a.LockAndTake? || a.LockAndTakeFinal?)
    ensures FlushCounters(Apply(s, a))
  {
    assert Apply(s, a).handed == s.handed && Apply(s, a).flusher.InCallback? == s.flusher.InCallback?;
  }

  lemma FlushCountersStep(s: State, a: Action)
    requires FlushCounters(s) && CallbackLog(s) && Enabled(s, a)
    ensures FlushCounters(Apply(s, a))
  {
    if a.ReturnFromCallback? || a.ReturnFromFinalCallback? {
      FlushCountersReturn(s, a);
    } else if a.EnterCallback? {
      FlushCountersEnter(s);
    } else if a.EnterFinalCallback? {
      FlushCountersEnterFinal(s);
    } else if MovesMessages(a) {
      FlushCountersOther(s, a);
    } else {
      ControlFrame(s, a);
      ControlCore(s, a);
      ControlFlusher(s, a);
    }
  }

  lemma CallsUntouched(s: State, a: Action)
    requires Enabled(s, a) && !a.LockAdd? && !a.EnterAdd?
    ensures Apply(s, a).adders == s.adders && Apply(s, a).accepted == s.accepted
    ensures Apply(s, a).core.dropped == s.core.dropped
  {
    if !MovesMessages(a) {
      ControlFrame(s, a);
      ControlCore(s, a);
    }
  }

  lemma DroppedAfterEntry(adders: map<nat, Adder>, id: nat, adder: Adder)
    requires id in adders ==> adders[id].Entered?
    ensures |DroppedIds(adders[id := adder])|
            == |DroppedIds(adders)| + if adder.Returned? && !adder.result.Accepted? then 1 else 0
  {
    var extra := if adder.Returned? && !adder.result.Accepted? then {id} else {};
    assert DroppedIds(adders[id := adder]) == DroppedIds(adders) + extra;
  }

  lemma DroppedStep(s: State, a: Action)
    requires DropCounter(s) && Enabled(s, a)
    ensures DropCounter(Apply(s, a))
  {
    var s' := Apply(s, a);
    match a {
      case EnterAdd(id, _) => DroppedAfterEntry(s.adders, id, s'.adders[id]);
      case LockAdd(id) => DroppedAfterEntry(s.adders, id, s'.adders[id]);
      case _ => CallsUntouched(s, a);
    }
  }

  // Only Add's two steps touch the calls.
  lemma CallsStep(s: State, a: Action)
    requires CallsReturned(s) && DistinctIds(s.accepted) && EveryAcceptedLogged(s) && Enabled(s, a)
    ensures CallsReturned(Apply(s, a)) && DistinctIds(Apply(s, a).accepted) && EveryAcceptedLogged(Apply(s, a))
  {
    var s' := Apply(s, a);
    match a {
      case LockAdd(id) => LockAddCalls(s, id);
      case EnterAdd(id, _) =>
        forall j | j in s'.adders && s'.adders[j] == Returned(Accepted)
          ensures exists i :: 0 <= i < |s'.accepted| && s'.accepted[i].id == j
        {
          assert j in s.adders && s.adders[j] == Returned(Accepted);
        }
      case _ => CallsUntouched(s, a);
    }
  }

  lemma LockAddCalls(s: State, id: nat)
    requires CallsReturned(s) && DistinctIds(s.accepted) && EveryAcceptedLogged(s) && Enabled(s, LockAdd(id))
    ensures var s' := Apply(s, LockAdd(id)); CallsReturned(s') && DistinctIds(s'.accepted) && EveryAcceptedLogged(s')
  {
    var s' := Apply(s, LockAdd(id));
    forall i | 0 <= i < |s.accepted| ensures s.accepted[i].id != id {
      assert s.accepted[i].id in s.adders;
    }
    forall j | j in s'.adders && s'.adders[j] == Returned(Accepted)
      ensures exists i :: 0 <= i < |s'.accepted| && s'.accepted[i].id == j
    {
      if j == id {
        assert s'.accepted[|s.accepted|].id == j;
      } else {
        var i :| 0 <= i < |s.accepted| && s.accepted[i].id == j;
        assert s'.accepted[i].id == j;
      }
    }
  }

  lemma StopFlagsControl(s: State, a: Action)
    requires StopFlags(s) && Enabled(s, a) && !MovesMessages(a)
    ensures StopFlags(Apply(s, a))
  {
  }

  lemma ExitFlagsControl(s: State, a: Action)
    requires ExitFlags(s) && Enabled(s, a) && !MovesMessages(a)
    ensures ExitFlags(Apply(s, a))
  {
  }

  lemma FlagsStep(s: State, a: Action)
    requires StopFlags(s) && ExitFlags(s) && Enabled(s, a)
    ensures StopFlags(Apply(s, a)) && ExitFlags(Apply(s, a))
  {
    if MovesMessages(a) {
      MessageFrame(s, a);
      MessageSettings(s, a);
    } else {
      StopFlagsControl(s, a);
      ExitFlagsControl(s, a);
    }
  }

  lemma LateAddsStep(s: State, a: Action)
    requires StopFlags(s) && ExitFlags(s) && LateAdds(s) && Enabled(s, a)
    ensures LateAdds(Apply(s, a))
  {
    var s' := Apply(s, a);
    match a {
      case LockAdd(id) => assert EnteredIds(s'.adders) == EnteredIds(s.adders) - {id};
      case EnterAdd(_, _) => assert !s.core.running ==> EnteredIds(s'.adders) == EnteredIds(s.adders);
      case _ => assert s'.adders == s.adders;
    }
  }

  lemma InvariantStep(s: State, a: Action)
    requires Invariant(s) && Enabled(s, a)
    ensures Invariant(Apply(s, a))
  {
    FifoStep(s, a);
    BoundedStep(s, a);
    SizeCountersStep(s, a);
    WakeupStep(s, a);
    CallbackLogStep(s, a);
    StoredStep(s, a);
    FlushCountersStep(s, a);
    DroppedStep(s, a);
    CallsStep(s, a);
    FlagsStep(s, a);
    LateAddsStep(s, a);
  }

  lemma {:induction false} RunInvariant(s: State, actions: seq<Action>, s': State)
    requires Invariant(s) && Reaches(s, actions, s')
    ensures Invariant(s')
    decreases |actions|
  {
    if actions != [] {
      InvariantStep(s, actions[0]);
      RunInvariant(Apply(s, actions[0]), actions[1..], s');
    }
  }

  lemma ReachableInvariant(s: State)
    requires Reachable(s)
    ensures Invariant(s)
  {
    var s0, actions :| Initial(s0) && Reaches(s0, actions, s);
    InitialInvariant(s0);
    RunInvariant(s0, actions, s);
  }
}
