/**
 Add callers, one flusher, Stop and context cancellation interleaved over one buffer, with the database
 writer as the flush callback. A run is a sequence of actions; each is one lock region, one channel
 operation, one callback entry or one callback return.
 */
module RecorderProtocol {
  import opened MarketData
  import opened BatchBuffer
  import Writer = TimescaleWriter

  // One Add call and the message it carries.
  datatype Call = Call(id: nat, message: Message)

  datatype Adder = Entered(message: Message) | Returned(result: AddResult)

  datatype Flusher =
    | NotStarted
    | Selecting
    | Woken(forced: bool)
    | Taken(batch: seq<Call>)
    | InCallback(batch: seq<Call>)
    | Leaving
    | FinalTaken(batch: seq<Call>)
    | InFinalCallback(batch: seq<Call>, attempt: nat)
    | Closing
    | Finished

  datatype Stopper = NotCalled | Swapped | Waiting | StopReturned

  datatype Exit = NotExiting | ViaStop | ViaCancel

  // A batch the callback has been entered with: on shutdown or not, and whether success has been returned for it.
  datatype HandedBatch = HandedBatch(batch: seq<Call>, onExit: bool, succeeded: bool)

  const FINAL_RETRIES: nat := 3

  // The callback writes with the very context the flusher watches; `doomed` says that it was last entered after the
  // context had been cancelled, so that every transaction it begins fails.
  datatype State = State(
    core: Core<Call>, flusher: Flusher, stopper: Stopper, exit: Exit, cancelled: bool, doomed: bool,
    adders: map<nat, Adder>, enteredAtStop: set<nat>,
    accepted: seq<Call>, handed: seq<HandedBatch>,
    db: Writer.Database, maxRetries: nat)

  datatype Action =
    | StartFlusher
    | EnterAdd(id: nat, message: Message)
    | LockAdd(id: nat)
    | RequestFlush
    | SeeTick
    | SeeToken
    | LockAndTake(now: int)
    | EnterCallback
    | ReturnFromCallback(env: Writer.Environment)
    | Cancel
    | SeeCancel
    | SeeStop
    | LockAndTakeFinal
    | EnterFinalCallback
    | ReturnFromFinalCallback(finalEnv: Writer.Environment)
    | CloseDone
    | SwapRunning
    | CloseStop
    | SeeDone

  ghost predicate Initial(s: State) {
    && (exists maxSize, flushTimeout, now :: s.core == New(maxSize, flushTimeout, now))
    && s.flusher == NotStarted && s.stopper == NotCalled && s.exit == NotExiting && !s.cancelled && !s.doomed
    && s.adders == map[] && s.enteredAtStop == {} && s.accepted == [] && s.handed == []
    && s.db == Writer.Database([], [])
  }

  predicate Enabled(s: State, a: Action) {
    match a
    case StartFlusher => s.flusher.NotStarted?
    case EnterAdd(id, _) => id !in s.adders
    case LockAdd(id) => id in s.adders && s.adders[id].Entered?
    case RequestFlush => true
    case SeeTick => s.flusher.Selecting?
    case SeeToken => s.flusher.Selecting? && s.core.token
    case LockAndTake(_) => s.flusher.Woken?
    case EnterCallback => s.flusher.Taken?
    case ReturnFromCallback(_) => s.flusher.InCallback?
    case Cancel => true
    case SeeCancel => s.flusher.Selecting? && s.cancelled
    case SeeStop => s.flusher.Selecting? && s.core.stopClosed
    case LockAndTakeFinal => s.flusher.Leaving?
    case EnterFinalCallback => s.flusher.FinalTaken?
    case ReturnFromFinalCallback(_) => s.flusher.InFinalCallback?
    case CloseDone => s.flusher.Closing?
    case SwapRunning => s.core.running
    case CloseStop => s.stopper.Swapped?
    case SeeDone => s.stopper.Waiting? && s.flusher.Finished?
  }

  function EnteredIds(adders: map<nat, Adder>): set<nat> {
    set id | id in adders && adders[id].Entered?
  }

  function Messages(calls: seq<Call>): seq<Message> {
    seq(|calls|, i requires 0 <= i < |calls| => calls[i].message)
  }

  function MarkLast(handed: seq<HandedBatch>, ok: bool): seq<HandedBatch>
    requires handed != []
  {
    handed[|handed| - 1 := handed[|handed| - 1].(succeeded := ok)]
  }

  // What the database does to the attempts of the callback in progress.
  function Seen(s: State, env: Writer.Environment): Writer.Environment {
    if s.doomed then env.(attempts := []) else env
  }

  // Entering the callback hands a batch over; a later attempt re-enters with the same batch.
  function Apply(s: State, a: Action): State
    requires Enabled(s, a)
  {
    match a
    case StartFlusher => s.(flusher := Selecting)
    case EnterAdd(id, m) =>
      if s.core.running then s.(adders := s.adders[id := Entered(m)])
      else s.(adders := s.adders[id := Returned(Closed)], core := s.core.(dropped := s.core.dropped + 1))
    case LockAdd(id) =>
      var call := Call(id, s.adders[id].message);
      var (core, result) := AddLocked(s.core, call);
      s.(core := core, adders := s.adders[id := Returned(result)],
         accepted := if result.Accepted? then s.accepted + [call] else s.accepted)
    case RequestFlush => s.(core := s.core.(token := true))
    case SeeTick => s.(flusher := Woken(false))
    case SeeToken => s.(flusher := Woken(true), core := s.core.(token := false))
    case LockAndTake(now) =>
      var (core, batch) := TakeBatch(s.core, s.flusher.forced, now);
      s.(core := core, flusher := if batch == [] then Selecting else Taken(batch))
    case EnterCallback =>
      s.(flusher := InCallback(s.flusher.batch), handed := s.handed + [HandedBatch(s.flusher.batch, false, false)],
         core := s.core.(totalFlushes := s.core.totalFlushes + 1), doomed := s.cancelled)
    case ReturnFromCallback(env) =>
      var messages := Messages(s.flusher.batch);
      var ok := Writer.Outcome(messages, Seen(s, env), s.maxRetries).None?;
      s.(flusher := Selecting, db := Writer.After(s.db, messages, Seen(s, env), s.maxRetries),
         handed := if s.handed == [] then [] else MarkLast(s.handed, ok),
         core := if ok then s.core else s.core.(totalErrors := s.core.totalErrors + 1))
    case Cancel => s.(cancelled := true)
    case SeeCancel => s.(flusher := Leaving, exit := ViaCancel)
    case SeeStop => s.(flusher := Leaving, exit := ViaStop)
    case LockAndTakeFinal =>
      var (core, batch) := TakeFinal(s.core);
      s.(core := core, flusher := if batch == [] then Closing else FinalTaken(batch))
    case EnterFinalCallback =>
      s.(flusher := InFinalCallback(s.flusher.batch, 0), handed := s.handed + [HandedBatch(s.flusher.batch, true, false)],
         doomed := s.cancelled)
    case ReturnFromFinalCallback(env) =>
      var messages := Messages(s.flusher.batch);
      var ok := Writer.Outcome(messages, Seen(s, env), s.maxRetries).None?;
      var attempt := s.flusher.attempt + 1;
      s.(flusher := if ok || attempt >= FINAL_RETRIES then Closing else InFinalCallback(s.flusher.batch, attempt),
         db := Writer.After(s.db, messages, Seen(s, env), s.maxRetries),
         handed := if s.handed == [] then [] else MarkLast(s.handed, ok), doomed := s.cancelled)
    case CloseDone => s.(flusher := Finished)
    case SwapRunning =>
      s.(core := s.core.(running := false), stopper := Swapped, enteredAtStop := EnteredIds(s.adders))
    case CloseStop => s.(core := s.core.(stopClosed := true), stopper := Waiting)
    case SeeDone => s.(stopper := StopReturned)
  }

  // ---------- runs ----------

  // s' is reached from s by performing the actions in order.
  ghost predicate Reaches(s: State, actions: seq<Action>, s': State)
    decreases |actions|
  {
    if actions == [] then s' == s
    else Enabled(s, actions[0]) && Reaches(Apply(s, actions[0]), actions[1..], s')
  }

  ghost predicate Reachable(s: State) {
    exists s0, actions :: Initial(s0) && Reaches(s0, actions, s)
  }

  lemma {:induction false} ReachesAppend(s: State, actions: seq<Action>, s': State, a: Action)
    requires Reaches(s, actions, s') && Enabled(s', a)
    ensures Reaches(s, actions + [a], Apply(s', a))
    decreases |actions|
  {
    if actions == [] {
      assert ([a])[1..] == [];
    } else {
      assert (actions + [a])[1..] == actions[1..] + [a];
      ReachesAppend(Apply(s, actions[0]), actions[1..], s', a);
    }
  }

  lemma ReachableStep(s: State, a: Action)
    requires Reachable(s) && Enabled(s, a)
    ensures Reachable(Apply(s, a))
  {
    var s0, actions :| Initial(s0) && Reaches(s0, actions, s);
    ReachesAppend(s0, actions, s, a);
  }

  ghost predicate CanReach(s: State, s': State) {
    exists actions :: Reaches(s, actions, s')
  }

  lemma ReachSelf(s: State)
    ensures CanReach(s, s)
  {
    assert Reaches(s, [], s);
  }

  lemma OneMore(s: State, s': State, a: Action)
    requires CanReach(s, s') && Enabled(s', a)
    ensures CanReach(s, Apply(s', a))
  {
    var actions :| Reaches(s, actions, s');
    ReachesAppend(s, actions, s', a);
  }

  lemma {:induction false} ReachableRun(s: State, actions: seq<Action>, s': State)
    requires Reachable(s) && Reaches(s, actions, s')
    ensures Reachable(s')
    decreases |actions|
  {
    if actions != [] {
      ReachableStep(s, actions[0]);
      ReachableRun(Apply(s, actions[0]), actions[1..], s');
    }
  }
}
