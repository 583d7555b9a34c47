/**
 One order row under one Execute and any number of Cancels. Every database statement and every broker call is one
 atomic step; nothing ties a Cancel's write to what it read. Any write may fail.
 */
module OrderLifecycle {
  import opened Options

  datatype Status = PENDING | SENT | FILLED | REJECTED | CANCELLED

  datatype AuditEntry = AuditEntry(status: Status, reason: Option<string>)

  // `audit` is what the status trigger of the table has recorded.
  datatype Row = Row(
    quantity: int, status: Status, brokerOrderId: Option<string>, filledPrice: Option<real>, filledQuantity: Option<int>,
    rejectReason: Option<string>, audit: seq<AuditEntry>)

  // What the broker answers to a submission it accepts.
  datatype Fill = Fill(orderId: string, price: real, quantity: int)

  // ---------- statements ----------

  function NewRow(quantity: int): Row {
    Row(quantity, PENDING, None, None, None, None, [])
  }

  function Audited(before: Row, after: Row): Row {
    if before.status == after.status then after
    else after.(audit := after.audit + [AuditEntry(after.status, after.rejectReason)])
  }

  function WithStatus(row: Row, status: Status, reason: string): Row {
    Audited(row, row.(status := status, rejectReason := if reason == "" then None else Some(reason)))
  }

  // The check constraint on the filled quantity; a violating update fails as a whole.
  predicate FillFits(row: Row, fill: Fill) {
    0 <= fill.quantity <= row.quantity
  }

  function WithExecution(row: Row, fill: Fill): Row {
    if !FillFits(row, fill) then row
    else
      Audited(row, row.(brokerOrderId := Some(fill.orderId), filledPrice := Some(fill.price),
                        filledQuantity := Some(fill.quantity),
                        status := if fill.quantity >= row.quantity then FILLED else row.status))
  }

  predicate Cancellable(row: Row) {
    !row.status.FILLED? && !row.status.CANCELLED? && !row.status.REJECTED?
  }

  // ---------- the interleaving ----------

  datatype Executor =
    | Creating | Submitting | WritingRejected | WritingExecution(fill: Fill) | WritingSent | WritesDone

  datatype Canceller = CallingBroker(orderId: string) | WritingCancelled | Returned(success: bool)

  // `broker` is the answer to Execute's submission, None for an error; it and the quantity never change.
  // `asked` are the orders the broker has been asked to cancel, `withdrawn` those it has cancelled.
  // `earlyRead`: some Cancel has passed its status check before Execute's last write.
  datatype State = State(
    quantity: int, broker: Option<Fill>, row: Option<Row>, executor: Executor, cancellers: map<nat, Canceller>,
    asked: set<string>, withdrawn: set<string>, earlyRead: bool)

  datatype Action =
    | Create(ok: bool)
    | Submit
    | WriteRejected(rejectReason: string, ok: bool)
    | WriteExecution(ok: bool)
    | WriteSent(ok: bool)
    | Read(id: nat, ok: bool)
    | CallBroker(id: nat, ok: bool)
    | WriteCancelled(id: nat, cancelReason: string, ok: bool)

  function Initial(quantity: int, broker: Option<Fill>): State {
    State(quantity, broker, None, Creating, map[], {}, {}, false)
  }

  predicate Enabled(s: State, a: Action) {
    match a
    case Create(_) => s.executor.Creating?
    case Submit => s.executor.Submitting?
    case WriteRejected(_, _) => s.executor.WritingRejected?
    case WriteExecution(_) => s.executor.WritingExecution?
    case WriteSent(_) => s.executor.WritingSent?
    case Read(id, _) => id !in s.cancellers
    case CallBroker(id, _) => id in s.cancellers && s.cancellers[id].CallingBroker?
    case WriteCancelled(id, _, _) => id in s.cancellers && s.cancellers[id].WritingCancelled?
  }

  function Updated(row: Option<Row>, ok: bool, update: Row -> Row): Option<Row> {
    if row.Some? && ok then Some(update(row.value)) else row
  }

  // Where a Cancel goes after its read: it stops on a missing or finished order, else on to the broker if it knows one.
  function AfterRead(row: Option<Row>, ok: bool): Canceller {
    if !ok || row.None? || !Cancellable(row.value) then Returned(false)
    else if row.value.brokerOrderId.Some? then CallingBroker(row.value.brokerOrderId.value)
    else WritingCancelled
  }

  // A broker that refuses or cannot be reached does not stop a Cancel.
  function Apply(s: State, a: Action): State
    requires Enabled(s, a)
  {
    match a
    case Create(ok) =>
      if ok && s.quantity > 0 then s.(row := Some(NewRow(s.quantity)), executor := Submitting)
      else s.(executor := WritesDone)
    case Submit => s.(executor := if s.broker.Some? then WritingExecution(s.broker.value) else WritingRejected)
    case WriteRejected(reason, ok) =>
      s.(row := Updated(s.row, ok, (r: Row) => WithStatus(r, REJECTED, reason)), executor := WritesDone)
    case WriteExecution(ok) =>
      s.(row := Updated(s.row, ok, (r: Row) => WithExecution(r, s.executor.fill)), executor := WritingSent)
    case WriteSent(ok) =>
      s.(row := Updated(s.row, ok, (r: Row) => WithStatus(r, SENT, "Order sent to broker")), executor := WritesDone)
    case Read(id, ok) =>
      var next := AfterRead(s.row, ok);
      s.(cancellers := s.cancellers[id := next],
         earlyRead := s.earlyRead || (!next.Returned? && !s.executor.WritesDone?))
    case CallBroker(id, ok) =>
      var order := s.cancellers[id].orderId;
      s.(asked := s.asked + {order}, withdrawn := if ok then s.withdrawn + {order} else s.withdrawn,
         cancellers := s.cancellers[id := WritingCancelled])
    case WriteCancelled(id, reason, ok) =>
      s.(row := Updated(s.row, ok, (r: Row) => WithStatus(r, CANCELLED, reason)),
         cancellers := s.cancellers[id := Returned(ok)])
  }

  ghost predicate Reaches(s: State, actions: seq<Action>, s': State)
    decreases |actions|
  {
    if actions == [] then s' == s
    else Enabled(s, actions[0]) && Reaches(Apply(s, actions[0]), actions[1..], s')
  }

  ghost predicate CanReach(s: State, s': State) {
    exists actions :: Reaches(s, actions, s')
  }

  lemma ReachSelf(s: State)
    ensures CanReach(s, s)
  {
    assert Reaches(s, [], s);
  }

  lemma {:induction false} ReachesAppend(s: State, actions: seq<Action>, s': State, a: Action)
    requires Reaches(s, actions, s') && Enabled(s', a)
    ensures Reaches(s, actions + [a], Apply(s', a))
    decreases |actions|
  {
    if actions == [] {
      assert [a][1..] == [];
    } else {
      assert (actions + [a])[1..] == actions[1..] + [a];
      ReachesAppend(Apply(s, actions[0]), actions[1..], s', a);
    }
  }

  lemma OneMore(s0: State, s: State, a: Action)
    requires CanReach(s0, s) && Enabled(s, a)
    ensures CanReach(s0, Apply(s, a))
  {
    var actions :| Reaches(s0, actions, s);
    ReachesAppend(s0, actions, s, a);
  }

  predicate Has(s: State, status: Status) {
    s.row.Some? && s.row.value.status == status
  }

  predicate InFlight(s: State, id: nat) {
    id in s.cancellers && !s.cancellers[id].Returned?
  }

  // ---------- CANCELLED ----------

  /** Only Execute's own later write takes a row out of CANCELLED. */
  lemma OnlyExecuteUndoesCancelled(s: State, a: Action)
    requires Enabled(s, a) && (s.executor.Creating? ==> s.row.None?)
    requires Has(s, CANCELLED) && !Has(Apply(s, a), CANCELLED)
    ensures a.WriteRejected? || a.WriteSent? || (a.WriteExecution? && s.executor.fill.quantity == s.row.value.quantity)
    ensures !s.executor.WritesDone?
  {
  }

  /** Once Execute has made its last write, a cancelled order stays cancelled, whatever Cancels are still in flight. */
  lemma {:induction false} CancelledAbsorbs(s: State, actions: seq<Action>, s': State)
    requires s.executor.WritesDone? && Has(s, CANCELLED) && Reaches(s, actions, s')
    ensures Has(s', CANCELLED)
    decreases |actions|
  {
    if actions != [] {
      CancelledAbsorbs(Apply(s, actions[0]), actions[1..], s');
    }
  }

  // ---------- REJECTED ----------

  lemma {:induction false} RejectedStays(s: State, actions: seq<Action>, s': State)
    requires s.executor.WritesDone? && Has(s, REJECTED) && Reaches(s, actions, s')
    requires forall id :: !InFlight(s, id)
    ensures Has(s', REJECTED)
    decreases |actions|
  {
    if actions != [] {
      if actions[0].WriteCancelled? {
        assert InFlight(s, actions[0].id);
        assert false;
      }
      var next := Apply(s, actions[0]);
      forall id ensures !InFlight(next, id) {
        assert !InFlight(s, id);
      }
      RejectedStays(next, actions[1..], s');
    }
  }

  /** A rejection Execute has recorded is final exactly when no Cancel is past its check: one in flight overwrites it. */
  lemma RejectedAbsorbsIff(s: State)
    requires s.executor.WritesDone? && Has(s, REJECTED)
    ensures (forall id :: !InFlight(s, id)) <==>
            (forall s' :: CanReach(s, s') ==> Has(s', REJECTED))
  {
    if forall id :: !InFlight(s, id) {
      forall s' | CanReach(s, s') ensures Has(s', REJECTED) {
        var actions :| Reaches(s, actions, s');
        RejectedStays(s, actions, s');
      }
    } else {
      var id :| InFlight(s, id);
      var actions, s' := OverwriteRejected(s, id);
      assert CanReach(s, s') && !Has(s', REJECTED);
    }
  }

  lemma OverwriteRejected(s: State, id: nat) returns (actions: seq<Action>, s': State)
    requires s.row.Some? && InFlight(s, id)
    ensures Reaches(s, actions, s') && Has(s', CANCELLED)
  {
    var write := WriteCancelled(id, "", true);
    assert [write][1..] == [];
    if s.cancellers[id].CallingBroker? {
      var s1 := Apply(s, CallBroker(id, false));
      s' := Apply(s1, write);
      assert Reaches(s1, [write], s');
      actions := [CallBroker(id, false), write];
      assert actions[1..] == [write];
    } else {
      actions, s' := [write], Apply(s, write);
    }
  }

  // ---------- whole runs ----------

  // What every reachable state satisfies.
  ghost predicate Invariant(s: State) {
    Phases(s) && (s.row.Some? ==> WellAudited(s.row.value) && Statuses(s)) && Flights(s) && (!s.earlyRead ==> BrokerAsked(s))
  }

  // The row is there from its creation on, and the answer being written is the broker's.
  predicate Phases(s: State) {
    && (s.executor.Creating? ==> s.row.None?)
    && (s.row.None? ==> s.executor.Creating? || s.executor.WritesDone?)
    && (s.executor.WritingExecution? ==> s.broker == Some(s.executor.fill))
  }

  ghost predicate Flights(s: State) {
    s.row.None? || (!s.earlyRead && !s.executor.WritesDone?) ==> forall id :: !InFlight(s, id)
  }

  // The audit entries record each change of status once, up to the present one.
  predicate WellAudited(row: Row) {
    && row.status == (if row.audit == [] then PENDING else row.audit[|row.audit| - 1].status)
    && (forall i :: 0 < i < |row.audit| ==> row.audit[i].status != row.audit[i - 1].status)
  }

  ghost predicate Statuses(s: State)
    requires s.row.Some?
  {
    var row := s.row.value;
    && row.quantity == s.quantity
    && (s.executor.Submitting? || s.executor.WritingRejected? || s.executor.WritingExecution? ==>
          row.brokerOrderId.None? && (row.status.PENDING? || (row.status.CANCELLED? && s.earlyRead)))
    && (row.status.REJECTED? ==> s.executor.WritesDone?)
    && (row.status.REJECTED? && !s.earlyRead ==> forall id :: !InFlight(s, id))
    && (row.status.CANCELLED? && !s.earlyRead ==> s.executor.WritesDone?)
    && (row.status.FILLED? ==> s.broker.Some? && s.broker.value.quantity == s.quantity)
  }

  // Without early reads: before a Cancel writes, and before a row is cancelled, the broker has been asked if the row
  // knows it.
  ghost predicate BrokerAsked(s: State) {
    s.row.Some? && s.row.value.brokerOrderId.Some? ==>
      var known := s.row.value.brokerOrderId.value;
      && (forall id :: InFlight(s, id) ==>
            if s.cancellers[id].CallingBroker? then s.cancellers[id].orderId == known else known in s.asked)
      && (s.row.value.status.CANCELLED? ==> known in s.asked)
  }

  // Only a read puts a Cancel in flight.
  lemma InFlightBefore(s: State, a: Action, id: nat)
    requires Enabled(s, a) && InFlight(Apply(s, a), id)
    ensures InFlight(s, id) || (a.Read? && id == a.id)
  {
  }

  lemma WriterInFlight(s: State, a: Action)
    requires Enabled(s, a)
    ensures a.CallBroker? || a.WriteCancelled? ==> InFlight(s, a.id)
  {
  }

  lemma FlightsStep(s: State, a: Action)
    requires Invariant(s) && Enabled(s, a)
    ensures Flights(Apply(s, a))
  {
    WriterInFlight(s, a);
    forall id | InFlight(Apply(s, a), id) ensures InFlight(s, id) || (a.Read? && id == a.id) {
      InFlightBefore(s, a, id);
    }
  }

  lemma AuditedWell(before: Row, after: Row)
    requires WellAudited(before) && after.audit == before.audit
    ensures WellAudited(Audited(before, after))
  {
  }

  lemma StatementsAudited(row: Row, status: Status, reason: string, fill: Fill)
    requires WellAudited(row)
    ensures WellAudited(WithStatus(row, status, reason)) && WellAudited(WithExecution(row, fill))
  {
    AuditedWell(row, row.(status := status, rejectReason := if reason == "" then None else Some(reason)));
    if FillFits(row, fill) {
      AuditedWell(row, row.(brokerOrderId := Some(fill.orderId), filledPrice := Some(fill.price),
                            filledQuantity := Some(fill.quantity),
                            status := if fill.quantity >= row.quantity then FILLED else row.status));
    }
  }

  lemma AuditsStep(s: State, a: Action)
    requires Enabled(s, a) && (s.row.Some? ==> WellAudited(s.row.value))
    ensures Apply(s, a).row.Some? ==> WellAudited(Apply(s, a).row.value)
  {
    if s.row.Some? {
      match a {
        case WriteRejected(reason, _) => StatementsAudited(s.row.value, REJECTED, reason, Fill("", 0.0, 0));
        case WriteExecution(_) => StatementsAudited(s.row.value, SENT, "", s.executor.fill);
        case WriteSent(_) => StatementsAudited(s.row.value, SENT, "Order sent to broker", Fill("", 0.0, 0));
        case WriteCancelled(_, reason, _) => StatementsAudited(s.row.value, CANCELLED, reason, Fill("", 0.0, 0));
        case _ =>
      }
    }
  }

  lemma StatusesStep(s: State, a: Action)
    requires Phases(s) && (s.row.Some? ==> Statuses(s)) && Flights(s) && Enabled(s, a)
    ensures Apply(s, a).row.Some? ==> Statuses(Apply(s, a))
  {
    WriterInFlight(s, a);
    forall id | InFlight(Apply(s, a), id) ensures InFlight(s, id) || (a.Read? && id == a.id) {
      InFlightBefore(s, a, id);
    }
  }

  lemma BrokerAskedStep(s: State, a: Action)
    requires Invariant(s) && Enabled(s, a) && !Apply(s, a).earlyRead
    ensures BrokerAsked(Apply(s, a))
  {
    WriterInFlight(s, a);
    forall id | InFlight(Apply(s, a), id) ensures InFlight(s, id) || (a.Read? && id == a.id) {
      InFlightBefore(s, a, id);
    }
  }

  lemma InvariantStep(s: State, a: Action)
    requires Invariant(s) && Enabled(s, a)
    ensures Invariant(Apply(s, a))
  {
    AuditsStep(s, a);
    StatusesStep(s, a);
    FlightsStep(s, a);
    if !Apply(s, a).earlyRead {
      BrokerAskedStep(s, a);
    }
  }

  lemma {:induction false} RunInvariant(s: State, actions: seq<Action>, s': State)
    requires Invariant(s) && Reaches(s, actions, s')
    ensures Invariant(s')
    decreases |actions|
  {
    if actions != [] {
      InvariantStep(s, actions[0]);
      RunInvariant(Apply(s, actions[0]), actions[1..], s');
    }
  }

  lemma ReachableInvariant(quantity: int, broker: Option<Fill>, s: State)
    requires CanReach(Initial(quantity, broker), s)
    ensures Invariant(s)
  {
    var actions :| Reaches(Initial(quantity, broker), actions, s);
    RunInvariant(Initial(quantity, broker), actions, s);
  }

  /** The audit log is the whole story: its last entry is the status, and consecutive entries differ. */
  lemma AuditTellsStatus(quantity: int, broker: Option<Fill>, s: State)
    requires CanReach(Initial(quantity, broker), s) && s.row.Some?
    ensures var row := s.row.value;
            && row.status == (if row.audit == [] then PENDING else row.audit[|row.audit| - 1].status)
            && forall i :: 0 < i < |row.audit| ==> row.audit[i].status != row.audit[i - 1].status
  {
    ReachableInvariant(quantity, broker, s);
  }

  /**
   When every Cancel reads after Execute's last write: before that write no Cancel has touched the row, after it
   CANCELLED and REJECTED are final, and the broker has been asked to cancel every cancelled order whose row holds its
   identifier. It need not have done so.
   */
  lemma LateCancelsAreSafe(quantity: int, broker: Option<Fill>, s: State, s': State)
    requires CanReach(Initial(quantity, broker), s) && CanReach(s, s') && !s'.earlyRead
    ensures Has(s, CANCELLED) ==> Has(s', CANCELLED)
    ensures Has(s, REJECTED) ==> Has(s', REJECTED)
    ensures Has(s, CANCELLED) && s.row.value.brokerOrderId.Some? ==> s.row.value.brokerOrderId.value in s.asked
  {
    ReachableInvariant(quantity, broker, s);
    var actions :| Reaches(s, actions, s');
    if s.earlyRead {
      EarlyReadSticks(s, actions, s');
      assert false;
    }
    if Has(s, CANCELLED) {
      CancelledAbsorbs(s, actions, s');
    }
    if Has(s, REJECTED) {
      RejectedStays(s, actions, s');
    }
  }

  lemma {:induction false} EarlyReadSticks(s: State, actions: seq<Action>, s': State)
    requires Reaches(s, actions, s') && s.earlyRead
    ensures s'.earlyRead
    decreases |actions|
  {
    if actions != [] {
      EarlyReadSticks(Apply(s, actions[0]), actions[1..], s');
    }
  }

  predicate IdKnown(s: State) {
    s.row.Some? && s.row.value.brokerOrderId.Some?
  }

  // The broker is only ever asked to cancel the order it accepted, and only once the row holds its identifier.
  ghost predicate AsksById(s: State) {
    && s.withdrawn <= s.asked
    && if IdKnown(s) then
         && s.broker.Some? && s.row.value.brokerOrderId.value == s.broker.value.orderId
         && s.asked <= {s.broker.value.orderId}
         && forall id :: id in s.cancellers && s.cancellers[id].CallingBroker? ==>
              s.cancellers[id].orderId == s.broker.value.orderId
       else s.asked == {} && forall id :: id in s.cancellers ==> !s.cancellers[id].CallingBroker?
  }

  lemma AsksByIdStep(s: State, a: Action)
    requires Phases(s) && AsksById(s) && Enabled(s, a)
    ensures AsksById(Apply(s, a))
  {
  }

  predicate FillWritten(s: State, actions: seq<Action>) {
    WriteExecution(true) in actions && s.broker.Some? && 0 <= s.broker.value.quantity <= s.quantity
  }

  lemma IdKnownStep(s: State, a: Action)
    requires Phases(s) && (s.row.Some? ==> s.row.value.quantity == s.quantity) && Enabled(s, a)
    ensures IdKnown(Apply(s, a)) <==> IdKnown(s) || FillWritten(s, [a])
    ensures Apply(s, a).broker == s.broker && Apply(s, a).quantity == s.quantity
  {
  }

  // The row holds the identifier exactly if the write of the fill went through.
  lemma {:induction false} IdKnownIff(s: State, actions: seq<Action>, s': State)
    requires Invariant(s) && AsksById(s) && Reaches(s, actions, s')
    ensures AsksById(s')
    ensures IdKnown(s') <==> IdKnown(s) || FillWritten(s, actions)
    decreases |actions|
  {
    if actions != [] {
      var a, rest := actions[0], actions[1..];
      InvariantStep(s, a);
      AsksByIdStep(s, a);
      IdKnownStep(s, a);
      IdKnownIff(Apply(s, a), rest, s');
      assert actions == [a] + rest;
    }
  }

  /**
   Whether the broker hears of a cancellation: with late Cancels only, the broker has been asked to cancel an order it
   accepted and the table shows cancelled exactly if Execute's write of the fill went through.
   */
  lemma BrokerAskedIff(quantity: int, fill: Fill, actions: seq<Action>, s: State)
    requires Reaches(Initial(quantity, Some(fill)), actions, s) && !s.earlyRead && Has(s, CANCELLED)
    ensures fill.orderId in s.asked <==> WriteExecution(true) in actions && 0 <= fill.quantity <= quantity
  {
    var s0 := Initial(quantity, Some(fill));
    RunInvariant(s0, actions, s);
    IdKnownIff(s0, actions, s);
    ConstantsStay(s0, actions, s);
  }

  // ---------- what the broker has done ----------

  predicate SomeCallSucceeds(actions: seq<Action>) {
    exists i :: 0 <= i < |actions| && actions[i].CallBroker? && actions[i].ok
  }

  lemma WithdrawnStep(s: State, a: Action, order: string)
    requires Invariant(s) && AsksById(s) && Enabled(s, a) && s.broker.Some? && order == s.broker.value.orderId
    ensures order in Apply(s, a).withdrawn <==> order in s.withdrawn || (a.CallBroker? && a.ok)
    ensures Apply(s, a).broker == s.broker
  {
  }

  lemma {:induction false} WithdrawnRun(s: State, actions: seq<Action>, s': State, order: string)
    requires Invariant(s) && AsksById(s) && Reaches(s, actions, s') && s.broker.Some? && order == s.broker.value.orderId
    ensures order in s'.withdrawn <==> order in s.withdrawn || SomeCallSucceeds(actions)
    decreases |actions|
  {
    if actions != [] {
      var a, rest := actions[0], actions[1..];
      InvariantStep(s, a);
      AsksByIdStep(s, a);
      WithdrawnStep(s, a, order);
      WithdrawnRun(Apply(s, a), rest, s', order);
      FirstOrRest(a, rest);
      assert actions == [a] + rest;
    }
  }

  lemma FirstOrRest(a: Action, rest: seq<Action>)
    ensures SomeCallSucceeds([a] + rest) <==> (a.CallBroker? && a.ok) || SomeCallSucceeds(rest)
  {
    var all := [a] + rest;
    if a.CallBroker? && a.ok {
      assert all[0] == a;
    }
    if i :| 0 <= i < |rest| && rest[i].CallBroker? && rest[i].ok {
      assert all[i + 1] == rest[i];
    }
  }

  /** On every run, the broker has cancelled the order it accepted exactly if some Cancel's call to it succeeded. */
  lemma BrokerCancelledIff(quantity: int, fill: Fill, actions: seq<Action>, s: State)
    requires Reaches(Initial(quantity, Some(fill)), actions, s)
    ensures fill.orderId in s.withdrawn <==> SomeCallSucceeds(actions)
  {
    WithdrawnRun(Initial(quantity, Some(fill)), actions, s, fill.orderId);
  }

  lemma ReachableAsks(quantity: int, broker: Option<Fill>, s: State)
    requires CanReach(Initial(quantity, broker), s)
    ensures Invariant(s) && AsksById(s)
  {
    var actions :| Reaches(Initial(quantity, broker), actions, s);
    RunInvariant(Initial(quantity, broker), actions, s);
    IdKnownIff(Initial(quantity, broker), actions, s);
  }

  /** However late it comes, a Cancel the broker refuses still reports success and leaves the row CANCELLED. */
  lemma CancelDespiteBroker(s: State, id: nat, reason: string) returns (s': State)
    requires s.executor.WritesDone? && IdKnown(s) && Cancellable(s.row.value) && id !in s.cancellers
    ensures CanReach(s, s') && Has(s', CANCELLED) && s'.cancellers == s.cancellers[id := Returned(true)]
    ensures s'.withdrawn == s.withdrawn && s'.asked == s.asked + {s.row.value.brokerOrderId.value}
    ensures s'.earlyRead == s.earlyRead
  {
    ReachSelf(s);
    OneMore(s, s, Read(id, true));
    s' := Apply(s, Read(id, true));
    OneMore(s, s', CallBroker(id, false));
    s' := Apply(s', CallBroker(id, false));
    OneMore(s, s', WriteCancelled(id, reason, true));
    s' := Apply(s', WriteCancelled(id, reason, true));
  }

  lemma FreshId(ids: set<nat>) returns (id: nat)
    ensures forall j :: j in ids ==> j < id
  {
    if ids == {} {
      id := 0;
    } else {
      var j :| j in ids;
      var rest := FreshId(ids - {j});
      id := if rest <= j then j + 1 else rest;
      forall x | x in ids ensures x < id {
        assert x == j || x in ids - {j};
      }
    }
  }

  lemma {:induction false} WithdrawnStays(s: State, actions: seq<Action>, s': State)
    requires Reaches(s, actions, s')
    ensures s.withdrawn <= s'.withdrawn
    decreases |actions|
  {
    if actions != [] {
      WithdrawnStays(Apply(s, actions[0]), actions[1..], s');
    }
  }

  /**
   After Execute, nothing but a call that has already succeeded makes sure that a row shown CANCELLED later is cancelled
   with the broker too.
   */
  lemma WithdrawnForSureIff(quantity: int, fill: Fill, s: State)
    requires CanReach(Initial(quantity, Some(fill)), s)
    requires s.executor.WritesDone? && IdKnown(s) && Cancellable(s.row.value)
    ensures fill.orderId in s.withdrawn <==>
            (forall s' :: CanReach(s, s') && Has(s', CANCELLED) ==> fill.orderId in s'.withdrawn)
  {
    if fill.orderId in s.withdrawn {
      forall s' | CanReach(s, s') ensures fill.orderId in s'.withdrawn {
        var actions :| Reaches(s, actions, s');
        WithdrawnStays(s, actions, s');
      }
    } else {
      var id := FreshId(s.cancellers.Keys);
      var s' := CancelDespiteBroker(s, id, "");
    }
  }

  // The broker has been asked, or must be before the row can become CANCELLED.
  ghost predicate AskedFirst(s: State, known: string) {
    known in s.asked || (!Has(s, CANCELLED) && forall id :: id in s.cancellers ==> !s.cancellers[id].WritingCancelled?)
  }

  // What late reading relies on: Execute is done and every call to the broker names the order.
  ghost predicate Settled(s: State, known: string) {
    && s.executor.WritesDone? && s.row.Some? && s.row.value.brokerOrderId == Some(known)
    && forall id :: id in s.cancellers && s.cancellers[id].CallingBroker? ==> s.cancellers[id].orderId == known
  }

  lemma AskedFirstStep(s: State, a: Action, known: string)
    requires Settled(s, known) && AskedFirst(s, known) && Enabled(s, a)
    ensures Settled(Apply(s, a), known) && AskedFirst(Apply(s, a), known)
  {
  }

  lemma {:induction false} AskedFirstRun(s: State, actions: seq<Action>, s': State, known: string)
    requires Settled(s, known) && AskedFirst(s, known) && Reaches(s, actions, s')
    ensures AskedFirst(s', known)
    decreases |actions|
  {
    if actions != [] {
      AskedFirstStep(s, actions[0], known);
      AskedFirstRun(Apply(s, actions[0]), actions[1..], s', known);
    }
  }

  /**
   After Execute, a row shown CANCELLED later is one the broker has been asked about exactly if it has been asked
   already or no Cancel that skipped the broker is still to write.
   */
  lemma AskedForSureIff(quantity: int, fill: Fill, s: State)
    requires CanReach(Initial(quantity, Some(fill)), s)
    requires s.executor.WritesDone? && IdKnown(s) && !Has(s, CANCELLED)
    ensures fill.orderId in s.asked || (forall id :: id in s.cancellers ==> !s.cancellers[id].WritingCancelled?) <==>
            (forall s' :: CanReach(s, s') && Has(s', CANCELLED) ==> fill.orderId in s'.asked)
  {
    var known := fill.orderId;
    ReachableAsks(quantity, Some(fill), s);
    BrokerFixed(quantity, fill, s);
    if AskedFirst(s, known) {
      forall s' | CanReach(s, s') && Has(s', CANCELLED) ensures known in s'.asked {
        var actions :| Reaches(s, actions, s');
        AskedFirstRun(s, actions, s', known);
      }
    } else {
      var id :| id in s.cancellers && s.cancellers[id].WritingCancelled?;
      ReachSelf(s);
      OneMore(s, s, WriteCancelled(id, "", true));
      assert Has(Apply(s, WriteCancelled(id, "", true)), CANCELLED);
    }
  }

  lemma BrokerFixed(quantity: int, fill: Fill, s: State)
    requires CanReach(Initial(quantity, Some(fill)), s)
    ensures s.broker == Some(fill)
  {
    var actions :| Reaches(Initial(quantity, Some(fill)), actions, s);
    ConstantsStay(Initial(quantity, Some(fill)), actions, s);
  }

  // ---------- one Cancel by itself ----------

  // A new Cancel with nothing in between; the flags answer its read, its call to the broker if it makes one, and its write.
  function CancelAlone(s: State, id: nat, reason: string, readOk: bool, brokerOk: bool, writeOk: bool): State
    requires id !in s.cancellers
  {
    var read := Apply(s, Read(id, readOk));
    var called := if read.cancellers[id].CallingBroker? then Apply(read, CallBroker(id, brokerOk)) else read;
    if called.cancellers[id].WritingCancelled? then Apply(called, WriteCancelled(id, reason, writeOk)) else called
  }

  /**
   Which orders a Cancel may cancel: after a successful read it goes on exactly when the order is PENDING or SENT, asking
   the broker if the row holds an identifier, and succeeds if it can write; otherwise it leaves row and broker alone.
   */
  lemma CancelAloneIff(s: State, id: nat, reason: string, readOk: bool, brokerOk: bool, writeOk: bool)
    requires id !in s.cancellers
    ensures var u := CancelAlone(s, id, reason, readOk, brokerOk, writeOk);
            var open := readOk && s.row.Some? && (s.row.value.status == PENDING || s.row.value.status == SENT);
            var told := if open && s.row.value.brokerOrderId.Some? then {s.row.value.brokerOrderId.value} else {};
            && u.cancellers == s.cancellers[id := Returned(open && writeOk)]
            && (open && writeOk ==> Has(u, CANCELLED)) && (!(open && writeOk) ==> u.row == s.row)
            && u.asked == s.asked + told && u.withdrawn == s.withdrawn + (if brokerOk then told else {})
  {
  }

  lemma CancelAloneReached(s: State, id: nat, reason: string, readOk: bool, brokerOk: bool, writeOk: bool)
    requires id !in s.cancellers
    ensures CanReach(s, CancelAlone(s, id, reason, readOk, brokerOk, writeOk))
  {
    ReachSelf(s);
    OneMore(s, s, Read(id, readOk));
    var u := Apply(s, Read(id, readOk));
    if u.cancellers[id].CallingBroker? {
      OneMore(s, u, CallBroker(id, brokerOk));
      u := Apply(u, CallBroker(id, brokerOk));
    }
    if u.cancellers[id].WritingCancelled? {
      OneMore(s, u, WriteCancelled(id, reason, writeOk));
    }
  }

  /** What a status write records: status and reason, no reason for an empty text, and a change in the audit log. */
  lemma StatusWritten(row: Row, status: Status, reason: string)
    ensures var after := WithStatus(row, status, reason);
            var recorded := if reason == "" then None else Some(reason);
            && after.status == status && after.rejectReason == recorded
            && after.audit == row.audit + (if row.status == status then [] else [AuditEntry(status, recorded)])
            && (after.quantity, after.brokerOrderId, after.filledPrice, after.filledQuantity)
               == (row.quantity, row.brokerOrderId, row.filledPrice, row.filledQuantity)
  {
    assert row.audit + [] == row.audit;
  }

  /** What the fill's write records: all of it, FILLED at the full quantity and the old status below it, or nothing. */
  lemma FillWrittenEffect(row: Row, fill: Fill)
    ensures var after := WithExecution(row, fill);
            if 0 <= fill.quantity <= row.quantity then
              && after.brokerOrderId == Some(fill.orderId) && after.filledPrice == Some(fill.price)
              && after.filledQuantity == Some(fill.quantity)
              && after.status == (if fill.quantity == row.quantity then FILLED else row.status)
              && after.quantity == row.quantity && after.rejectReason == row.rejectReason
            else after == row
  {
  }

  // ---------- cancelling too early ----------

  // From a cancelled row, Execute's remaining steps to its next status write.
  lemma UndoCancelled(s: State) returns (s': State)
    requires Invariant(s) && Has(s, CANCELLED) && !s.executor.WritesDone?
    ensures CanReach(s, s') && !Has(s', CANCELLED)
  {
    s' := s;
    ReachSelf(s);
    if s'.executor.Submitting? {
      OneMore(s, s', Submit);
      s' := Apply(s', Submit);
    }
    if s'.executor.WritingRejected? {
      OneMore(s, s', WriteRejected("", true));
      s' := Apply(s', WriteRejected("", true));
    } else {
      if s'.executor.WritingExecution? {
        OneMore(s, s', WriteExecution(false));
        s' := Apply(s', WriteExecution(false));
      }
      OneMore(s, s', WriteSent(true));
      s' := Apply(s', WriteSent(true));
    }
  }

  /** A cancellation is final exactly when Execute has made its last write: until then Execute can undo it. */
  lemma CancelledAbsorbsIff(s: State)
    requires Invariant(s) && Has(s, CANCELLED)
    ensures s.executor.WritesDone? <==> (forall s' :: CanReach(s, s') ==> Has(s', CANCELLED))
  {
    if s.executor.WritesDone? {
      forall s' | CanReach(s, s') ensures Has(s', CANCELLED) {
        var actions :| Reaches(s, actions, s');
        CancelledAbsorbs(s, actions, s');
      }
    } else {
      var s' := UndoCancelled(s);
    }
  }

  // ---------- FILLED ----------

  lemma Submitted(quantity: int, broker: Option<Fill>) returns (s: State)
    requires quantity > 0 && broker.Some?
    ensures s == Initial(quantity, broker).(row := Some(NewRow(quantity)), executor := WritingExecution(broker.value))
    ensures CanReach(Initial(quantity, broker), s)
  {
    var s0 := Initial(quantity, broker);
    assert Reaches(s0, [], s0);
    OneMore(s0, s0, Create(true));
    var s1 := Apply(s0, Create(true));
    OneMore(s0, s1, Submit);
    s := Apply(s1, Submit);
  }

  /** FILLED shows up on some run exactly when the broker reports the whole positive quantity filled at submission. */
  lemma FilledIff(quantity: int, broker: Option<Fill>)
    ensures (exists s :: CanReach(Initial(quantity, broker), s) && Has(s, FILLED)) <==>
            quantity > 0 && broker.Some? && broker.value.quantity == quantity
  {
    var s0 := Initial(quantity, broker);
    forall s | CanReach(s0, s) && Has(s, FILLED)
      ensures quantity > 0 && broker.Some? && broker.value.quantity == quantity
    {
      ReachableInvariant(quantity, broker, s);
      var actions :| Reaches(s0, actions, s);
      ConstantsStay(s0, actions, s);
    }
    if quantity > 0 && broker.Some? && broker.value.quantity == quantity {
      var s1 := Submitted(quantity, broker);
      OneMore(s0, s1, WriteExecution(true));
      assert Has(Apply(s1, WriteExecution(true)), FILLED);
    }
  }

  lemma {:induction false} ConstantsStay(s: State, actions: seq<Action>, s': State)
    requires Reaches(s, actions, s') && (s.row.Some? ==> s.quantity > 0)
    ensures s'.quantity == s.quantity && s'.broker == s.broker && (s'.row.Some? ==> s'.quantity > 0)
    decreases |actions|
  {
    if actions != [] {
      ConstantsStay(Apply(s, actions[0]), actions[1..], s');
    }
  }

  lemma {:induction false} FilledOnlyUntilSent(s: State, actions: seq<Action>, s': State)
    requires Reaches(s, actions, s') && (Has(s, FILLED) ==> s.executor.WritingSent?)
    requires WriteSent(false) !in actions
    ensures Has(s', FILLED) ==> s'.executor.WritingSent?
    decreases |actions|
  {
    if actions != [] {
      assert forall a :: a in actions[1..] ==> a in actions;
      FilledOnlyUntilSent(Apply(s, actions[0]), actions[1..], s');
    }
  }

  /** Even then FILLED does not last: unless the SENT write itself fails, a finished Execute leaves no order FILLED. */
  lemma FilledIsOverwritten(quantity: int, broker: Option<Fill>, actions: seq<Action>, s: State)
    requires Reaches(Initial(quantity, broker), actions, s) && s.executor.WritesDone?
    requires WriteSent(false) !in actions
    ensures !Has(s, FILLED)
  {
    FilledOnlyUntilSent(Initial(quantity, broker), actions, s);
  }

  lemma {:induction false} DoneStays(s: State, actions: seq<Action>, s': State)
    requires Reaches(s, actions, s') && s.executor.WritesDone? && !Has(s, FILLED)
    ensures !Has(s', FILLED)
    decreases |actions|
  {
    if actions != [] {
      DoneStays(Apply(s, actions[0]), actions[1..], s');
    }
  }

  lemma {:induction false} SentWriteReplacesFilled(s: State, actions: seq<Action>, s': State)
    requires Reaches(s, actions, s') && WriteSent(true) in actions
    ensures !Has(s', FILLED)
    decreases |actions|
  {
    if actions[0] == WriteSent(true) {
      DoneStays(Apply(s, actions[0]), actions[1..], s');
    } else {
      SentWriteReplacesFilled(Apply(s, actions[0]), actions[1..], s');
    }
  }

  // A run that ends FILLED after a SENT write with the given outcome.
  ghost predicate EndsFilled(quantity: int, broker: Option<Fill>, sentOk: bool, actions: seq<Action>, s: State) {
    Reaches(Initial(quantity, broker), actions, s) && s.executor.WritesDone? && Has(s, FILLED) && WriteSent(sentOk) in actions
  }

  /** An order can end FILLED exactly when the broker filled it all at submission and the SENT write failed. */
  lemma FilledLastsIff(quantity: int, broker: Option<Fill>, sentOk: bool)
    ensures (exists actions, s :: EndsFilled(quantity, broker, sentOk, actions, s)) <==>
            !sentOk && quantity > 0 && broker.Some? && broker.value.quantity == quantity
  {
    var s0 := Initial(quantity, broker);
    forall actions, s | EndsFilled(quantity, broker, sentOk, actions, s)
      ensures !sentOk && quantity > 0 && broker.Some? && broker.value.quantity == quantity
    {
      if sentOk {
        SentWriteReplacesFilled(s0, actions, s);
      }
      assert CanReach(s0, s);
      FilledIff(quantity, broker);
    }
    if !sentOk && quantity > 0 && broker.Some? && broker.value.quantity == quantity {
      var s := Apply(Apply(Apply(s0, Create(true)), Submit), WriteExecution(true));
      var actions := [Create(true), Submit, WriteExecution(true)];
      FourSteps(s0, actions);
      assert EndsFilled(quantity, broker, false, actions + [WriteSent(false)], Apply(s, WriteSent(false)));
    }
  }

  lemma FourSteps(s: State, first: seq<Action>)
    requires first == [Create(true), Submit, WriteExecution(true)]
    requires s.executor.Creating? && s.quantity > 0 && s.broker.Some?
    ensures var t := Apply(Apply(Apply(s, Create(true)), Submit), WriteExecution(true));
            t.executor.WritingSent? && Reaches(s, first + [WriteSent(false)], Apply(t, WriteSent(false)))
  {
    var s1 := Apply(s, Create(true));
    var s2 := Apply(s1, Submit);
    var t := Apply(s2, WriteExecution(true));
    ReachesAppend(s, [], s, Create(true));
    ReachesAppend(s, [Create(true)], s1, Submit);
    ReachesAppend(s, [Create(true), Submit], s2, WriteExecution(true));
    ReachesAppend(s, first, t, WriteSent(false));
    assert [] + [Create(true)] == [Create(true)];
    assert [Create(true)] + [Submit] == [Create(true), Submit];
    assert [Create(true), Submit] + [WriteExecution(true)] == first;
  }

  /**
   Whatever has happened before, a Cancel that reads between the broker's answer and Execute's write of it can report
   success and still leave the order SENT with its identifier, the broker never asked.
   */
  lemma EarlyCancelIsLost(s: State, id: nat, reason: string) returns (s': State)
    requires Invariant(s) && s.executor.WritingExecution? && s.row.Some? && s.row.value.status.PENDING?
    requires FillFits(s.row.value, s.executor.fill) && id !in s.cancellers
    ensures CanReach(s, s') && s'.executor.WritesDone? && s'.asked == s.asked
    ensures s'.cancellers == s.cancellers[id := Returned(true)]
    ensures Has(s', SENT) && s'.row.value.brokerOrderId == Some(s.executor.fill.orderId)
  {
    ReachSelf(s);
    OneMore(s, s, Read(id, true));
    s' := Apply(s, Read(id, true));
    OneMore(s, s', WriteCancelled(id, reason, true));
    s' := Apply(s', WriteCancelled(id, reason, true));
    OneMore(s, s', WriteExecution(true));
    s' := Apply(s', WriteExecution(true));
    OneMore(s, s', WriteSent(true));
    s' := Apply(s', WriteSent(true));
  }
}
