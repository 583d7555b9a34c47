/** The order table and the executor's two methods run without interruption, tied to the interleaved steps. */
module OrderExecutor {
  import opened Options
  import opened OrderLifecycle

  // `ok` flags say whether the database carries the statement out.
  class Repository {
    var rows: map<string, Row>

    constructor ()
      ensures rows == map[]
    {
      rows := map[];
    }

    function RowOf(id: string): Option<Row>
      reads this
    {
      if id in rows then Some(rows[id]) else None
    }

    /** Inserts the order with the status the caller gave it. */
    method CreateOrder(id: string, quantity: int, status: Status, ok: bool) returns (created: bool)
      requires id !in rows
      modifies this
      ensures created == (ok && quantity > 0)
      ensures rows == if created then old(rows)[id := NewRow(quantity).(status := status)] else old(rows)
    {
      created := ok && quantity > 0;
      if created {
        rows := rows[id := NewRow(quantity).(status := status)];
      }
    }

    method GetOrder(id: string, ok: bool) returns (row: Option<Row>)
      ensures row == if ok then RowOf(id) else None
    {
      if ok && id in rows {
        return Some(rows[id]);
      }
      return None;
    }

    method UpdateOrderStatus(id: string, status: Status, reason: string, ok: bool) returns (updated: bool)
      modifies this
      ensures updated == (ok && id in old(rows))
      ensures rows == if updated then old(rows)[id := WithStatus(old(rows)[id], status, reason)] else old(rows)
    {
      updated := ok && id in rows;
      if updated {
        var row := rows[id];
        var reasonPtr := if reason == "" then None else Some(reason);
        var audit := if row.status == status then row.audit else row.audit + [AuditEntry(status, reasonPtr)];
        rows := rows[id := row.(status := status, rejectReason := reasonPtr, audit := audit)];
      }
    }

    method UpdateOrderExecution(id: string, fill: Fill, ok: bool) returns (updated: bool)
      modifies this
      ensures updated == (ok && id in old(rows) && FillFits(old(rows)[id], fill))
      ensures rows == if updated then old(rows)[id := WithExecution(old(rows)[id], fill)] else old(rows)
    {
      updated := ok && id in rows && FillFits(rows[id], fill);
      if updated {
        var row := rows[id];
        var status := if fill.quantity >= row.quantity then FILLED else row.status;
        var audit := if row.status == status then row.audit else row.audit + [AuditEntry(status, row.rejectReason)];
        rows := rows[id := row.(brokerOrderId := Some(fill.orderId), filledPrice := Some(fill.price),
                                filledQuantity := Some(fill.quantity), status := status, audit := audit)];
      }
    }

    method CancelOrder(id: string, reason: string, ok: bool) returns (updated: bool)
      modifies this
      ensures updated == (ok && id in old(rows))
      ensures rows == if updated then old(rows)[id := WithStatus(old(rows)[id], CANCELLED, reason)] else old(rows)
    {
      updated := UpdateOrderStatus(id, CANCELLED, reason, ok);
    }
  }

  // Which of Execute's statements the database carries out.
  datatype Writes = Writes(create: bool, rejected: bool, execution: bool, sent: bool)

  // Execute's steps with nothing in between.
  function ExecuteActions(quantity: int, broker: Option<Fill>, reason: string, w: Writes): seq<Action> {
    if !w.create || quantity <= 0 then [Create(w.create)]
    else if broker.None? then [Create(true), Submit, WriteRejected(reason, w.rejected)]
    else [Create(true), Submit, WriteExecution(w.execution), WriteSent(w.sent)]
  }

  function ExecuteAlone(quantity: int, broker: Option<Fill>, reason: string, w: Writes): Option<Row> {
    if !w.create || quantity <= 0 then None
    else
      var row := NewRow(quantity);
      if broker.None? then Some(if w.rejected then WithStatus(row, REJECTED, reason) else row)
      else
        var filled := if w.execution then WithExecution(row, broker.value) else row;
        Some(if w.sent then WithStatus(filled, SENT, "Order sent to broker") else filled)
  }

  /**
   What an uninterrupted Execute leaves when every write succeeds: no row without a positive quantity, a rejection if
   the broker fails, and otherwise a SENT row with the fill, as far as the check constraint lets it in.
   */
  lemma ExecuteOutcome(quantity: int, broker: Option<Fill>, reason: string)
    ensures var row := ExecuteAlone(quantity, broker, reason, Writes(true, true, true, true));
            && (quantity <= 0 <==> row == None)
            && (row.Some? && broker == None ==>
                  row.value.status == REJECTED && row.value.brokerOrderId == None
                  && row.value.rejectReason == (if reason == "" then None else Some(reason)))
            && (row.Some? && broker.Some? ==>
                  var fits := 0 <= broker.value.quantity <= quantity;
                  && row.value.status == SENT && row.value.rejectReason == Some("Order sent to broker")
                  && row.value.brokerOrderId == (if fits then Some(broker.value.orderId) else None)
                  && row.value.filledPrice == (if fits then Some(broker.value.price) else None)
                  && row.value.filledQuantity == (if fits then Some(broker.value.quantity) else None))
  {
    if quantity > 0 && broker.Some? {
      FillWrittenEffect(NewRow(quantity), broker.value);
    }
  }

  /** An uninterrupted Execute is one of the interleavings. */
  lemma ExecuteAloneIsARun(quantity: int, broker: Option<Fill>, reason: string, w: Writes)
    ensures exists s :: Reaches(Initial(quantity, broker), ExecuteActions(quantity, broker, reason, w), s)
                        && s.row == ExecuteAlone(quantity, broker, reason, w) && s.executor.WritesDone?
  {
    var actions := ExecuteActions(quantity, broker, reason, w);
    var s0 := Initial(quantity, broker);
    var s1 := Apply(s0, actions[0]);
    if |actions| == 1 {
      assert actions[1..] == [];
      assert Reaches(s1, [], s1);
      assert Reaches(s0, actions, s1);
    } else {
      var s2 := Apply(s1, Submit);
      var s3 := Apply(s2, actions[2]);
      assert actions[1..][1..] == actions[2..];
      if |actions| == 3 {
        assert actions[2..][1..] == [];
        assert Reaches(s2, actions[2..], s3);
        assert Reaches(s1, actions[1..], s3);
        assert Reaches(s0, actions, s3);
      } else {
        var s4 := Apply(s3, actions[3]);
        assert actions[2..][1..] == actions[3..] && actions[3..][1..] == [];
        assert Reaches(s3, actions[3..], s4);
        assert Reaches(s2, actions[2..], s4);
        assert Reaches(s1, actions[1..], s4);
        assert Reaches(s0, actions, s4);
      }
    }
  }

  /** Of an order handed over as PENDING; `broker` answers the submission, `reason` is recorded with a rejection. */
  method Execute(repo: Repository, id: string, quantity: int, broker: Option<Fill>, reason: string, w: Writes)
    returns (success: bool)
    requires id !in repo.rows
    modifies repo
    ensures repo.RowOf(id) == ExecuteAlone(quantity, broker, reason, w)
    ensures forall other :: other != id ==> repo.RowOf(other) == old(repo.RowOf(other))
    ensures success == (w.create && quantity > 0 && broker.Some?)
  {
    var created := repo.CreateOrder(id, quantity, PENDING, w.create);
    if !created {
      return false;
    }
    if broker.None? {
      var _ := repo.UpdateOrderStatus(id, REJECTED, reason, w.rejected);
      return false;
    }
    var _ := repo.UpdateOrderExecution(id, broker.value, w.execution);
    var _ := repo.UpdateOrderStatus(id, SENT, "Order sent to broker", w.sent);
    return true;
  }

  // The broker, as far as cancelling goes: the orders it was asked to cancel and those it has cancelled.
  class Broker {
    var asked: seq<string>
    var withdrawn: set<string>

    constructor ()
      ensures asked == [] && withdrawn == {}
    {
      asked, withdrawn := [], {};
    }

    method CancelOrder(order: string, ok: bool)
      modifies this
      ensures asked == old(asked) + [order]
      ensures withdrawn == if ok then old(withdrawn) + {order} else old(withdrawn)
    {
      asked := asked + [order];
      if ok {
        withdrawn := withdrawn + {order};
      }
    }
  }

  /** `brokerOk` is the broker's answer to the call, if there is one; the row is cancelled whatever it is. */
  method Cancel(repo: Repository, broker: Broker, id: string, reason: string, readOk: bool, brokerOk: bool, writeOk: bool)
    returns (success: bool)
    modifies repo, broker
    ensures var next := AfterRead(old(repo.RowOf(id)), readOk);
            && success == (!next.Returned? && writeOk)
            && success == (readOk && writeOk && id in old(repo.rows)
                           && (old(repo.rows)[id].status == PENDING || old(repo.rows)[id].status == SENT))
            && broker.asked == old(broker.asked) + (if next.CallingBroker? then [next.orderId] else [])
            && broker.withdrawn == old(broker.withdrawn) + (if next.CallingBroker? && brokerOk then {next.orderId} else {})
            && repo.rows == if success then old(repo.rows)[id := WithStatus(old(repo.rows)[id], CANCELLED, reason)]
                            else old(repo.rows)
  {
    var order := repo.GetOrder(id, readOk);
    if order.None? {
      return false;
    }
    var status := order.value.status;
    if status == FILLED || status == CANCELLED || status == REJECTED {
      return false;
    }
    if order.value.brokerOrderId.Some? {
      broker.CancelOrder(order.value.brokerOrderId.value, brokerOk);
    }
    success := repo.CancelOrder(id, reason, writeOk);
  }
}
