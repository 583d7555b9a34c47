/** The backtest event loop: a binary heap of events, drained by handlers that may queue more. */
module EventLoop {

  datatype EventType = MARKET_DATA | ORDER | FILL | SIGNAL

  // Events compare by timestamp alone.
  datatype Event = Event(timestamp: int, kind: EventType, data: map<string, string>)

  type Handler = nat

  // What one handler call does: the events it adds in order, whether it calls stop, whether it raises afterwards.
  datatype Effect = Effect(adds: seq<Event>, stops: bool, raises: bool)

  // The effect of a handler on the n-th dispatch of a run.
  type Behaviour = (nat, Event, Handler) -> Effect

  // ---------- heaps ----------

  function Parent(i: int): int {
    (i - 1) / 2
  }

  predicate Edge(q: seq<Event>, i: int)
    requires 1 <= i < |q|
  {
    q[Parent(i)].timestamp <= q[i].timestamp
  }

  predicate IsHeap(q: seq<Event>) {
    forall i :: 1 <= i < |q| ==> Edge(q, i)
  }

  // A heap but for the entry at `hole`, whose children still respect its parent.
  predicate HeapBelow(q: seq<Event>, hole: int)
    requires 0 <= hole < |q|
  {
    && (forall i :: 1 <= i < |q| && i != hole ==> Edge(q, i))
    && Bridged(q, hole)
  }

  // A heap but for the edges to and from `hole`, whose children still respect its parent.
  predicate HeapAround(q: seq<Event>, hole: int)
    requires 0 <= hole < |q|
  {
    && (forall i :: 1 <= i < |q| && i != hole && Parent(i) != hole ==> Edge(q, i))
    && Bridged(q, hole)
  }

  predicate Bridged(q: seq<Event>, hole: int)
    requires 0 <= hole < |q|
  {
    hole > 0 ==>
      forall i :: 1 <= i < |q| && Parent(i) == hole ==> q[Parent(hole)].timestamp <= q[i].timestamp
  }

  // The child that may move up: the right one only if it is no later than the left.
  predicate EarlierChild(q: seq<Event>, pos: int, child: int)
    requires 0 <= pos
  {
    var left, right := 2 * pos + 1, 2 * pos + 2;
    || (child == left < |q| && (right < |q| ==> q[left].timestamp <= q[right].timestamp))
    || (child == right < |q| && q[right].timestamp <= q[left].timestamp)
  }

  function Swapped(q: seq<Event>, i: int, j: int): seq<Event>
    requires 0 <= i < |q| && 0 <= j < |q|
  {
    q[i := q[j]][j := q[i]]
  }

  lemma SwapKeepsEvents(q: seq<Event>, i: int, j: int)
    requires 0 <= i < j < |q|
    ensures multiset(Swapped(q, i, j)) == multiset(q)
  {
    var a, b, c := q[..i], q[i + 1..j], q[j + 1..];
    assert q == a + [q[i]] + b + [q[j]] + c;
    assert Swapped(q, i, j) == a + [q[j]] + b + [q[i]] + c;
  }

  lemma {:induction false} RootIsEarliest(q: seq<Event>, i: nat)
    requires IsHeap(q) && i < |q|
    ensures q[0].timestamp <= q[i].timestamp
  {
    if i > 0 {
      assert Edge(q, i);
      RootIsEarliest(q, Parent(i));
    }
  }

  lemma EveryEventAfterRoot(q: seq<Event>)
    requires IsHeap(q) && q != []
    ensures forall e :: e in q ==> q[0].timestamp <= e.timestamp
  {
    forall e | e in q ensures q[0].timestamp <= e.timestamp {
      var i :| 0 <= i < |q| && q[i] == e;
      RootIsEarliest(q, i);
    }
  }

  // ---------- what a run promises ----------

  predicate InOrder(events: seq<Event>) {
    forall i, j :: 0 <= i < j < |events| ==> events[i].timestamp <= events[j].timestamp
  }

  // Dispatched in timestamp order, with nothing earlier still queued.
  predicate LeftInOrder(dispatched: seq<Event>, queue: seq<Event>) {
    InOrder(dispatched) && (dispatched != [] ==> NoneBefore(queue, dispatched[|dispatched| - 1].timestamp))
  }

  predicate NoneBefore(events: seq<Event>, time: int) {
    forall e :: e in events ==> e.timestamp >= time
  }

  // Handlers add only events stamped no earlier than the one they handle.
  ghost predicate Causal(act: Behaviour) {
    forall n: nat, e: Event, h: Handler :: NoneBefore(act(n, e, h).adds, e.timestamp)
  }

  // From some dispatch on, handlers add nothing; without it a run need not end.
  ghost predicate QuietAfter(act: Behaviour, limit: nat) {
    forall n: nat, e: Event, h: Handler :: n >= limit ==> act(n, e, h).adds == []
  }

  // What the handlers of one event add, up to and including the first that raises, and what else they do.
  function Reaction(act: Behaviour, n: nat, e: Event, handlers: seq<Handler>): Effect {
    if handlers == [] then Effect([], false, false)
    else Then(act(n, e, handlers[0]), Reaction(act, n, e, handlers[1..]))
  }

  // One effect followed by another, in one handler list.
  function Then(first: Effect, rest: Effect): Effect {
    if first.raises then first
    else Effect(first.adds + rest.adds, first.stops || rest.stops, rest.raises)
  }

  lemma ThenAssociative(a: Effect, b: Effect, c: Effect)
    ensures Then(a, Then(b, c)) == Then(Then(a, b), c)
  {
    assert a.adds + (b.adds + c.adds) == (a.adds + b.adds) + c.adds;
  }

  // The events the first k handlers add, in order.
  function AddsUpTo(act: Behaviour, n: nat, e: Event, handlers: seq<Handler>, k: nat): seq<Event>
    requires k <= |handlers|
  {
    if k == 0 then [] else AddsUpTo(act, n, e, handlers, k - 1) + act(n, e, handlers[k - 1]).adds
  }

  // The first k handlers were called and no more: all of them, or up to the first that raises.
  predicate Called(act: Behaviour, n: nat, e: Event, handlers: seq<Handler>, k: nat, effect: Effect) {
    && k <= |handlers|
    && effect.adds == AddsUpTo(act, n, e, handlers, k)
    && (effect.stops <==> exists i :: 0 <= i < k && act(n, e, handlers[i]).stops)
    && (forall i :: 0 <= i < k - 1 ==> !act(n, e, handlers[i]).raises)
    && (effect.raises <==> k > 0 && act(n, e, handlers[k - 1]).raises)
    && (k == |handlers| || effect.raises)
  }

  lemma {:induction false} AddsShift(act: Behaviour, n: nat, e: Event, handlers: seq<Handler>, k: nat)
    requires k < |handlers|
    ensures AddsUpTo(act, n, e, handlers, k + 1)
            == act(n, e, handlers[0]).adds + AddsUpTo(act, n, e, handlers[1..], k)
  {
    if k > 0 {
      AddsShift(act, n, e, handlers, k - 1);
      assert handlers[1..][k - 1] == handlers[k];
    }
  }

  lemma CalledShift(act: Behaviour, n: nat, e: Event, handlers: seq<Handler>, k: nat, rest: Effect)
    requires handlers != [] && !act(n, e, handlers[0]).raises && Called(act, n, e, handlers[1..], k, rest)
    ensures Called(act, n, e, handlers, k + 1, Then(act(n, e, handlers[0]), rest))
  {
    var tail := handlers[1..];
    AddsShift(act, n, e, handlers, k);
    assert forall i :: 0 <= i < |tail| ==> tail[i] == handlers[i + 1];
    if i :| 0 <= i < k + 1 && act(n, e, handlers[i]).stops {
      if i > 0 {
        assert act(n, e, tail[i - 1]).stops;
      }
    }
  }

  /** Every handler of the list is called, in order, up to and including the first that raises. */
  lemma {:induction false} ReactionCalls(act: Behaviour, n: nat, e: Event, handlers: seq<Handler>) returns (k: nat)
    ensures Called(act, n, e, handlers, k, Reaction(act, n, e, handlers))
  {
    if handlers == [] {
      k := 0;
    } else if act(n, e, handlers[0]).raises {
      k := 1;
      assert AddsUpTo(act, n, e, handlers, 0) == [];
    } else {
      var rest := ReactionCalls(act, n, e, handlers[1..]);
      CalledShift(act, n, e, handlers, rest, Reaction(act, n, e, handlers[1..]));
      k := rest + 1;
    }
  }

  lemma {:induction false} ReactionCausal(act: Behaviour, n: nat, e: Event, handlers: seq<Handler>)
    ensures Causal(act) ==> NoneBefore(Reaction(act, n, e, handlers).adds, e.timestamp)
  {
    if handlers != [] {
      assert Causal(act) ==> NoneBefore(act(n, e, handlers[0]).adds, e.timestamp);
      ReactionCausal(act, n, e, handlers[1..]);
    }
  }

  lemma {:induction false} ReactionQuiet(act: Behaviour, n: nat, e: Event, handlers: seq<Handler>, limit: nat)
    requires QuietAfter(act, limit) && n >= limit
    ensures Reaction(act, n, e, handlers).adds == []
  {
    if handlers != [] {
      assert act(n, e, handlers[0]).adds == [];
      ReactionQuiet(act, n, e, handlers[1..], limit);
    }
  }

  // ---------- the loop ----------

  class Loop {
    var queue: seq<Event>
    var handlers: map<EventType, seq<Handler>>
    var isRunning: bool

    constructor ()
      ensures queue == [] && !isRunning
      ensures forall k: EventType :: HandlersFor(k) == []
    {
      queue := [];
      handlers := map[MARKET_DATA := [], ORDER := [], FILL := [], SIGNAL := []];
      isRunning := false;
    }

    function HandlersFor(kind: EventType): seq<Handler>
      reads this
    {
      HandlersIn(handlers, kind)
    }

    method RegisterHandler(kind: EventType, handler: Handler)
      modifies this`handlers
      ensures HandlersFor(kind) == old(HandlersFor(kind)) + [handler]
      ensures forall k :: k != kind ==> HandlersFor(k) == old(HandlersFor(k))
    {
      handlers := handlers[kind := HandlersFor(kind) + [handler]];
    }

    /** heappush: append, then let the new event rise to its place. */
    method AddEvent(event: Event)
      requires IsHeap(queue)
      modifies this`queue
      ensures IsHeap(queue) && multiset(queue) == multiset(old(queue)) + multiset{event}
      ensures |queue| == |old(queue)| + 1
    {
      queue := queue + [event];
      assert forall i :: 1 <= i < |old(queue)| ==> Edge(old(queue), i) ==> Edge(queue, i);
      Rise(|queue| - 1);
    }

    /** Moves parents down into the hole until the event of the hole fits. */
    method Rise(start: int)
      requires 0 <= start < |queue| && HeapBelow(queue, start)
      modifies this`queue
      ensures IsHeap(queue) && multiset(queue) == multiset(old(queue)) && |queue| == |old(queue)|
    {
      var item, pos := queue[start], start;
      assert queue[start := item] == queue;
      while pos > 0
        invariant 0 <= pos < |queue| == |old(queue)|
        invariant HeapBelow(queue[pos := item], pos)
        invariant multiset(queue[pos := item]) == multiset(old(queue))
        decreases pos
      {
        var parentPos := Parent(pos);
        var parent := queue[parentPos];
        if item.timestamp >= parent.timestamp {
          break;
        }
        RiseHole(queue, item, pos);
        queue := queue[pos := parent];
        pos := parentPos;
      }
      queue := queue[pos := item];
      assert pos > 0 ==> Edge(queue, pos);
    }

    // The step with the hole left open.
    lemma RiseHole(q: seq<Event>, item: Event, pos: int)
      requires 0 < pos < |q| && HeapBelow(q[pos := item], pos) && item.timestamp < q[Parent(pos)].timestamp
      ensures HeapBelow(q[pos := q[Parent(pos)]][Parent(pos) := item], Parent(pos))
      ensures multiset(q[pos := q[Parent(pos)]][Parent(pos) := item]) == multiset(q[pos := item])
    {
      SwapKeepsEvents(q[pos := item], Parent(pos), pos);
      RiseStep(q[pos := item], pos);
      assert q[pos := q[Parent(pos)]][Parent(pos) := item] == Swapped(q[pos := item], Parent(pos), pos);
    }

    lemma RiseStep(q: seq<Event>, pos: int)
      requires 0 < pos < |q| && HeapBelow(q, pos) && q[pos].timestamp < q[Parent(pos)].timestamp
      ensures HeapBelow(Swapped(q, Parent(pos), pos), Parent(pos))
    {
      var p := Parent(pos);
      var q' := Swapped(q, p, pos);
      forall i | 1 <= i < |q'| && i != p ensures Edge(q', i) {
        if Parent(i) == p && i != pos {
          assert Edge(q, i);
        } else if i != pos && Parent(i) != pos {
          assert Edge(q, i);
        }
      }
      if p > 0 {
        assert Edge(q, p);
        forall i | 1 <= i < |q'| && Parent(i) == p ensures q'[Parent(p)].timestamp <= q'[i].timestamp {
          if i != pos {
            assert Edge(q, i);
          }
        }
      }
    }

    /** heappop: the last event takes the root's place, sinks to a leaf along the smaller children, then rises. */
    method PopEarliest() returns (event: Event)
      requires IsHeap(queue) && queue != []
      modifies this`queue
      ensures IsHeap(queue) && multiset(old(queue)) == multiset(queue) + multiset{event}
      ensures |queue| == |old(queue)| - 1
      ensures forall e :: e in old(queue) ==> event.timestamp <= e.timestamp
    {
      EveryEventAfterRoot(queue);
      var last := queue[|queue| - 1];
      assert queue == queue[..|queue| - 1] + [last];
      DropLast(queue);
      queue := queue[..|queue| - 1];
      if |queue| == 0 {
        return last;
      }
      event := queue[0];
      ReplaceRoot(queue, last);
      queue := queue[0 := last];
      Sink();
    }

    lemma DropLast(q: seq<Event>)
      requires IsHeap(q) && q != []
      ensures IsHeap(q[..|q| - 1])
    {
      var q' := q[..|q| - 1];
      forall i | 1 <= i < |q'| ensures Edge(q', i) {
        assert Edge(q, i);
      }
    }

    lemma ReplaceRoot(q: seq<Event>, e: Event)
      requires IsHeap(q) && q != []
      ensures HeapAround(q[0 := e], 0)
      ensures multiset(q[0 := e]) + multiset{q[0]} == multiset(q) + multiset{e}
    {
      forall i | 1 <= i < |q| && Parent(i) != 0 ensures Edge(q[0 := e], i) {
        assert Edge(q, i);
      }
      assert q == [q[0]] + q[1..] && q[0 := e] == [e] + q[1..];
    }

    method Sink()
      requires |queue| > 0 && HeapAround(queue, 0)
      modifies this`queue
      ensures IsHeap(queue) && multiset(queue) == multiset(old(queue)) && |queue| == |old(queue)|
    {
      var item, pos := queue[0], 0;
      var child := 1;
      while child < |queue|
        invariant 0 <= pos < |queue| == |old(queue)| && child == 2 * pos + 1
        invariant HeapAround(queue[pos := item], pos)
        invariant multiset(queue[pos := item]) == multiset(old(queue))
        decreases |queue| - pos
      {
        var right := child + 1;
        if right < |queue| && queue[child].timestamp >= queue[right].timestamp {
          child := right;
        }
        SinkHole(queue, item, pos, child);
        queue := queue[pos := queue[child]];
        pos := child;
        child := 2 * pos + 1;
      }
      queue := queue[pos := item];
      NoChildren(queue, pos);
      Rise(pos);
    }

    // The same step with the hole left open.
    lemma SinkHole(q: seq<Event>, item: Event, pos: int, child: int)
      requires 0 <= pos < |q| && HeapAround(q[pos := item], pos)
      requires EarlierChild(q, pos, child)
      ensures HeapAround(q[pos := q[child]][child := item], child)
      ensures multiset(q[pos := q[child]][child := item]) == multiset(q[pos := item])
    {
      SinkStep(q[pos := item], pos, child);
      assert q[pos := q[child]][child := item] == Swapped(q[pos := item], pos, child);
    }

    lemma NoChildren(q: seq<Event>, pos: int)
      requires 0 <= pos < |q| <= 2 * pos + 1 && HeapAround(q, pos)
      ensures HeapBelow(q, pos)
    {
      assert forall i :: 1 <= i < |q| ==> Parent(i) != pos;
    }

    lemma SinkStep(q: seq<Event>, pos: int, child: int)
      requires 0 <= pos < |q| && HeapAround(q, pos)
      requires EarlierChild(q, pos, child)
      ensures HeapAround(Swapped(q, pos, child), child)
      ensures multiset(Swapped(q, pos, child)) == multiset(q)
    {
      SwapKeepsEvents(q, pos, child);
      var q' := Swapped(q, pos, child);
      forall i | 1 <= i < |q'| && i != child && Parent(i) != child ensures Edge(q', i) {
        if i != pos && Parent(i) != pos {
          assert Edge(q, i);
        }
      }
      forall i | 1 <= i < |q'| && Parent(i) == child ensures q'[Parent(child)].timestamp <= q'[i].timestamp {
        assert Edge(q, i);
      }
    }

    method Stop()
      modifies this`isRunning
      ensures !isRunning
    {
      isRunning := false;
    }

    // One handler call, seen from the loop.
    method CallHandler(effect: Effect)
      requires IsHeap(queue)
      modifies this`queue, this`isRunning
      ensures IsHeap(queue) && multiset(queue) == multiset(old(queue)) + multiset(effect.adds)
      ensures |queue| == |old(queue)| + |effect.adds|
      ensures isRunning == (old(isRunning) && !effect.stops)
    {
      for k := 0 to |effect.adds|
        invariant IsHeap(queue) && multiset(queue) == multiset(old(queue)) + multiset(effect.adds[..k])
        invariant |queue| == |old(queue)| + k && isRunning == old(isRunning)
      {
        AddEvent(effect.adds[k]);
        assert effect.adds[..k + 1] == effect.adds[..k] + [effect.adds[k]];
      }
      assert effect.adds[..|effect.adds|] == effect.adds;
      if effect.stops {
        Stop();
      }
    }

    /** Calls the handlers of the event in registration order; an exception skips the remaining ones. */
    method ProcessEvent(event: Event, act: Behaviour, n: nat) returns (raised: bool, ghost called: nat)
      requires IsHeap(queue)
      modifies this`queue, this`isRunning
      ensures IsHeap(queue)
      ensures var reaction := Reaction(act, n, event, old(HandlersFor(event.kind)));
              && multiset(queue) == multiset(old(queue)) + multiset(reaction.adds)
              && |queue| == |old(queue)| + |reaction.adds|
              && isRunning == (old(isRunning) && !reaction.stops)
              && raised == reaction.raises
              && Called(act, n, event, old(HandlersFor(event.kind)), called, reaction)
    {
      called := ReactionCalls(act, n, event, HandlersFor(event.kind));
      var list := HandlersFor(event.kind);
      ghost var done := Effect([], false, false);
      for i := 0 to |list|
        invariant IsHeap(queue) && !done.raises
        invariant multiset(queue) == multiset(old(queue)) + multiset(done.adds) && |queue| == |old(queue)| + |done.adds|
        invariant isRunning == (old(isRunning) && !done.stops)
        invariant Reaction(act, n, event, list) == Then(done, Reaction(act, n, event, list[i..]))
      {
        var effect := act(n, event, list[i]);
        assert list[i..][0] == list[i] && list[i..][1..] == list[i + 1..];
        CallHandler(effect);
        ThenAssociative(done, effect, Reaction(act, n, event, list[i + 1..]));
        done := Then(done, effect);
        if effect.raises {
          return true, called;
        }
      }
      assert done.adds + [] == done.adds;
      return false, called;
    }

    /** One turn of process_events. */
    method DispatchEarliest(act: Behaviour, n: nat) returns (event: Event, raised: bool)
      requires IsHeap(queue) && queue != []
      modifies this`queue, this`isRunning
      ensures IsHeap(queue) && event in old(queue)
      ensures forall e :: e in old(queue) ==> event.timestamp <= e.timestamp
      ensures var reaction := Reaction(act, n, event, old(HandlersFor(event.kind)));
              && multiset(queue) + multiset{event} == multiset(old(queue)) + multiset(reaction.adds)
              && |queue| == |old(queue)| - 1 + |reaction.adds|
              && isRunning == (old(isRunning) && !reaction.stops)
              && raised == reaction.raises
      ensures NoneBefore(queue, event.timestamp) <==>
              NoneBefore(Reaction(act, n, event, old(HandlersFor(event.kind))).adds, event.timestamp)
    {
      ghost var before := queue;
      event := PopEarliest();
      ghost var left := queue;
      ghost var list := HandlersFor(event.kind);
      ghost var called;
      raised, called := ProcessEvent(event, act, n);
      EventInBoth(before, left, event);
      QueueAfter(queue, left, Reaction(act, n, event, list).adds, event.timestamp);
    }

    /**
     Drains the queue. Events are conserved, also when a handler stops the loop or raises; they leave in timestamp order,
     with nothing left earlier than the last one dispatched, exactly when no handler added an event to the past.
     */
    method ProcessEvents(act: Behaviour, ghost limit: nat) returns (processed: nat, raised: bool, ghost dispatched: seq<Event>)
      requires IsHeap(queue) && QuietAfter(act, limit)
      modifies this`queue, this`isRunning
      ensures Progress(act, handlers, multiset(old(queue)), dispatched, queue, isRunning, raised)
      ensures processed == |dispatched| - if raised then 1 else 0
      ensures queue == [] || raised || !isRunning
      ensures Causal(act) ==> LeftInOrder(dispatched, queue)
    {
      isRunning := true;
      processed, raised, dispatched := 0, false, [];
      while |queue| > 0 && isRunning
        invariant Progress(act, handlers, multiset(old(queue)), dispatched, queue, isRunning, false)
        invariant processed == |dispatched| && !raised
        decreases if processed < limit then limit - processed else 0, |queue|
      {
        ghost var before := queue;
        var event;
        event, raised := DispatchEarliest(act, processed);
        if processed >= limit {
          ReactionQuiet(act, processed, event, HandlersFor(event.kind), limit);
        }
        TurnKeepsProgress(act, handlers, multiset(old(queue)), dispatched, before, event, queue, isRunning, raised);
        dispatched := dispatched + [event];
        if raised {
          CausalInOrder(act, handlers, multiset(old(queue)), dispatched, queue, isRunning, raised);
          return;
        }
        processed := processed + 1;
      }
      CausalInOrder(act, handlers, multiset(old(queue)), dispatched, queue, isRunning, raised);
    }

    /** The first turns of process_events, whether or not the run ever ends: the same holds after any number of them. */
    method ProcessTurns(act: Behaviour, turns: nat) returns (raised: bool, ghost dispatched: seq<Event>)
      requires IsHeap(queue)
      modifies this`queue, this`isRunning
      ensures Progress(act, handlers, multiset(old(queue)), dispatched, queue, isRunning, raised)
      ensures |dispatched| == turns || (|dispatched| < turns && (queue == [] || raised || !isRunning))
    {
      isRunning := true;
      raised, dispatched := false, [];
      var processed := 0;
      while processed < turns && |queue| > 0 && isRunning
        invariant Progress(act, handlers, multiset(old(queue)), dispatched, queue, isRunning, false)
        invariant processed == |dispatched| <= turns && !raised
      {
        ghost var before := queue;
        var event;
        event, raised := DispatchEarliest(act, processed);
        TurnKeepsProgress(act, handlers, multiset(old(queue)), dispatched, before, event, queue, isRunning, raised);
        dispatched := dispatched + [event];
        if raised {
          return;
        }
        processed := processed + 1;
      }
    }

    // What is left after a pop, and the popped event, were in the queue before.
    lemma EventInBoth(before: seq<Event>, left: seq<Event>, event: Event)
      requires multiset(before) == multiset(left) + multiset{event}
      ensures event in before && forall e :: e in left ==> e in before
    {
      assert event in multiset(before);
      forall e | e in left ensures e in before {
        assert e in multiset(left);
        assert e in multiset(before);
      }
    }

    lemma QueueAfter(queue: seq<Event>, left: seq<Event>, adds: seq<Event>, time: int)
      requires multiset(queue) == multiset(left) + multiset(adds) && NoneBefore(left, time)
      ensures NoneBefore(queue, time) <==> NoneBefore(adds, time)
    {
      forall e | e in queue ensures e in left || e in adds {
        assert e in multiset(queue);
      }
      forall e | e in adds ensures e in queue {
        assert e in multiset(adds);
        assert e in multiset(queue);
      }
    }
  }

  /**
   After one more dispatch of an earliest event the run is in order exactly when it was before and the handlers added
   nothing stamped before the event.
   */
  lemma OrderKeptIff(log: seq<Event>, before: seq<Event>, event: Event, after: seq<Event>, adds: seq<Event>)
    requires event in before && NoneBefore(before, event.timestamp)
    requires NoneBefore(after, event.timestamp) <==> NoneBefore(adds, event.timestamp)
    ensures LeftInOrder(log + [event], after) <==> LeftInOrder(log, before) && NoneBefore(adds, event.timestamp)
  {
    var all := log + [event];
    assert all[|log|] == event;
    assert forall i :: 0 <= i < |log| ==> all[i] == log[i];
    if LeftInOrder(all, after) && log != [] {
      assert all[|log| - 1].timestamp <= all[|log|].timestamp;
    }
  }

  lemma Rearranged(log: multiset<Event>, before: multiset<Event>, start: multiset<Event>, added: multiset<Event>,
                   after: multiset<Event>, event: multiset<Event>, adds: multiset<Event>)
    requires log + before == start + added && after + event == before + adds
    ensures (log + event) + after == start + (added + adds)
  {
    forall e: Event ensures ((log + event) + after)[e] == (start + (added + adds))[e] {
      assert (log + before)[e] == (start + added)[e] && (after + event)[e] == (before + adds)[e];
    }
  }

  lemma OneMoreConserved(
    start: multiset<Event>, log: seq<Event>, before: seq<Event>, event: Event, after: seq<Event>, added: seq<Event>,
    adds: seq<Event>)
    requires multiset(log) + multiset(before) == start + multiset(added)
    requires multiset(after) + multiset{event} == multiset(before) + multiset(adds)
    ensures multiset(log + [event]) + multiset(after) == start + multiset(added + adds)
  {
    Rearranged(multiset(log), multiset(before), start, multiset(added), multiset(after), multiset{event}, multiset(adds));
    assert multiset(log + [event]) == multiset(log) + multiset{event};
    assert multiset(added + adds) == multiset(added) + multiset(adds);
  }

  function HandlersIn(handlers: map<EventType, seq<Handler>>, kind: EventType): seq<Handler> {
    if kind in handlers then handlers[kind] else []
  }

  // The reaction to the k-th event dispatched.
  function ReactionAt(act: Behaviour, handlers: map<EventType, seq<Handler>>, dispatched: seq<Event>, k: nat): Effect
    requires k < |dispatched|
  {
    Reaction(act, k, dispatched[k], HandlersIn(handlers, dispatched[k].kind))
  }

  // The events the handlers of a run add, dispatch by dispatch.
  function AllAdded(act: Behaviour, handlers: map<EventType, seq<Handler>>, dispatched: seq<Event>): seq<Event> {
    if dispatched == [] then []
    else
      var n := |dispatched| - 1;
      AllAdded(act, handlers, dispatched[..n]) + ReactionAt(act, handlers, dispatched, n).adds
  }

  lemma OneMoreAdded(act: Behaviour, handlers: map<EventType, seq<Handler>>, log: seq<Event>, event: Event)
    ensures AllAdded(act, handlers, log + [event])
            == AllAdded(act, handlers, log) + Reaction(act, |log|, event, HandlersIn(handlers, event.kind)).adds
  {
    assert (log + [event])[..|log|] == log;
  }

  // No dispatch so far had a handler add an event stamped before the one it was handling.
  predicate Timely(act: Behaviour, handlers: map<EventType, seq<Handler>>, dispatched: seq<Event>) {
    dispatched == [] ||
    (var n := |dispatched| - 1;
     && Timely(act, handlers, dispatched[..n])
     && NoneBefore(ReactionAt(act, handlers, dispatched, n).adds, dispatched[n].timestamp))
  }

  lemma OneMoreTimely(act: Behaviour, handlers: map<EventType, seq<Handler>>, log: seq<Event>, event: Event)
    ensures Timely(act, handlers, log + [event]) <==>
            Timely(act, handlers, log)
            && NoneBefore(Reaction(act, |log|, event, HandlersIn(handlers, event.kind)).adds, event.timestamp)
  {
    LastReaction(act, handlers, log, event);
  }

  /** Handlers that never add an event before the one they handle keep every run in order. */
  lemma {:induction false} CausalTimely(act: Behaviour, handlers: map<EventType, seq<Handler>>, dispatched: seq<Event>)
    ensures Causal(act) ==> Timely(act, handlers, dispatched)
  {
    if dispatched != [] {
      var n := |dispatched| - 1;
      CausalTimely(act, handlers, dispatched[..n]);
      ReactionCausal(act, n, dispatched[n], HandlersIn(handlers, dispatched[n].kind));
    }
  }

  // No dispatch so far stopped the loop or raised.
  predicate WentOn(act: Behaviour, handlers: map<EventType, seq<Handler>>, dispatched: seq<Event>) {
    dispatched == [] ||
    (var n := |dispatched| - 1;
     var r := ReactionAt(act, handlers, dispatched, n);
     WentOn(act, handlers, dispatched[..n]) && !r.stops && !r.raises)
  }

  // What the run so far has come to: only the last dispatch can have stopped the loop or raised.
  predicate Halting(
    act: Behaviour, handlers: map<EventType, seq<Handler>>, dispatched: seq<Event>, running: bool, raised: bool)
  {
    if dispatched == [] then running && !raised
    else
      var n := |dispatched| - 1;
      var r := ReactionAt(act, handlers, dispatched, n);
      WentOn(act, handlers, dispatched[..n]) && running == !r.stops && raised == r.raises
  }

  /**
   The state of a run: a heap; dispatched plus left are what was queued at the start plus what the handlers added;
   dispatched in order exactly when no handler added an event to the past; halted exactly by what the last handlers did.
   */
  ghost predicate Progress(
    act: Behaviour, handlers: map<EventType, seq<Handler>>, start: multiset<Event>, dispatched: seq<Event>,
    queue: seq<Event>, running: bool, raised: bool)
  {
    && IsHeap(queue)
    && multiset(dispatched) + multiset(queue) == start + multiset(AllAdded(act, handlers, dispatched))
    && (LeftInOrder(dispatched, queue) <==> Timely(act, handlers, dispatched))
    && Halting(act, handlers, dispatched, running, raised)
  }

  lemma LastReaction(act: Behaviour, handlers: map<EventType, seq<Handler>>, log: seq<Event>, event: Event)
    ensures (log + [event])[..|log|] == log
    ensures ReactionAt(act, handlers, log + [event], |log|) == Reaction(act, |log|, event, HandlersIn(handlers, event.kind))
  {
    assert (log + [event])[|log|] == event;
  }

  lemma StillGoing(act: Behaviour, handlers: map<EventType, seq<Handler>>, log: seq<Event>)
    requires Halting(act, handlers, log, true, false)
    ensures WentOn(act, handlers, log)
  {
  }

  lemma TurnKeepsHalting(
    act: Behaviour, handlers: map<EventType, seq<Handler>>, log: seq<Event>, event: Event, running: bool, raised: bool)
    requires Halting(act, handlers, log, true, false)
    requires var r := Reaction(act, |log|, event, HandlersIn(handlers, event.kind));
             running == !r.stops && raised == r.raises
    ensures Halting(act, handlers, log + [event], running, raised)
  {
    StillGoing(act, handlers, log);
    LastReaction(act, handlers, log, event);
  }

  lemma TurnKeepsProgress(
    act: Behaviour, handlers: map<EventType, seq<Handler>>, start: multiset<Event>, log: seq<Event>, before: seq<Event>,
    event: Event, after: seq<Event>, running: bool, raised: bool)
    requires Progress(act, handlers, start, log, before, true, false)
    requires event in before && NoneBefore(before, event.timestamp) && IsHeap(after)
    requires var r := Reaction(act, |log|, event, HandlersIn(handlers, event.kind));
             && multiset(after) + multiset{event} == multiset(before) + multiset(r.adds)
             && running == !r.stops && raised == r.raises
             && (NoneBefore(after, event.timestamp) <==> NoneBefore(r.adds, event.timestamp))
    ensures Progress(act, handlers, start, log + [event], after, running, raised)
  {
    var adds := Reaction(act, |log|, event, HandlersIn(handlers, event.kind)).adds;
    OrderKeptIff(log, before, event, after, adds);
    OneMoreTimely(act, handlers, log, event);
    OneMoreAdded(act, handlers, log, event);
    OneMoreConserved(start, log, before, event, after, AllAdded(act, handlers, log), adds);
    TurnKeepsHalting(act, handlers, log, event, running, raised);
  }

  lemma CausalInOrder(
    act: Behaviour, handlers: map<EventType, seq<Handler>>, start: multiset<Event>, dispatched: seq<Event>,
    queue: seq<Event>, running: bool, raised: bool)
    requires Progress(act, handlers, start, dispatched, queue, running, raised)
    ensures Causal(act) ==> LeftInOrder(dispatched, queue)
  {
    CausalTimely(act, handlers, dispatched);
  }
}
