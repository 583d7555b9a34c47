/** Values shared by the recorder modules: buffered market data. */
module MarketData {
  import opened Options

  datatype Tick = Tick(timestamp: int, symbol: string, price: real, volume: int)

  datatype OrderBook = OrderBook(timestamp: int, symbol: string, levels: seq<(real, int)>)

  datatype MessageType = TickMessage | OrderBookMessage

  // The two payloads are pointers in the source, so either may be absent.
  datatype Message = Message(kind: MessageType, timestamp: int, tick: Option<Tick>, orderBook: Option<OrderBook>)

  // The ticks a batch of messages carries, in order.
  function Ticks(messages: seq<Message>): seq<Tick> {
    if messages == [] then []
    else Ticks(messages[..|messages| - 1]) + TickOf(messages[|messages| - 1])
  }

  function TickOf(m: Message): seq<Tick> {
    if m.kind.TickMessage? && m.tick.Some? then [m.tick.value] else []
  }

  function OrderBooks(messages: seq<Message>): seq<OrderBook> {
    if messages == [] then []
    else OrderBooks(messages[..|messages| - 1]) + OrderBookOf(messages[|messages| - 1])
  }

  function OrderBookOf(m: Message): seq<OrderBook> {
    if m.kind.OrderBookMessage? && m.orderBook.Some? then [m.orderBook.value] else []
  }

  lemma {:induction false} TicksDistribute(a: seq<Message>, b: seq<Message>)
    ensures Ticks(a + b) == Ticks(a) + Ticks(b)
  {
    if b == [] {
      assert a + b == a;
    } else {
      var front := b[..|b| - 1];
      assert (a + b)[..|a + b| - 1] == a + front;
      TicksDistribute(a, front);
    }
  }

  lemma {:induction false} OrderBooksDistribute(a: seq<Message>, b: seq<Message>)
    ensures OrderBooks(a + b) == OrderBooks(a) + OrderBooks(b)
  {
    if b == [] {
      assert a + b == a;
    } else {
      var front := b[..|b| - 1];
      assert (a + b)[..|a + b| - 1] == a + front;
      OrderBooksDistribute(a, front);
    }
  }

  // ---------- the split, message by message ----------

  function TickCount(messages: seq<Message>): nat {
    if messages == [] then 0
    else
      var n := |messages| - 1;
      TickCount(messages[..n]) + if messages[n].kind == TickMessage && messages[n].tick != None then 1 else 0
  }

  function OrderBookCount(messages: seq<Message>): nat {
    if messages == [] then 0
    else
      var n := |messages| - 1;
      OrderBookCount(messages[..n]) + if messages[n].kind == OrderBookMessage && messages[n].orderBook != None then 1 else 0
  }

  lemma {:induction false} TicksCounted(messages: seq<Message>)
    ensures |Ticks(messages)| == TickCount(messages)
  {
    if messages != [] {
      TicksCounted(messages[..|messages| - 1]);
    }
  }

  lemma {:induction false} OrderBooksCounted(messages: seq<Message>)
    ensures |OrderBooks(messages)| == OrderBookCount(messages)
  {
    if messages != [] {
      OrderBooksCounted(messages[..|messages| - 1]);
    }
  }

  /** Every tick message with a payload has its tick in the split, behind exactly those of the messages before it. */
  lemma {:induction false} TicksComplete(messages: seq<Message>, i: nat)
    requires i < |messages| && messages[i].kind == TickMessage && messages[i].tick != None
    ensures |Ticks(messages)| == TickCount(messages) && TickCount(messages[..i]) < |Ticks(messages)|
    ensures Ticks(messages)[TickCount(messages[..i])] == messages[i].tick.value
    decreases |messages|
  {
    var n := |messages| - 1;
    TicksCounted(messages);
    TicksCounted(messages[..n]);
    if i < n {
      TicksComplete(messages[..n], i);
      assert messages[..n][..i] == messages[..i];
    }
  }

  /** The same for order books. */
  lemma {:induction false} OrderBooksComplete(messages: seq<Message>, i: nat)
    requires i < |messages| && messages[i].kind == OrderBookMessage && messages[i].orderBook != None
    ensures |OrderBooks(messages)| == OrderBookCount(messages) && OrderBookCount(messages[..i]) < |OrderBooks(messages)|
    ensures OrderBooks(messages)[OrderBookCount(messages[..i])] == messages[i].orderBook.value
    decreases |messages|
  {
    var n := |messages| - 1;
    OrderBooksCounted(messages);
    OrderBooksCounted(messages[..n]);
    if i < n {
      OrderBooksComplete(messages[..n], i);
      assert messages[..n][..i] == messages[..i];
    }
  }
}
