/** The locked buffer: every method below is one lock region or one channel/atomic operation of the source. */
module BatchBuffer {
  datatype AddResult = Accepted | Full | Closed

  // The fields the goroutines share. `token` is the single slot of the wake-up channel.
  datatype Core<M> = Core(
    maxSize: nat, flushTimeout: int,
    buffer: seq<M>, lastFlow: int, token: bool, stopClosed: bool, running: bool,
    totalMessages: nat, totalFlushes: nat, totalErrors: nat, currentSize: int, dropped: nat)

  const DEFAULT_MAX_SIZE: nat := 1000
  const DEFAULT_TIMEOUT: int := 5_000_000_000

  // The source stores the buffer length in a 32-bit counter.
  function Int32(n: int): int {
    (n + 0x8000_0000) % 0x1_0000_0000 - 0x8000_0000
  }

  function New<M>(maxSize: int, flushTimeout: int, now: int): Core<M> {
    Core(if maxSize <= 0 then DEFAULT_MAX_SIZE else maxSize,
         if flushTimeout <= 0 then DEFAULT_TIMEOUT else flushTimeout,
         [], now, false, false, true, 0, 0, 0, 0, 0)
  }

  // The lock region of Add.
  function AddLocked<M>(c: Core<M>, m: M): (Core<M>, AddResult) {
    if |c.buffer| >= c.maxSize * 2 then (c.(dropped := c.dropped + 1), Full)
    else
      var b := c.buffer + [m];
      (c.(buffer := b, totalMessages := c.totalMessages + 1, currentSize := Int32(|b|),
          token := c.token || |b| >= c.maxSize), Accepted)
  }

  predicate ShouldFlush<M>(c: Core<M>, forced: bool, now: int) {
    c.buffer != [] && (forced || |c.buffer| >= c.maxSize || now - c.lastFlow >= c.flushTimeout)
  }

  // The lock region of checkAndFlush; the batch is the buffer when it should be flushed, else empty.
  function TakeBatch<M>(c: Core<M>, forced: bool, now: int): (Core<M>, seq<M>) {
    if ShouldFlush(c, forced, now) then (c.(buffer := [], lastFlow := now, currentSize := 0), c.buffer)
    else (c, [])
  }

  // The lock region of finalFlush.
  function TakeFinal<M>(c: Core<M>): (Core<M>, seq<M>) {
    if c.buffer == [] then (c, []) else (c.(buffer := [], currentSize := 0), c.buffer)
  }

  class Buffer<M(==)> {
    const maxSize: nat
    const flushTimeout: int
    var buffer: seq<M>
    var lastFlow: int
    var token: bool
    var stopClosed: bool
    var running: bool
    var totalMessages: nat
    var totalFlushes: nat
    var totalErrors: nat
    var currentSize: int
    var dropped: nat

    function View(): Core<M>
      reads this
    {
      Core(maxSize, flushTimeout, buffer, lastFlow, token, stopClosed, running,
           totalMessages, totalFlushes, totalErrors, currentSize, dropped)
    }

    constructor (maxSize: int, flushTimeout: int, now: int)
      ensures View() == New(maxSize, flushTimeout, now)
      ensures this.maxSize == (if maxSize > 0 then maxSize else 1000)
      ensures this.flushTimeout == (if flushTimeout > 0 then flushTimeout else 5_000_000_000)
      ensures buffer == [] && lastFlow == now && running && !token && !stopClosed
    {
      this.maxSize := if maxSize <= 0 then DEFAULT_MAX_SIZE else maxSize;
      this.flushTimeout := if flushTimeout <= 0 then DEFAULT_TIMEOUT else flushTimeout;
      buffer, lastFlow := [], now;
      token, stopClosed, running := false, false, true;
      totalMessages, totalFlushes, totalErrors, currentSize, dropped := 0, 0, 0, 0, 0;
    }

    /** Add, before the lock: the running check. */
    method EnterAdd() returns (entered: bool)
      modifies this`dropped
      ensures entered == running
      ensures dropped == if running then old(dropped) else old(dropped) + 1
    {
      if !running {
        dropped := dropped + 1;
      }
      return running;
    }

    /** Add, under the lock. */
    method AddUnderLock(m: M) returns (r: AddResult)
      modifies this
      ensures (View(), r) == AddLocked(old(View()), m)
      ensures r == (if |old(buffer)| < 2 * maxSize then Accepted else Full)
      ensures buffer == (if r == Accepted then old(buffer) + [m] else old(buffer))
      ensures token <==> old(token) || (r == Accepted && |buffer| >= maxSize)
      ensures (totalMessages, dropped)
              == (if r == Accepted then (old(totalMessages) + 1, old(dropped)) else (old(totalMessages), old(dropped) + 1))
    {
      if |buffer| >= maxSize * 2 {
        dropped := dropped + 1;
        return Full;
      }
      buffer := buffer + [m];
      totalMessages := totalMessages + 1;
      currentSize := Int32(|buffer|);
      if |buffer| >= maxSize {
        SendToken();
      }
      return Accepted;
    }

    /** The non-blocking send on the one-slot channel; also the whole of Flush. */
    method SendToken()
      modifies this`token
      ensures token
    {
      if !token {
        token := true;
      }
    }

    method CheckAndTake(forced: bool, now: int) returns (messages: seq<M>)
      modifies this
      ensures (View(), messages) == TakeBatch(old(View()), forced, now)
      ensures var due := forced || |old(buffer)| >= maxSize || now - old(lastFlow) >= flushTimeout;
              && messages == (if due then old(buffer) else [])
              && buffer == (if due then [] else old(buffer))
              && lastFlow == (if due && messages != [] then now else old(lastFlow))
    {
      if |buffer| == 0 {
        return [];
      }
      var shouldFlush := forced || |buffer| >= maxSize || now - lastFlow >= flushTimeout;
      if !shouldFlush {
        return [];
      }
      messages := buffer;
      buffer := [];
      lastFlow := now;
      currentSize := 0;
    }

    method TakeRemaining() returns (messages: seq<M>)
      modifies this
      ensures (View(), messages) == TakeFinal(old(View()))
      ensures messages == old(buffer) && buffer == [] && lastFlow == old(lastFlow)
    {
      if |buffer| == 0 {
        return [];
      }
      messages := buffer;
      buffer := [];
      currentSize := 0;
    }

    /** Stop, first half: the compare-and-swap only one caller wins. */
    method SwapRunning() returns (won: bool)
      modifies this`running
      ensures won == old(running) && !running
    {
      if !running {
        return false;
      }
      running := false;
      return true;
    }
  }
}
