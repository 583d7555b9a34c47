/** The database writer the buffers flush into: one transaction per attempt, a bounded number of attempts. */
module TimescaleWriter {
  import opened MarketData
  import opened Options

  // What the database does to one attempt, stage by stage.
  datatype Attempt = Attempt(beginOk: bool, tickCopyOk: bool, bookCopyOk: bool, commitOk: bool) {
    // A COPY is issued only for a non-empty slice, so its failure matters only then.
    predicate Commits(ticks: seq<Tick>, books: seq<OrderBook>) {
      beginOk && (ticks != [] ==> tickCopyOk) && (books != [] ==> bookCopyOk) && commitOk
    }
  }

  // Attempts beyond the end of the sequence fail.
  datatype Environment = Environment(closed: bool, attempts: seq<Attempt>)

  datatype Database = Database(ticks: seq<Tick>, books: seq<OrderBook>)

  datatype WriteError = WriterClosed | RetriesExhausted

  predicate SomeAttemptCommits(messages: seq<Message>, attempts: seq<Attempt>, maxRetries: nat) {
    exists k :: 0 <= k < maxRetries && k < |attempts| && attempts[k].Commits(Ticks(messages), OrderBooks(messages))
  }

  predicate Stores(messages: seq<Message>, env: Environment, maxRetries: nat) {
    messages != [] && !env.closed && SomeAttemptCommits(messages, env.attempts, maxRetries)
  }

  // The value the callback returns: no error for an empty batch, even on a closed writer.
  function Outcome(messages: seq<Message>, env: Environment, maxRetries: nat): Option<WriteError> {
    if messages == [] then None
    else if env.closed then Some(WriterClosed)
    else if SomeAttemptCommits(messages, env.attempts, maxRetries) then None
    else Some(RetriesExhausted)
  }

  // The tables afterwards: every row of the batch once, or nothing.
  function After(db: Database, messages: seq<Message>, env: Environment, maxRetries: nat): Database {
    if Stores(messages, env, maxRetries)
    then Database(db.ticks + Ticks(messages), db.books + OrderBooks(messages))
    else db
  }

  /** One attempt within the limit at which every stage succeeds stores the batch, whatever the others did. */
  lemma GoodAttemptStores(db: Database, messages: seq<Message>, attempts: seq<Attempt>, maxRetries: nat, k: nat)
    requires messages != [] && k < maxRetries && k < |attempts| && attempts[k] == Attempt(true, true, true, true)
    ensures Outcome(messages, Environment(false, attempts), maxRetries) == None
    ensures After(db, messages, Environment(false, attempts), maxRetries)
            == Database(db.ticks + Ticks(messages), db.books + OrderBooks(messages))
  {
    assert attempts[k].Commits(Ticks(messages), OrderBooks(messages));
  }

  // Some stage the batch needs fails.
  predicate Spoilt(a: Attempt, messages: seq<Message>) {
    !a.beginOk || !a.commitOk || (Ticks(messages) != [] && !a.tickCopyOk) || (OrderBooks(messages) != [] && !a.bookCopyOk)
  }

  /** A batch whose attempts within the limit all fail at a stage it needs leaves the tables as they were. */
  lemma FailuresStoreNothing(db: Database, messages: seq<Message>, attempts: seq<Attempt>, maxRetries: nat)
    requires messages != []
    requires forall k :: 0 <= k < maxRetries && k < |attempts| ==> Spoilt(attempts[k], messages)
    ensures Outcome(messages, Environment(false, attempts), maxRetries) == Some(RetriesExhausted)
    ensures After(db, messages, Environment(false, attempts), maxRetries) == db
  {
  }

  class Writer {
    var tickRows: seq<Tick>
    var bookRows: seq<OrderBook>
    var closed: bool
    const maxRetries: nat
    var totalInserts: nat
    var totalErrors: nat

    constructor (maxRetries: nat)
      ensures Tables() == Database([], []) && !closed && this.maxRetries == maxRetries
      ensures totalInserts == 0 && totalErrors == 0
    {
      tickRows, bookRows, closed := [], [], false;
      this.maxRetries := maxRetries;
      totalInserts, totalErrors := 0, 0;
    }

    function Tables(): Database
      reads this
    {
      Database(tickRows, bookRows)
    }

    /** One transaction: rows copied by either COPY stay staged until the commit and vanish on rollback. */
    method WriteBatch(ticks: seq<Tick>, books: seq<OrderBook>, attempt: Attempt) returns (ok: bool)
      modifies this`tickRows, this`bookRows
      ensures ok == attempt.Commits(ticks, books)
      ensures tickRows == if ok then old(tickRows) + ticks else old(tickRows)
      ensures bookRows == if ok then old(bookRows) + books else old(bookRows)
    {
      if !attempt.beginOk {
        return false;
      }
      var stagedTicks, stagedBooks := [], [];
      if |ticks| > 0 {
        if !attempt.tickCopyOk {
          return false;
        }
        stagedTicks := ticks;
      }
      if |books| > 0 {
        if !attempt.bookCopyOk {
          return false;
        }
        stagedBooks := books;
      }
      if !attempt.commitOk {
        return false;
      }
      tickRows, bookRows := tickRows + stagedTicks, bookRows + stagedBooks;
      return true;
    }

    method WriteMessages(messages: seq<Message>, attempts: seq<Attempt>) returns (err: Option<WriteError>)
      modifies this`tickRows, this`bookRows, this`totalInserts, this`totalErrors
      ensures var env := Environment(closed, attempts);
              && err == Outcome(messages, env, maxRetries)
              && Tables() == After(old(Tables()), messages, env, maxRetries)
              && totalInserts == old(totalInserts) + (if Stores(messages, env, maxRetries) then |messages| else 0)
              && totalErrors == old(totalErrors) + (if err == Some(RetriesExhausted) then 1 else 0)
    {
      if |messages| == 0 {
        return None;
      }
      if closed {
        return Some(WriterClosed);
      }
      var ticks, books := SplitByType(messages);
      var attempt := 0;
      while attempt < maxRetries
        invariant 0 <= attempt <= maxRetries
        invariant forall k :: 0 <= k < attempt && k < |attempts| ==> !attempts[k].Commits(ticks, books)
        invariant Tables() == old(Tables()) && totalInserts == old(totalInserts) && totalErrors == old(totalErrors)
      {
        if attempt < |attempts| {
          var ok := WriteBatch(ticks, books, attempts[attempt]);
          if ok {
            totalInserts := totalInserts + |messages|;
            return None;
          }
        }
        attempt := attempt + 1;
      }
      totalErrors := totalErrors + 1;
      return Some(RetriesExhausted);
    }

    method SplitByType(messages: seq<Message>) returns (ticks: seq<Tick>, books: seq<OrderBook>)
      ensures ticks == Ticks(messages) && books == OrderBooks(messages)
    {
      ticks, books := [], [];
      for i := 0 to |messages|
        invariant ticks == Ticks(messages[..i]) && books == OrderBooks(messages[..i])
      {
        var msg := messages[i];
        match msg.kind {
          case TickMessage =>
            if msg.tick.Some? {
              ticks := ticks + [msg.tick.value];
            }
          case OrderBookMessage =>
            if msg.orderBook.Some? {
              books := books + [msg.orderBook.value];
            }
        }
        assert messages[..i + 1][..i] == messages[..i];
      }
      assert messages[..|messages|] == messages;
    }

    method Close()
      modifies this`closed
      ensures closed
    {
      closed := true;
    }
  }
}
