/**
 The two Kafka sinks as the source writes them: fields changed in place, a retry loop, and for
 the batching sink a backing array that is reused after every flush
 (runtime-go/internal/sinks/kafka/kafka.go and batch.go).
 */
module KafkaSinks {
  import opened Common
  import opened Kafka

  /** The broker client: every call is answered by the oracle. */
  class MessageWriter {
    const oracle: Oracle
    var calls: nat

    constructor (oracle: Oracle)
      ensures this.oracle == oracle && calls == 0
    {
      this.oracle := oracle;
      calls := 0;
    }

    method WriteMessages(messages: array<Message>) returns (ok: bool)
      modifies this
      ensures ok == oracle(old(calls)) && calls == old(calls) + 1
    {
      ok := oracle(calls);
      calls := calls + 1;
    }
  }

  /** The attempt loop both sinks share: first try plus up to `retries` more. */
  method WriteWithRetries(writer: MessageWriter, messages: array<Message>, retries: nat) returns (ok: bool)
    modifies writer
    ensures (ok, writer.calls) == Deliver(writer.oracle, old(writer.calls), retries)
  {
    var attempt := 0;
    while true
      invariant attempt <= retries
      invariant Deliver(writer.oracle, writer.calls, retries - attempt)
        == Deliver(writer.oracle, old(writer.calls), retries)
      decreases retries - attempt
    {
      ok := writer.WriteMessages(messages);
      if ok {
        return;
      }
      if attempt < retries {
        attempt := attempt + 1;
        continue;
      }
      return;
    }
  }

  class Sink {
    const writer: MessageWriter
    const retries: nat
    var count: nat
    var failed: nat
    ghost var sent: seq<Message>

    ghost function State(): Single
      reads this, writer
    {
      Single(sent, count, failed, writer.calls)
    }

    constructor (writer: MessageWriter, retries: nat)
      requires writer.calls == 0
      ensures this.writer == writer && this.retries == retries && State() == Single([], 0, 0, 0)
    {
      this.writer := writer;
      this.retries := retries;
      count, failed, sent := 0, 0, [];
    }

    method Write(m: Option<Message>) returns (ok: bool)
      modifies this, writer
      ensures State() == WriteSingle(writer.oracle, retries, old(State()), m)
      ensures ok <==> count == old(count) + 1
    {
      if m.None? {
        failed := failed + 1;
        return false;
      }
      var message := new Message[1](_ => m.value);
      ok := WriteWithRetries(writer, message, retries);
      if ok {
        count := count + 1;
        sent := sent + [m.value];
      } else {
        failed := failed + 1;
      }
    }
  }

  class BatchSink {
    const writer: MessageWriter
    const config: Config
    /** The backing array of `buffer`; its first `used` elements are the buffer. */
    var store: array<Message>
    var used: nat
    var count: nat
    var failed: nat
    var closed: bool
    var timer: Option<nat>
    var pending: set<nat>
    var nextTimer: nat
    /** The arrays given to the writer, the batches they held then, and the rest of the record. */
    ghost var handed: seq<array<Message>>
    ghost var flushed: seq<Flushed>
    ghost var accepted: seq<Message>
    ghost var unencodable: nat

    /** No array given away is the backing array, and each still holds its batch. */
    ghost predicate Valid()
      reads this, store, handed
    {
      used <= store.Length
      && |handed| == |flushed|
      && forall i :: 0 <= i < |handed| ==> handed[i] != store && handed[i][..] == flushed[i].messages
    }

    ghost function State(): Batch
      requires Valid()
      reads this, store, handed, writer
    {
      Batch(store[..used], count, failed, closed, timer, pending, nextTimer, writer.calls, flushed, accepted,
        unencodable)
    }

    constructor (writer: MessageWriter, config: Config)
      requires writer.calls == 0
      ensures this.writer == writer && this.config == config
      ensures Valid() && State() == INITIAL && fresh(store)
    {
      this.writer := writer;
      this.config := config;
      store, used := new Message[0], 0;
      count, failed, closed, timer := 0, 0, false, None;
      pending, nextTimer := {}, 0;
      handed, flushed, accepted, unencodable := [], [], [], 0;
    }

    /**
     The error says that the event could not be encoded, the sink was closed, or the batch it
     completed could not be written.

     Every method leaves the arrays already given to the writer as they were: they are not in
     its frame, and `Valid` says each still equals its batch.
     */
    method Write(m: Option<Message>, inTime: bool) returns (ok: bool)
      requires Valid()
      modifies this, store, writer
      ensures Valid() && old(handed) <= handed && (store == old(store) || fresh(store))
      ensures State() == Step(config, writer.oracle, old(State()), Action.Write(m, inTime))
      ensures ok <==> m.Some? && !old(closed) && failed == old(failed)
    {
      hide FlushLocked, Deliver;
      if m.None? {
        failed := failed + 1;
        unencodable := unencodable + 1;
        return false;
      }
      if closed {
        return false;
      }
      Append(m.value);
      if used >= config.batchSize {
        ok := FlushBuffer(inTime);
        return;
      }
      if timer.None? {
        timer := Some(nextTimer);
        pending := pending + {nextTimer};
        nextTimer := nextTimer + 1;
      }
      ok := true;
    }

    /** Go's `append`: in place while there is room, else into a larger copy. */
    method Append(m: Message)
      requires Valid()
      modifies this, store
      ensures Valid() && handed == old(handed) && (store == old(store) || fresh(store))
      ensures State() == old(State()).(buffer := old(State()).buffer + [m], accepted := old(State()).accepted + [m])
    {
      if used == store.Length {
        Grow(m);
      }
      store[used] := m;
      used := used + 1;
      accepted := accepted + [m];
    }

    method Grow(filler: Message)
      requires Valid() && used == store.Length
      modifies this`store
      ensures Valid() && fresh(store) && used < store.Length
      ensures store[..used] == old(store[..used])
    {
      var smaller, n := store, used;
      var larger := new Message[2 * n + 1](_ => filler);
      for i := 0 to n
        invariant forall k :: 0 <= k < i ==> larger[k] == smaller[k]
      {
        larger[i] := smaller[i];
      }
      store := larger;
    }

    /** The timer callback; it takes the lock like everyone else. */
    method OnTimer(id: nat, inTime: bool)
      requires Valid() && id in pending
      modifies this, writer
      ensures Valid() && old(handed) <= handed && store == old(store)
      ensures State() == Step(config, writer.oracle, old(State()), Fire(id, inTime))
    {
      hide FlushLocked, Deliver;
      pending := pending - {id};
      if closed {
        return;
      }
      var _ := FlushBuffer(inTime);
    }

    method FlushNow(inTime: bool) returns (ok: bool)
      requires Valid()
      modifies this, writer
      ensures Valid() && old(handed) <= handed && store == old(store)
      ensures State() == Step(config, writer.oracle, old(State()), Flush(inTime))
      ensures ok <==> failed == old(failed)
    {
      hide FlushLocked, Deliver;
      ok := FlushBuffer(inTime);
    }

    method CloseSink(inTime: bool)
      requires Valid()
      modifies this, writer
      ensures Valid() && old(handed) <= handed && store == old(store)
      ensures State() == Step(config, writer.oracle, old(State()), Close(inTime))
    {
      hide FlushLocked, Deliver;
      DisarmTimer(inTime);
      closed := true;
      var _ := FlushBuffer(inTime);
    }

    method DisarmTimer(inTime: bool)
      requires Valid()
      modifies this`timer, this`pending
      ensures Valid() && State() == StopTimer(old(State()), inTime)
    {
      if timer.Some? {
        pending := if inTime then pending - {timer.value} else pending;
        timer := None;
      }
    }

    /** `flushLocked`: copies the buffer out, empties it in place, then writes the copy. */
    method FlushBuffer(inTime: bool) returns (ok: bool)
      requires Valid()
      modifies this, writer
      ensures Valid() && old(handed) <= handed && store == old(store)
      ensures State() == FlushLocked(config, writer.oracle, old(State()), inTime)
      ensures ok <==> failed == old(failed)
    {
      hide Deliver;
      if used == 0 {
        return true;
      }
      DisarmTimer(inTime);
      var messages := CopyOut();
      ghost var batch := store[..used];
      used := 0;
      ok := HandOver(messages, batch);
    }

    /** Writes a batch and books the outcome. */
    method HandOver(messages: array<Message>, ghost batch: seq<Message>) returns (ok: bool)
      requires Valid() && messages != store && messages[..] == batch
      modifies this`handed, this`flushed, this`count, this`failed, writer
      ensures Valid() && old(handed) <= handed
      ensures var (ok', calls) := Deliver(writer.oracle, old(writer.calls), config.retries);
        ok == ok' && writer.calls == calls && flushed == old(flushed) + [Flushed(batch, ok)]
        && count == old(count) + (if ok then |batch| else 0) && failed == old(failed) + (if ok then 0 else |batch|)
    {
      hide Deliver;
      ok := WriteWithRetries(writer, messages, config.retries);
      handed, flushed := handed + [messages], flushed + [Flushed(batch, ok)];
      if ok {
        count := count + messages.Length;
      } else {
        failed := failed + messages.Length;
      }
    }

    method CopyOut() returns (messages: array<Message>)
      requires Valid() && used > 0
      ensures fresh(messages) && messages[..] == store[..used]
    {
      var filler := store[0];
      messages := new Message[used](_ => filler);
      for i := 0 to used
        invariant forall k :: 0 <= k < i ==> messages[k] == store[k]
      {
        messages[i] := store[i];
      }
    }
  }
}
