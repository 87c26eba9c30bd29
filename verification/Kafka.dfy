/**
 The Kafka sinks as state machines: one write per event (runtime-go/internal/sinks/kafka/kafka.go)
 and batched writes with a timeout (runtime-go/internal/sinks/kafka/batch.go). The broker is an
 arbitrary oracle: call number n succeeds or fails as it likes. Timers fire whenever they like.
 */
module Kafka {
  import opened Common

  datatype Message = Message(key: Option<string>, value: string)

  /** The result of the n-th `WriteMessages` call. */
  type Oracle = nat -> bool

  /** One write with up to `retries` repetitions: the final result and the number of calls made so far. */
  function Deliver(writer: Oracle, calls: nat, retries: nat): (bool, nat)
    decreases retries
  {
    if writer(calls) then (true, calls + 1)
    else if retries > 0 then Deliver(writer, calls + 1, retries - 1)
    else (false, calls + 1)
  }

  /** A delivery fails only when the first call and every retry fail, and stops at the first success. */
  lemma {:induction false} DeliverOutcome(writer: Oracle, calls: nat, retries: nat)
    ensures var (ok, next) := Deliver(writer, calls, retries);
      calls < next <= calls + retries + 1
      && (forall k :: calls <= k < next - 1 ==> !writer(k))
      && ok == writer(next - 1)
      && (!ok ==> next == calls + retries + 1)
    decreases retries
  {
    if !writer(calls) && retries > 0 {
      DeliverOutcome(writer, calls + 1, retries - 1);
    }
  }

  // ---------------------------------------------------------------- one write per event

  /** `sent` lists the delivered messages. */
  datatype Single = Single(sent: seq<Message>, count: nat, failed: nat, calls: nat)

  /** `Sink.Write`; an event that cannot be encoded is `None`. */
  function WriteSingle(writer: Oracle, retries: nat, s: Single, m: Option<Message>): Single {
    if m.None? then s.(failed := s.failed + 1)
    else
      var (ok, calls) := Deliver(writer, s.calls, retries);
      if ok then Single(s.sent + [m.value], s.count + 1, s.failed, calls)
      else s.(failed := s.failed + 1, calls := calls)
  }

  function RunSingle(writer: Oracle, retries: nat, writes: seq<Option<Message>>): Single {
    if writes == [] then Single([], 0, 0, 0)
    else
      var n := |writes| - 1;
      WriteSingle(writer, retries, RunSingle(writer, retries, writes[..n]), writes[n])
  }

  // ---------------------------------------------------------------- batches

  /** A batch handed to the writer and what became of it. */
  datatype Flushed = Flushed(messages: seq<Message>, ok: bool)

  /**
   `buffer` to `timer` are the sink's fields. `pending` holds the timers whose callback has not
   run yet, stopped too late or not at all. `flushed` and `accepted` record the past.
   */
  datatype Batch = Batch(
    buffer: seq<Message>,
    count: nat,
    failed: nat,
    closed: bool,
    timer: Option<nat>,
    pending: set<nat>,
    nextTimer: nat,
    calls: nat,
    flushed: seq<Flushed>,
    accepted: seq<Message>,
    unencodable: nat)

  /** `inTime` says whether stopping the armed timer still prevents its callback. */
  datatype Action =
    | Write(m: Option<Message>, inTime: bool)
    | Fire(timer: nat, inTime: bool)
    | Flush(inTime: bool)
    | Close(inTime: bool)

  datatype Config = Config(batchSize: int, retries: nat)

  const INITIAL: Batch := Batch([], 0, 0, false, None, {}, 0, 0, [], [], 0)

  function StopTimer(s: Batch, inTime: bool): Batch {
    if s.timer.None? then s
    else s.(timer := None, pending := if inTime then s.pending - {s.timer.value} else s.pending)
  }

  /** `flushLocked` */
  function FlushLocked(config: Config, writer: Oracle, s: Batch, inTime: bool): Batch {
    if s.buffer == [] then s
    else
      var t := StopTimer(s, inTime);
      var (ok, calls) := Deliver(writer, t.calls, config.retries);
      t.(buffer := [], calls := calls, flushed := t.flushed + [Flushed(t.buffer, ok)],
         count := if ok then t.count + |t.buffer| else t.count,
         failed := if ok then t.failed else t.failed + |t.buffer|)
  }

  function Arm(s: Batch): Batch {
    if s.timer.Some? then s
    else s.(timer := Some(s.nextTimer), pending := s.pending + {s.nextTimer}, nextTimer := s.nextTimer + 1)
  }

  /** One critical section of the sink. A timer that is not pending cannot fire. */
  function Step(config: Config, writer: Oracle, s: Batch, a: Action): Batch {
    match a
    case Write(m, inTime) =>
      if m.None? then s.(failed := s.failed + 1, unencodable := s.unencodable + 1)
      else if s.closed then s
      else
        var t := s.(buffer := s.buffer + [m.value], accepted := s.accepted + [m.value]);
        if |t.buffer| >= config.batchSize then FlushLocked(config, writer, t, inTime) else Arm(t)
    case Fire(timer, inTime) =>
      if timer !in s.pending then s
      else
        var t := s.(pending := s.pending - {timer});
        if s.closed then t else FlushLocked(config, writer, t, inTime)
    case Flush(inTime) => FlushLocked(config, writer, s, inTime)
    case Close(inTime) => FlushLocked(config, writer, StopTimer(s, inTime).(closed := true), inTime)
  }

  /** The state after a history of critical sections, in any interleaving. */
  function Run(config: Config, writer: Oracle, actions: seq<Action>): Batch {
    if actions == [] then INITIAL
    else
      var n := |actions| - 1;
      Step(config, writer, Run(config, writer, actions[..n]), actions[n])
  }

  // ---------------------------------------------------------------- the invariant

  function Messages(flushed: seq<Flushed>): seq<Message> {
    if flushed == [] then [] else Messages(flushed[..|flushed| - 1]) + flushed[|flushed| - 1].messages
  }

  /** How many messages were flushed with this outcome. */
  function Total(flushed: seq<Flushed>, ok: bool): nat {
    if flushed == [] then 0
    else
      var last := flushed[|flushed| - 1];
      Total(flushed[..|flushed| - 1], ok) + if last.ok == ok then |last.messages| else 0
  }

  /** Nothing is lost, duplicated or reordered, and the counters are exact. */
  predicate Accounted(s: Batch) {
    Messages(s.flushed) + s.buffer == s.accepted
    && s.count == Total(s.flushed, true)
    && s.failed == Total(s.flushed, false) + s.unencodable
  }

  predicate Sized(config: Config, s: Batch) {
    |s.buffer| < Max(1, config.batchSize)
    && forall i :: 0 <= i < |s.flushed| ==> 1 <= |s.flushed[i].messages| <= Max(1, config.batchSize)
  }

  /** While open, a timer is armed exactly when messages wait, and its callback is still to come. */
  predicate Timed(s: Batch) {
    (s.timer.Some? <==> s.buffer != [])
    && (s.timer.Some? ==> s.timer.value in s.pending)
    && (s.closed ==> s.buffer == [])
    && forall t :: t in s.pending ==> t < s.nextTimer
  }

  predicate Inv(config: Config, s: Batch) { Accounted(s) && Sized(config, s) && Timed(s) }

  lemma {:induction false} MessagesSnoc(flushed: seq<Flushed>, f: Flushed)
    ensures Messages(flushed + [f]) == Messages(flushed) + f.messages
    ensures forall ok :: Total(flushed + [f], ok) == Total(flushed, ok) + if f.ok == ok then |f.messages| else 0
  {
    assert (flushed + [f])[..|flushed|] == flushed;
  }

  /** A flush empties a buffer that may for a moment be full, and leaves no timer armed. */
  lemma {:induction false} FlushKeeps(config: Config, writer: Oracle, s: Batch, inTime: bool)
    requires Accounted(s) && |s.buffer| <= Max(1, config.batchSize)
    requires forall i :: 0 <= i < |s.flushed| ==> 1 <= |s.flushed[i].messages| <= Max(1, config.batchSize)
    requires s.buffer == [] ==> s.timer.None?
    requires forall t :: t in s.pending ==> t < s.nextTimer
    ensures Inv(config, FlushLocked(config, writer, s, inTime))
    ensures FlushLocked(config, writer, s, inTime).buffer == []
  {
    hide Deliver, Messages, Total;
    var r := FlushLocked(config, writer, s, inTime);
    if s.buffer != [] {
      var (ok, _) := Deliver(writer, s.calls, config.retries);
      MessagesSnoc(s.flushed, Flushed(s.buffer, ok));
      assert r.flushed == s.flushed + [Flushed(s.buffer, ok)];
    }
    assert Messages(r.flushed) + [] == Messages(r.flushed);
  }

  lemma {:induction false} StepKeeps(config: Config, writer: Oracle, s: Batch, a: Action)
    requires Inv(config, s)
    ensures Inv(config, Step(config, writer, s, a))
  {
    hide FlushLocked;
    match a
    case Write(m, inTime) =>
      if m.Some? && !s.closed {
        var t := s.(buffer := s.buffer + [m.value], accepted := s.accepted + [m.value]);
        ConcatAssociative(Messages(s.flushed), s.buffer, [m.value]);
        if |t.buffer| >= config.batchSize {
          FlushKeeps(config, writer, t, inTime);
        }
      }
    case Fire(timer, inTime) =>
      FlushKeeps(config, writer, s.(pending := s.pending - {timer}), inTime);
    case Flush(inTime) =>
      FlushKeeps(config, writer, s, inTime);
    case Close(inTime) =>
      FlushKeeps(config, writer, StopTimer(s, inTime).(closed := true), inTime);
  }

  /**
   In every reachable state: nothing lost, exact counters, batches within bounds, a timer for every
   waiting message.
   */
  lemma {:induction false} AlwaysAccounted(config: Config, writer: Oracle, actions: seq<Action>)
    ensures Inv(config, Run(config, writer, actions))
  {
    hide Step, Inv;
    if actions != [] {
      var n := |actions| - 1;
      AlwaysAccounted(config, writer, actions[..n]);
      StepKeeps(config, writer, Run(config, writer, actions[..n]), actions[n]);
    } else {
      InitialOk(config);
    }
  }

  lemma {:induction false} InitialOk(config: Config)
    ensures Inv(config, INITIAL)
  {
    hide Messages, Total;
    NothingFlushed(INITIAL.flushed);
  }

  lemma {:induction false} NothingFlushed(flushed: seq<Flushed>)
    requires flushed == []
    ensures Messages(flushed) == [] && forall ok :: Total(flushed, ok) == 0
  {
  }

  /** Waiting messages are never stuck: the callback of the armed timer is still to come and will flush them. */
  lemma {:induction false} WaitingIsFlushed(config: Config, writer: Oracle, actions: seq<Action>, inTime: bool)
    requires Run(config, writer, actions).buffer != []
    ensures var s := Run(config, writer, actions);
      s.timer.Some? && s.timer.value in s.pending
      && Step(config, writer, s, Fire(s.timer.value, inTime)).buffer == []
      && Messages(Step(config, writer, s, Fire(s.timer.value, inTime)).flushed) == s.accepted
  {
    hide Deliver;
    AlwaysAccounted(config, writer, actions);
    var s := Run(config, writer, actions);
    StepKeeps(config, writer, s, Fire(s.timer.value, inTime));
  }

  // ---------------------------------------------------------------- when batches leave

  /** A write that does not fill the batch only waits: no call, nothing flushed, a timer armed. */
  lemma {:induction false} WriteWaits(config: Config, writer: Oracle, s: Batch, m: Message, inTime: bool)
    requires !s.closed && |s.buffer| + 1 < config.batchSize
    ensures var t := Step(config, writer, s, Write(Some(m), inTime));
      t.buffer == s.buffer + [m] && t.calls == s.calls && t.flushed == s.flushed && t.timer.Some?
      && t.count == s.count && t.failed == s.failed
  {
  }

  /** A write that fills it hands over the whole buffer as one batch, at once. */
  lemma {:induction false} WriteFills(config: Config, writer: Oracle, s: Batch, m: Message, inTime: bool)
    requires !s.closed && |s.buffer| + 1 >= config.batchSize
    ensures var t := Step(config, writer, s, Write(Some(m), inTime));
      t.buffer == [] && t.timer.None? && s.calls < t.calls <= s.calls + config.retries + 1
      && |t.flushed| == |s.flushed| + 1 && t.flushed[..|s.flushed|] == s.flushed
      && t.flushed[|s.flushed|].messages == s.buffer + [m]
  {
    hide Deliver;
    DeliverOutcome(writer, s.calls, config.retries);
  }

  /** An explicit flush hands over exactly what waits, and makes no call when nothing does. */
  lemma {:induction false} FlushEmpties(config: Config, writer: Oracle, s: Batch, inTime: bool)
    ensures var t := Step(config, writer, s, Flush(inTime));
      t.buffer == [] && t.closed == s.closed
      && if s.buffer == [] then t == s
         else
           s.calls < t.calls <= s.calls + config.retries + 1 && t.timer.None?
           && |t.flushed| == |s.flushed| + 1 && t.flushed[..|s.flushed|] == s.flushed
           && t.flushed[|s.flushed|].messages == s.buffer
  {
    hide Deliver;
    DeliverOutcome(writer, s.calls, config.retries);
  }

  /** Writes of encodable events and nothing else. */
  predicate OnlyWrites(actions: seq<Action>) {
    forall i :: 0 <= i < |actions| ==> actions[i].Write? && actions[i].m.Some?
  }

  /** Such a run cuts the events into full batches, one after the other, and the rest waits. */
  lemma {:induction false} WritesFill(config: Config, writer: Oracle, actions: seq<Action>)
    requires OnlyWrites(actions)
    ensures var s, size := Run(config, writer, actions), Max(1, config.batchSize);
      |s.flushed| == |actions| / size && |s.buffer| == |actions| % size && !s.closed
      && forall i :: 0 <= i < |s.flushed| ==> |s.flushed[i].messages| == size
  {
    hide Step;
    if actions != [] {
      var n, size := |actions| - 1, Max(1, config.batchSize);
      WritesFill(config, writer, actions[..n]);
      var s, a := Run(config, writer, actions[..n]), actions[n];
      NextMultiple(n, size);
      WriteKeepsOpen(config, writer, s, a);
      if |s.buffer| + 1 < config.batchSize {
        WriteWaits(config, writer, s, a.m.value, a.inTime);
      } else {
        WriteFills(config, writer, s, a.m.value, a.inTime);
      }
    } else {
      NoMultiple(Max(1, config.batchSize));
    }
  }

  lemma {:induction false} WriteKeepsOpen(config: Config, writer: Oracle, s: Batch, a: Action)
    requires a.Write?
    ensures Step(config, writer, s, a).closed == s.closed
  {
    hide Deliver;
  }

  lemma {:induction false} NoMultiple(size: nat)
    requires size >= 1
    ensures 0 / size == 0 && 0 % size == 0
  {
  }

  lemma {:induction false} NextMultiple(n: nat, size: nat)
    requires size >= 1
    ensures if n % size + 1 < size then (n + 1) / size == n / size && (n + 1) % size == n % size + 1
            else (n + 1) / size == n / size + 1 && (n + 1) % size == 0
  {
    var q, r := n / size, n % size;
    assert n == q * size + r;
    if r + 1 < size {
      Division(n + 1, size, q, r + 1);
    } else {
      assert (q + 1) * size == q * size + size;
      Division(n + 1, size, q + 1, 0);
    }
  }

  lemma {:induction false} Multiples(d: int, size: nat)
    ensures d >= 1 ==> d * size >= size
    ensures d <= -1 ==> d * size <= 0 - size
  {
  }

  lemma {:induction false} Division(n: nat, size: nat, q: nat, r: nat)
    requires size >= 1 && n == q * size + r && r < size
    ensures n / size == q && n % size == r
  {
    var d := n / size - q;
    assert (n / size) * size == q * size + d * size;
    assert d * size == r - n % size;
    Multiples(d, size);
  }

  // ---------------------------------------------------------------- the per-event sink

  /** The messages of the events that could be encoded. */
  function Encodable(writes: seq<Option<Message>>): seq<Message> {
    if writes == [] then []
    else
      var n := |writes| - 1;
      Encodable(writes[..n]) + if writes[n].Some? then [writes[n].value] else []
  }

  /** One event, one outcome; with a writer that succeeds every encodable event is sent, in order. */
  lemma {:induction false} SingleAccounted(writer: Oracle, retries: nat, writes: seq<Option<Message>>)
    ensures var s := RunSingle(writer, retries, writes);
      s.count == |s.sent| && s.count + s.failed == |writes|
      && ((forall n :: writer(n)) ==> s.sent == Encodable(writes))
  {
    hide Deliver;
    if writes != [] {
      var n := |writes| - 1;
      SingleAccounted(writer, retries, writes[..n]);
      DeliverOutcome(writer, RunSingle(writer, retries, writes[..n]).calls, retries);
    }
  }

  // ---------------------------------------------------------------- batching refines per-event delivery

  function Writes(actions: seq<Action>): seq<Option<Message>> {
    if actions == [] then []
    else
      var n := |actions| - 1;
      Writes(actions[..n]) + if actions[n].Write? then [actions[n].m] else []
  }

  predicate NoClose(actions: seq<Action>) { forall i :: 0 <= i < |actions| ==> !actions[i].Close? }

  /** While open: the messages handed over or waiting are those the per-event sink has sent. */
  predicate Matches(b: Batch, s: Single) {
    !b.closed && b.accepted == s.sent && b.unencodable == s.failed && s.count == |s.sent|
    && Total(b.flushed, false) == 0
  }

  lemma {:induction false} FlushMatches(config: Config, writer: Oracle, b: Batch, inTime: bool, s: Single)
    requires forall n :: writer(n)
    requires Matches(b, s)
    ensures Matches(FlushLocked(config, writer, b, inTime), s)
  {
    hide Deliver, Messages, Total;
    DeliverOutcome(writer, b.calls, config.retries);
    MessagesSnoc(b.flushed, Flushed(b.buffer, true));
  }

  lemma {:induction false} StepMatches(config: Config, writer: Oracle, b: Batch, a: Action, s: Single, retries: nat)
    requires forall n :: writer(n)
    requires Matches(b, s) && !a.Close?
    ensures Matches(Step(config, writer, b, a), if a.Write? then WriteSingle(writer, retries, s, a.m) else s)
  {
    hide Deliver, Total, FlushLocked;
    match a
    case Write(m, inTime) =>
      if m.Some? {
        DeliverOutcome(writer, s.calls, retries);
        FlushMatches(config, writer, b.(buffer := b.buffer + [m.value], accepted := b.accepted + [m.value]), inTime,
                     WriteSingle(writer, retries, s, m));
      }
    case Fire(timer, inTime) => FlushMatches(config, writer, b.(pending := b.pending - {timer}), inTime, s);
    case Flush(inTime) => FlushMatches(config, writer, b, inTime, s);
  }

  lemma {:induction false} RunMatches(config: Config, writer: Oracle, retries: nat, actions: seq<Action>)
    requires forall n :: writer(n)
    requires NoClose(actions)
    ensures Matches(Run(config, writer, actions), RunSingle(writer, retries, Writes(actions)))
  {
    hide Step, WriteSingle;
    if actions != [] {
      var n := |actions| - 1;
      RunMatches(config, writer, retries, actions[..n]);
      StepMatches(config, writer, Run(config, writer, actions[..n]), actions[n],
        RunSingle(writer, retries, Writes(actions[..n])), retries);
      if actions[n].Write? {
        assert Writes(actions)[..|Writes(actions)| - 1] == Writes(actions[..n]);
      } else {
        assert Writes(actions) == Writes(actions[..n]);
      }
    }
  }

  /**
   Batching refines per-event delivery: with a writer that always succeeds, whatever the batch
   size, the retries and the placement of timer firings and flushes, after `Close` the flushed
   messages, in order, and both counters are those of the per-event sink.
   */
  lemma {:induction false} BatchingRefines(
      config: Config, writer: Oracle, retries: nat, actions: seq<Action>, inTime: bool)
    requires forall n :: writer(n)
    requires NoClose(actions)
    ensures var b, s := Run(config, writer, actions + [Close(inTime)]), RunSingle(writer, retries, Writes(actions));
      Messages(b.flushed) == s.sent && b.count == s.count && b.failed == s.failed
      && b.buffer == [] && b.closed
  {
    hide Deliver, Messages, Step, Total;
    var all := actions + [Close(inTime)];
    assert all[..|actions|] == actions;
    RunMatches(config, writer, retries, actions);
    CloseMatches(config, writer, Run(config, writer, actions), inTime, RunSingle(writer, retries, Writes(actions)));
    AlwaysAccounted(config, writer, all);
    var c := Run(config, writer, all);
    assert Messages(c.flushed) + [] == Messages(c.flushed);
    TotalMessages(c.flushed);
  }

  lemma {:induction false} CloseMatches(config: Config, writer: Oracle, b: Batch, inTime: bool, s: Single)
    requires forall n :: writer(n)
    requires Matches(b, s)
    ensures var c := Step(config, writer, b, Close(inTime));
      c.closed && c.buffer == [] && c.accepted == s.sent && c.unencodable == s.failed && Total(c.flushed, false) == 0
  {
    hide Deliver, Messages, Total;
    DeliverOutcome(writer, b.calls, config.retries);
    MessagesSnoc(b.flushed, Flushed(b.buffer, true));
  }

  lemma {:induction false} TotalMessages(flushed: seq<Flushed>)
    ensures |Messages(flushed)| == Total(flushed, true) + Total(flushed, false)
  {
    if flushed != [] {
      TotalMessages(flushed[..|flushed| - 1]);
    }
  }
}
