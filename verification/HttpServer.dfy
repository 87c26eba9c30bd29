/**
 The HTTP endpoint as the source writes it (runtime-go/internal/server/http_server.go): fields
 under a mutex, a method per critical section or channel operation. Other goroutines may run
 between any two of these methods; each one is a step of the state machine in HttpStream. The
 last methods run a whole write and a whole request in a moment when nothing interferes.
 */
module HttpServer {
  import opened Common
  import opened Events
  import opened HttpStream

  /** What a request's goroutine holds: the replay still to write, its channel, and the response so far. */
  datatype Conn = Conn(replay: seq<Event>, channel: seq<Event>, written: seq<Event>, subscribed: bool)

  /** The record kept beside it. */
  datatype Record = Record(joined: nat, sent: seq<nat>, missed: nat)

  function Full(c: Conn, r: Record): Client {
    Client(c.replay, c.channel, c.written, c.subscribed, r.joined, r.sent, r.missed)
  }

  ghost function Merge(conns: map<nat, Conn>, records: map<nat, Record>): map<nat, Client> {
    map c | c in conns && c in records :: Full(conns[c], records[c])
  }

  lemma {:induction false} MergeBoth(conns: map<nat, Conn>, records: map<nat, Record>, c: nat, x: Conn, r: Record)
    ensures Merge(conns[c := x], records[c := r]) == Merge(conns, records)[c := Full(x, r)]
  {
  }

  lemma {:induction false} MergeConn(conns: map<nat, Conn>, records: map<nat, Record>, c: nat, x: Conn)
    requires c in records
    ensures Merge(conns[c := x], records) == Merge(conns, records)[c := Full(x, records[c])]
  {
  }

  lemma {:induction false} MergeRecord(conns: map<nat, Conn>, records: map<nat, Record>, c: nat, r: Record)
    requires c in conns
    ensures Merge(conns, records[c := r]) == Merge(conns, records)[c := Full(conns[c], r)]
  {
  }

  // ---------------------------------------------------------------- one write, subscriber by subscriber

  /** The subscriber takes the event: it is not slow and its channel has room. */
  predicate Takes(client: Client, slow: bool) { !slow && |client.channel| < 1000 }

  /** The subscriber after the event at this history position was offered to it. */
  function Offered(client: Client, ev: Event, position: nat, slow: bool): Client {
    if Takes(client, slow) then client.(channel := client.channel + [ev], sent := client.sent + [position])
    else client.(missed := client.missed + 1)
  }

  /** The first `n` subscribers have been offered the event, nobody else was touched. */
  ghost predicate Served(
      before: map<nat, Client>, after: map<nat, Client>, subs: seq<nat>, slow: seq<bool>, ev: Event, position: nat,
      n: nat)
    requires n <= |subs| == |slow|
  {
    after.Keys == before.Keys
    && (forall i :: 0 <= i < n ==>
          subs[i] in before && after[subs[i]] == Offered(before[subs[i]], ev, position, slow[i]))
    && forall c :: c in before && c !in subs[..n] ==> after[c] == before[c]
  }

  /** One of the first `n` subscribers took the event. */
  ghost predicate SomeTook(before: map<nat, Client>, subs: seq<nat>, slow: seq<bool>, n: nat)
    requires n <= |subs| == |slow|
  {
    exists i :: 0 <= i < n && subs[i] in before && Takes(before[subs[i]], slow[i])
  }

  lemma {:induction false} ServedSnoc(
      before: map<nat, Client>, after: map<nat, Client>, subs: seq<nat>, slow: seq<bool>, ev: Event, position: nat,
      n: nat)
    requires n < |subs| == |slow| && Distinct(subs) && subs[n] in before
    requires Served(before, after, subs, slow, ev, position, n)
    ensures after[subs[n]] == before[subs[n]]
    ensures var x := Offered(before[subs[n]], ev, position, slow[n]);
      Served(before, after[subs[n] := x], subs, slow, ev, position, n + 1)
    ensures SomeTook(before, subs, slow, n + 1)
       <==> SomeTook(before, subs, slow, n) || Takes(before[subs[n]], slow[n])
  {
    hide Offered, Takes;
    var c := subs[n];
    assert c !in subs[..n];
    var after' := after[c := Offered(before[c], ev, position, slow[n])];
    assert subs[..n + 1] == subs[..n] + [c];
    forall i | 0 <= i < n ensures after'[subs[i]] == after[subs[i]] {
      assert subs[i] != c;
    }
  }

  /** The send loop after `n` subscribers. */
  ghost predicate Halfway(s: Server, before: map<nat, Client>, slow: seq<bool>, n: nat) {
    Inv(s) && s.writer.Sending? && s.writer.next == n <= |slow| == |s.writer.targets| && s.history != []
    && (s.writer.delivered > 0 <==> SomeTook(before, s.writer.targets, slow, n))
    && Served(before, s.clients, s.writer.targets, slow, s.writer.ev, |s.history| - 1, n)
  }

  /** One round of the loop leaves everything else of the server alone. */
  lemma {:induction false} OfferServed(s: Server, before: map<nat, Client>, slow: seq<bool>, n: nat)
    requires Halfway(s, before, slow, n) && n < |slow|
    ensures Offering(s)
    ensures var t := Step(s, if Takes(s.clients[s.writer.targets[n]], slow[n]) then Send else TimeOut);
      Halfway(t, before, slow, n + 1)
      && t == s.(clients := t.clients, writer := s.writer.(next := n + 1, delivered := t.writer.delivered))
  {
    hide LastN, ClientOk, SubsOk, UpToDate, SomeTook, Served;
    StepKeeps(s, TimeOut);
    StepKeeps(s, Send);
    ServedKeys(before, s.clients, s.writer.targets, slow, s.writer.ev, |s.history| - 1, n);
    ServedSnoc(before, s.clients, s.writer.targets, slow, s.writer.ev, |s.history| - 1, n);
    hide Inv;
  }

  lemma {:induction false} ServedKeys(
      before: map<nat, Client>, after: map<nat, Client>, subs: seq<nat>, slow: seq<bool>, ev: Event, position: nat,
      n: nat)
    requires n <= |subs| == |slow| && Served(before, after, subs, slow, ev, position, n)
    ensures before.Keys == after.Keys
  {
  }

  class HTTPServer {
    var buffer: seq<Event>
    var subs: seq<nat>
    var conns: map<nat, Conn>
    var emitted: nat
    var failed: nat
    var writer: Writer
    ghost var records: map<nat, Record>
    ghost var history: seq<Event>

    ghost predicate Valid()
      reads this
    {
      conns.Keys == records.Keys
    }

    ghost function Clients(): map<nat, Client>
      reads this
    {
      Merge(conns, records)
    }

    ghost function State(): Server
      reads this
    {
      Server(buffer, subs, Clients(), writer, emitted, failed, history)
    }

    constructor ()
      ensures Valid() && State() == INITIAL
    {
      buffer, subs, conns := [], [], map[];
      emitted, failed, writer := 0, 0, Idle;
      history, records := [], map[];
    }

    /** The locked part of `Write`: retain, trim, copy the subscriber list. */
    method BeginWrite(ev: Event)
      requires Valid() && writer.Idle?
      modifies this
      ensures Valid() && State() == Step(old(State()), Begin(ev))
    {
      buffer := buffer + [ev];
      if |buffer| > REPLAY_LIMIT {
        buffer := buffer[|buffer| - REPLAY_LIMIT..];
      }
      history := history + [ev];
      writer := Sending(ev, subs, 0, 0);
    }

    /** One round of the send loop: into the channel if there is room before the timeout. */
    method SendNext(slow: bool)
      requires Valid() && Offering(State())
      modifies this
      ensures Valid()
      ensures var s := old(State());
        State() == Step(s, if Takes(s.clients[s.writer.targets[s.writer.next]], slow) then Send else TimeOut)
    {
      var ch := writer.targets[writer.next];
      var conn := conns[ch];
      ghost var record := records[ch];
      if !slow && |conn.channel| < CHANNEL_LIMIT {
        ghost var sent := record.(sent := record.sent + [|history| - 1]);
        MergeBoth(conns, records, ch, conn.(channel := conn.channel + [writer.ev]), sent);
        conns := conns[ch := conn.(channel := conn.channel + [writer.ev])];
        records := records[ch := sent];
        writer := writer.(next := writer.next + 1, delivered := writer.delivered + 1);
      } else {
        MergeRecord(conns, records, ch, record.(missed := record.missed + 1));
        records := records[ch := record.(missed := record.missed + 1)];
        writer := writer.(next := writer.next + 1);
      }
    }

    /** The accounting at the end of `Write`; an error when clients exist but none took the event. */
    method EndWrite() returns (ok: bool)
      requires Valid() && writer.Sending? && writer.next == |writer.targets|
      modifies this
      ensures Valid() && State() == Step(old(State()), End)
      ensures ok <==> failed == old(failed)
    {
      var w := writer;
      writer := Idle;
      ok := true;
      if w.targets == [] {
        return;
      }
      if w.delivered > 0 {
        emitted := emitted + 1;
      } else {
        failed := failed + 1;
        ok := false;
      }
    }

    /** A write that fails to encode touches only the counter. */
    method RejectWrite()
      requires Valid() && writer.Idle?
      modifies this
      ensures Valid() && State() == Step(old(State()), Reject)
    {
      failed := failed + 1;
    }

    /** The locked part of `handleEvents`: copy the replay buffer and subscribe, in one critical section. */
    method Subscribe(ch: nat)
      requires Valid() && ch !in conns
      modifies this
      ensures Valid() && State() == Step(old(State()), Join(ch))
    {
      MergeBoth(conns, records, ch, Conn(buffer, [], [], true), Record(|history|, [], 0));
      conns := conns[ch := Conn(buffer, [], [], true)];
      records := records[ch := Record(|history|, [], 0)];
      subs := subs + [ch];
    }

    /** Writes the next event of a client's response: first the replay, then its channel. */
    method WriteNext(ch: nat) returns (wrote: bool)
      requires Valid() && ch in Clients() && Clients()[ch].subscribed
      modifies this
      ensures Valid()
      ensures State() == Step(old(State()), if old(Clients())[ch].replay != [] then Replay(ch) else Receive(ch))
      ensures wrote <==> old(Clients())[ch].replay != [] || old(Clients())[ch].channel != []
    {
      var conn := conns[ch];
      wrote := true;
      if conn.replay != [] {
        conn := conn.(replay := conn.replay[1..], written := conn.written + [conn.replay[0]]);
      } else if conn.channel != [] {
        conn := conn.(channel := conn.channel[1..], written := conn.written + [conn.channel[0]]);
      } else {
        return false;
      }
      MergeConn(conns, records, ch, conn);
      conns := conns[ch := conn];
    }

    /** The deferred removal: the first matching subscriber goes. */
    method Unsubscribe(ch: nat)
      requires Valid() && ch in Clients() && Clients()[ch].subscribed && Clients()[ch].replay == []
      modifies this
      ensures Valid() && State() == Step(old(State()), Leave(ch))
    {
      hide Without;
      MergeConn(conns, records, ch, conns[ch].(subscribed := false));
      conns := conns[ch := conns[ch].(subscribed := false)];
      subs := RemoveFirst(subs, ch);
    }

    method RemoveFirst(list: seq<nat>, ch: nat) returns (rest: seq<nat>)
      ensures rest == Without(list, ch)
    {
      var i := 0;
      while i < |list| && list[i] != ch
        invariant i <= |list|
        invariant Without(list, ch) == list[..i] + Without(list[i..], ch)
      {
        assert list[i..][1..] == list[i + 1..];
        assert list[..i + 1] == list[..i] + [list[i]];
        ConcatAssociative(list[..i], [list[i]], Without(list[i + 1..], ch));
        i := i + 1;
      }
      if i < |list| {
        assert list[i..][1..] == list[i + 1..];
        rest := list[..i] + list[i + 1..];
      } else {
        rest := list;
      }
    }

    /**
     A whole `Write`: every subscriber that is ready gets the event at the end of its channel, the
     others miss it, nobody else is touched; it counts as emitted if someone took it, as failed
     if there were subscribers and nobody did, and only then returns an error.
     */
    method WriteAlone(ev: Event, slow: seq<bool>) returns (ok: bool)
      requires Valid() && writer.Idle? && Inv(State()) && |slow| == |subs|
      modifies this
      ensures Valid() && Inv(State()) && writer.Idle?
      ensures history == old(history) + [ev] && buffer == LastN(old(buffer) + [ev], REPLAY_LIMIT) && subs == old(subs)
      ensures Served(old(Clients()), Clients(), subs, slow, ev, |old(history)|, |subs|)
      ensures var took := SomeTook(old(Clients()), subs, slow, |subs|);
        emitted == old(emitted) + (if took then 1 else 0)
        && failed == old(failed) + (if subs != [] && !took then 1 else 0)
      ensures ok <==> failed == old(failed)
    {
      hide LastN, ClientOk, Served, SomeTook, UpToDate, Merge;
      StepKeeps(State(), Begin(ev));
      BeginWrite(ev);
      SendAll(slow);
      StepKeeps(State(), End);
      ok := EndWrite();
      NobodyTook(old(Clients()), subs, slow);
    }

    method SendAll(slow: seq<bool>)
      requires Valid() && Inv(State()) && writer.Sending? && writer.next == 0 && writer.delivered == 0
      requires |slow| == |writer.targets|
      modifies this
      ensures Valid() && Inv(State()) && buffer == old(buffer) && history == old(history) && subs == old(subs)
      ensures emitted == old(emitted) && failed == old(failed)
      ensures writer.Sending? && writer.targets == old(writer).targets && writer.next == |slow|
      ensures writer.delivered > 0 <==> SomeTook(old(Clients()), writer.targets, slow, |slow|)
      ensures Served(old(Clients()), Clients(), writer.targets, slow, old(writer).ev, |history| - 1, |slow|)
    {
      hide LastN, ClientOk, SubsOk, UpToDate, Served, SomeTook, Merge, Step, Takes;
      ghost var before := Clients();
      NoneServed(before, writer.targets, slow, writer.ev, |history| - 1);
      for i := 0 to |slow|
        invariant Valid() && buffer == old(buffer) && history == old(history) && subs == old(subs)
        invariant emitted == old(emitted) && failed == old(failed)
        invariant writer.Sending? && writer.targets == old(writer).targets && writer.ev == old(writer).ev
        invariant Halfway(State(), before, slow, i)
      {
        OfferServed(State(), before, slow, i);
        SendNext(slow[i]);
      }
    }

    /** The response loop until there is nothing left to write: the replay, then the channel, each in order. */
    method CatchUp(ch: nat)
      requires Valid() && ch in Clients() && Clients()[ch].subscribed
      modifies this
      ensures Valid()
      ensures State() == old(State()).(clients := old(Clients())[ch := Drained(old(Clients())[ch])])
    {
      ghost var before := Clients();
      var wrote := true;
      while wrote
        invariant Valid() && ch in Clients() && Clients()[ch].subscribed
        invariant State() == old(State()).(clients := before[ch := Clients()[ch]])
        invariant Drained(Clients()[ch]) == Drained(before[ch])
        invariant !wrote ==> Clients()[ch].replay == [] && Clients()[ch].channel == []
        decreases |Clients()[ch].replay| + |Clients()[ch].channel|, wrote
      {
        ghost var client := Clients()[ch];
        DrainedStep(client);
        wrote := WriteNext(ch);
      }
      assert Clients()[ch].written + [] + [] == Clients()[ch].written;
    }

    /**
     A whole request: the response is exactly the replay buffer, and afterwards the subscriber
     list and everybody else are as they were.
     */
    method HandleEvents(ch: nat)
      requires Valid() && ch !in conns && ch !in subs
      modifies this
      ensures Valid() && subs == old(subs) && buffer == old(buffer) && history == old(history)
      ensures Clients() == old(Clients())[ch := Client([], [], buffer, false, |history|, [], 0)]
    {
      Subscribe(ch);
      CatchUp(ch);
      assert [] + buffer + [] == buffer;
      Unsubscribe(ch);
      WithoutLast(old(subs), ch);
    }
  }

  lemma {:induction false} NoneServed(
      before: map<nat, Client>, subs: seq<nat>, slow: seq<bool>, ev: Event, position: nat)
    requires |subs| == |slow|
    ensures Served(before, before, subs, slow, ev, position, 0) && !SomeTook(before, subs, slow, 0)
  {
  }

  lemma {:induction false} NobodyTook(before: map<nat, Client>, subs: seq<nat>, slow: seq<bool>)
    requires |subs| == |slow|
    ensures subs == [] ==> !SomeTook(before, subs, slow, |subs|)
  {
  }

  /** A client after it has written everything it holds. */
  function Drained(client: Client): Client {
    client.(replay := [], channel := [], written := client.written + client.replay + client.channel)
  }

  lemma {:induction false} DrainedStep(client: Client)
    ensures client.replay != [] ==>
      Drained(client.(replay := client.replay[1..], written := client.written + [client.replay[0]])) == Drained(client)
    ensures client.replay == [] && client.channel != [] ==>
      Drained(client.(channel := client.channel[1..], written := client.written + [client.channel[0]]))
        == Drained(client)
  {
    if client.replay != [] {
      assert client.replay == [client.replay[0]] + client.replay[1..];
      ConcatAssociative(client.written, [client.replay[0]], client.replay[1..]);
    } else if client.channel != [] {
      assert client.channel == [client.channel[0]] + client.channel[1..];
      assert client.written + [] == client.written;
      assert client.written + [client.channel[0]] + [] == client.written + [client.channel[0]];
      ConcatAssociative(client.written, [client.channel[0]], client.channel[1..]);
    }
  }

  lemma {:induction false} WithoutLast(subs: seq<nat>, c: nat)
    requires c !in subs
    ensures Without(subs + [c], c) == subs
  {
    if subs != [] {
      assert (subs + [c])[1..] == subs[1..] + [c];
      WithoutLast(subs[1..], c);
    } else {
      assert [c][1..] == [];
    }
  }
}
