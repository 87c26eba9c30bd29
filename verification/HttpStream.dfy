/**
 The HTTP endpoint's replay and live handoff (runtime-go/internal/server/http_server.go) as a
 state machine: one writer, any number of clients, every interleaving of their atomic steps.
 */
module HttpStream {
  import opened Common
  import opened Events

  const REPLAY_LIMIT: nat := 1000
  const CHANNEL_LIMIT: nat := 1000

  /**
   One connected (or formerly connected) client. `replay` is what it still has to write of the
   buffer it copied, `channel` its buffered channel, `written` its response body. The rest is
   a record: the history length when it joined, the history positions put into its channel,
   and how many events it missed because its channel stayed full.
   */
  datatype Client = Client(
    replay: seq<Event>,
    channel: seq<Event>,
    written: seq<Event>,
    subscribed: bool,
    joined: nat,
    sent: seq<nat>,
    missed: nat)

  /** A `Write` between its critical section and its return: the subscribers it copied and how far it got. */
  datatype Writer = Idle | Sending(ev: Event, targets: seq<nat>, next: nat, delivered: nat)

  /** `history` records every event whose `Write` passed its critical section. */
  datatype Server = Server(
    buffer: seq<Event>,
    subs: seq<nat>,
    clients: map<nat, Client>,
    writer: Writer,
    emitted: nat,
    failed: nat,
    history: seq<Event>)

  /** The atomic steps. A client is named by its channel. */
  datatype Action =
    | Reject
    | Begin(ev: Event)
    | Send
    | TimeOut
    | End
    | Join(c: nat)
    | Replay(c: nat)
    | Receive(c: nat)
    | Leave(c: nat)

  const INITIAL: Server := Server([], [], map[], Idle, 0, 0, [])

  /** The last `n` elements, or all of them. */
  function LastN<T>(s: seq<T>, n: nat): seq<T> { if |s| <= n then s else s[|s| - n..] }

  function Without(subs: seq<nat>, c: nat): (r: seq<nat>)
    ensures forall x :: x in r ==> x in subs
  {
    if subs == [] then [] else if subs[0] == c then subs[1..] else [subs[0]] + Without(subs[1..], c)
  }

  function Offer(s: Server, ok: bool): Server
    requires s.writer.Sending? && s.writer.next < |s.writer.targets|
    requires s.writer.targets[s.writer.next] in s.clients && s.history != []
  {
    var w, c := s.writer, s.writer.targets[s.writer.next];
    var client := s.clients[c];
    if ok then
      s.(writer := w.(next := w.next + 1, delivered := w.delivered + 1),
         clients := s.clients[
           c := client.(channel := client.channel + [w.ev], sent := client.sent + [|s.history| - 1])])
    else
      s.(writer := w.(next := w.next + 1), clients := s.clients[c := client.(missed := client.missed + 1)])
  }

  /** The writer stands before a subscriber. */
  predicate Offering(s: Server) {
    s.writer.Sending? && s.writer.next < |s.writer.targets| && s.writer.targets[s.writer.next] in s.clients
    && s.history != []
  }

  predicate Enabled(s: Server, a: Action) {
    match a
    case Reject => s.writer.Idle?
    case Begin(_) => s.writer.Idle?
    case Send => Offering(s) && |s.clients[s.writer.targets[s.writer.next]].channel| < CHANNEL_LIMIT
    case TimeOut => Offering(s)
    case End => s.writer.Sending? && s.writer.next == |s.writer.targets|
    case Join(c) => c !in s.clients
    case Replay(c) => c in s.clients && s.clients[c].subscribed && s.clients[c].replay != []
    case Receive(c) => c in s.clients && s.clients[c].subscribed && s.clients[c].replay == []
      && s.clients[c].channel != []
    case Leave(c) => c in s.clients && s.clients[c].subscribed && s.clients[c].replay == []
  }

  /** One atomic step; a step that is not enabled does not happen. */
  function Step(s: Server, a: Action): Server {
    if !Enabled(s, a) then s
    else
      match a
      case Reject => s.(failed := s.failed + 1)
      case Begin(ev) =>
        s.(buffer := LastN(s.buffer + [ev], REPLAY_LIMIT), history := s.history + [ev],
          writer := Sending(ev, s.subs, 0, 0))
      case Send => Offer(s, true)
      case TimeOut => Offer(s, false)
      case End =>
        if s.writer.targets == [] then s.(writer := Idle)
        else if s.writer.delivered > 0 then s.(writer := Idle, emitted := s.emitted + 1)
        else s.(writer := Idle, failed := s.failed + 1)
      case Join(c) =>
        s.(subs := s.subs + [c], clients := s.clients[c := Client(s.buffer, [], [], true, |s.history|, [], 0)])
      case Replay(c) =>
        var client := s.clients[c];
        s.(clients := s.clients[c := client.(replay := client.replay[1..],
          written := client.written + [client.replay[0]])])
      case Receive(c) =>
        var client := s.clients[c];
        s.(clients := s.clients[c := client.(channel := client.channel[1..],
          written := client.written + [client.channel[0]])])
      case Leave(c) =>
        s.(subs := Without(s.subs, c), clients := s.clients[c := s.clients[c].(subscribed := false)])
  }

  /** The state after any sequence of steps, in any interleaving. */
  function Run(actions: seq<Action>): Server {
    if actions == [] then INITIAL
    else Step(Run(actions[..|actions| - 1]), actions[|actions| - 1])
  }

  // ---------------------------------------------------------------- the invariant

  /** The history at the given positions. */
  function Pick(history: seq<Event>, positions: seq<nat>): (r: seq<Event>)
    requires forall i :: 0 <= i < |positions| ==> positions[i] < |history|
    ensures |r| == |positions| && forall i :: 0 <= i < |r| ==> r[i] == history[positions[i]]
  {
    seq(|positions|, i requires 0 <= i < |positions| => history[positions[i]])
  }

  predicate Increasing(positions: seq<nat>, low: nat, high: nat) {
    (forall i :: 0 <= i < |positions| ==> low <= positions[i] < high)
    && forall i, j :: 0 <= i < j < |positions| ==> positions[i] < positions[j]
  }

  predicate Distinct(s: seq<nat>) { forall i, j :: 0 <= i < j < |s| ==> s[i] != s[j] }

  /** The current write has not yet come to this client. */
  predicate Awaiting(w: Writer, c: nat) {
    w.Sending? && exists i :: w.next <= i < |w.targets| && w.targets[i] == c
  }

  /** The positions of the history that have been offered to the client end here. */
  function Frontier(client: Client): nat { client.joined + |client.sent| + client.missed }

  /** What one client has seen, will see, and has missed. */
  predicate ClientOk(history: seq<Event>, client: Client) {
    Frontier(client) <= |history|
    && |client.channel| <= CHANNEL_LIMIT
    && Increasing(client.sent, client.joined, Frontier(client))
    && client.written + client.replay + client.channel
       == LastN(history[..client.joined], REPLAY_LIMIT) + Pick(history, client.sent)
  }

  /** A subscriber has been offered everything since it joined, except the event being sent. */
  predicate UpToDate(s: Server, c: nat)
    requires c in s.clients
  {
    var client := s.clients[c];
    (Awaiting(s.writer, c) ==> Frontier(client) == |s.history| - 1)
    && (client.subscribed && !Awaiting(s.writer, c) ==> Frontier(client) == |s.history|)
  }

  predicate WriterOk(s: Server) {
    s.writer.Sending? ==>
      s.history != [] && s.writer.ev == s.history[|s.history| - 1] && s.writer.next <= |s.writer.targets|
      && Distinct(s.writer.targets) && forall i :: 0 <= i < |s.writer.targets| ==> s.writer.targets[i] in s.clients
  }

  ghost predicate SubsOk(s: Server) {
    Distinct(s.subs) && forall c :: c in s.subs <==> c in s.clients && s.clients[c].subscribed
  }

  ghost predicate Inv(s: Server) {
    s.buffer == LastN(s.history, REPLAY_LIMIT)
    && WriterOk(s) && SubsOk(s)
    && (forall c :: c in s.clients ==> ClientOk(s.history, s.clients[c]))
    && (forall c :: c in s.clients ==> UpToDate(s, c))
  }

  /** Trimming after every append keeps exactly the last events. */
  lemma {:induction false} LastNAppend(s: seq<Event>, e: Event, n: nat)
    requires n > 0
    ensures LastN(LastN(s, n) + [e], n) == LastN(s + [e], n)
  {
    if |s| >= n {
      var t := LastN(s, n) + [e];
      assert t == (s + [e])[|s| - n..];
      assert t[|t| - n..] == (s + [e])[|s| + 1 - n..];
      assert LastN(t, n) == t[|t| - n..] && LastN(s + [e], n) == (s + [e])[|s| + 1 - n..];
    }
  }

  lemma {:induction false} WithoutDistinct(subs: seq<nat>, c: nat)
    requires Distinct(subs)
    ensures Distinct(Without(subs, c))
    ensures forall x :: x in Without(subs, c) <==> x in subs && x != c
  {
    if subs != [] {
      assert subs == [subs[0]] + subs[1..];
      if subs[0] == c {
        assert forall i :: 0 < i < |subs| ==> subs[i] != c;
      } else {
        WithoutDistinct(subs[1..], c);
        var rest := Without(subs[1..], c);
        assert forall i :: 0 <= i < |rest| ==> rest[i] in rest;
        assert subs[0] !in subs[1..] && subs[0] !in rest;
        assert Without(subs, c) == [subs[0]] + rest;
      }
    }
  }

  /** A longer history changes nothing for a client. */
  lemma {:induction false} ClientKept(history: seq<Event>, ev: Event, client: Client)
    requires ClientOk(history, client)
    ensures ClientOk(history + [ev], client)
  {
    assert (history + [ev])[..client.joined] == history[..client.joined];
    assert Pick(history + [ev], client.sent) == Pick(history, client.sent);
  }

  lemma {:induction false} BeginKeeps(s: Server, ev: Event)
    requires Inv(s) && s.writer.Idle?
    ensures Inv(Step(s, Begin(ev)))
  {
    hide LastN, ClientOk;
    var t := Step(s, Begin(ev));
    LastNAppend(s.history, ev, REPLAY_LIMIT);
    forall c | c in t.clients ensures ClientOk(t.history, t.clients[c]) && UpToDate(t, c) {
      ClientKept(s.history, ev, s.clients[c]);
      if s.clients[c].subscribed {
        assert c in s.subs;
      }
    }
  }

  /** Putting the newest event into a channel. */
  lemma {:induction false} OfferClient(history: seq<Event>, client: Client)
    requires ClientOk(history, client) && history != [] && Frontier(client) == |history| - 1
    ensures ClientOk(history, client.(missed := client.missed + 1))
    ensures |client.channel| < CHANNEL_LIMIT ==>
      ClientOk(history, client.(channel := client.channel + [history[|history| - 1]],
        sent := client.sent + [|history| - 1]))
  {
    hide LastN;
    var last := |history| - 1;
    assert Pick(history, client.sent + [last]) == Pick(history, client.sent) + [history[last]];
    ConcatAssociative(client.written + client.replay, client.channel, [history[last]]);
    ConcatAssociative(LastN(history[..client.joined], REPLAY_LIMIT), Pick(history, client.sent), [history[last]]);
  }

  lemma {:induction false} OfferKeeps(s: Server, ok: bool)
    requires Inv(s) && Offering(s)
    requires ok ==> |s.clients[s.writer.targets[s.writer.next]].channel| < CHANNEL_LIMIT
    ensures Inv(Offer(s, ok))
  {
    hide LastN, ClientOk;
    var w, t := s.writer, Offer(s, ok);
    var c := w.targets[w.next];
    assert Awaiting(w, c);
    OfferClient(s.history, s.clients[c]);
    forall d | d in t.clients ensures UpToDate(t, d) {
      OfferAwaiting(w, t.writer, d);
    }
  }

  /** After an offer only the client it went to stops waiting. */
  lemma {:induction false} OfferAwaiting(w: Writer, w': Writer, d: nat)
    requires w.Sending? && w'.Sending? && w.next < |w.targets| && Distinct(w.targets)
    requires w'.targets == w.targets && w'.next == w.next + 1
    ensures Awaiting(w', d) <==> Awaiting(w, d) && d != w.targets[w.next]
  {
    if Awaiting(w, d) && d != w.targets[w.next] {
      var i :| w.next <= i < |w.targets| && w.targets[i] == d;
      assert w'.next <= i;
    }
  }

  /** Moving the head of the replay or of the channel into the response body keeps the stream. */
  lemma {:induction false} ReadClient(history: seq<Event>, client: Client)
    requires ClientOk(history, client)
    ensures client.replay != [] ==>
      ClientOk(history, client.(replay := client.replay[1..], written := client.written + [client.replay[0]]))
    ensures client.replay == [] && client.channel != [] ==>
      ClientOk(history, client.(channel := client.channel[1..], written := client.written + [client.channel[0]]))
  {
    hide LastN;
    if client.replay != [] {
      assert [client.replay[0]] + client.replay[1..] == client.replay;
      ConcatAssociative(client.written, [client.replay[0]], client.replay[1..]);
    } else if client.channel != [] {
      assert [client.channel[0]] + client.channel[1..] == client.channel;
      assert client.written + [] == client.written;
      assert client.written + [client.channel[0]] + [] == client.written + [client.channel[0]];
      ConcatAssociative(client.written, [client.channel[0]], client.channel[1..]);
    }
  }

  lemma {:induction false} ReadKeeps(s: Server, a: Action)
    requires Inv(s) && (a.Replay? || a.Receive?) && Enabled(s, a)
    ensures Inv(Step(s, a))
  {
    hide LastN, ClientOk;
    ReadClient(s.history, s.clients[a.c]);
    var t := Step(s, a);
    forall d | d in t.clients ensures UpToDate(t, d) {
      assert UpToDate(s, d);
    }
  }

  lemma {:induction false} JoinKeeps(s: Server, c: nat)
    requires Inv(s) && c !in s.clients
    ensures Inv(Step(s, Join(c)))
  {
    hide LastN;
    var t := Step(s, Join(c));
    var client := t.clients[c];
    assert s.history[..|s.history|] == s.history;
    assert Pick(s.history, []) == [];
    assert client.written + client.replay + client.channel == s.buffer == LastN(s.history, REPLAY_LIMIT) + [];
    assert c !in s.subs && !Awaiting(s.writer, c);
  }

  lemma {:induction false} LeaveKeeps(s: Server, c: nat)
    requires Inv(s) && Enabled(s, Leave(c))
    ensures Inv(Step(s, Leave(c)))
  {
    hide LastN;
    WithoutDistinct(s.subs, c);
    var t := Step(s, Leave(c));
    assert ClientOk(t.history, t.clients[c]) by {
      assert ClientOk(s.history, s.clients[c]);
    }
    forall d | d in t.clients ensures UpToDate(t, d) {
      assert UpToDate(s, d);
    }
  }

  lemma {:induction false} StepKeeps(s: Server, a: Action)
    requires Inv(s)
    ensures Inv(Step(s, a))
  {
    if Enabled(s, a) {
      match a
      case Begin(ev) => BeginKeeps(s, ev);
      case Send => OfferKeeps(s, true);
      case TimeOut => OfferKeeps(s, false);
      case Join(c) => JoinKeeps(s, c);
      case Replay(_) => ReadKeeps(s, a);
      case Receive(_) => ReadKeeps(s, a);
      case Leave(c) => LeaveKeeps(s, c);
      case End => QuietKeeps(s, a);
      case Reject => QuietKeeps(s, a);
    }
  }

  lemma {:induction false} QuietKeeps(s: Server, a: Action)
    requires Inv(s) && (a.End? || a.Reject?) && Enabled(s, a)
    ensures Inv(Step(s, a))
  {
    hide LastN, ClientOk;
    var t := Step(s, a);
    forall d | d in t.clients ensures UpToDate(t, d) {
      assert UpToDate(s, d);
      assert !Awaiting(s.writer, d) && !Awaiting(t.writer, d);
    }
  }

  lemma {:induction false} AlwaysInv(actions: seq<Action>)
    ensures Inv(Run(actions))
  {
    hide Inv, Step;
    if actions != [] {
      AlwaysInv(actions[..|actions| - 1]);
      StepKeeps(Run(actions[..|actions| - 1]), actions[|actions| - 1]);
    } else {
      InitialInv();
    }
  }

  lemma {:induction false} InitialInv()
    ensures Inv(INITIAL)
  {
  }

  // ---------------------------------------------------------------- what a client gets

  /** Increasing positions that fill their range are the range. */
  lemma {:induction false} FullRange(positions: seq<nat>, low: nat, high: nat)
    requires Increasing(positions, low, high) && |positions| == high - low
    ensures forall i :: 0 <= i < |positions| ==> positions[i] == low + i
  {
    if positions != [] {
      var n := |positions| - 1;
      var p := positions[..n];
      if n > 0 {
        IncreasingAtLeast(positions, low, high, n);
      }
      assert Increasing(p, low, high - 1) by {
        forall i | 0 <= i < |p| ensures low <= p[i] < high - 1 {
          assert positions[i] < positions[n];
        }
      }
      FullRange(p, low, high - 1);
      if n > 0 {
        assert positions[n - 1] == p[n - 1] == low + n - 1;
      }
    }
  }

  lemma {:induction false} IncreasingAtLeast(positions: seq<nat>, low: nat, high: nat, i: nat)
    requires Increasing(positions, low, high) && i < |positions|
    ensures positions[i] >= low + i
  {
    if i > 0 {
      IncreasingAtLeast(positions, low, high, i - 1);
    }
  }

  /** Where the replay of a client that joined at this length of the history begins: 1000 events back. */
  function ReplayFrom(joined: nat): (from: nat)
    ensures from <= joined
  {
    if joined <= 1000 then 0 else joined - 1000
  }

  lemma {:induction false} ReplayIs(history: seq<Event>, joined: nat)
    requires joined <= |history|
    ensures LastN(history[..joined], REPLAY_LIMIT) == history[ReplayFrom(joined)..joined]
  {
    if joined > 1000 {
      assert history[..joined][joined - 1000..] == history[joined - 1000..joined];
    }
  }

  /** The stream of one client, in terms of the history; at most 1000 events wait in its channel. */
  predicate Streams(history: seq<Event>, client: Client) {
    Frontier(client) <= |history| && |client.channel| <= 1000
    && Increasing(client.sent, client.joined, |history|)
    && client.written <= history[ReplayFrom(client.joined)..client.joined] + Pick(history, client.sent)
    && (client.missed == 0 ==> Pick(history, client.sent) == history[client.joined..Frontier(client)])
  }

  lemma {:induction false} ClientStreams(history: seq<Event>, client: Client)
    requires ClientOk(history, client)
    ensures Streams(history, client)
  {
    hide LastN;
    ReplayIs(history, client.joined);
    ConcatAssociative(client.written, client.replay, client.channel);
    if client.missed == 0 {
      FullRange(client.sent, client.joined, Frontier(client));
    }
  }

  /**
   Exactly-once handoff: at every moment of every run, a client's response body is a prefix of
   the last 1000 events of the history it joined at, followed by later events in order, each at
   most once and at positions from the join on. Without a timed-out send there is no gap: those
   later events are the ones directly after the join.
   */
  lemma {:induction false} ClientStream(actions: seq<Action>, c: nat)
    requires c in Run(actions).clients
    ensures Streams(Run(actions).history, Run(actions).clients[c])
  {
    hide ClientOk, Streams, UpToDate;
    AlwaysInv(actions);
    ClientStreams(Run(actions).history, Run(actions).clients[c]);
  }

  /**
   A subscriber that missed nothing and has read all there is, while no write is under way,
   has written the replayed history and every event since, without gap or repetition.
   */
  lemma {:induction false} CaughtUp(actions: seq<Action>, c: nat)
    requires c in Run(actions).clients && Run(actions).writer.Idle?
    requires var client := Run(actions).clients[c];
      client.subscribed && client.missed == 0 && client.replay == [] && client.channel == []
    ensures var s, client := Run(actions), Run(actions).clients[c];
      client.joined <= |s.history| && client.written == s.history[ReplayFrom(client.joined)..]
  {
    hide LastN, Streams;
    AlwaysInv(actions);
    var s := Run(actions);
    var client := s.clients[c];
    assert ClientOk(s.history, client) && UpToDate(s, c);
    AllRead(s.history, client);
  }

  lemma {:induction false} AllRead(history: seq<Event>, client: Client)
    requires ClientOk(history, client) && Frontier(client) == |history|
    requires client.missed == 0 && client.replay == [] && client.channel == []
    ensures client.written == history[ReplayFrom(client.joined)..]
  {
    hide LastN;
    ClientStreams(history, client);
    ReplayIs(history, client.joined);
    var from := ReplayFrom(client.joined);
    assert history[from..client.joined] + history[client.joined..] == history[from..];
    assert history[client.joined..|history|] == history[client.joined..];
    assert client.written + [] + [] == client.written;
  }

  /** Whatever happens, each event after the join is either put into the subscriber's channel or counted as missed. */
  lemma {:induction false} NothingSkipped(actions: seq<Action>, c: nat)
    requires c in Run(actions).subs
    ensures c in Run(actions).clients
    ensures var s, client := Run(actions), Run(actions).clients[c];
      client.joined + |client.sent| + client.missed == |s.history| - (if Awaiting(s.writer, c) then 1 else 0)
  {
    hide LastN, ClientOk;
    AlwaysInv(actions);
    var s := Run(actions);
    assert UpToDate(s, c);
  }

  // ---------------------------------------------------------------- the counters

  /** The history positions that went into at least one client's channel. */
  ghost function Delivered(clients: map<nat, Client>): set<nat> {
    set c, i | c in clients && 0 <= i < |clients[c].sent| :: clients[c].sent[i]
  }

  /** `emitted` counts the delivered events, the one being sent apart. */
  ghost predicate Counted(s: Server) {
    if s.writer.Idle? then |Delivered(s.clients)| == s.emitted
    else
      var last := |s.history| - 1;
      |Delivered(s.clients) - {last}| == s.emitted
      && (last in Delivered(s.clients) <==> s.writer.delivered > 0)
      && s.writer.delivered <= s.writer.next
  }

  lemma {:induction false} DeliveredBelow(s: Server)
    requires Inv(s)
    ensures forall p :: p in Delivered(s.clients) ==> p < |s.history|
  {
    forall p | p in Delivered(s.clients) ensures p < |s.history| {
      var c, i :| c in s.clients && 0 <= i < |s.clients[c].sent| && s.clients[c].sent[i] == p;
      assert ClientOk(s.history, s.clients[c]);
    }
  }

  /** Changing what a client has sent or received leaves the delivered positions alone, sending aside. */
  lemma {:induction false} DeliveredUpdate(clients: map<nat, Client>, c: nat, client: Client)
    ensures c in clients && client.sent == clients[c].sent ==> Delivered(clients[c := client]) == Delivered(clients)
    ensures c !in clients && client.sent == [] ==> Delivered(clients[c := client]) == Delivered(clients)
  {
    var after := clients[c := client];
    if (c in clients && client.sent == clients[c].sent) || (c !in clients && client.sent == []) {
      forall p ensures p in Delivered(after) <==> p in Delivered(clients) {
        if p in Delivered(after) {
          var d, i :| d in after && 0 <= i < |after[d].sent| && after[d].sent[i] == p;
          assert d in clients && clients[d].sent[i] == p;
        }
        if p in Delivered(clients) {
          var d, i :| d in clients && 0 <= i < |clients[d].sent| && clients[d].sent[i] == p;
          assert after[d].sent[i] == p;
        }
      }
    }
  }

  lemma {:induction false} DeliveredSend(clients: map<nat, Client>, c: nat, client: Client, last: nat)
    requires c in clients && client.sent == clients[c].sent + [last]
    ensures Delivered(clients[c := client]) == Delivered(clients) + {last}
  {
    var after := clients[c := client];
    forall p ensures p in Delivered(after) <==> p in Delivered(clients) + {last} {
      if p in Delivered(after) {
        var d, i :| d in after && 0 <= i < |after[d].sent| && after[d].sent[i] == p;
        if d != c || i < |clients[c].sent| {
          assert clients[d].sent[i] == p;
        }
      }
      if p in Delivered(clients) {
        var d, i :| d in clients && 0 <= i < |clients[d].sent| && clients[d].sent[i] == p;
        assert after[d].sent[i] == p;
      }
      if p == last {
        assert after[c].sent[|clients[c].sent|] == p;
      }
    }
  }

  lemma {:induction false} OfferCounts(s: Server, ok: bool)
    requires Counted(s) && Offering(s)
    ensures Counted(Offer(s, ok))
  {
    hide Delivered;
    var c, last := s.writer.targets[s.writer.next], |s.history| - 1;
    var client := s.clients[c];
    if ok {
      var after := client.(channel := client.channel + [s.writer.ev], sent := client.sent + [last]);
      DeliveredSend(s.clients, c, after, last);
      assert Delivered(s.clients) + {last} - {last} == Delivered(s.clients) - {last};
    } else {
      DeliveredUpdate(s.clients, c, client.(missed := client.missed + 1));
    }
  }

  lemma {:induction false} BeginEndCounts(s: Server, a: Action)
    requires Inv(s) && Counted(s) && Enabled(s, a) && (a.Begin? || a.End? || a.Reject?)
    ensures Counted(Step(s, a))
  {
    hide Delivered, LastN, Inv, Counted, Enabled;
    if a.End? {
      EndCounts(s, a);
    } else {
      BeginCounts(s, a);
    }
  }

  lemma {:induction false} BeginCounts(s: Server, a: Action)
    requires Inv(s) && Counted(s) && Enabled(s, a) && (a.Begin? || a.Reject?)
    ensures Counted(Step(s, a))
  {
    hide Delivered, LastN, Inv;
    DeliveredBelow(s);
    assert Delivered(s.clients) - {|s.history|} == Delivered(s.clients);
  }

  lemma {:induction false} EndCounts(s: Server, a: Action)
    requires Inv(s) && Counted(s) && Enabled(s, a) && a.End?
    ensures Counted(Step(s, a))
  {
    hide Delivered, LastN, Inv;
    var delivered, last := Delivered(s.clients), |s.history| - 1;
    if s.writer.delivered > 0 {
      assert delivered == (delivered - {last}) + {last};
    } else {
      assert delivered - {last} == delivered;
    }
  }

  lemma {:induction false} ClientCounts(s: Server, a: Action)
    requires Counted(s) && Enabled(s, a) && (a.Join? || a.Replay? || a.Receive? || a.Leave?)
    ensures Counted(Step(s, a))
  {
    hide Delivered;
    var t := Step(s, a);
    DeliveredUpdate(s.clients, a.c, t.clients[a.c]);
    assert t.clients == s.clients[a.c := t.clients[a.c]];
  }

  /**
   An event counts as emitted exactly if some client's channel took it: between writes the counter
   is their number.
   */
  lemma {:induction false} EmittedCounts(actions: seq<Action>)
    ensures Counted(Run(actions))
  {
    hide Counted, Inv, Enabled, Offer;
    if actions == [] {
      NothingDelivered();
    } else {
      var n := |actions| - 1;
      var s, a := Run(actions[..n]), actions[n];
      EmittedCounts(actions[..n]);
      AlwaysInv(actions[..n]);
      CountsStep(s, a);
    }
  }

  lemma {:induction false} NothingDelivered()
    ensures Counted(INITIAL)
  {
    assert Delivered(map[]) == {};
  }

  lemma {:induction false} CountsStep(s: Server, a: Action)
    requires Inv(s) && Counted(s)
    ensures Counted(Step(s, a))
  {
    hide Counted, Inv;
    if Enabled(s, a) {
      match a
      case Send => OfferCounts(s, true);
      case TimeOut => OfferCounts(s, false);
      case Begin(_) => BeginEndCounts(s, a);
      case End => BeginEndCounts(s, a);
      case Reject => BeginEndCounts(s, a);
      case Join(_) => ClientCounts(s, a);
      case Replay(_) => ClientCounts(s, a);
      case Receive(_) => ClientCounts(s, a);
      case Leave(_) => ClientCounts(s, a);
    }
  }
}
