/**
 The worker pool (runtime-go/internal/worker/pool.go) as a state machine: any number of
 concurrent submitters, a fixed set of workers, a bounded queue, and the shutdown protocol.
 */
module Pool {
  import opened Common
  import opened Events

  datatype Policy = Fail | Block

  datatype Config = Config(policy: Policy, capacity: nat)

  /** A `Submit` call under way: before, or past, its look at the closed flag. */
  datatype Submit = Submit(ev: Event, checked: bool)

  /** A worker goroutine; after it has seen the cancellation it only drains. */
  datatype Worker = Idle | Working(ev: Event, draining: bool) | Draining | Exited

  /**
   `accepted` and `taken` record the order in which events entered and left the queue; `finished`
   the completed sink writes.
   */
  datatype State = State(
    submits: seq<Submit>,
    queue: seq<Event>,
    closed: bool,
    cancelled: bool,
    workers: seq<Worker>,
    submitted: nat,
    processed: nat,
    failed: nat,
    accepted: seq<Event>,
    taken: seq<Event>,
    finished: seq<Event>)

  datatype Action =
    | Enter(ev: Event)
    | Check(i: nat)
    | Enqueue(i: nat)
    | HandOff(i: nat, w: nat)
    | RejectFull(i: nat)
    | RejectCancelled(i: nat)
    | Take(w: nat)
    | Finish(w: nat, ok: bool)
    | Notice(w: nat)
    | Exit(w: nat)
    | StoreClosed
    | Cancel

  function Start(workers: nat): State {
    State([], [], false, false, seq(workers, i => Idle), 0, 0, 0, [], [], [])
  }

  function Remove(submits: seq<Submit>, i: nat): (r: seq<Submit>)
    requires i < |submits|
    ensures |r| == |submits| - 1
  {
    submits[..i] + submits[i + 1..]
  }

  predicate PastCheck(s: State, i: nat) { i < |s.submits| && s.submits[i].checked }

  predicate Receiving(s: State, w: nat) { w < |s.workers| && (s.workers[w].Idle? || s.workers[w].Draining?) }

  /** An unbuffered or empty channel hands a waiting send straight to a receiver. */
  predicate Enabled(config: Config, s: State, a: Action) {
    match a
    case Enter(_) => true
    case Check(i) => i < |s.submits| && !s.submits[i].checked
    case Enqueue(i) => PastCheck(s, i) && |s.queue| < config.capacity
    case HandOff(i, w) => PastCheck(s, i) && s.queue == [] && Receiving(s, w)
    case RejectFull(i) => PastCheck(s, i) && config.policy.Fail? && |s.queue| >= config.capacity
    case RejectCancelled(i) => PastCheck(s, i) && config.policy.Block? && s.cancelled
    case Take(w) => Receiving(s, w) && s.queue != []
    case Finish(w, _) => w < |s.workers| && s.workers[w].Working?
    case Notice(w) => w < |s.workers| && s.workers[w].Idle? && s.cancelled
    case Exit(w) => w < |s.workers| && s.workers[w].Draining? && s.queue == []
    case StoreClosed => true
    case Cancel => s.closed
  }

  function TakeUp(worker: Worker, ev: Event): Worker { Working(ev, worker.Draining?) }

  function Drop(s: State, i: nat): State
    requires i < |s.submits|
  {
    s.(submits := Remove(s.submits, i), failed := s.failed + 1)
  }

  /** One atomic step; a step that is not enabled does not happen. */
  function Step(config: Config, s: State, a: Action): State {
    if !Enabled(config, s, a) then s
    else
      match a
      case Enter(ev) => s.(submits := s.submits + [Submit(ev, false)], submitted := s.submitted + 1)
      case Check(i) => if s.closed then Drop(s, i) else s.(submits := s.submits[i := Submit(s.submits[i].ev, true)])
      case Enqueue(i) =>
        var ev := s.submits[i].ev;
        s.(submits := Remove(s.submits, i), queue := s.queue + [ev], accepted := s.accepted + [ev])
      case HandOff(i, w) =>
        var ev := s.submits[i].ev;
        s.(submits := Remove(s.submits, i), workers := s.workers[w := TakeUp(s.workers[w], ev)],
           accepted := s.accepted + [ev], taken := s.taken + [ev])
      case RejectFull(i) => Drop(s, i)
      case RejectCancelled(i) => Drop(s, i)
      case Take(w) =>
        s.(queue := s.queue[1..], workers := s.workers[w := TakeUp(s.workers[w], s.queue[0])],
          taken := s.taken + [s.queue[0]])
      case Finish(w, ok) =>
        var t := s.(workers := s.workers[w := if s.workers[w].draining then Draining else Idle],
                    finished := s.finished + [s.workers[w].ev]);
        if ok then t.(processed := t.processed + 1) else t.(failed := t.failed + 1)
      case Notice(w) => s.(workers := s.workers[w := Draining])
      case Exit(w) => s.(workers := s.workers[w := Exited])
      case StoreClosed => s.(closed := true)
      case Cancel => s.(cancelled := true)
  }

  /** The state after a sequence of steps, in any interleaving. */
  function RunFrom(config: Config, s: State, actions: seq<Action>): State {
    if actions == [] then s
    else Step(config, RunFrom(config, s, actions[..|actions| - 1]), actions[|actions| - 1])
  }

  lemma {:induction false} RunAppend(config: Config, s: State, a: seq<Action>, b: seq<Action>)
    ensures RunFrom(config, s, a + b) == RunFrom(config, RunFrom(config, s, a), b)
  {
    hide Step;
    if b == [] {
      assert a + b == a;
    } else {
      var n := |b| - 1;
      assert (a + b)[..|a + b| - 1] == a + b[..n];
      RunAppend(config, s, a, b[..n]);
    }
  }

  lemma {:induction false} RunOne(config: Config, s: State, a: Action)
    ensures RunFrom(config, s, [a]) == Step(config, s, a)
  {
    hide Step;
    assert [a][..0] == [];
    assert RunFrom(config, s, []) == s;
  }

  // ---------------------------------------------------------------- the ledger

  /** The events in the workers' hands. */
  function InHand(workers: seq<Worker>): seq<Event> {
    if workers == [] then []
    else InHand(workers[..|workers| - 1]) + Holding(workers[|workers| - 1])
  }

  function Holding(w: Worker): seq<Event> { if w.Working? then [w.ev] else [] }

  /** Changing one worker changes what is in hand by what that worker held and holds. */
  lemma {:induction false} InHandUpdate(workers: seq<Worker>, w: nat, x: Worker, e: Event)
    requires w < |workers|
    ensures var was, now := InHand(workers), InHand(workers[w := x]);
      |now| + |Holding(workers[w])| == |was| + |Holding(x)|
      && multiset(now)[e] + multiset(Holding(workers[w]))[e] == multiset(was)[e] + multiset(Holding(x))[e]
  {
    hide Holding;
    var n := |workers| - 1;
    var rest, last := workers[..n], workers[n];
    if w == n {
      assert workers[w := x][..n] == rest;
      assert InHand(workers[w := x]) == InHand(rest) + Holding(x);
      assert InHand(workers) == InHand(rest) + Holding(last);
    } else {
      assert workers[w := x][..n] == rest[w := x];
      InHandUpdate(rest, w, x, e);
      assert InHand(workers[w := x]) == InHand(rest[w := x]) + Holding(last);
      assert InHand(workers) == InHand(rest) + Holding(last);
    }
  }

  /** Every submitted event is processed, failed, queued, in a worker's hands, or still being submitted. */
  predicate Ledger(s: State) {
    s.submitted == s.processed + s.failed + |s.queue| + |InHand(s.workers)| + |s.submits|
  }

  /** The queue is first in, first out, and what was taken is finished or in hand. */
  predicate Conserved(s: State) {
    s.accepted == s.taken + s.queue
    && multiset(s.taken) == multiset(s.finished) + multiset(InHand(s.workers))
  }

  /** A single worker finishes events in the order in which it took them. */
  predicate InOrder(s: State) { |s.workers| == 1 ==> s.taken == s.finished + Holding(s.workers[0]) }

  predicate Ordered(s: State) {
    (s.cancelled ==> s.closed)
    && forall w :: 0 <= w < |s.workers| ==>
         s.workers[w].Draining? || s.workers[w].Exited? || (s.workers[w].Working? && s.workers[w].draining) ==>
           s.cancelled
  }

  predicate Inv(s: State) { Ledger(s) && Conserved(s) && InOrder(s) && Ordered(s) }

  predicate ByWorker(a: Action) { a.Take? || a.HandOff? || a.Finish? || a.Notice? || a.Exit? }

  /** One more event in hand, or one fewer, or the same number. */
  lemma {:induction false} LedgerKept(config: Config, s: State, a: Action)
    requires Ledger(s) && Enabled(config, s, a)
    ensures Ledger(Step(config, s, a))
  {
    hide InHand;
    if ByWorker(a) {
      var t := Step(config, s, a);
      InHandCount(s.workers, a.w, t.workers[a.w]);
      assert |Holding(s.workers[a.w])| == if a.Finish? then 1 else 0;
      assert |Holding(t.workers[a.w])| == if a.Take? || a.HandOff? then 1 else 0;
    }
  }

  lemma {:induction false} InHandCount(workers: seq<Worker>, w: nat, x: Worker)
    requires w < |workers|
    ensures |InHand(workers[w := x])| + |Holding(workers[w])| == |InHand(workers)| + |Holding(x)|
  {
    hide InHand, Holding;
    var e: Event :| true;
    InHandUpdate(workers, w, x, e);
  }

  lemma {:induction false} QueueKept(config: Config, s: State, a: Action)
    requires s.accepted == s.taken + s.queue && Enabled(config, s, a)
    ensures Step(config, s, a).accepted == Step(config, s, a).taken + Step(config, s, a).queue
  {
    if a.Enqueue? {
      ConcatAssociative(s.taken, s.queue, [s.submits[a.i].ev]);
    } else if a.Take? {
      assert s.queue == [s.queue[0]] + s.queue[1..];
      ConcatAssociative(s.taken, [s.queue[0]], s.queue[1..]);
    } else if a.HandOff? {
      assert s.taken + [] == s.taken;
      assert s.taken + [s.submits[a.i].ev] + [] == s.taken + [s.submits[a.i].ev];
    }
  }

  /** A worker's step appends what it picks up to `taken` and what it puts down to `finished`. */
  lemma {:induction false} HandStep(config: Config, s: State, a: Action)
    requires ByWorker(a) && Enabled(config, s, a)
    ensures var t := Step(config, s, a);
      t.taken == s.taken + Holding(t.workers[a.w]) && t.finished == s.finished + Holding(s.workers[a.w])
      && t.workers == s.workers[a.w := t.workers[a.w]]
  {
    hide InHand;
    var t := Step(config, s, a);
    assert s.taken + [] == s.taken && s.finished + [] == s.finished;
    assert t.workers == s.workers[a.w := t.workers[a.w]];
  }

  lemma {:induction false} EventKept(config: Config, s: State, a: Action, e: Event)
    requires ByWorker(a) && Enabled(config, s, a)
    requires multiset(s.taken)[e] == multiset(s.finished)[e] + multiset(InHand(s.workers))[e]
    ensures var t := Step(config, s, a);
      multiset(t.taken)[e] == multiset(t.finished)[e] + multiset(InHand(t.workers))[e]
  {
    hide InHand, Holding;
    HandStep(config, s, a);
    Balance(s.taken, s.finished, s.workers, a.w, Step(config, s, a).workers[a.w], e);
  }

  lemma {:induction false} Balance(
      taken: seq<Event>, finished: seq<Event>, workers: seq<Worker>, w: nat, x: Worker, e: Event)
    requires w < |workers| && multiset(taken)[e] == multiset(finished)[e] + multiset(InHand(workers))[e]
    ensures multiset(taken + Holding(x))[e]
      == multiset(finished + Holding(workers[w]))[e] + multiset(InHand(workers[w := x]))[e]
  {
    hide *;
    CountAppend(taken, Holding(x), e);
    CountAppend(finished, Holding(workers[w]), e);
    InHandUpdate(workers, w, x, e);
  }

  lemma {:induction false} CountAppend(a: seq<Event>, b: seq<Event>, e: Event)
    ensures multiset(a + b)[e] == multiset(a)[e] + multiset(b)[e]
  {
  }

  lemma {:induction false} SubmitKept(config: Config, s: State, a: Action)
    requires !ByWorker(a) && Enabled(config, s, a)
    ensures var t := Step(config, s, a); t.taken == s.taken && t.finished == s.finished && t.workers == s.workers
  {
  }

  lemma {:induction false} ConservedKept(config: Config, s: State, a: Action)
    requires Conserved(s) && Enabled(config, s, a)
    ensures Conserved(Step(config, s, a))
  {
    hide InHand, Step, Enabled;
    QueueKept(config, s, a);
    if ByWorker(a) {
      forall e ensures var t := Step(config, s, a);
        multiset(t.taken)[e] == multiset(t.finished)[e] + multiset(InHand(t.workers))[e]
      {
        EventKept(config, s, a, e);
      }
    } else {
      SubmitKept(config, s, a);
    }
  }

  lemma {:induction false} InOrderKept(config: Config, s: State, a: Action)
    requires InOrder(s) && Enabled(config, s, a)
    ensures InOrder(Step(config, s, a))
  {
    var t := Step(config, s, a);
    assert s.finished + [] == s.finished && t.finished + [] == t.finished;
  }

  lemma {:induction false} OrderedKept(config: Config, s: State, a: Action)
    requires Ordered(s) && Enabled(config, s, a)
    ensures Ordered(Step(config, s, a)) && |Step(config, s, a).workers| == |s.workers|
  {
  }

  lemma {:induction false} StepKeeps(config: Config, s: State, a: Action)
    requires Inv(s)
    ensures Inv(Step(config, s, a)) && |Step(config, s, a).workers| == |s.workers|
  {
    hide Ledger, Conserved, InOrder, Ordered;
    if Enabled(config, s, a) {
      hide Step, Enabled;
      LedgerKept(config, s, a);
      ConservedKept(config, s, a);
      InOrderKept(config, s, a);
      OrderedKept(config, s, a);
    }
  }

  lemma {:induction false} RunKeeps(config: Config, s: State, actions: seq<Action>)
    requires Inv(s)
    ensures Inv(RunFrom(config, s, actions)) && |RunFrom(config, s, actions).workers| == |s.workers|
  {
    hide Inv, Step;
    if actions != [] {
      RunKeeps(config, s, actions[..|actions| - 1]);
      StepKeeps(config, RunFrom(config, s, actions[..|actions| - 1]), actions[|actions| - 1]);
    }
  }

  lemma {:induction false} NothingInHand(workers: seq<Worker>)
    requires forall w :: 0 <= w < |workers| ==> !workers[w].Working?
    ensures InHand(workers) == []
  {
    if workers != [] {
      NothingInHand(workers[..|workers| - 1]);
    }
  }

  lemma {:induction false} StartOk(workers: nat)
    ensures Inv(Start(workers))
  {
    hide InHand;
    NothingInHand(Start(workers).workers);
  }

  /**
   In every reachable state the counters balance, the queue is first in first out, and what left
   it is finished or in a worker's hands; a single worker finishes events in acceptance order.
   */
  lemma {:induction false} PoolLedger(config: Config, workers: nat, actions: seq<Action>)
    ensures var s := RunFrom(config, Start(workers), actions);
      Ledger(s) && Conserved(s)
      && (workers == 1 ==> s.finished <= s.accepted)
  {
    hide Ledger, Conserved, InHand;
    StartOk(workers);
    RunKeeps(config, Start(workers), actions);
    var s := RunFrom(config, Start(workers), actions);
    if workers == 1 {
      assert Conserved(s);
      FinishedFirst(s);
    }
  }

  lemma {:induction false} FinishedFirst(s: State)
    requires Conserved(s) && InOrder(s) && |s.workers| == 1
    ensures s.finished <= s.accepted
  {
    hide InHand;
    assert s.finished <= s.taken <= s.accepted;
  }

  // ---------------------------------------------------------------- acceptance and refusal

  /** The queue never holds more than its capacity. */
  lemma {:induction false} QueueBounded(config: Config, workers: nat, actions: seq<Action>)
    ensures |RunFrom(config, Start(workers), actions).queue| <= config.capacity
  {
    hide Step;
    if actions != [] {
      var n := |actions| - 1;
      QueueBounded(config, workers, actions[..n]);
      StepBounded(config, RunFrom(config, Start(workers), actions[..n]), actions[n]);
    }
  }

  lemma {:induction false} StepBounded(config: Config, s: State, a: Action)
    requires |s.queue| <= config.capacity
    ensures |Step(config, s, a).queue| <= config.capacity
  {
  }

  /**
   Why a step counts a failure: the sink refused an event, a submit met the closed flag, the queue
   was full under the fail policy, or a blocked submit met the cancellation. Nothing else does.
   */
  lemma {:induction false} FailureCause(config: Config, s: State, a: Action)
    ensures var t := Step(config, s, a);
      t.failed == s.failed + 1 || t.failed == s.failed
    ensures Step(config, s, a).failed == s.failed + 1 ==>
      (a.Finish? && !a.ok)
      || (a.Check? && s.closed)
      || (a.RejectFull? && config.policy.Fail? && |s.queue| >= config.capacity && PastCheck(s, a.i))
      || (a.RejectCancelled? && config.policy.Block? && s.cancelled && PastCheck(s, a.i))
  {
  }

  /** A submit past its check is accepted as soon as there is room, whatever the policy. */
  lemma {:induction false} RoomAccepts(config: Config, s: State, i: nat)
    requires PastCheck(s, i) && |s.queue| < config.capacity
    ensures var t := Step(config, s, Enqueue(i));
      t.queue == s.queue + [s.submits[i].ev] && t.accepted == s.accepted + [s.submits[i].ev]
      && |t.submits| == |s.submits| - 1 && t.failed == s.failed
  {
  }

  // ---------------------------------------------------------------- shutdown

  predicate AllExited(s: State) { forall w :: 0 <= w < |s.workers| ==> s.workers[w].Exited? }

  predicate SomeExited(s: State) { exists w :: 0 <= w < |s.workers| && s.workers[w].Exited? }

  predicate NonePastCheck(s: State) { forall i :: 0 <= i < |s.submits| ==> !s.submits[i].checked }

  /** The flag is set, no submit is past its look at the flag, and no exited worker left anything behind. */
  predicate Quiet(s: State) { s.closed && NonePastCheck(s) && (SomeExited(s) ==> s.queue == []) }

  lemma {:induction false} QuietStep(config: Config, s: State, a: Action)
    requires Quiet(s)
    ensures Quiet(Step(config, s, a))
  {
    var t := Step(config, s, a);
    if SomeExited(t) && !a.Exit? {
      var w :| 0 <= w < |t.workers| && t.workers[w].Exited?;
      assert s.workers[w].Exited?;
    }
  }

  lemma {:induction false} QuietRun(config: Config, s: State, actions: seq<Action>)
    requires Quiet(s)
    ensures Quiet(RunFrom(config, s, actions))
  {
    hide Quiet, Step;
    if actions != [] {
      QuietRun(config, s, actions[..|actions| - 1]);
      QuietStep(config, RunFrom(config, s, actions[..|actions| - 1]), actions[|actions| - 1]);
    }
  }

  /**
   If no submit is past its check when the flag is set, then once all workers have exited the
   queue is empty, every accepted event has been finished exactly once, and the counters
   account for every submit that has returned.
   */
  lemma {:induction false} Drained(config: Config, workers: nat, before: seq<Action>, after: seq<Action>)
    requires workers >= 1
    requires var s := RunFrom(config, Start(workers), before); s.closed && NonePastCheck(s) && !SomeExited(s)
    requires AllExited(RunFrom(config, Start(workers), before + after))
    ensures var t := RunFrom(config, Start(workers), before + after);
      t.queue == [] && multiset(t.accepted) == multiset(t.finished)
      && t.submitted == t.processed + t.failed + |t.submits| && NonePastCheck(t)
  {
    hide InHand;
    var s := RunFrom(config, Start(workers), before);
    RunAppend(config, Start(workers), before, after);
    QuietRun(config, s, after);
    var t := RunFrom(config, Start(workers), before + after);
    StartOk(workers);
    RunKeeps(config, Start(workers), before + after);
    NothingInHand(t.workers);
    assert t.workers[0].Exited?;
    assert t.taken + [] == t.taken;
  }

  /** How much the workers still have to do. */
  function Weight(w: Worker): nat {
    match w
    case Exited => 0
    case Draining => 1
    case Idle => 2
    case Working(_, draining) => if draining then 2 else 3
  }

  function Weights(workers: seq<Worker>): nat {
    if workers == [] then 0 else Weights(workers[..|workers| - 1]) + Weight(workers[|workers| - 1])
  }

  function Work(s: State): nat { 2 * |s.queue| + Weights(s.workers) }

  predicate WorkerStep(a: Action) { a.Take? || a.Finish? || a.Notice? || a.Exit? }

  lemma {:induction false} WeightsUpdate(workers: seq<Worker>, w: nat, x: Worker)
    requires w < |workers|
    ensures Weights(workers[w := x]) + Weight(workers[w]) == Weights(workers) + Weight(x)
  {
    var n := |workers| - 1;
    if w == n {
      assert workers[w := x][..n] == workers[..n];
    } else {
      assert workers[w := x][..n] == workers[..n][w := x];
      WeightsUpdate(workers[..n], w, x);
    }
  }

  /** Every step of a worker brings the drain closer to its end, whichever worker takes it. */
  lemma {:induction false} WorkShrinks(config: Config, s: State, a: Action)
    requires WorkerStep(a) && Enabled(config, s, a)
    ensures Work(Step(config, s, a)) < Work(s) && Step(config, s, a).submits == s.submits
  {
    hide Weights;
    WeightsUpdate(s.workers, a.w, Step(config, s, a).workers[a.w]);
  }

  /** After the cancellation some worker can always take a step until all have exited. */
  lemma {:induction false} WorkerCanMove(config: Config, s: State) returns (a: Action)
    requires s.cancelled && !AllExited(s)
    ensures WorkerStep(a) && Enabled(config, s, a)
  {
    var w :| 0 <= w < |s.workers| && !s.workers[w].Exited?;
    match s.workers[w]
    case Idle => a := Notice(w);
    case Working(_, _) => a := Finish(w, true);
    case Draining => a := if s.queue == [] then Exit(w) else Take(w);
  }

  /** The steps of workers a run takes, not counting those that are not enabled. */
  function WorkerSteps(config: Config, s: State, actions: seq<Action>): nat {
    if actions == [] then 0
    else
      var n := |actions| - 1;
      WorkerSteps(config, s, actions[..n])
      + (if WorkerStep(actions[n]) && Enabled(config, RunFrom(config, s, actions[..n]), actions[n]) then 1 else 0)
  }

  ghost predicate WorkersStuck(config: Config, s: State) { forall a :: WorkerStep(a) ==> !Enabled(config, s, a) }

  /** Once no submit is past its check, nobody but a worker changes what there is to do. */
  lemma {:induction false} WorkKept(config: Config, s: State, a: Action)
    requires Quiet(s) && !(WorkerStep(a) && Enabled(config, s, a))
    ensures Work(Step(config, s, a)) == Work(s)
  {
    hide Weights;
  }

  /**
   The drain ends however it is scheduled: from a quiet, cancelled state no run contains more
   than `Work(s)` steps of workers, whatever late submits do in between, and a run in which the
   workers have no step left is one in which all have exited.
   */
  lemma {:induction false} DrainEnds(config: Config, s: State, actions: seq<Action>)
    requires Quiet(s) && s.cancelled
    ensures var t := RunFrom(config, s, actions);
      WorkerSteps(config, s, actions) + Work(t) <= Work(s) && t.cancelled
      && (WorkersStuck(config, t) <==> AllExited(t))
  {
    hide Work, Step, Enabled, Quiet;
    var t := RunFrom(config, s, actions);
    if actions != [] {
      var n := |actions| - 1;
      var r, a := RunFrom(config, s, actions[..n]), actions[n];
      DrainEnds(config, s, actions[..n]);
      QuietRun(config, s, actions[..n]);
      CancelledKept(config, r, a);
      if WorkerStep(a) && Enabled(config, r, a) {
        WorkShrinks(config, r, a);
      } else {
        WorkKept(config, r, a);
      }
    }
    StuckIff(config, t);
  }

  lemma {:induction false} CancelledKept(config: Config, s: State, a: Action)
    requires s.cancelled
    ensures Step(config, s, a).cancelled
  {
  }

  lemma {:induction false} StuckIff(config: Config, s: State)
    requires s.cancelled
    ensures WorkersStuck(config, s) <==> AllExited(s)
  {
    if !AllExited(s) {
      var a := WorkerCanMove(config, s);
    }
  }

  /** The workers alone can always bring the drain to its end. */
  lemma {:induction false} DrainRun(config: Config, s: State) returns (actions: seq<Action>)
    requires s.cancelled && Ordered(s) && (SomeExited(s) ==> s.queue == [])
    ensures var t := RunFrom(config, s, actions);
      AllExited(t) && t.submits == s.submits && (|s.workers| >= 1 ==> t.queue == [])
    decreases Work(s)
  {
    if AllExited(s) {
      actions := [];
      if |s.workers| >= 1 {
        assert s.workers[0].Exited?;
      }
    } else {
      var a := WorkerCanMove(config, s);
      var t := Step(config, s, a);
      WorkShrinks(config, s, a);
      DrainStep(config, s, a);
      var rest := DrainRun(config, t);
      actions := [a] + rest;
      RunOne(config, s, a);
      RunAppend(config, s, [a], rest);
    }
  }

  lemma {:induction false} DrainStep(config: Config, s: State, a: Action)
    requires s.cancelled && Ordered(s) && (SomeExited(s) ==> s.queue == [])
    requires WorkerStep(a) && Enabled(config, s, a)
    ensures var t := Step(config, s, a);
      t.cancelled && Ordered(t) && (SomeExited(t) ==> t.queue == []) && |t.workers| == |s.workers|
  {
    var t := Step(config, s, a);
    if SomeExited(t) && !a.Exit? {
      var w :| 0 <= w < |t.workers| && t.workers[w].Exited?;
      assert s.workers[w].Exited?;
    }
  }

  /**
   Exactly when an accepted event can be left behind: at the moment the closed flag is set, some
   continuation ends with all workers gone and an event still queued if and only if some submit
   is past its look at the flag.
   */
  lemma {:induction false} StrandedIff(config: Config, workers: nat, before: seq<Action>)
    requires workers >= 1 && config.capacity >= 1
    requires var s := RunFrom(config, Start(workers), before); s.closed && !s.cancelled
    ensures var s := RunFrom(config, Start(workers), before);
      (exists after :: AllExited(RunFrom(config, s, after)) && RunFrom(config, s, after).queue != [])
        <==> !NonePastCheck(s)
  {
    hide Step, Enabled;
    var s := RunFrom(config, Start(workers), before);
    StartOk(workers);
    RunKeeps(config, Start(workers), before);
    assert !SomeExited(s);
    if NonePastCheck(s) {
      forall after | AllExited(RunFrom(config, s, after)) ensures RunFrom(config, s, after).queue == [] {
        QuietRun(config, s, after);
        RunKeeps(config, s, after);
        assert RunFrom(config, s, after).workers[0].Exited?;
      }
    } else {
      var i :| 0 <= i < |s.submits| && s.submits[i].checked;
      var after := Strand(config, s, i);
      assert AllExited(RunFrom(config, s, after)) && RunFrom(config, s, after).queue != [];
    }
  }

  /** The condition can fail: this run sets the flag while a submit is past its check. */
  lemma {:induction false} LateSubmit(config: Config, workers: nat, ev: Event)
    ensures var s := RunFrom(config, Start(workers), [Enter(ev), Check(0), StoreClosed]);
      s.closed && !s.cancelled && !NonePastCheck(s)
  {
    var a, b, c := Enter(ev), Check(0), StoreClosed;
    RunOne(config, Start(workers), a);
    assert [a, b] == [a] + [b] && [a, b, c] == [a, b] + [c];
    RunAppend(config, Start(workers), [a], [b]);
    RunOne(config, RunFrom(config, Start(workers), [a]), b);
    RunAppend(config, Start(workers), [a, b], [c]);
    RunOne(config, RunFrom(config, Start(workers), [a, b]), c);
    var s := RunFrom(config, Start(workers), [a, b, c]);
    assert s.submits == [Submit(ev, true)];
    assert s.submits[0].checked;
  }

  /** Cancel, let the workers drain and exit, then let the late submit through. */
  lemma {:induction false} Strand(config: Config, s: State, i: nat) returns (after: seq<Action>)
    requires Ordered(s) && s.closed && !s.cancelled && |s.workers| >= 1 && config.capacity >= 1
    requires i < |s.submits| && s.submits[i].checked
    ensures AllExited(RunFrom(config, s, after)) && RunFrom(config, s, after).queue == [s.submits[i].ev]
  {
    assert !SomeExited(s);
    var t := Step(config, s, Cancel);
    assert !SomeExited(t);
    var drain := DrainRun(config, t);
    var u := RunFrom(config, t, drain);
    var v := Step(config, u, Enqueue(i));
    after := [Cancel] + drain + [Enqueue(i)];
    RunOne(config, s, Cancel);
    RunOne(config, u, Enqueue(i));
    RunAppend(config, s, [Cancel], drain);
    RunAppend(config, s, [Cancel] + drain, [Enqueue(i)]);
    assert v.queue == [s.submits[i].ev];
  }
}
