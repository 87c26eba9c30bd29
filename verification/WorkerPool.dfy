/**
 The worker pool as the source writes it (runtime-go/internal/worker/pool.go): atomic counters,
 a closed flag, a cancellation and a shared channel. Each method is one atomic operation of a
 goroutine, a step of the state machine in Pool; others may run between any two of them.
 `Submit`, `Drain` and `Close` run a whole operation when nothing interferes.
 */
module WorkerPool {
  import opened Events
  import P = Pool

  class Pool {
    const config: P.Config
    var submits: seq<P.Submit>
    var jobs: seq<Event>
    var closed: bool
    var cancelled: bool
    var workers: seq<P.Worker>
    var submitted: nat
    var processed: nat
    var failed: nat
    ghost var accepted: seq<Event>
    ghost var taken: seq<Event>
    ghost var finished: seq<Event>

    ghost function State(): P.State
      reads this
    {
      P.State(submits, jobs, closed, cancelled, workers, submitted, processed, failed, accepted, taken, finished)
    }

    constructor (config: P.Config, n: nat)
      ensures this.config == config && State() == P.Start(n)
    {
      this.config := config;
      submits, jobs, closed, cancelled := [], [], false, false;
      workers := seq(n, i => P.Idle);
      submitted, processed, failed := 0, 0, 0;
      accepted, taken, finished := [], [], [];
      new;
      assert workers == P.Start(n).workers;
    }

    method EnterSubmit(ev: Event)
      modifies this
      ensures State() == P.Step(config, old(State()), P.Enter(ev))
    {
      submitted := submitted + 1;
      submits := submits + [P.Submit(ev, false)];
    }

    method CheckClosed(i: nat) returns (open: bool)
      requires i < |submits| && !submits[i].checked
      modifies this
      ensures State() == P.Step(config, old(State()), P.Check(i)) && open == !old(closed)
    {
      open := !closed;
      if closed {
        failed := failed + 1;
        submits := P.Remove(submits, i);
      } else {
        submits := submits[i := P.Submit(submits[i].ev, true)];
      }
    }

    /** The send case of both selects. */
    method Send(i: nat)
      requires P.PastCheck(State(), i) && |jobs| < config.capacity
      modifies this
      ensures State() == P.Step(config, old(State()), P.Enqueue(i))
    {
      var ev := submits[i].ev;
      submits := P.Remove(submits, i);
      jobs := jobs + [ev];
      accepted := accepted + [ev];
    }

    /** The default case of the fail policy, or the cancelled case of the block policy. */
    method GiveUp(i: nat)
      requires P.PastCheck(State(), i)
      requires if config.policy.Fail? then |jobs| >= config.capacity else cancelled
      modifies this
      ensures State() == P.Step(config, old(State()), if config.policy.Fail? then P.RejectFull(i)
        else P.RejectCancelled(i))
    {
      failed := failed + 1;
      submits := P.Remove(submits, i);
    }

    /** A worker's receive. */
    method Receive(w: nat) returns (ev: Event)
      requires P.Receiving(State(), w) && jobs != []
      modifies this
      ensures State() == P.Step(config, old(State()), P.Take(w))
      ensures workers[w] == P.Working(ev, old(workers)[w].Draining?)
    {
      ev := jobs[0];
      jobs := jobs[1..];
      workers := workers[w := P.TakeUp(workers[w], ev)];
      taken := taken + [ev];
    }

    /** `processEvent`, with the result of the sink's write. */
    method ProcessEvent(w: nat, ok: bool)
      requires w < |workers| && workers[w].Working?
      modifies this
      ensures State() == P.Step(config, old(State()), P.Finish(w, ok))
    {
      if ok {
        processed := processed + 1;
      } else {
        failed := failed + 1;
      }
      finished := finished + [workers[w].ev];
      workers := workers[w := if workers[w].draining then P.Draining else P.Idle];
    }

    /** The first two steps of `Close`. */
    method StoreClosed()
      modifies this
      ensures State() == P.Step(config, old(State()), P.StoreClosed)
    {
      closed := true;
    }

    method Cancel()
      requires closed
      modifies this
      ensures State() == P.Step(config, old(State()), P.Cancel)
    {
      cancelled := true;
    }

    /**
     A `Submit` nothing interferes with: accepted exactly when the pool is open and, for the fail
     policy, not full.
     */
    method Submit(ev: Event) returns (ok: bool)
      requires P.Inv(State())
      requires config.policy.Block? && !closed ==> |jobs| < config.capacity
      modifies this
      ensures P.Inv(State()) && submits == old(submits)
      ensures ok == (!old(closed) && |old(jobs)| < config.capacity)
      ensures jobs == old(jobs) + (if ok then [ev] else []) && submitted == old(submitted) + 1
      ensures failed == old(failed) + (if ok then 0 else 1) && processed == old(processed)
    {
      hide P.Inv;
      var i := |submits|;
      P.StepKeeps(config, State(), P.Enter(ev));
      EnterSubmit(ev);
      P.StepKeeps(config, State(), P.Check(i));
      ok := CheckClosed(i);
      if !ok {
        assert submits == old(submits);
        return;
      }
      if |jobs| < config.capacity {
        P.StepKeeps(config, State(), P.Enqueue(i));
        Send(i);
      } else {
        P.StepKeeps(config, State(), P.RejectFull(i));
        GiveUp(i);
        ok := false;
      }
      assert submits == old(submits);
    }

    /** The drain loop of one worker after the cancellation: it empties the queue in order, then exits. */
    method Drain(w: nat, sink: nat -> bool)
      requires P.Inv(State()) && P.Receiving(State(), w) && cancelled
      modifies this
      ensures P.Inv(State()) && jobs == [] && workers == old(workers)[w := P.Exited]
      ensures accepted == old(accepted) && taken == accepted && finished == old(finished) + old(jobs)
      ensures submits == old(submits) && closed == old(closed) && cancelled
    {
      hide P.Inv, P.InHand;
      if workers[w].Idle? {
        P.StepKeeps(config, State(), P.Notice(w));
        workers := workers[w := P.Draining];
      }
      ghost var n := |jobs|;
      var k := 0;
      while jobs != []
        invariant P.Inv(State()) && k <= n && jobs == old(jobs)[k..]
        invariant workers == old(workers)[w := P.Draining] && cancelled
        invariant accepted == old(accepted) && finished == old(finished) + old(jobs)[..k]
        invariant submits == old(submits) && closed == old(closed)
        decreases |jobs|
      {
        DrainOne(w, sink(k));
        assert old(jobs)[..k + 1] == old(jobs)[..k] + [old(jobs)[k]];
        k := k + 1;
      }
      P.StepKeeps(config, State(), P.Exit(w));
      workers := workers[w := P.Exited];
      AllTaken();
    }

    /** One round of the drain loop. */
    method DrainOne(w: nat, ok: bool)
      requires P.Inv(State()) && w < |workers| && workers[w].Draining? && jobs != []
      modifies this
      ensures P.Inv(State()) && jobs == old(jobs)[1..] && workers == old(workers)
      ensures accepted == old(accepted) && finished == old(finished) + [old(jobs)[0]]
      ensures submits == old(submits) && closed == old(closed) && cancelled == old(cancelled)
    {
      hide P.Inv;
      P.StepKeeps(config, State(), P.Take(w));
      var ev := Receive(w);
      P.StepKeeps(config, State(), P.Finish(w, ok));
      ProcessEvent(w, ok);
      assert workers == old(workers);
    }

    /**
     `Close` when nothing interferes: the flag, the cancellation, the events the workers hold, then
     the drain of each worker in turn. Unless every worker had left before, every event in hand or
     queued is finished, no worker is left, and the counters account for every submit that has
     returned.
     */
    method Close(sink: (nat, nat) -> bool)
      requires P.Inv(State())
      modifies this
      ensures P.Inv(State()) && closed && cancelled && P.AllExited(State())
      ensures submits == old(submits) && accepted == old(accepted)
      ensures var left := if P.AllExited(old(State())) then [] else old(jobs);
        finished == old(finished) + P.InHand(old(workers)) + left
        && jobs == (if P.AllExited(old(State())) then old(jobs) else [])
      ensures submitted == processed + failed + |jobs| + |submits|
    {
      hide P.Inv, P.InHand;
      P.StepKeeps(config, State(), P.StoreClosed);
      StoreClosed();
      P.StepKeeps(config, State(), P.Cancel);
      Cancel();
      FinishHeld(sink);
      ghost var was := finished;
      assert was + [] == was;
      for w: nat := 0 to |workers|
        invariant P.Inv(State()) && closed && cancelled && |workers| == |old(workers)|
        invariant submits == old(submits) && accepted == old(accepted)
        invariant forall v :: 0 <= v < w ==> workers[v].Exited?
        invariant forall v :: w <= v < |workers| ==>
          !workers[v].Working? && workers[v].Exited? == old(workers)[v].Exited?
        invariant if NoneLeft(old(workers), w) then jobs == old(jobs) && finished == was
                  else jobs == [] && finished == was + old(jobs)
      {
        if !workers[w].Exited? {
          assert finished + [] == finished;
          Drain(w, (k: nat) => sink(w, k + 1));
        }
        assert NoneLeft(old(workers), w + 1) <==> NoneLeft(old(workers), w) && old(workers)[w].Exited?;
      }
      assert P.AllExited(old(State())) <==> NoneLeft(old(workers), |old(workers)|);
      Balanced();
    }

    /** Every worker that holds an event writes it. */
    method FinishHeld(sink: (nat, nat) -> bool)
      requires P.Inv(State()) && closed && cancelled
      modifies this
      ensures P.Inv(State()) && closed && cancelled && |workers| == |old(workers)|
      ensures submits == old(submits) && accepted == old(accepted) && jobs == old(jobs)
      ensures forall v :: 0 <= v < |workers| ==> !workers[v].Working? && workers[v].Exited? == old(workers)[v].Exited?
      ensures finished == old(finished) + P.InHand(old(workers))
    {
      hide P.Inv;
      NothingHeld(old(workers));
      assert finished + [] == finished;
      for w: nat := 0 to |workers|
        invariant P.Inv(State()) && closed && cancelled && |workers| == |old(workers)|
        invariant submits == old(submits) && accepted == old(accepted) && jobs == old(jobs)
        invariant forall v :: 0 <= v < w ==> !workers[v].Working? && workers[v].Exited? == old(workers)[v].Exited?
        invariant forall v :: w <= v < |workers| ==> workers[v] == old(workers)[v]
        invariant finished == old(finished) + P.InHand(old(workers)[..w])
      {
        HeldNext(old(workers), w, old(finished));
        if workers[w].Working? {
          P.StepKeeps(config, State(), P.Finish(w, sink(w, 0)));
          ProcessEvent(w, sink(w, 0));
        }
      }
      assert old(workers)[..|workers|] == old(workers);
    }

    static ghost predicate NoneLeft(workers: seq<P.Worker>, n: nat)
      requires n <= |workers|
    {
      forall v :: 0 <= v < n ==> workers[v].Exited?
    }

    static lemma {:induction false} NothingHeld(workers: seq<P.Worker>)
      ensures P.InHand(workers[..0]) == []
    {
    }

    static lemma {:induction false} HeldNext(workers: seq<P.Worker>, w: nat, before: seq<Event>)
      requires w < |workers|
      ensures before + P.InHand(workers[..w + 1]) == before + P.InHand(workers[..w]) + P.Holding(workers[w])
      ensures !workers[w].Working? ==> P.InHand(workers[..w + 1]) == P.InHand(workers[..w])
    {
      assert workers[..w + 1][..w] == workers[..w];
    }

    lemma {:induction false} Balanced()
      requires P.Inv(State()) && P.AllExited(State())
      ensures submitted == processed + failed + |jobs| + |submits|
    {
      hide P.InHand;
      P.NothingInHand(workers);
    }

    lemma {:induction false} AllTaken()
      requires P.Inv(State()) && jobs == []
      ensures taken == accepted
    {
      assert taken + [] == taken;
    }
  }
}
