# EventWeave: a verified model

EventWeave compiles scenarios into plans of events, delivers plans through Go runtimes, and scores
agents against a ground truth. This project models those three parts in Dafny and proves what each
of them promises, for every scenario, every random draw and every interleaving.

Each core exists twice where the source changes state: once as functions on values, about which the
theorems are stated, and once in the source's own imperative form (objects, loops, arrays), proved
equal to those functions.

| part | values and theorems | imperative form |
|---|---|---|
| timeline expansion | `Planner`, `PlannerLaws`, `PlannerProps`, `PlannerPools` | `Expander` |
| background noise | `Noise` | `NoiseGenerator` |
| timestamp jitter | `Jitter` | `JitterApplier` |
| the whole pipeline | `Compile`, `Causality`, `References` | `ScenarioPlanner` |
| ordering rules, schema references | `Rules`, `Interleavings`, `RuleLimits`, `ScopedRules`, `SharedScope`, `Schema` | the methods in the same modules |
| plan order in both runtimes | `Events` | `Scheduler` |
| Kafka sinks | `Kafka` | `KafkaSinks` |
| worker pool | `Pool` | `WorkerPool` |
| HTTP endpoint | `HttpStream` | `HttpServer` |
| evaluator | `Matching`, `Scoring`, `ReportLaws` | `Evaluator` |
| semantic cache and resolver | `Semantic`, `SemanticLaws` | `SemanticSidecar` |
| pack dependencies, CSV printer | `Packs`, `Csv` | the methods in the same modules |

Every lemma switches automatic induction off.

How the outside world appears:

- Time is an `int` of microseconds. A clock reading is the parameter `start` or `now`.
- A seeded `random.Random` is an arbitrary stream of draws with a read position (`Rng`). Expansion,
  noise and jitter have separate streams, as they have separate seeds in the source. Nothing is
  assumed about the draws, so every theorem holds for all of them.
- A Kafka broker is an arbitrary oracle for each call. A timer fires at any moment after it was set;
  whether stopping it comes in time is a free choice.
- Goroutines are sequences of atomic steps: a critical section, a channel operation or an atomic
  counter each. A theorem about `Run(actions)` holds for every sequence, hence every interleaving.
- A semantic provider is an arbitrary deterministic function.

Where the plain claim is false of the code, the exact condition is proved:

- Expansion walks the very list that `$new.<primary type>` extends: `ExpansionEndsIff` says when the
  loop ends for every draw, `NeverEndsIff` when it ends for none.
- The expander numbers its entities from 1 again, beside those already generated: `UniqueIdsIff` says
  which scenarios never repeat an id.
- Two entities can share an id and differ in type: `KindsByIdIff`.
- Order-preserving jitter can interleave flows in any way, and in no other: `JitterReachesIff`. So it
  can change the verdict of an ordering rule where flows share a scope. `AlwaysPassesIff` says for all
  three rules which plans always pass, `VerdictKeptIff` which scope groups keep their verdict,
  `CompiledAlwaysPassesIff` and `CompiledVerdictIff` the same for compiled plans, and
  `SharedHostBreaks` gives a scenario whose rule breaks. Scopes that name the flow, as `flow` or a role
  taken from `$flow` does, are safe: `FlowScopeVerdict`, `FlowRuleVerdict`.
- An event accepted while `Close` runs can stay behind in the queue: `StrandedIff`.
- Greedy matching is not always the best matching: `GreedyIsMaximumIff`.
- Cache keys joined by underscores can collide: `ProvidersIff` says for which requests no provider can
  tell, `CollidingNames` shows two names that collide, and `CleanNamesTransparent` gives names that
  cannot.
- `format_csv` quotes only strings, and not for a line break: `RoundTripIff`, with `ListSplits` for what
  becomes of a list.

## Model

| member | source | states |
|---|---|---|
| Expander.EntityGenerator.Generate | eventweave/compiler/planner.py:32-45 | A fresh generator numbers each template's entities from 1, template after template. |
| Expander.EntityGenerator.NextId | eventweave/compiler/planner.py:56-59 | The next id of a type counts on from that type's counter and touches no other. |
| Expander.EntityGenerator.NewEntity | eventweave/compiler/planner.py:47-54 | An entity created on demand takes the next number of its type. |
| PlannerLaws.GenerateAt | eventweave/compiler/planner.py:32-45 | Entity c of template k stands behind those of the templates before it, numbered c + 1, with the template's type or else its key. |
| PlannerLaws.PoolIs | eventweave/compiler/planner.py:82-85 | A pool lists the entities of its type in order, and exists exactly if there are some. |
| Expander.TimelineExpander.Expand | eventweave/compiler/planner.py:78-101 | From any entities, counters and draw position: if the loop over the growing primary list ends, its events are those of the specification, sorted, and so are the pools, warnings and draws. |
| Expander.TimelineExpander.PrimaryEntityType | eventweave/compiler/planner.py:103-117 | The primary type is `for_each`, else inferred from the first event type with a warning. |
| PlannerLaws.PrimaryTypeIs | eventweave/compiler/planner.py:103-117 | Without `for_each` the primary type is what stands before the first dot, with one warning; with it there is no warning. |
| Expander.TimelineExpander.ExpandFlow | eventweave/compiler/planner.py:119-196 | One walk over the timeline yields the specified events and leaves the specified pools. |
| Expander.TimelineExpander.TimelineStep | eventweave/compiler/planner.py:139-194 | One timeline item: skipped after one draw, or timed, jittered, resolved, emitted and remembered, in this order of draws. |
| Expander.TimelineExpander.AdvanceTime | eventweave/compiler/planner.py:146-151 | An absolute offset wins; else the delay counts from the predecessor by step id, then by type, then from the current time. |
| Expander.TimelineExpander.ParseDelay | eventweave/compiler/planner.py:284-291 | A range draws once, a fixed delay not at all. |
| Expander.TimelineExpander.JitterStep | eventweave/compiler/planner.py:153-163 | Per-step jitter never falls behind the previous event plus one microsecond. |
| Expander.TimelineExpander.ResolveEntityRefs | eventweave/compiler/planner.py:198-217 | The `flow` role first, then each spec in order, later roles overriding. |
| Expander.TimelineExpander.ResolveRef | eventweave/compiler/planner.py:219-267 | All six forms of a reference, with the pools, draws and warnings each one changes. |
| PlannerLaws.SpecForms | eventweave/compiler/planner.py:227-259 | How a spec is read: five symbolic forms, a `$ref` split at its last dot and malformed with one part. |
| PlannerLaws.EntityReaches | eventweave/compiler/planner.py:232-238 | `$entity.T` can name every entity of its pool and draws once; an empty pool gives "", a warning and no draw. |
| PlannerPools.ExpansionEndsIff | eventweave/compiler/planner.py:87-97 | The outer loop ends for every draw exactly if no step creates entities of the primary type or there is no primary entity. |
| PlannerPools.LoopRunsOncePerPrimary | eventweave/compiler/planner.py:89-96 | Without `$new.<primary type>` the walked list never changes and the loop runs once per initial primary entity. |
| PlannerPools.LoopOutgrown | eventweave/compiler/planner.py:240-247 | When every step fires, a `$new.<primary type>` keeps the list ahead of the walk for ever. |
| PlannerPools.HaltedStays | eventweave/compiler/planner.py:91-97 | A finished loop stays finished, so the plan does not depend on how many rounds are allowed. |
| PlannerPools.GenerateIds | eventweave/compiler/planner.py:32-59 | Generated ids are unique and use every number of every template. |
| PlannerPools.NeverEndsIff | eventweave/compiler/planner.py:138-142 | The loop ends for no draw exactly if there is a primary entity and a step of probability 1 creates further ones. |
| PlannerPools.PoolIdsUniqueIff | eventweave/compiler/planner.py:76 | After a given run, entity ids are unique exactly when it created nothing under a key the scenario also declares. |
| PlannerPools.UniqueIdsIff | eventweave/compiler/planner.py:32-59 | Entity ids are unique for every draw exactly if the scenario expands nothing or names no declared key in a `$new`. |
| PlannerPools.KindsByIdIff | eventweave/compiler/planner.py:32-59 | An id names entities of one type for every draw exactly if no `$new` uses a key declared with another type, or nothing is expanded. |
| PlannerProps.AfterFlowsOk | eventweave/compiler/planner.py:198-267 | In every state of expansion each reference is empty, a pooled entity's id or a literal, and each flow id is an entity id. |
| PlannerProps.TimelineIds | eventweave/compiler/planner.py:274-276 | Timeline event ids are pairwise distinct and name their flow and step. |
| PlannerProps.AfterFlowsShift | eventweave/compiler/planner.py:119-196 | Expansion started later by d gives the same pools, draws and events, all times later by d. |
| Ids.PadRoundTrip | eventweave/compiler/planner.py:276 | A zero-padded numeral determines its number at any width, also when it overflows the width. |
| Ids.EventIdInjective | eventweave/compiler/planner.py:274-276 | A timeline event id determines flow and step. |
| Ids.EntityIdInjective | eventweave/compiler/planner.py:56-59 | An entity id determines its key and number. |
| PlannerLaws.IdFormats | eventweave/compiler/planner.py:274-276 | The ids letter by letter: dashes for underscores, flow and step in three digits, noise numbers in five. |
| Ids.NoiseIdFresh | eventweave/compiler/noise_generator.py:75-78 | No noise id is a timeline id. |
| NoiseGenerator.BuildWeightedSpecs | eventweave/compiler/noise_generator.py:101-105 | The loop builds the weighted list of the specification. |
| Noise.WeightedShare | eventweave/compiler/noise_generator.py:101-105 | Each spec occupies exactly as many consecutive places of the weighted list as its weight. |
| NoiseGenerator.NoiseGenerator.Generate | eventweave/compiler/noise_generator.py:33-73 | A fresh generator yields the specified events: none when off, unconfigured or without a timeline. |
| NoiseGenerator.NoiseGenerator.NextEvent | eventweave/compiler/noise_generator.py:53-71 | One noise event: spec, source, time and references drawn in this order, the counter advanced by one. |
| NoiseGenerator.NoiseGenerator.ResolveRef | eventweave/compiler/noise_generator.py:86-98 | `$entity`, `$flow` and literal references of noise. |
| Noise.NoiseShape | eventweave/compiler/noise_generator.py:45-78 | Noise has no flow, is numbered from 1 with distinct ids, and lies inside the scenario's duration from the earliest event. |
| Noise.NoiseAmount | eventweave/compiler/noise_generator.py:36-44 | The number of noise events is within one half of timeline length times ratio, even when exactly between two integers, and 0 when off, unconfigured, without a timeline or with a negative ratio. |
| Noise.NoiseReaches | eventweave/compiler/noise_generator.py:53-58 | Every configured spec at every time of the duration comes out of some draws. |
| Noise.NoiseReferences | eventweave/compiler/noise_generator.py:80-98 | Every noise reference is empty, a plan entity's id or a literal of the configuration. |
| Noise.NoiseShift | eventweave/compiler/noise_generator.py:49-58 | Noise around a shifted timeline is the shifted noise. |
| JitterApplier.JitterApplier.Apply | eventweave/compiler/jitter.py:22-37 | Re-timing in place returns the objects passed in, each once, and they hold exactly the specified sequence, in all three modes. |
| JitterApplier.JitterApplier.ApplyPreserveOrder | eventweave/compiler/jitter.py:39-62 | The same objects, flow after flow in order of first appearance, drawing on from one to the next. |
| JitterApplier.JitterApplier.GroupByFlow | eventweave/compiler/jitter.py:41-43 | The dictionary of flows: keys in order of first appearance, each with its events in order. |
| JitterApplier.JitterApplier.Retime | eventweave/compiler/jitter.py:48-60 | One flow re-timed in place with the clamp. |
| Jitter.JitterFlowOrder | eventweave/compiler/jitter.py:50-60 | Re-timing a flow changes nothing but times, which strictly increase. |
| Jitter.JitterFlowBound | eventweave/compiler/jitter.py:50-60 | The k-th event of a flow moves by at least -m and at most m + k microseconds. |
| Jitter.JitterFlowLeast | eventweave/compiler/jitter.py:53-58 | The clamp delays no more than it must: the times are the least strictly increasing ones not before the drawn times. |
| Jitter.EachReaches | eventweave/compiler/jitter.py:34-37 | Without order, any offsets within the limit come out together for some draws. |
| Jitter.KeysInOrder | eventweave/compiler/jitter.py:41-46 | The flows are walked in the order of their first events. |
| Rng.UniformReaches | eventweave/compiler/jitter.py:35 | Every whole microsecond between the bounds is drawn by some unit draw, also for bounds in reverse order. |
| Jitter.JitterPermutes | eventweave/compiler/jitter.py:22-62 | Jitter in any mode is a permutation that changes only times. |
| Jitter.FlowOrderPreserved | eventweave/compiler/jitter.py:39-62 | After jitter and sort each flow lists the same events in the same order as the sorted plan before. |
| Jitter.ApplyShift | eventweave/compiler/jitter.py:22-62 | Jitter commutes with a shift of the clock. |
| Jitter.NoiseJitteredLast | eventweave/compiler/jitter.py:34-62 | Events without a flow draw after all others, so they do not disturb the jitter of the flows. |
| Rules.Validate | eventweave/compiler/rules.py:58-191 | The validators of event_after, event_before and field_lte_ref accept exactly the plans that meet the rule in every scope. |
| Rules.VerdictInPlan | eventweave/compiler/rules.py:58-191 | The verdict read on the plan, with scopes by reference, flow or rest: an event of the other kind on the right side in the same scope; for field_lte_ref the last reference event before holds a number that is not smaller, NaN passing and infinities as extremes. |
| Rules.GroupByScope | eventweave/compiler/rules.py:66-68 | The scope dictionary splits the plan by scope key, keeping plan order. |
| Rules.CheckEvent | eventweave/compiler/rules.py:70-191 | The search on one side of an event decides whether the rule is met there. |
| Rules.JitterKeepsVerdict | eventweave/compiler/jitter.py:39-62 | While a scope stays inside one flow, order-preserving jitter changes no verdict, in either direction. |
| Rules.UnscopedWithinFlow | eventweave/compiler/rules.py:32-36 | An unscoped rule never mixes flows when no flow is called "" or "global". |
| Rules.SharedScopeFlips | eventweave/compiler/rules.py:34-35 | Two events of different flows that share a scope: draws exist that turn the passing plan of these two into a failing one. |
| Interleavings.JitterReachesIff | eventweave/compiler/jitter.py:39-62 | An order of the events comes out of some offset limit and some draws exactly if it interleaves the flows, each in its own order. |
| RuleLimits.AlwaysPassesIff | eventweave/compiler/rules.py:58-191 | For event_after, event_before and field_lte_ref: a plan meets the rule under every offset limit and all draws, exactly if in each scope every flow alone meets it and, for field_lte_ref, no event exceeds a reference event of another flow. |
| RuleLimits.VerdictKeptIff | eventweave/compiler/rules.py:58-104 | A scope group keeps its verdict on event_after or event_before for every offset limit and all draws, exactly if its flows agree on which of the two kinds stands outermost. |
| RuleLimits.PassingStaysIff | eventweave/compiler/rules.py:58-104 | A plan that meets such a rule meets it under any jitter, exactly if the flows agree in every scope. |
| ScopedRules.FlowScopeVerdict | eventweave/compiler/rules.py:32-36 | A rule scoped by `flow`, or by a role taken from `$flow` and passed on by `$ref`, keeps its verdict on the compiled plan. |
| ScopedRules.CompiledVerdictIff | eventweave/compiler/planner.py:326-331 | For any scope: a scope group of the compiled plan keeps its verdict under any jitter exactly if its flows agree. |
| ScopedRules.CompiledPassingStaysIff | eventweave/compiler/planner.py:326-331 | A compiled plan that meets the rule without jitter meets it under any jitter exactly if the flows agree in every scope. |
| ScopedRules.CompiledAlwaysPassesIff | eventweave/compiler/planner.py:326-331 | The condition of `AlwaysPassesIff`, read on the compiled plan without jitter, decides for all three rules whether the plan meets the rule under any jitter. |
| ScopedRules.FlowRuleVerdict | eventweave/compiler/rules.py:32-36 | A rule scoped by `flow` keeps its verdict on the compiled plan unless a step or noise redefines that role. |
| SharedScope.SharedHostBreaks | eventweave/compiler/rules.py:58-80 | Two users, one host picked by `$entity.host`, a rule scoped by the host: the compiled plan meets the rule, and some jitter breaks it. |
| ScenarioPlanner.CompileScenario | eventweave/compiler/planner.py:313-342 | The four stages on their own objects give the specified plan, entities and warnings. |
| Compile.NoiseDoesNotInterfere | eventweave/compiler/planner.py:317-331 | Whatever the noise configuration, the flow events of the plan are the plan compiled without noise: ids, times, references, order. |
| Compile.ClockShift | eventweave/compiler/planner.py:313-331 | Compiling d later gives the same plan with every time later by d, and nothing else changed. |
| Compile.PlanIds | eventweave/compiler/planner.py:331 | Event ids of a plan, noise included, are distinct, and (event_time, event_id) orders it strictly. |
| Compile.PlanOrder | eventweave/compiler/planner.py:331 | The plan is ordered by time, at equal times by the first differing character of the ids or the shorter id. |
| Compile.CompiledVerdict | eventweave/compiler/planner.py:326-331 | Every unscoped rule gets the same verdict on the final plan as on the sorted plan before order-preserving jitter. |
| Compile.JitterReach | eventweave/compiler/jitter.py:39-62 | In the final plan each flow has its events in order, at strictly increasing times, the k-th moved by -m to m + k. |
| Compile.PlanReferences | eventweave/compiler/planner.py:198-267 | Every reference of the final plan is empty, a plan entity's id or a literal the scenario spells out. |
| Causality.PredecessorFound | eventweave/compiler/planner.py:148-150 | `after` refers to the event of the last fired step that goes by the name, else of the last fired step of that event type, and to nothing exactly if neither fired. |
| Causality.StepTimed | eventweave/compiler/planner.py:144-163 | The time of every event: its offset, else a delay within bounds after its predecessor or, without one, after the flow's clock, else the clock; per-step jitter moves it by its offset and never before the clock. |
| Causality.TimelineFires | eventweave/compiler/planner.py:137-142 | Round f has an event of step k exactly if there is a primary entity for it and the draw for the step does not exceed its probability; the event belongs to that entity's flow. |
| Causality.DelayReaches | eventweave/compiler/planner.py:284-291 | Every delay between the bounds comes out of some draw. |
| Causality.CompiledCausality | eventweave/compiler/planner.py:144-150 | A step that waits by a positive delay for the predecessor its `after` names stands strictly later in the final plan, in time and position. |
| Causality.DelayKept | eventweave/compiler/planner.py:148-151 | In the final plan a step timed by its predecessor alone lies between its shortest and longest delay after that event, widened under jitter by no more than the two events can move. |
| Causality.JitteredFlowIncreases | eventweave/compiler/planner.py:153-163 | If every step has its own jitter, a flow's events strictly increase in time. |
| References.TimelineMade | eventweave/compiler/planner.py:119-267 | Every timeline event is an instance of one step: its type, source, attributes, labels and absolute time, and exactly the step's roles. `$ref.S.R` is the value of R in the last step S fired before in the same flow, "" exactly without one; `$flow`, `$entity`, `$new` and literals as their specs ask. |
| References.NoiseMade | eventweave/compiler/noise_generator.py:53-98 | Every noise event is an instance of a configured spec, its references of the kinds asked for and empty only if the plan has no such entity. |
| References.NeverMistyped | eventweave/compiler/schema_validator.py:184-187 | Unless a key is created on demand and declared with another type, a reference asked for as `$entity.T` or `$new.T` is never reported as another type than T. |
| Schema.SchemaValidator.Validate | eventweave/compiler/schema_validator.py:106-148 | Exactly the due messages are reported, as errors when strict and as warnings otherwise. |
| Schema.SchemaValidator.ValidateEvent | eventweave/compiler/schema_validator.py:150-195 | An event's issues are exactly those whose condition holds: unknown type, missing, dangling, mistyped or unknown reference. |
| Schema.SilentIff | eventweave/compiler/schema_validator.py:150-195 | Nothing is reported exactly if every event's type is declared, each declared role names an existing entity of the declared type, there are no other roles but `flow`, and every entity's type is declared. |
| Schema.NeverDangling | eventweave/compiler/schema_validator.py:175-183 | "Does not exist" is reported only for ids the scenario spells out, so never when all references are symbolic. |
| Scheduler.SortEvents | runtime-go/internal/scheduler/scheduler.go:10-22 | The copy is sorted stably by time then id, and the argument keeps its contents. |
| Scheduler.RuntimesAgree | eventweave/runtime/scheduler.py:8-10 | From any permutation of a compiled plan both runtimes restore the plan itself. |
| Kafka.DeliverOutcome | runtime-go/internal/sinks/kafka/batch.go:156-171 | A write stops at its first success and fails only after the first call and every retry failed. |
| KafkaSinks.Sink.Write | runtime-go/internal/sinks/kafka/kafka.go:65-101 | One event, one message, retried; exactly one counter moves. |
| Kafka.SingleAccounted | runtime-go/internal/sinks/kafka/kafka.go:65-101 | Every event is counted once as sent or failed; with a writer that succeeds all encodable ones are sent, in order. |
| KafkaSinks.BatchSink.Write | runtime-go/internal/sinks/kafka/batch.go:65-106 | Encode failure, closed sink, full batch or armed timer: the specified step and an error exactly when the event was refused or its batch lost; arrays already handed over keep their contents. |
| KafkaSinks.BatchSink.Append | runtime-go/internal/sinks/kafka/batch.go:85-89 | Appending into the reused backing array extends the buffer by one message. |
| KafkaSinks.BatchSink.OnTimer | runtime-go/internal/sinks/kafka/batch.go:96-103 | A callback flushes unless the sink is closed, also when it comes late. |
| KafkaSinks.BatchSink.FlushBuffer | runtime-go/internal/sinks/kafka/batch.go:138-172 | The buffer is copied out, emptied in place and delivered; the timer is disarmed, one total grows by the batch, and an error says that the batch failed. |
| KafkaSinks.BatchSink.CloseSink | runtime-go/internal/sinks/kafka/batch.go:116-127 | Closing disarms the timer, closes and flushes. |
| Kafka.AlwaysAccounted | runtime-go/internal/sinks/kafka/batch.go:78-127 | In every reachable state batches and buffer make up the accepted messages, counters are exact, batches within bounds, and a timer is armed exactly when messages wait. |
| Kafka.WritesFill | runtime-go/internal/sinks/kafka/batch.go:85-95 | n encodable writes and nothing else leave n / Max(1, batchSize) batches of exactly that size, and the rest buffered. |
| Kafka.WriteWaits | runtime-go/internal/sinks/kafka/batch.go:91-105 | A write that leaves the buffer below the batch size makes no call, flushes nothing and has a timer armed. |
| Kafka.WriteFills | runtime-go/internal/sinks/kafka/batch.go:91-93 | A write that fills the batch hands over the whole buffer at once. |
| Kafka.FlushEmpties | runtime-go/internal/sinks/kafka/batch.go:109-113 | A flush hands over exactly what waits, and makes no call when nothing does. |
| Kafka.WaitingIsFlushed | runtime-go/internal/sinks/kafka/batch.go:95-104 | Waiting messages have a callback still to come, and it flushes all of them. |
| Kafka.BatchingRefines | runtime-go/internal/sinks/kafka/batch.go:65-172 | With a writer that succeeds, after `Close` the flushed messages and both counters are those of the per-event sink, for any batch size, retries, timer firings and flushes. |
| WorkerPool.Pool.Submit | runtime-go/internal/worker/pool.go:86-113 | An undisturbed submit is accepted exactly when the pool is open and the queue has room, and counted. |
| WorkerPool.Pool.CheckClosed | runtime-go/internal/worker/pool.go:90-93 | The look at the closed flag: the submit goes on or is counted as failed. |
| WorkerPool.Pool.ProcessEvent | runtime-go/internal/worker/pool.go:178-188 | The sink's answer moves exactly one of the two counters. |
| WorkerPool.Pool.Drain | runtime-go/internal/worker/pool.go:160-175 | After the cancellation an undisturbed worker empties the queue in order and exits. |
| WorkerPool.Pool.Close | runtime-go/internal/worker/pool.go:76-82 | An undisturbed close, from any state: every event in hand, then every queued event in order is finished unless all workers had left, every worker ends, and the counters balance. |
| Pool.PoolLedger | runtime-go/internal/worker/pool.go:86-188 | In every reachable state the counters balance with queue, workers and pending submits; the queue is first in first out; one worker finishes in acceptance order. |
| Pool.QueueBounded | runtime-go/internal/worker/pool.go:95-112 | In every reachable state the queue holds no more than its capacity. |
| Pool.FailureCause | runtime-go/internal/worker/pool.go:90-112 | A failure is counted only for a refusing sink, a closed pool, a full queue under the fail policy or a cancelled wait. |
| Pool.Drained | runtime-go/internal/worker/pool.go:76-82 | If no submit is past its check when the flag is set, then after all workers have exited nothing is queued and every accepted event was finished once. |
| Pool.WorkShrinks | runtime-go/internal/worker/pool.go:149-176 | Every step of a worker brings the drain closer to its end. |
| Pool.WorkerCanMove | runtime-go/internal/worker/pool.go:149-176 | After the cancellation some worker can move until all have exited. |
| Pool.DrainEnds | runtime-go/internal/worker/pool.go:149-176 | After a quiet cancellation no schedule contains more worker steps than `Work` counts, and the workers are stuck exactly when all have exited. |
| Pool.LateSubmit | runtime-go/internal/worker/pool.go:90-97 | A reachable state has the flag set and a submit past its check. |
| Pool.StrandedIff | runtime-go/internal/worker/pool.go:90-112 | When the flag is set, an accepted event can be left behind exactly if some submit is past its check. |
| HttpServer.HTTPServer.BeginWrite | runtime-go/internal/server/http_server.go:106-113 | One critical section retains the event, trims to the last 1000 and copies the subscribers. |
| HttpServer.HTTPServer.SendNext | runtime-go/internal/server/http_server.go:116-123 | The event enters the next subscriber's channel or is dropped for it. |
| HttpServer.HTTPServer.EndWrite | runtime-go/internal/server/http_server.go:125-136 | Emitted, failed or neither, and an error exactly when clients existed and none took the event. |
| HttpServer.HTTPServer.Subscribe | runtime-go/internal/server/http_server.go:183-189 | One critical section copies the replay buffer and subscribes. |
| HttpServer.HTTPServer.WriteNext | runtime-go/internal/server/http_server.go:214-232 | The response takes the whole replay before anything from the channel. |
| HttpServer.HTTPServer.Unsubscribe | runtime-go/internal/server/http_server.go:191-200 | Leaving removes exactly that subscriber and keeps the others in order. |
| HttpServer.HTTPServer.WriteAlone | runtime-go/internal/server/http_server.go:100-137 | An undisturbed write puts the event into every channel with room that is not slow and counts a miss for each other subscriber; emitted, failed and the error are exact. |
| HttpServer.HTTPServer.CatchUp | runtime-go/internal/server/http_server.go:214-232 | Reading on until nothing waits writes the rest of the replay, then the channel, in order, and touches no one else. |
| HttpServer.HTTPServer.HandleEvents | runtime-go/internal/server/http_server.go:183-232 | An undisturbed request writes exactly the replay buffer and leaves no subscription behind. |
| HttpStream.ClientStream | runtime-go/internal/server/http_server.go:99-137 | A client's stream is the last 1000 events at its join, then later events in order and at most once, without gap unless a send timed out. |
| HttpStream.CaughtUp | runtime-go/internal/server/http_server.go:183-232 | A client that missed nothing and has read everything has written the replay and every event since. |
| HttpStream.NothingSkipped | runtime-go/internal/server/http_server.go:115-123 | Each event since the join was put into a subscriber's channel or counted as missed, the one being sent apart. |
| HttpStream.EmittedCounts | runtime-go/internal/server/http_server.go:115-136 | Between writes the emitted counter is the number of events that some client's channel took. |
| Evaluator.MatchFinding | eventweave/evaluation/evaluator.py:42-60 | The search returns the first unconsumed finding of the expected type and, if given, stage. |
| Evaluator.MatchTimelineStage | eventweave/evaluation/evaluator.py:72-84 | The search returns the first unconsumed stage of that name. |
| Evaluator.Evaluator.Evaluate | eventweave/evaluation/evaluator.py:94-268 | The report has the specified metrics, matched, missed and extra findings that split both lists, and the missed and extra stages. |
| Evaluator.Evaluator.TallyFindings | eventweave/evaluation/evaluator.py:108-162 | The loop's lists, counters and consumed indices follow the greedy assignment. |
| Evaluator.Evaluator.EvaluateTimelineStages | eventweave/evaluation/evaluator.py:270-329 | The four stage scores with the missed and extra stages, also for empty sides. |
| ReportLaws.ReportAddsUp | eventweave/evaluation/evaluator.py:183-248 | The thirteen metrics in numbers: shares of the lists, averages over exactly the matched pairs, a missed stage counting as event recall 0, `overall` as the mean of four scores and `balanced` of seven; the fixed scores when nothing is expected. |
| ReportLaws.ReportSplits | eventweave/evaluation/evaluator.py:108-171 | Matched and missed findings are the expected ones, matched and extra ones the reported, each once, and every matched pair fits in type and stage. |
| ReportLaws.RecallCounts | eventweave/evaluation/evaluator.py:22-29 | Recall times the number of distinct expected items is the number of them that were reported. |
| ReportLaws.NormalizeTrims | eventweave/evaluation/evaluator.py:17-19 | White space around a name does not matter. |
| ReportLaws.NormalizeCase | eventweave/evaluation/evaluator.py:17-19 | Nor does the case of its ASCII letters. |
| Matching.GreedyValid | eventweave/evaluation/evaluator.py:108-113 | Greedy matching is injective and matches only what fits. |
| Matching.GreedyIsMaximumIff | eventweave/evaluation/evaluator.py:49-58 | No matching beats the greedy one for any candidates, exactly if no expectation without a stage precedes one of its type with a stage. |
| Matching.GreedyCount | eventweave/evaluation/evaluator.py:42-84 | The matched count is the sum over keys of the smaller of expected and reported. |
| Scoring.StagesAreMaximum | eventweave/evaluation/evaluator.py:72-84 | For timeline stages no matching beats the greedy one. |
| Scoring.FindingsAreMaximum | eventweave/evaluation/evaluator.py:42-60 | The same for findings when every expected finding has a stage. |
| Scoring.StageOrderIrrelevant | eventweave/evaluation/evaluator.py:291-310 | Permuting stages on either side changes neither stage recall nor stage precision. |
| Scoring.FindingOrderIrrelevant | eventweave/evaluation/evaluator.py:195-209 | With a stage on every expected finding, permuting findings changes neither type recall nor type precision. |
| Scoring.RecallUnit | eventweave/evaluation/evaluator.py:22-29 | Recall is a fraction, and 1 exactly when nothing expected is missing. |
| Scoring.PrecisionIsRecall | eventweave/evaluation/evaluator.py:32-39 | Precision is recall with the sides exchanged. |
| Scoring.FindingsPartition | eventweave/evaluation/evaluator.py:134-171 | Matched and missed make up the expectations, matched and extra the report. |
| Scoring.MetricsAreFractions | eventweave/evaluation/evaluator.py:183-248 | All thirteen metrics lie in [0, 1] for every input. |
| Scoring.PerfectCopy | eventweave/evaluation/evaluator.py:94-268 | Copying the ground truth's findings and stages scores 1 on every metric. |
| Scoring.MoreFindings | eventweave/evaluation/evaluator.py:108-113 | Appended findings rebind no matched expectation and never lower the type recall. |
| SemanticSidecar.Sidecar.GenerateTask | eventweave/ai/sidecar.py:77-100 | A valid cached asset, else the provider's, validated and stored. |
| SemanticSidecar.Sidecar.GenerateAll | eventweave/ai/sidecar.py:102-126 | Task after task, event after event, each from the cache the one before left; the first validation error ends it. |
| SemanticLaws.OnlyAcceptable | eventweave/ai/validator.py:26-42 | Whatever is cached, only assets of the task's kind, with visible text within the limit, for an event of the task's kinds come out; an error means that the provider's own asset is not acceptable. |
| SemanticLaws.ForceAndHit | eventweave/ai/sidecar.py:91-100 | `force` asks the provider whatever is cached; else an acceptable entry is returned and the cache left alone. |
| SemanticLaws.TaskAdds | eventweave/ai/sidecar.py:112-124 | A task adds `count` assets for each event of its kinds, or `count` for no event when it names no kinds or there are no events. |
| SemanticLaws.CopyAt | eventweave/ai/sidecar.py:116-124 | Copy i is the provider's asset with the event's id and the number i appended to its id. |
| SemanticLaws.KeysOfSettings | eventweave/ai/cache.py:60-63 | Equal keys mean the same provider and scenario when neither name holds an underscore. |
| Semantic.PoolIsProviders | eventweave/ai/sidecar.py:102-126 | Without clashing requests the pool is the one the provider alone would fill, whatever consistent cache is found and whether forced or not. |
| Semantic.TransparentIff | eventweave/ai/sidecar.py:84-100 | With this provider every request is answered as by the provider, from any consistent cache and after any history, exactly if no two requests clash. |
| Semantic.ProvidersIff | eventweave/ai/cache.py:53-63 | The cache is transparent for every provider exactly if no two different requests of one kind that accept their events share a key. |
| Semantic.CollidingNames | eventweave/ai/cache.py:53-63 | Task "a_b" without event and task "a" with event "b" share a key, and some provider is answered wrongly. |
| Semantic.CleanNamesTransparent | eventweave/ai/cache.py:53-63 | Non-empty event ids without underscore, and no task id ending in one, make the cache transparent. |
| Semantic.SameKeySameRequest | eventweave/ai/cache.py:53-63 | Under such names a key determines its request. |
| SemanticSidecar.SemanticResolver.ResolveEvent | eventweave/ai/resolver.py:25-32 | Resolving through the memoised index gives the ids a linear search of the pool gives. |
| Semantic.ResolvedIds | eventweave/ai/resolver.py:16-32 | After `generate_all` with whatever is cached, an event resolves to one id per matching task and copy, in order, and to nothing else. |
| Packs.PackRegistry.LoadWithDependencies | eventweave/compiler/pack_loader.py:183-200 | Terminates on every graph; succeeds exactly when every reachable pack exists, and then returns exactly the reachable packs. |
| Packs.PackRegistry.Load | eventweave/compiler/pack_loader.py:164-181 | From the cache or the repository, or an error when the pack does not exist. |
| Csv.FormatCsv | packs/security/encoders/_helpers.py:41-52 | The printed line is the specified one. |
| Csv.QuotedIff | packs/security/encoders/_helpers.py:47-51 | A string is printed in quotes exactly if it holds a comma or a quote, else as it stands. |
| Csv.RoundTripIff | packs/security/encoders/_helpers.py:41-52 | Reading the line by section 2 of RFC 4180 gives the printed values back exactly when there is one, no unquoted string breaks the line, and no value that is not a string prints a comma, quote or line break. |
| Csv.ListSplits | packs/security/encoders/_helpers.py:46-50 | A value that is not a string is never quoted: printed with a comma inside, it reads back as two. |

## Left out

- Floating point: times are whole microseconds and scores exact fractions; `timedelta` rounding to even is modelled, rounding inside `random.uniform` and in divisions is not.
- Unicode: string order is by code point; `strip` and `lower` in the evaluator and the blank test for semantic text cover ASCII only.
- Expander.TimelineExpander.Expand: asks that the loop ends, because the source loops for ever otherwise; `ExpansionEndsIff` and `NeverEndsIff` say when.
- Scheduler.SortEvents: the library's stable sort is written as an insertion sort.
- HttpStream.ClientStream: assumes one writer at a time; concurrent `Write` calls, closing the server and encoding failures inside a response are not modelled.
- Kafka.BatchingRefines: message timestamps and the context timeout of a write are not modelled; the encode-failure counter outside the mutex is taken as atomic.
- Kafka.AlwaysAccounted: a second `Close` panics in the source on the done channel; here it changes nothing.
- Pool.PoolLedger: metrics and the final sink flush and close are not modelled.
- Schema.SchemaValidator.Validate: field presence, types, formats and enumerations are not modelled, only references and types of events and entities, and not the order of messages.
- Schema.SchemaValidator.ValidateEvent: the same for the issues of one event.
- RuleLimits.VerdictKeptIff: covers event_after and event_before; for field_lte_ref `AlwaysPassesIff` is exact about passing, not about failing under all jitter.
- PlannerPools.PoolIdsUniqueIff: its condition is about one finished run; `UniqueIdsIff` states it about the scenario.
- Semantic.TransparentIff: its condition is about the answers of one provider, `ProvidersIff` states it about names; file names are taken as one per key, leaving out hash collisions.
- Rules.SharedScopeFlips: shows two events only; the exact limit is `VerdictKeptIff`.
- Compile.CompiledVerdict: covers the three ordering rules; rules that look at single events do not depend on jitter.
- Duration strings, domains, entity attributes and tags, relations and ground-truth labels of events: parsed values or constants that no theorem reads.
- Realism profiles, template rendering, the other vendor encoders, the CLI, file and YAML input: plumbing around the modelled cores.
- The syslog server, rate limiter, enrichment and the run-level statistics of `runtime.go` and `local.py`.
- Real sockets, brokers and clocks.
