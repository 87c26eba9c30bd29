/** Parsed scenarios: what the compiler takes in. Durations are whole microseconds. */
module Scenarios {
  import opened Common
  import opened Events
  import opened Rng
  import opened Jitter

  datatype Delay = Fixed(d: nat) | Range(low: nat, high: nat)

  datatype Step = Step(
    id: Option<string>,
    event: string,
    source: Option<string>,
    at: Option<nat>,
    after: Option<string>,
    delay: Option<Delay>,
    jitter: Option<nat>,
    probability: Unit,
    refs: seq<(string, string)>,
    attrs: map<string, Value>,
    labels: seq<string>)

  /** One entry of the `entities` mapping; its keys are distinct. */
  datatype Template = Template(key: string, count: nat, kind: Option<string>)

  /** A weight is at least 1. */
  type Weight = n: nat | n >= 1 witness 1

  datatype NoiseSpec = NoiseSpec(
    event: string,
    weight: Weight,
    source: Option<string>,
    attrs: map<string, Value>,
    refs: seq<(string, string)>)

  datatype NoiseConfig = NoiseConfig(enabled: bool, ratio: real, events: seq<NoiseSpec>)

  datatype Scenario = Scenario(
    id: string,
    duration: nat,
    forEach: Option<string>,
    templates: seq<Template>,
    sources: seq<string>,
    timeline: seq<Step>,
    noise: Option<NoiseConfig>,
    jitter: Option<JitterConfig>)

  datatype Entity = Entity(id: string, kind: string)

  /** `value or default`: an empty string counts as absent. */
  function OrElse(v: Option<string>, default: string): string {
    if v.Some? && v.value != "" then v.value else default
  }
}
