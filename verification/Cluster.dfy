/** The values the planner works on: nodes, pods, policies and disruption budgets. */
module Cluster {
  import opened Arithmetic

  datatype Option<+T> = None | Some(value: T)

  datatype PodName = PodName(namespace: string, name: string)

  // Times and durations are in nanoseconds.
  const SECOND: int := 1_000_000_000
  const HOUR: int := 3600 * SECOND
  const DEFAULT_BACKOFF: int := 15 * 60 * SECOND
  const SYSTEM_CRITICAL_PRIORITY: int := 2_000_000_000

  /** CPU in cores and memory in bytes: what a node uses or what a pod asks for. */
  datatype Usage = Usage(cpu: real, memory: int)

  /** A node's allocatable CPU (in thousandths of a core) and memory (in bytes). */
  datatype Allocatable = Allocatable(milliCPU: int, bytes: int)

  type Size = s: Allocatable | s.milliCPU > 0 && s.bytes > 0 witness Allocatable(1, 1)

  datatype Weights = Weights(cpu: real, memory: real)

  const NO_WEIGHTS := Weights(0.0, 0.0)

  datatype SLO = SLO(maxDisruptionsPerHour: int, minReadySeconds: int, allowStatefulSetEviction: bool)

  datatype Policy = Policy(
    targetVariance: real,
    hotThreshold: real,
    coldThreshold: real,
    hysteresis: real,
    maxEvictionsPerMinute: int,
    maxEvictionsPerNamespace: int,
    includes: set<string>,
    excludes: set<string>,
    weights: Weights,
    respectPodPriority: bool,
    dryRun: bool,
    backoff: Option<int>,
    nodeClassPreference: set<string>)

  /** The defaults of a policy: evictions are off. */
  const DEFAULTS :=
    Policy(0.15, 0.8, 0.5, 0.05, 3, 0, {}, {}, Weights(0.7, 0.3), true, true, Some(DEFAULT_BACKOFF), {})

  /**
   * A pod as the planner sees it. `screened` stands for the outcome of the label selector, pinning, disruption budget
   * and local storage screens; `criticalClass` for a priority class at or above the system critical value.
   */
  datatype Pod = Pod(
    name: PodName,
    nodeName: string,
    priority: int,
    criticalClass: bool,
    kind: string,
    screened: bool,
    readySince: Option<int>,
    milliCPU: nat,
    bytes: nat,
    slo: Option<SLO>,
    lastEvicted: Option<int>)

  /** What a pod is taken to move: a request of zero counts as 0.05 cores or 50 MiB. */
  function Demand(pod: Pod): Usage {
    Usage(if pod.milliCPU == 0 then 0.05 else pod.milliCPU as real / 1000.0,
          if pod.bytes == 0 then 50 * 1024 * 1024 else pod.bytes)
  }

  function Share(used: real, capacity: real): real
    requires capacity > 0.0
  {
    used / capacity
  }

  /** The weighted utilization of a node. */
  function Pressure(usage: Usage, size: Size, w: Weights): real {
    Mul(Share(usage.cpu, size.milliCPU as real / 1000.0), w.cpu) +
    Mul(Share(usage.memory as real, size.bytes as real), w.memory)
  }

  // Pressure is linear in usage.
  lemma PressureLinear(u: Usage, request: Usage, size: Size, w: Weights)
    ensures Pressure(Usage(u.cpu - request.cpu, u.memory - request.memory), size, w)
         == Pressure(u, size, w) - Pressure(request, size, w)
    ensures Pressure(Usage(u.cpu + request.cpu, u.memory + request.memory), size, w)
         == Pressure(u, size, w) + Pressure(request, size, w)
  {
    hide Mul, Share;
    var c, b := size.milliCPU as real / 1000.0, size.bytes as real;
    ShareLinear(u.cpu, request.cpu, c, w.cpu);
    ShareLinear(u.memory as real, request.memory as real, b, w.memory);
  }

  lemma ShareLinear(x: real, y: real, capacity: real, w: real)
    requires capacity > 0.0
    ensures Mul(Share(x - y, capacity), w) == Mul(Share(x, capacity), w) - Mul(Share(y, capacity), w)
    ensures Mul(Share(x + y, capacity), w) == Mul(Share(x, capacity), w) + Mul(Share(y, capacity), w)
  {
    assert Share(x - y, capacity) == Share(x, capacity) - Share(y, capacity);
    assert Share(x + y, capacity) == Share(x, capacity) + Share(y, capacity);
  }

  lemma PressureNonNegative(u: Usage, size: Size, w: Weights)
    requires u.cpu >= 0.0 && u.memory >= 0 && NonNegativeWeights(w)
    ensures Pressure(u, size, w) >= 0.0
  {
    hide Mul, Share;
    WeightedShareNonNegative(u.cpu, size.milliCPU as real / 1000.0, w.cpu);
    WeightedShareNonNegative(u.memory as real, size.bytes as real, w.memory);
  }

  lemma WeightedShareNonNegative(x: real, capacity: real, w: real)
    requires x >= 0.0 && capacity > 0.0 && w >= 0.0
    ensures Mul(Share(x, capacity), w) >= 0.0
  {
    QuotientSign(x, capacity);
    assert Share(x, capacity) >= 0.0;
  }

  predicate NonNegativeWeights(w: Weights) {
    w.cpu >= 0.0 && w.memory >= 0.0
  }

  predicate PositiveWeights(w: Weights) {
    NonNegativeWeights(w) && w != NO_WEIGHTS
  }

  lemma PressurePositive(u: Usage, size: Size, w: Weights)
    requires u.cpu > 0.0 && u.memory > 0 && PositiveWeights(w)
    ensures Pressure(u, size, w) > 0.0
  {
    hide Mul, Share;
    WeightedShareNonNegative(u.cpu, size.milliCPU as real / 1000.0, w.cpu);
    WeightedShareNonNegative(u.memory as real, size.bytes as real, w.memory);
    if w.cpu > 0.0 {
      WeightedSharePositive(u.cpu, size.milliCPU as real / 1000.0, w.cpu);
    } else {
      WeightedSharePositive(u.memory as real, size.bytes as real, w.memory);
    }
  }

  lemma WeightedSharePositive(x: real, capacity: real, w: real)
    requires x > 0.0 && capacity > 0.0 && w > 0.0
    ensures Mul(Share(x, capacity), w) > 0.0
  {
    QuotientSign(x, capacity);
    SameSignProduct(Share(x, capacity), w);
  }

  function EffectiveWeights(w: Weights): Weights {
    if w == NO_WEIGHTS then Weights(0.7, 0.3) else w
  }

  function EffectiveBackoff(p: Policy): int {
    if p.backoff.Some? then p.backoff.value else DEFAULT_BACKOFF
  }

  function EvictionLimit(p: Policy): nat {
    if p.maxEvictionsPerMinute <= 0 then 1 else p.maxEvictionsPerMinute
  }

  /** A move that reduces imbalance: the pod to evict and the node the planner has in mind for it. */
  datatype Move = Move(pod: PodName, from: string, to: string, request: Usage, score: real)
}
