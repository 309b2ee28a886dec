/**
 * Clusters on which plans do harm, and one on which a plan is made below the target. Each is planned for by a planner
 * without history under the default thresholds, and no node uses more than it can allocate.
 */
module Counterexamples {
  import opened Arithmetic
  import opened Sums
  import opened Imbalance
  import opened Cluster
  import opened Greedy
  import opened PlanTheorems
  import opened UsageTheorems
  import opened SubsetTheorems
  import opened Planning
  import opened PlannerState
  import opened Traces
  import opened TwoNodes
  import opened Reachability

  // ---------------------------------------------------------------- three nodes

  function Three<T>(x: T, y: T, z: T): map<string, T> {
    map["big" := x, "left" := y, "right" := z]
  }

  lemma VarianceOfThree(x: real, y: real, z: real)
    ensures Variance(Three(x, y, z)) == (Sq(x) + Sq(y) + Sq(z)) / 3.0 - Sq((x + y + z) / 3.0)
  {
    hide Sum, Sq, Three, Squares, Variance;
    var m := Three(x, y, z);
    ThreeFacts(x, y, z);
    SumOfThree(x, y, z);
    SumOfThree(Sq(x), Sq(y), Sq(z));
    MeanOfSquares(m);
    ThirdOf(Sum(Squares(m)), |m| as real);
    ThirdOf(Sum(m), |m| as real);
  }

  lemma IsThree(m: map<string, real>, x: real, y: real, z: real)
    requires m.Keys == {"big", "left", "right"} && m["big"] == x && m["left"] == y && m["right"] == z
    ensures m == Three(x, y, z)
  {
  }

  lemma ThirdOf(total: real, n: real)
    requires n == 3.0
    ensures total / n == total / 3.0
  {
  }

  lemma ThreeFacts(x: real, y: real, z: real)
    ensures |Three(x, y, z)| == 3
    ensures Squares(Three(x, y, z)) == Three(Sq(x), Sq(y), Sq(z))
  {
    hide Sq;
    var m := Three(x, y, z);
    assert m.Keys == {"big", "left", "right"};
    assert |m| == |m.Keys|;
  }

  lemma SumOfThree(x: real, y: real, z: real)
    ensures Sum(Three(x, y, z)) == x + y + z
  {
    hide Sum;
    var m0: map<string, real> := map[];
    SumEmpty(m0);
    SumExtend(m0, "big", x);
    SumExtend(map["big" := x], "left", y);
    SumExtend(map["big" := x, "left" := y], "right", z);
    assert m0["big" := x] == map["big" := x];
    assert map["big" := x]["left" := y] == map["big" := x, "left" := y];
    assert map["big" := x, "left" := y]["right" := z] == Three(x, y, z);
  }

  // ---------------------------------------------------------------- pods on the first of them

  const FIRST := PodName("default", "first")
  const LATER := PodName("default", "later")
  const HOT := {"big"}
  const COLD := ["left", "right"]

  function PodOnBig(name: PodName, milliCPU: nat, bytes: nat): Pod {
    Pod(name, "big", 0, false, "Deployment", true, None, milliCPU, bytes, None, None)
  }

  lemma PodOnBigDemand(name: PodName, milliCPU: nat, bytes: nat)
    requires milliCPU > 0 && bytes > 0
    ensures Demand(PodOnBig(name, milliCPU, bytes)) == Usage(milliCPU as real / 1000.0, bytes)
  {
  }

  /** Three nodes, with pods on the first. */
  function ThreeNodes(sizes: map<string, Size>, usage: map<string, Usage>, pods: seq<Pod>, fits: set<(PodName, string)>)
    : ClusterInfo
    requires usage.Keys == sizes.Keys
  {
    ClusterInfo(map n | n in sizes :: NodeInfo(sizes[n], {}, usage[n]), pods, map[], fits)
  }

  /** The default policy with other weights and another target, and evictions switched on. */
  function PolicyWith(w: Weights, target: real): Policy {
    DEFAULTS.(weights := w, targetVariance := target, dryRun := false)
  }

  function ThreeEnv(sizes: map<string, Size>, fits: set<(PodName, string)>, w: Weights, target: real): Env {
    Env(sizes, map n | n in sizes :: {}, fits, w, {}, target)
  }

  lemma ThreeNodesEnv(sizes: map<string, Size>, usage: map<string, Usage>, pods: seq<Pod>, fits: set<(PodName, string)>,
                      w: Weights, target: real)
    requires usage.Keys == sizes.Keys
    ensures var cluster := ThreeNodes(sizes, usage, pods, fits);
            && ClusterEnv(cluster, PolicyWith(w, target)) == ThreeEnv(sizes, fits, w, target)
            && ClusterUsage(cluster) == usage
  {
  }

  // Without SLOs and records the planner sees such pods as they are.
  lemma NoHistory(sizes: map<string, Size>, usage: map<string, Usage>, pods: seq<Pod>, fits: set<(PodName, string)>)
    requires usage.Keys == sizes.Keys && forall p | p in pods :: p == PodOnBig(p.name, p.milliCPU, p.bytes)
    ensures WithHistory(ThreeNodes(sizes, usage, pods, fits), []) == pods
  {
    var cluster := ThreeNodes(sizes, usage, pods, fits);
    forall i | 0 <= i < |pods| ensures WithHistory(cluster, [])[i] == pods[i] {
      assert pods[i] in pods;
    }
  }

  lemma Triage(util: map<string, real>, p: Policy, pods: seq<Pod>, planned: seq<Move>, x: real, y: real, z: real)
    requires p == PolicyWith(p.weights, p.targetVariance) && util == Three(x, y, z)
    requires x >= 0.75 && z <= 0.55 && y <= 0.55
    requires forall q | q in pods :: q == PodOnBig(q.name, q.milliCPU, q.bytes)
    ensures var cold := if y <= z then COLD else ["right", "left"];
            Triaged(util, p, pods, PlanTrace(HOT, cold, pods, planned, 0, 0, []))
  {
    forall q | q in pods ensures Movable(q, p, HOT, 0) && q.priority == 0 {
    }
  }

  // ---------------------------------------------------------------- two pods on one hot node

  /** Two pods alike on the hot node, and the usages before, between and after their moves. */
  datatype Scenario = Scenario(
    weights: Weights,
    sizes: map<string, Size>,
    milliCPU: nat,
    start: map<string, Usage>,
    afterFirst: map<string, Usage>,
    afterBoth: map<string, Usage>,
    afterLater: map<string, Usage>)

  // The first pod fits only on the left and the later one only on the right.
  const ONE_FIT_EACH := {(FIRST, "left"), (LATER, "right")}

  function EnvIn(s: Scenario): Env {
    ThreeEnv(s.sizes, ONE_FIT_EACH, s.weights, 0.0)
  }

  function Candidate(s: Scenario, name: PodName): Pod {
    PodOnBig(name, s.milliCPU, 1)
  }

  function Candidates(s: Scenario): seq<Pod> {
    [Candidate(s, FIRST), Candidate(s, LATER)]
  }

  function Request(s: Scenario): Usage {
    Demand(Candidate(s, FIRST))
  }

  function ClusterIn(s: Scenario): ClusterInfo
    requires s.start.Keys == s.sizes.Keys
  {
    ThreeNodes(s.sizes, s.start, Candidates(s), ONE_FIT_EACH)
  }

  function PolicyIn(s: Scenario): Policy {
    PolicyWith(s.weights, 0.0)
  }

  ghost predicate Moves(s: Scenario) {
    && s.start.Keys == s.afterFirst.Keys == s.afterBoth.Keys == s.afterLater.Keys == s.sizes.Keys
    && s.sizes.Keys == {"big", "left", "right"}
    && PositiveWeights(s.weights)
    && Metered({}, s.start) && Metered(HOT, s.afterFirst)
    && s.afterFirst == Moved(s.start, "big", "left", Request(s))
    && s.afterBoth == Moved(s.afterFirst, "big", "right", Request(s))
    && s.afterLater == Moved(s.start, "big", "right", Request(s))
  }

  /** The first move lowers the variance, the later one lowers it further, but alone it raises it. */
  ghost predicate Telling(s: Scenario) {
    && Moves(s)
    && Within(ClusterIn(s), 1)
    && UtilOf(EnvIn(s), s.start) == Three(1.0, 0.1, 0.5)
    && UtilOf(EnvIn(s), s.afterFirst) == Three(0.9, 0.5, 0.5)
    && UtilOf(EnvIn(s), s.afterBoth) == Three(0.8, 0.5, 0.9)
    && UtilOf(EnvIn(s), s.afterLater) == Three(0.9, 0.1, 0.9)
  }

  lemma Variances(s: Scenario)
    requires Telling(s)
    ensures 0.0 < ImbalanceOf(EnvIn(s), s.afterBoth) < ImbalanceOf(EnvIn(s), s.afterFirst)
    ensures ImbalanceOf(EnvIn(s), s.afterFirst) < ImbalanceOf(EnvIn(s), s.start) < ImbalanceOf(EnvIn(s), s.afterLater)
  {
    hide Variance, UtilOf, Moved, Metered, EnvIn, Within, ClusterIn;
    VarianceOfThree(1.0, 0.1, 0.5);
    VarianceOfThree(0.9, 0.5, 0.5);
    VarianceOfThree(0.8, 0.5, 0.9);
    VarianceOfThree(0.9, 0.1, 0.9);
  }

  ghost function At(env: Env, usage: map<string, Usage>, plan: seq<Move>, visited: set<PodName>): State
    requires usage.Keys == env.sizes.Keys
  {
    State(usage, UtilOf(env, usage), ImbalanceOf(env, usage), plan, visited)
  }

  ghost function Saving(env: Env, before: map<string, Usage>, after: map<string, Usage>): real
    requires before.Keys == after.Keys == env.sizes.Keys
  {
    ImbalanceOf(env, after) - ImbalanceOf(env, before)
  }

  // Moving a pod off the hot node leads to the recomputed state.
  lemma MovedAt(env: Env, usage: map<string, Usage>, pod: Pod, to: string, after: map<string, Usage>, plan: seq<Move>,
                visited: set<PodName>)
    requires usage.Keys == env.sizes.Keys && env.preferred == {} && Metered(HOT, usage)
    requires pod.nodeName == "big" && "big" in usage && to in usage && to !in HOT
    requires after == Moved(usage, "big", to, Demand(pod))
    ensures MovedTo(env, At(env, usage, plan, visited), pod, to)
         == At(env, after, plan + [Move(pod.name, "big", to, Demand(pod), Saving(env, usage, after))],
               visited + {pod.name})
  {
    hide Variance, UtilOf, SimulatedUtil, Moved, Metered, Demand;
    DemandPositive(pod);
    SimulationAgrees(env, HOT, usage, "big", to, Demand(pod));
  }

  lemma StartIsAt(env: Env, usage: map<string, Usage>)
    requires usage.Keys == env.sizes.Keys
    ensures Start(usage, UtilOf(env, usage)) == At(env, usage, [], {})
  {
    hide UtilOf;
  }

  lemma FitsOneEach(s: Scenario)
    requires Moves(s)
    ensures OnlyTarget(EnvIn(s), COLD, Candidate(s, FIRST), "left")
    ensures OnlyTarget(EnvIn(s), COLD, Candidate(s, LATER), "right")
    ensures EnvIn(s).preferred == {} && EnvIn(s).target == 0.0 && EnvIn(s).weights == s.weights
    ensures EnvIn(s).sizes.Keys == s.start.Keys
    ensures Demand(Candidate(s, FIRST)) == Demand(Candidate(s, LATER)) == Request(s)
  {
    hide Moved, Metered;
    assert COLD[0] == "left" && COLD[1] == "right";
  }

  lemma TellingWalk(s: Scenario) returns (first: Move, later: Move)
    requires Telling(s)
    ensures s.start.Keys == EnvIn(s).sizes.Keys
    ensures Walk(EnvIn(s), COLD, Start(s.start, UtilOf(EnvIn(s), s.start)), Candidates(s)).plan == [first, later]
    ensures first.from == later.from == "big" && first.to == "left" && later.to == "right"
    ensures first.request == later.request == Request(s)
  {
    hide ImbalanceOf, UtilOf, Walk, Moved, Metered, Demand, Variance, Saving, Three, Within, ClusterIn, MovedTo, EnvIn,
      OnlyTarget, Request;
    Variances(s);
    FitsOneEach(s);
    var env := EnvIn(s);
    var pod := Candidate(s, LATER);
    first := Move(FIRST, "big", "left", Request(s), Saving(env, s.start, s.afterFirst));
    later := Move(LATER, "big", "right", Request(s), Saving(env, s.afterFirst, s.afterBoth));
    MeteredHot(s.start);
    MovedAt(env, s.start, Candidate(s, FIRST), "left", s.afterFirst, [], {});
    MovedAt(env, s.afterFirst, pod, "right", s.afterBoth, [first], {FIRST});
    assert [] + [first] == [first] && [first] + [later] == [first, later] && {} + {FIRST} == {FIRST};
    StartIsAt(env, s.start);
    OnlyTargetWalk(env, COLD, At(env, s.start, [], {}), Candidates(s), "left");
    assert Candidates(s)[1..] == [pod] && [pod][1..] == [];
    OnlyTargetWalk(env, COLD, At(env, s.afterFirst, [first], {FIRST}), [pod], "right");
    WalkEnds(env, COLD, At(env, s.afterBoth, [first, later], {FIRST} + {LATER}));
  }

  lemma MeteredHot(usage: map<string, Usage>)
    requires Metered({}, usage)
    ensures Metered(HOT, usage)
  {
  }

  // ---------------------------------------------------------------- harm

  /** What a planner without history may plan for a cluster, with load within the nodes' sizes. */
  ghost predicate FirstPlan(cluster: ClusterInfo, p: Policy, trace: PlanTrace) {
    && PlannedFrom(ClusterEnv(cluster, p), p, ClusterUsage(cluster), WithHistory(cluster, []), trace)
    && Within(cluster, 1)
  }

  /** Some of the plan's moves raise the variance of utilization, recomputed under the given weights. */
  ghost predicate Harmful(cluster: ClusterInfo, p: Policy, trace: PlanTrace, exec: seq<Move>, w: Weights) {
    var env, usage := ClusterEnv(cluster, p).(weights := w), ClusterUsage(cluster);
    && Distinct(exec) && (forall m | m in exec :: m in trace.planned)
    && ImbalanceOf(env, Replay(usage, exec)) > ImbalanceOf(env, usage)
  }

  lemma TellingTrace(s: Scenario) returns (trace: PlanTrace, first: Move, later: Move)
    requires Telling(s)
    ensures FirstPlan(ClusterIn(s), PolicyIn(s), trace) && trace.planned == [first, later]
    ensures first.from == later.from == "big" && first.to == "left" && later.to == "right"
    ensures first.request == later.request == Request(s)
  {
    hide UtilOf, Moved, Metered, Variance, Within, Request, Triaged, Walk, ClassifiedUtil, WithHistory, ThreeNodes,
      ClusterEnv, ClusterUsage, Demand, EnvIn, Three, COLD;
    first, later := TellingWalk(s);
    FitsOneEach(s);
    ThreeNodesEnv(s.sizes, s.start, Candidates(s), ONE_FIT_EACH, s.weights, 0.0);
    NoHistory(s.sizes, s.start, Candidates(s), ONE_FIT_EACH);
    ClassifiedIsUtil(EnvIn(s), s.start);
    Triage(UtilOf(EnvIn(s), s.start), PolicyIn(s), Candidates(s), [first, later], 1.0, 0.1, 0.5);
    trace := PlanTrace(HOT, COLD, Candidates(s), [first, later], 0, 0, []);
    EnvIs(s);
  }

  lemma EnvIs(s: Scenario)
    ensures EnvIn(s) == ThreeEnv(s.sizes, ONE_FIT_EACH, s.weights, 0.0)
  {
  }

  lemma TellingIsHarmful(s: Scenario) returns (trace: PlanTrace, first: Move, later: Move)
    requires Telling(s)
    ensures FirstPlan(ClusterIn(s), PolicyIn(s), trace) && trace.planned == [first, later]
    ensures Harmful(ClusterIn(s), PolicyIn(s), trace, [later], s.weights)
    ensures first.from == later.from == "big" && first.to == "left" && later.to == "right"
    ensures first.request == later.request == Request(s)
  {
    hide ImbalanceOf, UtilOf, Moved, Metered, Within, Request, FirstPlan, ThreeNodes, ClusterEnv, ClusterUsage, Demand,
      Three;
    Variances(s);
    trace, first, later := TellingTrace(s);
    ThreeNodesEnv(s.sizes, s.start, Candidates(s), ONE_FIT_EACH, s.weights, 0.0);
    AppendReplay(s.start, [], later);
    assert [] + [later] == [later] && later in trace.planned;
  }

  lemma MovedLeft(big: Usage, left: Usage, right: Usage, request: Usage)
    ensures Moved(Three(big, left, right), "big", "left", request)
         == Three(Lighter(big, request), Heavier(left, request), right)
  {
  }

  lemma MovedRight(big: Usage, left: Usage, right: Usage, request: Usage)
    ensures Moved(Three(big, left, right), "big", "right", request)
         == Three(Lighter(big, request), left, Heavier(right, request))
  {
  }

  // ---------------------------------------------------------------- nodes of different sizes

  lemma CpuPressure(u: Usage, size: Size, cores: real)
    requires size.milliCPU as real / 1000.0 == cores && cores > 0.0
    ensures Pressure(u, size, Weights(1.0, 0.0)) == u.cpu / cores
  {
    assert Mul(Share(u.cpu, cores), 1.0) == u.cpu / cores;
    assert Mul(Share(u.memory as real, size.bytes as real), 0.0) == 0.0;
  }

  /** A hot node of four cores and two cold nodes of one; CPU alone counts. */
  function MixedSizes(): Scenario {
    Scenario(
      Weights(1.0, 0.0),
      Three(Allocatable(4000, 9), Allocatable(1000, 9), Allocatable(1000, 9)),
      400,
      Three(Usage(4.0, 2), Usage(0.1, 0), Usage(0.5, 0)),
      Three(Usage(3.6, 1), Usage(0.5, 1), Usage(0.5, 0)),
      Three(Usage(3.2, 0), Usage(0.5, 1), Usage(0.9, 1)),
      Three(Usage(3.6, 1), Usage(0.1, 0), Usage(0.9, 1)))
  }

  lemma MixedUtil(big: Usage, left: Usage, right: Usage)
    ensures UtilOf(EnvIn(MixedSizes()), Three(big, left, right)) == Three(big.cpu / 4.0, left.cpu, right.cpu)
  {
    hide Pressure;
    CpuPressure(Floored(big), Allocatable(4000, 9), 4.0);
    CpuPressure(Floored(left), Allocatable(1000, 9), 1.0);
    CpuPressure(Floored(right), Allocatable(1000, 9), 1.0);
    IsThree(UtilOf(EnvIn(MixedSizes()), Three(big, left, right)), big.cpu / 4.0, left.cpu, right.cpu);
  }

  lemma MixedWithin()
    ensures Within(ClusterIn(MixedSizes()), 1)
  {
  }

  lemma MixedMoves()
    ensures Moves(MixedSizes())
  {
    hide Moved, Demand;
    var request := Usage(0.4, 1);
    PodOnBigDemand(FIRST, 400, 1);
    MovedLeft(Usage(4.0, 2), Usage(0.1, 0), Usage(0.5, 0), request);
    MovedRight(Usage(3.6, 1), Usage(0.5, 1), Usage(0.5, 0), request);
    MovedRight(Usage(4.0, 2), Usage(0.1, 0), Usage(0.5, 0), request);
  }

  lemma MixedIsTelling()
    ensures Telling(MixedSizes())
  {
    hide UtilOf, Pressure, Moves, EnvIn, ClusterIn, Within, Three;
    MixedMoves();
    MixedWithin();
    MixedUtil(Usage(4.0, 2), Usage(0.1, 0), Usage(0.5, 0));
    MixedUtil(Usage(3.6, 1), Usage(0.5, 1), Usage(0.5, 0));
    MixedUtil(Usage(3.2, 0), Usage(0.5, 1), Usage(0.9, 1));
    MixedUtil(Usage(3.6, 1), Usage(0.1, 0), Usage(0.9, 1));
  }

  lemma TotalOfTwo(n: string, d: Move -> real, m1: Move, m2: Move)
    requires m1.from == m2.from == "big"
    ensures Total(LeavingFrom(n, d), [m1, m2]) == if n == "big" then d(m1) + d(m2) else 0.0
  {
    assert [m1, m2] == [m1] + [m2] && [m1] == [] + [m1];
    TotalAppend(LeavingFrom(n, d), [m1], m2);
    TotalAppend(LeavingFrom(n, d), [], m1);
  }

  lemma CoverTwo(usage: map<string, Usage>, m1: Move, m2: Move)
    requires m1.from == m2.from == "big" && m1.request == m2.request && "big" in usage
    requires m1.request.cpu + m1.request.cpu <= usage["big"].cpu
    requires m1.request.memory + m1.request.memory <= usage["big"].memory
    requires Metered({}, usage)
    ensures Covers(usage, [m1, m2])
  {
    hide Total;
    forall n | n in usage
      ensures Total(LeavingFrom(n, Cpu()), [m1, m2]) <= usage[n].cpu
      ensures Total(LeavingFrom(n, Memory()), [m1, m2]) <= usage[n].memory as real
    {
      TotalOfTwo(n, Cpu(), m1, m2);
      TotalOfTwo(n, Memory(), m1, m2);
    }
  }

  // Although usage covers the plan, on nodes of different sizes part of it may leave the cluster less balanced.
  lemma MixedSizesCanHurt() returns (cluster: ClusterInfo, p: Policy, trace: PlanTrace, exec: seq<Move>)
    ensures FirstPlan(cluster, p, trace) && PositiveWeights(p.weights)
    ensures Covers(ClusterUsage(cluster), trace.planned)
    ensures Harmful(cluster, p, trace, exec, p.weights)
  {
    hide FirstPlan, Harmful, Covers, ClusterUsage, ClusterIn, Telling;
    var s := MixedSizes();
    MixedIsTelling();
    cluster, p := ClusterIn(s), PolicyIn(s);
    var first, later;
    trace, first, later := TellingIsHarmful(s);
    exec := [later];
    MixedUsage();
    CoverTwo(s.start, first, later);
  }

  lemma MixedUsage()
    ensures var s := MixedSizes();
            && ClusterUsage(ClusterIn(s)) == s.start && Metered({}, s.start)
            && "big" in s.start && s.start["big"] == Usage(4.0, 2) && Request(s) == Usage(0.4, 1)
  {
    hide Demand, ThreeNodes, ClusterUsage, ClusterEnv, Metered, Moved;
    var s := MixedSizes();
    MixedMoves();
    PodOnBigDemand(FIRST, 400, 1);
    ThreeNodesEnv(s.sizes, s.start, Candidates(s), ONE_FIT_EACH, s.weights, 0.0);
  }

  // ---------------------------------------------------------------- usage below requests

  /** Nodes alike; the hot one uses no CPU, so its pods' CPU requests are floored away on the source. */
  function IdleRequests(): Scenario {
    Scenario(
      Weights(1.0, 1.0),
      Three(Allocatable(1000, 10), Allocatable(1000, 10), Allocatable(1000, 10)),
      300,
      Three(Usage(0.0, 10), Usage(0.0, 1), Usage(0.0, 5)),
      Three(Usage(0.0, 9), Usage(0.3, 2), Usage(0.0, 5)),
      Three(Usage(0.0, 8), Usage(0.3, 2), Usage(0.3, 6)),
      Three(Usage(0.0, 9), Usage(0.0, 1), Usage(0.3, 6)))
  }

  lemma EvenPressure(u: Usage)
    requires u.memory >= 0
    ensures Pressure(Floored(u), Allocatable(1000, 10), Weights(1.0, 1.0)) == u.cpu + u.memory as real / 10.0
  {
    assert Mul(Share(u.cpu, 1.0), 1.0) == u.cpu;
    assert Mul(Share(u.memory as real, 10.0), 1.0) == u.memory as real / 10.0;
  }

  lemma IdleUtil(big: Usage, left: Usage, right: Usage)
    requires big.memory >= 0 && left.memory >= 0 && right.memory >= 0
    ensures UtilOf(EnvIn(IdleRequests()), Three(big, left, right))
         == Three(big.cpu + big.memory as real / 10.0, left.cpu + left.memory as real / 10.0,
                  right.cpu + right.memory as real / 10.0)
  {
    hide Pressure, Floored;
    EvenPressure(big);
    EvenPressure(left);
    EvenPressure(right);
    IsThree(UtilOf(EnvIn(IdleRequests()), Three(big, left, right)), big.cpu + big.memory as real / 10.0,
            left.cpu + left.memory as real / 10.0, right.cpu + right.memory as real / 10.0);
  }

  lemma IdleWithin()
    ensures Within(ClusterIn(IdleRequests()), 1)
  {
  }

  lemma IdleMoves()
    ensures Moves(IdleRequests())
  {
    hide Moved, Demand;
    var request := Usage(0.3, 1);
    PodOnBigDemand(FIRST, 300, 1);
    MovedLeft(Usage(0.0, 10), Usage(0.0, 1), Usage(0.0, 5), request);
    MovedRight(Usage(0.0, 9), Usage(0.3, 2), Usage(0.0, 5), request);
    MovedRight(Usage(0.0, 10), Usage(0.0, 1), Usage(0.0, 5), request);
  }

  lemma IdleIsTelling()
    ensures Telling(IdleRequests())
  {
    hide UtilOf, Pressure, Moves, EnvIn, ClusterIn, Within, Three;
    IdleMoves();
    IdleWithin();
    IdleUtil(Usage(0.0, 10), Usage(0.0, 1), Usage(0.0, 5));
    IdleUtil(Usage(0.0, 9), Usage(0.3, 2), Usage(0.0, 5));
    IdleUtil(Usage(0.0, 8), Usage(0.3, 2), Usage(0.3, 6));
    IdleUtil(Usage(0.0, 9), Usage(0.0, 1), Usage(0.3, 6));
  }

  // Although all nodes are alike, part of a plan whose requests exceed the usage may leave the cluster less balanced.
  lemma IdleRequestsCanHurt() returns (cluster: ClusterInfo, p: Policy, trace: PlanTrace, exec: seq<Move>)
    ensures FirstPlan(cluster, p, trace) && PositiveWeights(p.weights)
    ensures Matched(ClusterEnv(cluster, p), trace.planned)
    ensures Harmful(cluster, p, trace, exec, p.weights)
  {
    hide FirstPlan, Harmful, ClusterEnv, ClusterIn, Telling;
    var s := IdleRequests();
    IdleIsTelling();
    cluster, p := ClusterIn(s), PolicyIn(s);
    var first, later;
    trace, first, later := TellingIsHarmful(s);
    exec := [later];
    IdleSizes();
  }

  lemma IdleSizes()
    ensures var s := IdleRequests();
            var env := ClusterEnv(ClusterIn(s), PolicyIn(s));
            forall n | n in HOT || n in COLD :: n in env.sizes && env.sizes[n] == Allocatable(1000, 10)
  {
    var s := IdleRequests();
    ThreeNodesEnv(s.sizes, s.start, Candidates(s), ONE_FIT_EACH, s.weights, 0.0);
  }

  // ---------------------------------------------------------------- unset weights

  const UNSET := PolicyWith(NO_WEIGHTS, DEFAULTS.targetVariance)
  const EVEN := Three(EvenSize(10), EvenSize(10), EvenSize(10))
  const LEFT_ONLY := {(FIRST, "left")}

  function Levels(x: nat, y: nat, z: nat): map<string, Usage> {
    Three(Level(x), Level(y), Level(z))
  }

  function HalfPod(): Pod {
    PodOnBig(FIRST, 5000, 5)
  }

  function UnsetEnv(): Env {
    ThreeEnv(EVEN, LEFT_ONLY, NO_WEIGHTS, DEFAULTS.targetVariance)
  }

  lemma TenthPressure(x: nat)
    ensures Pressure(Level(x), EvenSize(10), EffectiveWeights(NO_WEIGHTS)) == x as real / 10.0
    ensures Floored(Level(x)) == Level(x)
  {
    LevelPressure(x, 10, EffectiveWeights(NO_WEIGHTS));
  }

  lemma LevelsUtil(x: nat, y: nat, z: nat)
    ensures Levels(x, y, z).Keys == EVEN.Keys
    ensures UtilOf(Classifying(UnsetEnv()), Levels(x, y, z))
         == Three(x as real / 10.0, y as real / 10.0, z as real / 10.0)
  {
    hide Pressure, Floored, Level, EvenSize;
    TenthPressure(x);
    TenthPressure(y);
    TenthPressure(z);
    IsThree(UtilOf(Classifying(UnsetEnv()), Levels(x, y, z)), x as real / 10.0, y as real / 10.0, z as real / 10.0);
  }

  lemma HalfPodMoves()
    ensures Moved(Levels(9, 5, 0), "big", "left", Demand(HalfPod())) == Levels(4, 10, 0)
    ensures Demand(HalfPod()) == Level(5)
  {
  }

  // The simulation makes both nodes idle.
  lemma HalfPodSimulated()
    ensures SimulatedUtil(UnsetEnv(), Levels(9, 5, 0), Three(0.9, 0.5, 0.0), "big", "left", Demand(HalfPod()))
         == Three(0.0, 0.0, 0.0)
  {
    hide Pressure, Demand;
    var request := Demand(HalfPod());
    NoWeightsNoPressure(Floored(Lighter(Level(9), request)), EvenSize(10));
    NoWeightsNoPressure(Heavier(Level(5), request), EvenSize(10));
  }

  lemma UnsetVariances()
    ensures Variance(Three(0.0, 0.0, 0.0)) == 0.0
    ensures 0.0 < Variance(Three(0.9, 0.5, 0.0)) < Variance(Three(0.4, 1.0, 0.0))
    ensures Variance(Three(0.9, 0.5, 0.0)) <= DEFAULTS.targetVariance
  {
    hide Variance;
    VarianceOfThree(0.0, 0.0, 0.0);
    VarianceOfThree(0.9, 0.5, 0.0);
    VarianceOfThree(0.4, 1.0, 0.0);
  }

  lemma UnsetWalk() returns (m: Move)
    ensures Levels(9, 5, 0).Keys == UnsetEnv().sizes.Keys
    ensures Walk(UnsetEnv(), ["right", "left"], Start(Levels(9, 5, 0), Three(0.9, 0.5, 0.0)), [HalfPod()]).plan == [m]
    ensures m.from == "big" && m.to == "left" && m.request == Level(5)
  {
    hide Variance, Walk, SimulatedUtil, Moved, Demand, Levels, Level;
    var env, pod, st := UnsetEnv(), HalfPod(), Start(Levels(9, 5, 0), Three(0.9, 0.5, 0.0));
    LevelsUtil(9, 5, 0);
    HalfPodMoves();
    HalfPodSimulated();
    UnsetVariances();
    assert ["right", "left"][1] == "left" && [pod][1..] == [];
    OnlyTargetWalk(env, ["right", "left"], st, [pod], "left");
    WalkEnds(env, ["right", "left"], MovedTo(env, st, pod, "left"));
    m := MovedTo(env, st, pod, "left").plan[0];
  }

  function UnsetCluster(): ClusterInfo {
    LevelsUtil(9, 5, 0);
    ThreeNodes(EVEN, Levels(9, 5, 0), [HalfPod()], LEFT_ONLY)
  }

  lemma UnsetStart()
    ensures ClusterEnv(UnsetCluster(), UNSET) == UnsetEnv() && ClusterUsage(UnsetCluster()) == Levels(9, 5, 0)
    ensures Levels(9, 5, 0).Keys == UnsetEnv().sizes.Keys && UnsetEnv().weights == NO_WEIGHTS
    ensures ClassifiedUtil(UnsetEnv(), Levels(9, 5, 0)) == Three(0.9, 0.5, 0.0)
    ensures WithHistory(UnsetCluster(), []) == [HalfPod()] && Within(UnsetCluster(), 1)
  {
    hide UtilOf, ClassifiedUtil, WithHistory, ThreeNodes, ClusterEnv, ClusterUsage, Levels, Three, Within;
    LevelsUtil(9, 5, 0);
    ThreeNodesEnv(EVEN, Levels(9, 5, 0), [HalfPod()], LEFT_ONLY, NO_WEIGHTS, DEFAULTS.targetVariance);
    NoHistory(EVEN, Levels(9, 5, 0), [HalfPod()], LEFT_ONLY);
    MeteredLevels(9, 5, 0);
    ClassifiedIsUtil(UnsetEnv(), Levels(9, 5, 0));
  }

  lemma UnsetTrace() returns (trace: PlanTrace, m: Move)
    ensures FirstPlan(UnsetCluster(), UNSET, trace) && trace.planned == [m]
    ensures m.from == "big" && m.to == "left" && m.request == Level(5)
  {
    hide ClassifiedUtil, Walk, Triaged, WithHistory, ClusterEnv, ClusterUsage, Levels, Level, UnsetEnv, UnsetCluster,
      Three, Within, HalfPod;
    UnsetStart();
    m := UnsetWalk();
    HalfPodIsPlain();
    Triage(Three(0.9, 0.5, 0.0), UNSET, [HalfPod()], [m], 0.9, 0.5, 0.0);
    trace := PlanTrace(HOT, ["right", "left"], [HalfPod()], [m], 0, 0, []);
  }

  lemma HalfPodIsPlain()
    ensures HalfPod() == PodOnBig(HalfPod().name, HalfPod().milliCPU, HalfPod().bytes)
  {
  }

  // Without weights a plan may be made, although the cluster is below its target, that leaves the cluster less balanced
  // by the very measure it was classified with.
  lemma UnsetWeightsCanHurt() returns (cluster: ClusterInfo, p: Policy, trace: PlanTrace)
    ensures FirstPlan(cluster, p, trace) && p.weights == NO_WEIGHTS && trace.planned != []
    ensures Harmful(cluster, p, trace, trace.planned, EffectiveWeights(p.weights))
    ensures Variance(ClassifiedUtil(ClusterEnv(cluster, p), ClusterUsage(cluster))) <= p.targetVariance
  {
    hide Variance, UtilOf, ClassifiedUtil, Walk, ClusterEnv, ClusterUsage, Levels, Level, Moved, UnsetEnv, Three,
      FirstPlan, UnsetCluster;
    var m;
    cluster, p := UnsetCluster(), UNSET;
    trace, m := UnsetTrace();
    UnsetStart();
    UnsetVariances();
    LevelsUtil(9, 5, 0);
    LevelsUtil(4, 10, 0);
    HalfPodMoves();
    AppendReplay(Levels(9, 5, 0), [], m);
    assert [] + [m] == [m];
  }

  lemma MeteredLevels(x: nat, y: nat, z: nat)
    ensures Metered({}, Levels(x, y, z))
    ensures x <= 10 && y <= 10 && z <= 10 && Levels(x, y, z).Keys == EVEN.Keys ==>
              Within(ThreeNodes(EVEN, Levels(x, y, z), [HalfPod()], LEFT_ONLY), 1)
  {
  }

  // ---------------------------------------------------------------- a start below the target

  // Even with weights a plan may be made for a cluster that is already below its target.
  lemma MoveBelowTarget() returns (cluster: ClusterInfo, trace: PlanTrace)
    ensures FirstPlan(cluster, DEFAULTS, trace) && |trace.planned| == 1
    ensures Variance(ClassifiedUtil(ClusterEnv(cluster, DEFAULTS), ClusterUsage(cluster))) < DEFAULTS.targetVariance
  {
    hide PlannedFrom, Variance, ClassifiedUtil, ClusterEnv, ClusterUsage, PairCluster, Evictable;
    assert Evictable(DEFAULTS, [], [FIRST], 0) by { FirstIsEvictable(); }
    cluster := PairCluster(DEFAULTS, map[], [FIRST], 0, 15, 20);
    trace := PairPlan(DEFAULTS, map[], [FIRST], [], 0, 15, 20);
    PairEnv(DEFAULTS, map[], [FIRST], 0, 15, 20);
    PairUtil(ClusterEnv(cluster, DEFAULTS), 20, 15);
    TwoUtilVariance(15, 0, Unit(20, DEFAULTS.weights));
    PairIsWithin(15, 20);
  }

  lemma FirstIsEvictable()
    ensures Evictable(DEFAULTS, [], [FIRST], 0)
  {
  }

  lemma PairIsWithin(x: nat, c: nat)
    requires c > 0 && x <= c
    ensures Within(PairCluster(DEFAULTS, map[], [FIRST], 0, x, c), 1)
  {
  }
}
