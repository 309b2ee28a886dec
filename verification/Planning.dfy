/** The planning loop over mutable node states. */
module Planning {
  import opened Arithmetic
  import opened Imbalance
  import opened Cluster
  import opened Greedy

  datatype Temperature = NodeHot | NodeCold | NodeOK

  datatype Utilization = Utilization(cpu: real, memory: real, weighted: real)

  class NodeState {
    const name: string
    const size: Size
    const classes: set<string>
    var usage: Usage
    var utilization: Utilization
    var classification: Temperature

    constructor (name: string, size: Size, classes: set<string>, usage: Usage)
      ensures this.name == name && this.size == size && this.classes == classes && this.usage == usage
    {
      this.name, this.size, this.classes, this.usage := name, size, classes, usage;
      utilization, classification := Utilization(0.0, 0.0, 0.0), NodeOK;
    }
  }

  /** The cluster state a plan is made from. `fits` says where each pod can be scheduled. */
  datatype Snapshot = Snapshot(
    nodes: map<string, NodeState>,
    pods: seq<Pod>,
    slos: map<string, SLO>,
    fits: set<(PodName, string)>)

  /** What the API server and the metrics say about a node. */
  datatype NodeInfo = NodeInfo(size: Size, classes: set<string>, usage: Usage)

  /** The cluster as read at the start of a round. */
  datatype ClusterInfo = ClusterInfo(
    nodes: map<string, NodeInfo>,
    pods: seq<Pod>,
    slos: map<string, SLO>,
    fits: set<(PodName, string)>)

  function ClusterUsage(cluster: ClusterInfo): (r: map<string, Usage>)
    ensures r.Keys == cluster.nodes.Keys
  {
    map k | k in cluster.nodes :: cluster.nodes[k].usage
  }

  function ClusterEnv(cluster: ClusterInfo, policy: Policy): (env: Env)
    ensures env.sizes.Keys == cluster.nodes.Keys
  {
    Env(map k | k in cluster.nodes :: cluster.nodes[k].size,
        map k | k in cluster.nodes :: cluster.nodes[k].classes,
        cluster.fits, policy.weights, policy.nodeClassPreference, policy.targetVariance)
  }

  /** The node states hold what was read about the nodes. */
  ghost predicate Mirrors(nodes: map<string, NodeState>, infos: map<string, NodeInfo>)
    reads nodes.Values
  {
    && WellNamed(nodes)
    && forall k | k in nodes ::
         && k in infos && nodes[k].size == infos[k].size && nodes[k].classes == infos[k].classes
         && nodes[k].usage == infos[k].usage
  }

  lemma MirrorsEnv(snapshot: Snapshot, cluster: ClusterInfo, policy: Policy)
    requires snapshot.nodes.Keys == cluster.nodes.Keys && Mirrors(snapshot.nodes, cluster.nodes)
    requires snapshot.fits == cluster.fits
    ensures EnvOf(snapshot, policy) == ClusterEnv(cluster, policy)
    ensures UsageIn(snapshot.nodes) == ClusterUsage(cluster)
  {
  }

  ghost predicate WellNamed(nodes: map<string, NodeState>) {
    forall k | k in nodes :: nodes[k].name == k
  }

  ghost function UsageIn(nodes: map<string, NodeState>): (r: map<string, Usage>)
    reads nodes.Values
    ensures r.Keys == nodes.Keys
  {
    map k | k in nodes :: nodes[k].usage
  }

  ghost function SizesIn(nodes: map<string, NodeState>): (r: map<string, Size>)
    ensures r.Keys == nodes.Keys
  {
    map k | k in nodes :: nodes[k].size
  }

  ghost function EnvOf(snapshot: Snapshot, policy: Policy): (env: Env)
    ensures env.sizes.Keys == snapshot.nodes.Keys && env.target == policy.targetVariance
  {
    Env(SizesIn(snapshot.nodes), map k | k in snapshot.nodes :: snapshot.nodes[k].classes,
        snapshot.fits, policy.weights, policy.nodeClassPreference, policy.targetVariance)
  }

  function Names(nodes: seq<NodeState>): (r: seq<string>)
    ensures |r| == |nodes| && forall i | 0 <= i < |r| :: r[i] == nodes[i].name
  {
    seq(|nodes|, i requires 0 <= i < |nodes| => nodes[i].name)
  }

  // ---------------------------------------------------------------- sorting

  ghost predicate Ascending<T>(s: seq<T>, key: T -> real) {
    forall i, j | 0 <= i < j < |s| :: key(s[i]) <= key(s[j])
  }

  lemma InsertKeepsElements<T>(s: seq<T>, k: nat, x: T)
    requires k <= |s|
    ensures multiset(s[..k] + [x] + s[k..]) == multiset(s) + multiset{x}
  {
    assert s == s[..k] + s[k..];
  }

  lemma InsertKeepsOrder<T>(s: seq<T>, k: nat, x: T, key: T -> real)
    requires k <= |s| && Ascending(s, key)
    requires k > 0 ==> key(s[k - 1]) <= key(x)
    requires k < |s| ==> key(x) <= key(s[k])
    ensures Ascending(s[..k] + [x] + s[k..], key)
  {
  }

  /** A sort by key that promises nothing about the order of equal keys. */
  method SortBy<T>(s: seq<T>, key: T -> real) returns (r: seq<T>)
    ensures multiset(r) == multiset(s)
    ensures Ascending(r, key)
  {
    hide Ascending;
    r := [];
    SortedWhenEmpty(r, key);
    for i := 0 to |s|
      invariant multiset(r) == multiset(s[..i])
      invariant Ascending(r, key)
    {
      var k := |r|;
      while k > 0 && key(s[i]) < key(r[k - 1])
        invariant 0 <= k <= |r|
        invariant k < |r| ==> key(s[i]) <= key(r[k])
      {
        k := k - 1;
      }
      InsertKeepsElements(r, k, s[i]);
      InsertKeepsOrder(r, k, s[i], key);
      r := r[..k] + [s[i]] + r[k..];
      assert s[..i + 1] == s[..i] + [s[i]];
    }
    assert s[..|s|] == s;
  }

  lemma SortedWhenEmpty<T>(s: seq<T>, key: T -> real)
    requires s == []
    ensures Ascending(s, key)
  {
  }

  // ---------------------------------------------------------------- classification

  function TemperatureOf(weighted: real, policy: Policy): Temperature {
    if weighted >= policy.hotThreshold - policy.hysteresis then NodeHot
    else if weighted <= policy.coldThreshold + policy.hysteresis then NodeCold
    else NodeOK
  }

  // Dividing thousandths by thousandths or cores by cores is the same share.
  lemma SharesAgree(u: Usage, size: Size, w: Weights)
    ensures Mul(Share(u.cpu * 1000.0, size.milliCPU as real), w.cpu) +
            Mul(Share(u.memory as real, size.bytes as real), w.memory)
         == Pressure(u, size, w)
  {
    var m := size.milliCPU as real;
    assert m > 0.0;
    MeanTimesCount(m, u.cpu * 1000.0);
    MeanTimesCount(m / 1000.0, u.cpu);
    hide Mul;
    ShareOfThousandths(u.cpu, m);
  }

  lemma ShareOfThousandths(x: real, m: real)
    requires m > 0.0
    ensures Share(x * 1000.0, m) == Share(x, m / 1000.0)
  {
    var q := x / (m / 1000.0);
    assert q * (m / 1000.0) == x;
    assert q * m == x * 1000.0;
  }

  function WeightedIn(util: map<string, real>): NodeState -> real {
    (n: NodeState) => if n.name in util then util[n.name] else 0.0
  }

  function WeightedInReverse(util: map<string, real>): NodeState -> real {
    (n: NodeState) => if n.name in util then -util[n.name] else 0.0
  }

  /** The list holds each classified node of the given temperature once, and nothing else. */
  ghost predicate Collected(nodes: map<string, NodeState>, util: map<string, real>, policy: Policy, t: Temperature,
                            list: seq<NodeState>)
    requires util.Keys <= nodes.Keys
  {
    && (forall n | n in list :: n.name in util && nodes[n.name] == n)
    && (forall k | k in util :: multiset(list)[nodes[k]] == if TemperatureOf(util[k], policy) == t then 1 else 0)
  }

  lemma CollectNext(nodes: map<string, NodeState>, util: map<string, real>, policy: Policy, t: Temperature,
                    list: seq<NodeState>, k: string, v: real)
    requires WellNamed(nodes) && util.Keys <= nodes.Keys && k in nodes && k !in util
    requires Collected(nodes, util, policy, t, list)
    ensures Collected(nodes, util[k := v], policy, t,
                      if TemperatureOf(v, policy) == t then list + [nodes[k]] else list)
  {
    var longer := list + [nodes[k]];
    assert nodes[k] !in list;
    assert multiset(longer) == multiset(list) + multiset{nodes[k]};
    assert multiset(list)[nodes[k]] == 0;
    forall j | j in util ensures nodes[j] != nodes[k] {
      assert nodes[j].name == j && nodes[k].name == k;
    }
  }

  lemma CollectedPermutes(nodes: map<string, NodeState>, util: map<string, real>, policy: Policy, t: Temperature,
                          list: seq<NodeState>, list': seq<NodeState>)
    requires util.Keys <= nodes.Keys && Collected(nodes, util, policy, t, list) && multiset(list) == multiset(list')
    ensures Collected(nodes, util, policy, t, list')
  {
    forall n | n in list' ensures n in list {
      assert n in multiset(list');
    }
  }

  /** The names are exactly those of the nodes of one temperature. */
  ghost predicate NamesOfTemperature(names: seq<string>, util: map<string, real>, policy: Policy, t: Temperature) {
    forall k :: k in names <==> k in util && TemperatureOf(util[k], policy) == t
  }

  // By name, the list holds exactly the nodes of its temperature.
  lemma CollectedNames(nodes: map<string, NodeState>, util: map<string, real>, policy: Policy, t: Temperature,
                       list: seq<NodeState>)
    requires WellNamed(nodes) && util.Keys == nodes.Keys && Collected(nodes, util, policy, t, list)
    ensures NamesOfTemperature(Names(list), util, policy, t)
    ensures forall n | n in list :: n.name in nodes && nodes[n.name] == n
  {
    forall k ensures k in Names(list) <==> k in util && TemperatureOf(util[k], policy) == t {
      if k in Names(list) {
        var i :| 0 <= i < |list| && list[i].name == k;
        assert list[i] in list && multiset(list)[nodes[k]] > 0;
      }
      if k in util && TemperatureOf(util[k], policy) == t {
        assert nodes[k] in list;
        var i :| 0 <= i < |list| && list[i] == nodes[k];
        assert Names(list)[i] == k;
      }
    }
  }

  /** Computes a node's utilization and temperature. */
  method ClassifyNode(node: NodeState, weights: Weights, policy: Policy)
    modifies node`utilization, node`classification
    ensures node.utilization.cpu == node.usage.cpu * 1000.0 / node.size.milliCPU as real
    ensures node.utilization.memory == node.usage.memory as real / node.size.bytes as real
    ensures node.utilization.weighted == Pressure(node.usage, node.size, weights)
    ensures node.classification == TemperatureOf(node.utilization.weighted, policy)
  {
    hide Pressure, Mul;
    var cpuUtil := Share(node.usage.cpu * 1000.0, node.size.milliCPU as real);
    var memUtil := Share(node.usage.memory as real, node.size.bytes as real);
    SharesAgree(node.usage, node.size, weights);
    node.utilization := Utilization(cpuUtil, memUtil, Mul(cpuUtil, weights.cpu) + Mul(memUtil, weights.memory));
    node.classification := TemperatureOf(node.utilization.weighted, policy);
  }

  /** Splits nodes by temperature: hottest first among the hot, coldest first among the cold. */
  method ClassifyNodes(nodes: map<string, NodeState>, weights: Weights, policy: Policy)
    returns (hot: seq<NodeState>, cold: seq<NodeState>, util: map<string, real>)
    requires WellNamed(nodes)
    modifies nodes.Values
    ensures UsageIn(nodes) == old(UsageIn(nodes)) && util == PressureOf(SizesIn(nodes), UsageIn(nodes), weights)
    ensures forall k | k in nodes ::
              && nodes[k].utilization.weighted == util[k]
              && nodes[k].classification == TemperatureOf(util[k], policy)
    ensures Collected(nodes, util, policy, NodeHot, hot) && Collected(nodes, util, policy, NodeCold, cold)
    ensures forall i, j | 0 <= i < j < |hot| :: hot[i].utilization.weighted >= hot[j].utilization.weighted
    ensures Ascending(cold, WeightedIn(util))
  {
    hide Pressure, Collected, TemperatureOf, Ascending, PressureOf, SizesIn, WeightedIn, WeightedInReverse;
    hot, cold, util := [], [], map[];
    NothingCollected(nodes, policy);
    var rest := nodes.Keys;
    while rest != {}
      invariant rest <= nodes.Keys && util.Keys == nodes.Keys - rest
      invariant forall k | k in nodes :: nodes[k].usage == old(nodes[k].usage)
      invariant forall k | k in util ::
                  && util[k] == Pressure(nodes[k].usage, nodes[k].size, weights) == nodes[k].utilization.weighted
                  && nodes[k].classification == TemperatureOf(util[k], policy)
      invariant Collected(nodes, util, policy, NodeHot, hot) && Collected(nodes, util, policy, NodeCold, cold)
    {
      var k :| k in rest;
      var node := nodes[k];
      ClassifyNode(node, weights, policy);
      CollectNext(nodes, util, policy, NodeHot, hot, k, node.utilization.weighted);
      CollectNext(nodes, util, policy, NodeCold, cold, k, node.utilization.weighted);
      util := util[node.name := node.utilization.weighted];
      if node.classification == NodeHot {
        hot := hot + [node];
      } else if node.classification == NodeCold {
        cold := cold + [node];
      }
      rest := rest - {k};
    }
    var sortedHot := SortBy(hot, WeightedInReverse(util));
    var sortedCold := SortBy(cold, WeightedIn(util));
    CollectedPermutes(nodes, util, policy, NodeHot, hot, sortedHot);
    CollectedPermutes(nodes, util, policy, NodeCold, cold, sortedCold);
    hot, cold := sortedHot, sortedCold;
    HottestFirst(nodes, util, policy, hot);
    AllPressures(nodes, util, weights);
  }

  lemma AllPressures(nodes: map<string, NodeState>, util: map<string, real>, w: Weights)
    requires util.Keys == nodes.Keys
    requires forall k | k in nodes :: util[k] == Pressure(nodes[k].usage, nodes[k].size, w)
    ensures util == PressureOf(SizesIn(nodes), UsageIn(nodes), w)
  {
    hide Pressure;
  }

  lemma HottestFirst(nodes: map<string, NodeState>, util: map<string, real>, policy: Policy, hot: seq<NodeState>)
    requires util.Keys == nodes.Keys && Collected(nodes, util, policy, NodeHot, hot)
    requires Ascending(hot, WeightedInReverse(util))
    ensures forall i | 0 <= i < |hot| :: hot[i].name in util && nodes[hot[i].name] == hot[i]
    ensures forall i, j | 0 <= i < j < |hot| :: util[hot[i].name] >= util[hot[j].name]
  {
    hide TemperatureOf;
    forall i | 0 <= i < |hot| ensures hot[i].name in util && nodes[hot[i].name] == hot[i] {
      assert hot[i] in hot;
    }
    forall i, j | 0 <= i < j < |hot| ensures util[hot[i].name] >= util[hot[j].name] {
      assert WeightedInReverse(util)(hot[i]) <= WeightedInReverse(util)(hot[j]);
    }
  }

  lemma NothingCollected(nodes: map<string, NodeState>, policy: Policy)
    ensures Collected(nodes, map[], policy, NodeHot, []) && Collected(nodes, map[], policy, NodeCold, [])
  {
  }

  // ---------------------------------------------------------------- the greedy loop

  /** Copies the utilization, changes it at two nodes, and measures the imbalance. */
  method SimulateVariance(util: map<string, real>, from: string, to: string, request: Usage, weights: Weights,
                          nodes: map<string, NodeState>, ghost env: Env)
    returns (newUtil: map<string, real>, variance: real)
    requires env.sizes == SizesIn(nodes) && env.weights == weights
    ensures newUtil == SimulatedUtil(env, UsageIn(nodes), util, from, to, request) && variance == Variance(newUtil)
  {
    hide Pressure, Variance;
    newUtil := util;
    if from in nodes && to in nodes {
      var fromNode, toNode := nodes[from], nodes[to];
      var fromCPU := fromNode.usage.cpu - request.cpu;
      if fromCPU < 0.0 {
        fromCPU := 0.0;
      }
      var fromMem := fromNode.usage.memory - request.memory;
      if fromMem < 0 {
        fromMem := 0;
      }
      newUtil := newUtil[from := Pressure(Usage(fromCPU, fromMem), fromNode.size, weights)];
      var toCPU, toMem := toNode.usage.cpu + request.cpu, toNode.usage.memory + request.memory;
      newUtil := newUtil[to := Pressure(Usage(toCPU, toMem), toNode.size, weights)];
    }
    variance := ComputeVariance(newUtil);
  }

  lemma BestOfNone(env: Env, usage: map<string, Usage>, util: map<string, real>, current: real, pod: Pod)
    requires usage.Keys == env.sizes.Keys
    ensures Best(env, usage, util, current, pod, []) == None
  {
  }

  // Looking at one more cold node.
  lemma BestNext(env: Env, usage: map<string, Usage>, util: map<string, real>, current: real, pod: Pod,
                 cold: seq<string>, i: nat)
    requires usage.Keys == env.sizes.Keys && i < |cold|
    ensures var before := Best(env, usage, util, current, pod, cold[..i]);
            var attempt := Attempt(env, usage, util, current, pod, cold[i]);
            Best(env, usage, util, current, pod, cold[..i + 1]) ==
              if Eligible(env, usage, util, current, pod, cold[i])
                 && (before.None? || attempt.variance < before.value.variance)
              then Some(attempt) else before
  {
    hide Attempt, Eligible;
    assert cold[..i + 1][..i] == cold[..i];
  }

  lemma ClassBias(snapshot: Snapshot, policy: Policy, node: NodeState)
    requires node.name in snapshot.nodes && snapshot.nodes[node.name] == node
    ensures var env := EnvOf(snapshot, policy);
            && env.sizes == SizesIn(snapshot.nodes) && env.weights == policy.weights && env.fits == snapshot.fits
            && Bias(env, node.name) == if policy.nodeClassPreference == {} then 0.0
                 else if node.classes * policy.nodeClassPreference != {} then -0.01 else 0.01
  {
  }

  /** Tries every cold node for one pod. The last two results mean something only when a move is returned. */
  method EvaluateCandidate(snapshot: Snapshot, pod: Pod, policy: Policy, util: map<string, real>, currentVariance: real,
                           cold: seq<NodeState>)
    returns (best: Option<Move>, bestUtil: map<string, real>, bestVariance: real)
    requires WellNamed(snapshot.nodes)
    requires forall n | n in cold :: n.name in snapshot.nodes && snapshot.nodes[n.name] == n
    ensures var choice := Best(EnvOf(snapshot, policy), UsageIn(snapshot.nodes), util, currentVariance, pod,
                               Names(cold));
            && best == (if choice.None? then None
                        else Some(Move(pod.name, pod.nodeName, choice.value.to, Demand(pod), choice.value.score)))
            && (choice.Some? ==> bestUtil == choice.value.util && bestVariance == choice.value.variance)
  {
    hide Variance, SimulatedUtil, Demand, UsageIn, EnvOf, Bias, Best;
    ghost var env, usage, names := EnvOf(snapshot, policy), UsageIn(snapshot.nodes), Names(cold);
    best, bestUtil, bestVariance := None, util, 0.0;
    BestOfNone(env, usage, util, currentVariance, pod);
    var request := Demand(pod);
    for i := 0 to |cold|
      invariant var choice := Best(env, usage, util, currentVariance, pod, names[..i]);
                && best == (if choice.None? then None
                            else Some(Move(pod.name, pod.nodeName, choice.value.to, request, choice.value.score)))
                && (choice.Some? ==> bestUtil == choice.value.util && bestVariance == choice.value.variance)
    {
      var node := cold[i];
      BestNext(env, usage, util, currentVariance, pod, names, i);
      ClassBias(snapshot, policy, node);
      if (pod.name, node.name) !in snapshot.fits {
        continue;
      }
      var newUtil, variance := SimulateVariance(util, pod.nodeName, node.name, request, policy.weights,
                                                snapshot.nodes, env);
      var delta := variance - currentVariance;
      if policy.nodeClassPreference != {} {
        if node.classes * policy.nodeClassPreference != {} {
          delta := delta - 0.01;
        } else {
          delta := delta + 0.01;
        }
      }
      assert Attempt(env, usage, util, currentVariance, pod, node.name) == Choice(node.name, newUtil, variance, delta);
      if delta >= 0.0 {
        continue;
      }
      if best.None? || variance < bestVariance {
        best := Some(Move(pod.name, pod.nodeName, node.name, request, delta));
        bestVariance := variance;
        bestUtil := newUtil;
      }
    }
    assert names[..|cold|] == names;
  }

  /** Moves a pod's demand from its node to another in place. */
  method ApplyMove(nodes: map<string, NodeState>, pod: Pod, target: string)
    requires WellNamed(nodes)
    modifies nodes.Values
    ensures UsageIn(nodes) == Moved(old(UsageIn(nodes)), pod.nodeName, target, Demand(pod))
  {
    if pod.nodeName !in nodes || target !in nodes {
      return;
    }
    var fromNode, toNode := nodes[pod.nodeName], nodes[target];
    assert forall k | k in nodes :: nodes[k].name == k;
    var request := Demand(pod);
    var cpu := fromNode.usage.cpu - request.cpu;
    if cpu < 0.0 {
      cpu := 0.0;
    }
    fromNode.usage := Usage(cpu, fromNode.usage.memory - request.memory);
    toNode.usage := Usage(toNode.usage.cpu + request.cpu, toNode.usage.memory + request.memory);
  }

  /** Walks the candidates, applying each accepted move to the node states, and sorts the moves by score. */
  method GreedyPlan(snapshot: Snapshot, candidates: seq<Pod>, policy: Policy, cold: seq<NodeState>,
                    util: map<string, real>)
    returns (plan: seq<Move>, ghost planned: seq<Move>)
    requires WellNamed(snapshot.nodes)
    requires forall n | n in cold :: n.name in snapshot.nodes && snapshot.nodes[n.name] == n
    modifies snapshot.nodes.Values
    ensures var end := Walk(EnvOf(snapshot, policy), Names(cold), Start(old(UsageIn(snapshot.nodes)), util),
                            candidates);
            planned == end.plan && UsageIn(snapshot.nodes) == end.usage
    ensures multiset(plan) == multiset(planned) && Ascending(plan, Score())
  {
    hide Variance, Moved, Best, Demand, Ascending, Walk, EnvOf, UsageIn, Names, Step, Accepts;
    ghost var env, names := EnvOf(snapshot, policy), Names(cold);
    ghost var start := Start(UsageIn(snapshot.nodes), util);
    plan := [];
    var currentUtil := util;
    var currentVariance := ComputeVariance(util);
    var visited: set<PodName> := {};
    ghost var end := Walk(env, names, start, candidates);
    ghost var st := start;
    assert candidates[0..] == candidates;
    for i := 0 to |candidates|
      invariant st == State(UsageIn(snapshot.nodes), currentUtil, currentVariance, plan, visited)
      invariant st.usage.Keys == env.sizes.Keys
      invariant end == Walk(env, names, st, candidates[i..])
    {
      var candidate := candidates[i];
      WalkNext(env, names, st, candidates[i..]);
      StepByChoice(env, names, st, candidate);
      assert candidates[i..][0] == candidate && candidates[i..][1..] == candidates[i + 1..];
      if candidate.name in visited {
        continue;
      }
      var best, updatedUtil, varianceAfter :=
        EvaluateCandidate(snapshot, candidate, policy, currentUtil, currentVariance, cold);
      if best.None? || varianceAfter >= currentVariance {
        continue;
      }
      st := Step(env, names, st, candidate);
      plan := plan + [best.value];
      currentVariance, currentUtil := varianceAfter, updatedUtil;
      ApplyMove(snapshot.nodes, candidate, best.value.to);
      visited := visited + {candidate.name};
      if currentVariance <= policy.targetVariance {
        planned := plan;
        plan := SortBy(plan, Score());
        return;
      }
    }
    WalkEnds(env, names, st);
    planned := plan;
    plan := SortBy(plan, Score());
  }

  lemma SameElements<T>(a: seq<T>, b: seq<T>)
    requires multiset(a) == multiset(b)
    ensures forall x :: x in a <==> x in b
  {
    assert forall x :: x in a <==> x in multiset(a);
  }

  lemma StepByChoice(env: Env, cold: seq<string>, st: State, pod: Pod)
    requires st.usage.Keys == env.sizes.Keys
    ensures var choice := Best(env, st.usage, st.util, st.variance, pod, cold);
            var accepts := pod.name !in st.visited && choice.Some? && choice.value.variance < st.variance;
            && Accepts(env, cold, st, pod) == accepts
            && Step(env, cold, st, pod) ==
                 if !accepts then st
                 else
                   var c := choice.value;
                   State(Moved(st.usage, pod.nodeName, c.to, Demand(pod)), c.util, c.variance,
                         st.plan + [Move(pod.name, pod.nodeName, c.to, Demand(pod), c.score)], st.visited + {pod.name})
  {
    hide Best, Moved, Demand;
  }

  lemma WalkNext(env: Env, cold: seq<string>, st: State, pods: seq<Pod>)
    requires st.usage.Keys == env.sizes.Keys && pods != []
    ensures Walk(env, cold, st, pods) ==
              if !Accepts(env, cold, st, pods[0]) then Walk(env, cold, st, pods[1..])
              else if Step(env, cold, st, pods[0]).variance <= env.target then Step(env, cold, st, pods[0])
              else Walk(env, cold, Step(env, cold, st, pods[0]), pods[1..])
  {
    hide Accepts, Best;
  }
}
