/**
 * Every round that `RoundFrom` admits can really happen: for any list of pods whose namespaces the policy allows there
 * is a cluster for which the planner plans to evict exactly those pods, in that order.
 */
module Reachability {
  import opened Arithmetic
  import opened Sums
  import opened Imbalance
  import opened Cluster
  import opened Greedy
  import opened PlanTheorems
  import opened Window
  import opened Rounds
  import opened Planning
  import opened PlannerState
  import opened Traces
  import opened TwoNodes
  import opened ManyNodes

  /** Usage as metered, with no node using more than g times what it can allocate. */
  ghost predicate Within(cluster: ClusterInfo, g: nat) {
    forall n | n in cluster.nodes ::
      var used, size := cluster.nodes[n].usage, cluster.nodes[n].size;
      && 0.0 <= used.cpu && used.cpu * 1000.0 <= (g * size.milliCPU) as real
      && 0 <= used.memory <= g * size.bytes
  }

  /** The utilization of a node that uses exactly what it can allocate. */
  function FullPressure(p: Policy): real {
    EffectiveWeights(p.weights).cpu + EffectiveWeights(p.weights).memory
  }

  /** The most variance there can be while no node uses more than g times what it can allocate. */
  function TopVariance(p: Policy, g: nat): real {
    Sq(Mul(g as real, FullPressure(p))) / 4.0
  }

  /** Utilization up to a bound makes some node hot, and an idle node is cold. */
  predicate HotAndCold(p: Policy, hot: real) {
    0.0 < p.hotThreshold - p.hysteresis <= hot && 0.0 <= p.coldThreshold + p.hysteresis
  }

  /** Nodes at up to g times their size can be hot while others are cold, with a variance above the target. */
  predicate RoomForMoves(p: Policy, g: nat) {
    HotAndCold(p, Mul(g as real, FullPressure(p))) && p.targetVariance < TopVariance(p, g)
  }

  // ---------------------------------------------------------------- pods that pass every screen

  /** Different pods that the policy may evict at the given time. */
  ghost predicate Evictable(p: Policy, log: seq<Record>, names: seq<PodName>, now: int) {
    && Distinct(names)
    && forall name | name in names ::
         NamespaceAllowed(p, name.namespace) && BackedOff(log, name, EffectiveBackoff(p), now)
  }

  /** A pod that asks for one core and one byte and has been ready for as long as its namespace demands. */
  function ReadyPod(name: PodName, node: string, slos: map<string, SLO>, now: int): Pod {
    var slo := SloOf(slos, name.namespace);
    var minReady := if slo.None? || slo.value.minReadySeconds <= 0 then 0 else slo.value.minReadySeconds * SECOND;
    Pod(name, node, 0, false, "Deployment", true, Some(now - minReady), 1000, 1, None, None)
  }

  /** Ready pods of evictable names, each on a hot node. */
  ghost predicate AllReady(cluster: ClusterInfo, p: Policy, log: seq<Record>, hot: set<string>, now: int) {
    forall pod | pod in cluster.pods ::
      && pod == ReadyPod(pod.name, pod.nodeName, cluster.slos, now)
      && pod.nodeName in hot && pod.nodeName != ""
      && NamespaceAllowed(p, pod.name.namespace) && BackedOff(log, pod.name, EffectiveBackoff(p), now)
  }

  lemma ReadyPodsAreCandidates(cluster: ClusterInfo, p: Policy, log: seq<Record>, trace: PlanTrace)
    requires AllReady(cluster, p, log, trace.hot, trace.filtered)
    requires trace.candidates == WithHistory(cluster, log) && trace.started == trace.filtered && trace.cold != []
    ensures Filtered(p, WithHistory(cluster, log), trace)
  {
    hide LastTime, NamespaceAllowed;
    forall q | q in trace.candidates ensures Movable(q, p, trace.hot, trace.filtered) && q.priority == 0 {
      var i :| 0 <= i < |cluster.pods| && trace.candidates[i] == q;
      assert cluster.pods[i] in cluster.pods;
    }
  }

  // Looking up the history of pods changes nothing that the walk looks at.
  lemma HistoryKeepsPods(cluster: ClusterInfo, log: seq<Record>)
    ensures forall i | 0 <= i < |cluster.pods| ::
              var before, after := cluster.pods[i], WithHistory(cluster, log)[i];
              && after.name == before.name && after.nodeName == before.nodeName
              && after.milliCPU == before.milliCPU && after.bytes == before.bytes
  {
    hide LastTime;
  }

  // ---------------------------------------------------------------- with weights: two nodes

  function PairCluster(p: Policy, slos: map<string, SLO>, names: seq<PodName>, now: int, x: nat, c: nat): ClusterInfo
    requires c > 0
  {
    ClusterInfo(
      map["hot" := NodeInfo(EvenSize(c), p.nodeClassPreference, Level(x)),
          "cold" := NodeInfo(EvenSize(c), p.nodeClassPreference, Level(0))],
      seq(|names|, i requires 0 <= i < |names| => ReadyPod(names[i], "hot", slos, now)),
      slos,
      set name | name in names :: (name, "cold"))
  }

  lemma PairEnv(p: Policy, slos: map<string, SLO>, names: seq<PodName>, now: int, x: nat, c: nat)
    requires c > 0 && PositiveWeights(p.weights)
    ensures var env := ClusterEnv(PairCluster(p, slos, names, now, x, c), p);
            EvenPair(env, c) && env.weights == p.weights && env.target == p.targetVariance
    ensures ClusterUsage(PairCluster(p, slos, names, now, x, c)) == TwoLevels(x, 0)
  {
    var env := ClusterEnv(PairCluster(p, slos, names, now, x, c), p);
    assert env.classes["cold"] == p.nodeClassPreference;
    if env.preferred != {} {
      var k :| k in env.preferred;
      assert k in ClassesOf(env, "cold") * env.preferred;
    }
  }

  lemma PairPods(p: Policy, slos: map<string, SLO>, names: seq<PodName>, now: int, x: nat, c: nat, log: seq<Record>)
    requires c > 0 && Evictable(p, log, names, now)
    ensures var cluster := PairCluster(p, slos, names, now, x, c);
            && UnitPods(ClusterEnv(cluster, p), WithHistory(cluster, log))
            && AllReady(cluster, p, log, {"hot"}, now)
            && |cluster.pods| == |names|
            && forall i | 0 <= i < |names| :: WithHistory(cluster, log)[i].name == names[i]
  {
    hide BackedOff, NamespaceAllowed, WithHistory;
    var cluster := PairCluster(p, slos, names, now, x, c);
    HistoryKeepsPods(cluster, log);
    forall i | 0 <= i < |names| ensures cluster.pods[i].name == names[i] && names[i] in names {
    }
  }

  lemma PairUtil(env: Env, c: nat, x: nat)
    requires EvenPair(env, c)
    ensures TwoLevels(x, 0).Keys == env.sizes.Keys
    ensures ClassifiedUtil(env, TwoLevels(x, 0)) == TwoUtil(x, 0, Unit(c, env.weights))
    ensures Start(TwoLevels(x, 0), TwoUtil(x, 0, Unit(c, env.weights)))
         == PairState(x, 0, Unit(c, env.weights), [], {})
  {
    hide Pressure, Mul, Unit, Variance, GapVariance;
    LevelPressure(x, c, env.weights);
    LevelPressure(0, c, env.weights);
    TwoUtilVariance(x, 0, Unit(c, env.weights));
  }

  lemma PairTemperatures(p: Policy, x: nat, unit: real)
    requires HotAndCold(p, Mul(x as real, unit))
    ensures var util := TwoUtil(x, 0, unit);
            && (forall n :: n in {"hot"} <==> n in util && TemperatureOf(util[n], p) == NodeHot)
            && (forall n :: n in COLD <==> n in util && TemperatureOf(util[n], p) == NodeCold)
  {
    ZeroTimes(unit);
    hide Mul;
  }

  lemma UnitMovesAscend(env: Env, pods: seq<Pod>, gap: int, unit: real)
    ensures Ascending(UnitMoves(env, pods, gap, unit), Score())
  {
    hide Bias, Mul, Sq;
    SqNonNegative(unit);
    forall i, j | 0 <= i < j < |pods|
      ensures Mul((gap - 2 * i - 1) as real, Sq(unit)) >= Mul((gap - 2 * j - 1) as real, Sq(unit))
    {
      ScaleRight((gap - 2 * j - 1) as real, (gap - 2 * i - 1) as real, Sq(unit));
    }
  }

  // With two nodes far enough apart all pods are planned, in order.
  lemma PairPlan(p: Policy, slos: map<string, SLO>, names: seq<PodName>, log: seq<Record>, now: int, x: nat, c: nat)
    returns (trace: PlanTrace)
    requires c > 0 && PositiveWeights(p.weights) && Evictable(p, log, names, now)
    requires HotAndCold(p, Mul(x as real, Unit(c, p.weights)))
    requires WideGap(x, |names|, Unit(c, p.weights), p.targetVariance)
    ensures CanPlan(PairCluster(p, slos, names, now, x, c), p, log, trace, trace.planned)
    ensures PodsOfMoves(trace.planned) == names && trace.started == trace.filtered == now
  {
    hide Walk, Evictable, HotAndCold, WideGap, EvenPair, UnitPods, AllReady, Ascending, Filtered, Unit, PairCluster,
      WithHistory, ClusterEnv, ClusterUsage, TemperatureOf, ClassifiedUtil, TwoLevels, TwoUtil;
    var cluster := PairCluster(p, slos, names, now, x, c);
    var env, pods, unit := ClusterEnv(cluster, p), WithHistory(cluster, log), Unit(c, p.weights);
    PairEnv(p, slos, names, now, x, c);
    PairPods(p, slos, names, now, x, c, log);
    PairUtil(env, c, x);
    PairTemperatures(p, x, unit);
    trace := PlanTrace({"hot"}, COLD, pods, UnitMoves(env, pods, x, unit), now, now, []);
    ReadyPodsAreCandidates(cluster, p, log, trace);
    PairWalk(env, c, x, 0, [], {}, pods);
    UnitMovesAscend(env, pods, x, unit);
  }

  // ---------------------------------------------------------------- without weights: many nodes

  const IDLE := NodeName('c', 0)

  /** The pods are placed in reverse, because the last moves of such a plan have the least scores. */
  function LoneCluster(p: Policy, slos: map<string, SLO>, names: seq<PodName>, now: int, g: nat, n: nat): ClusterInfo {
    ClusterInfo(
      map k | k in NamedNodes('h', n) + NamedNodes('c', n) ::
        NodeInfo(EvenSize(1), p.nodeClassPreference, if k in NamedNodes('h', n) then Level(g) else Level(0)),
      seq(|names|, i requires 0 <= i < |names| => ReadyPod(names[|names| - 1 - i], NodeName('h', i), slos, now)),
      slos,
      set name | name in names :: (name, IDLE))
  }

  lemma LoneEnv(p: Policy, slos: map<string, SLO>, names: seq<PodName>, now: int, g: nat, n: nat)
    requires p.weights == NO_WEIGHTS && n > 0
    ensures var env := ClusterEnv(LoneCluster(p, slos, names, now, g, n), p);
            && Unweighted(env, NamedNodes('h', n) + NamedNodes('c', n)) && env.target == p.targetVariance
            && IDLE in NamedNodes('c', n)
            && forall name | name in names :: forall pod: Pod | pod.name == name ::
                 OnlyTarget(env, NodeNames('c', n), pod, IDLE)
  {
    hide NodeName, EvenSize, Level;
    var env := ClusterEnv(LoneCluster(p, slos, names, now, g, n), p);
    assert NodeNames('c', n)[0] == IDLE;
    assert IDLE in NamedNodes('c', n);
    assert env.classes[IDLE] == p.nodeClassPreference;
    if env.preferred != {} {
      var k :| k in env.preferred;
      assert k in ClassesOf(env, IDLE) * env.preferred;
    }
  }

  lemma LonePodsOf(p: Policy, slos: map<string, SLO>, names: seq<PodName>, now: int, g: nat, n: nat, log: seq<Record>)
    requires p.weights == NO_WEIGHTS && Evictable(p, log, names, now) && |names| <= n && n > 0
    ensures var cluster := LoneCluster(p, slos, names, now, g, n);
            && LonePods(ClusterEnv(cluster, p), NamedNodes('h', n), NodeNames('c', n), IDLE, WithHistory(cluster, log))
            && AllReady(cluster, p, log, NamedNodes('h', n), now)
            && |cluster.pods| == |names|
            && forall i | 0 <= i < |names| :: WithHistory(cluster, log)[i].name == names[|names| - 1 - i]
  {
    hide BackedOff, NamespaceAllowed, WithHistory, NodeName, OnlyTarget, NodeNames, NamedNodes;
    var cluster := LoneCluster(p, slos, names, now, g, n);
    var pods := WithHistory(cluster, log);
    HistoryKeepsPods(cluster, log);
    LoneEnv(p, slos, names, now, g, n);
    HotOrCold(n);
    NamedNode('c', n, 0);
    forall i | 0 <= i < |names|
      ensures cluster.pods[i].name == names[|names| - 1 - i] && names[|names| - 1 - i] in names
      ensures cluster.pods[i].nodeName == NodeName('h', i) && cluster.pods[i].nodeName in NamedNodes('h', n)
      ensures cluster.pods[i].nodeName != ""
    {
      NamedNode('h', n, i);
    }
    forall i, j | 0 <= i < j < |names| ensures pods[i].nodeName != pods[j].nodeName {
      NodeNamesDiffer('h', i, 'h', j);
    }
  }

  lemma NamedNode(prefix: char, n: nat, i: nat)
    requires i < n
    ensures NodeName(prefix, i) in NamedNodes(prefix, n) && NodeName(prefix, i) != ""
  {
    assert NodeNames(prefix, n)[i] == NodeName(prefix, i);
  }

  lemma LoneUtil(p: Policy, slos: map<string, SLO>, names: seq<PodName>, now: int, g: nat, n: nat)
    requires p.weights == NO_WEIGHTS
    ensures var cluster := LoneCluster(p, slos, names, now, g, n);
            ClassifiedUtil(ClusterEnv(cluster, p), ClusterUsage(cluster))
            == Split(NamedNodes('h', n), NamedNodes('h', n) + NamedNodes('c', n), g as real)
  {
    hide Pressure, NamedNodes, EvenSize, Level, Mul, Unit;
    var w := EffectiveWeights(p.weights);
    LevelPressure(g, 1, w);
    LevelPressure(0, 1, w);
    UnitOfOne(w, g as real);
  }

  lemma UnitOfOne(w: Weights, g: real)
    requires w.cpu + w.memory == 1.0
    ensures Mul(g, Unit(1, w)) == g && Mul(0.0, Unit(1, w)) == 0.0
  {
  }

  lemma SplitTemperatures(p: Policy, n: nat, v: real)
    requires HotAndCold(p, v)
    ensures var hot, cold := NamedNodes('h', n), NodeNames('c', n);
            var util := Split(hot, hot + NamedNodes('c', n), v);
            && (forall k :: k in hot <==> k in util && TemperatureOf(util[k], p) == NodeHot)
            && (forall k :: k in cold <==> k in util && TemperatureOf(util[k], p) == NodeCold)
            && forall i, j | 0 <= i < j < |cold| :: util[cold[i]] <= util[cold[j]]
  {
    hide NodeName;
    HotOrCold(n);
    assert forall k :: k in NodeNames('c', n) <==> k in NamedNodes('c', n);
  }

  // ---------------------------------------------------------------- sorting a plan whose scores fall

  function Reversed<T>(s: seq<T>): (r: seq<T>)
    ensures |r| == |s| && forall i | 0 <= i < |s| :: r[i] == s[|s| - 1 - i]
  {
    seq(|s|, i requires 0 <= i < |s| => s[|s| - 1 - i])
  }

  lemma {:induction false} ReversedKeepsElements<T>(s: seq<T>)
    ensures multiset(Reversed(s)) == multiset(s)
  {
    if s != [] {
      var n := |s| - 1;
      ReversedKeepsElements(s[..n]);
      assert Reversed(s) == [s[n]] + Reversed(s[..n]);
      assert s == s[..n] + [s[n]];
    }
  }

  lemma LoneMovesDescend(env: Env, pods: seq<Pod>, to: string, q: int, n: int, u: real)
    requires u > 0.0
    ensures Ascending(Reversed(LoneMoves(env, pods, to, q, n, u)), Score())
  {
    hide Bias, Mul, Demand;
    var moves := LoneMoves(env, pods, to, q, n, u);
    forall i, j | 0 <= i < j < |pods| ensures moves[i].score >= moves[j].score {
      MulLeftOrder((2 * (q - j) - n - 1) as real, (2 * (q - i) - n - 1) as real, u);
    }
  }

  lemma LonePlanned(p: Policy, slos: map<string, SLO>, names: seq<PodName>, log: seq<Record>, now: int, g: nat, n: nat)
    requires n > 0 && p.weights == NO_WEIGHTS && Evictable(p, log, names, now)
    requires g > 0 && EnoughHot(n, 2 * n, |names|, SplitUnit(g as real, 2 * n), p.targetVariance)
    ensures var cluster := LoneCluster(p, slos, names, now, g, n);
            var env, usage, pods := ClusterEnv(cluster, p), ClusterUsage(cluster), WithHistory(cluster, log);
            && usage.Keys == env.sizes.Keys
            && Walk(env, NodeNames('c', n), Start(usage, ClassifiedUtil(env, usage)), pods).plan
            == LoneMoves(env, pods, IDLE, n, 2 * n, SplitUnit(g as real, 2 * n))
  {
    hide Walk, Evictable, Unweighted, LonePods, LoneCluster, WithHistory, ClusterEnv, ClusterUsage, ClassifiedUtil,
      Split, NodeName, NodeNames, NamedNodes, SplitUnit, SplitVariance, IDLE, AllReady, OnlyTarget, LoneMove, LoneMoves,
      Variance;
    var cluster := LoneCluster(p, slos, names, now, g, n);
    var env, v, hot := ClusterEnv(cluster, p), g as real, NamedNodes('h', n);
    var all := hot + NamedNodes('c', n);
    HotOrCold(n);
    CountNamed('h', n);
    LoneEnv(p, slos, names, now, g, n);
    LonePodsOf(p, slos, names, now, g, n, log);
    LoneUtil(p, slos, names, now, g, n);
    VarianceOfSplit(hot, all, v);
    UnweightedKeys(env, all);
    LoneWalk(env, hot, all, NodeNames('c', n), v, Start(ClusterUsage(cluster), Split(hot, all, v)),
             WithHistory(cluster, log), IDLE);
  }

  lemma UnweightedKeys(env: Env, all: set<string>)
    requires Unweighted(env, all)
    ensures env.sizes.Keys == all && all != {}
  {
  }

  // Without weights, with enough nodes all pods are planned, the least score last.
  lemma LonePlan(p: Policy, slos: map<string, SLO>, names: seq<PodName>, log: seq<Record>, now: int, g: nat, n: nat)
    returns (trace: PlanTrace, sorted: seq<Move>)
    requires n > 0 && p.weights == NO_WEIGHTS && Evictable(p, log, names, now)
    requires g > 0 && HotAndCold(p, g as real)
    requires EnoughHot(n, 2 * n, |names|, SplitUnit(g as real, 2 * n), p.targetVariance)
    ensures CanPlan(LoneCluster(p, slos, names, now, g, n), p, log, trace, sorted)
    ensures PodsOfMoves(sorted) == names && trace.started == trace.filtered == now
  {
    hide Walk, Evictable, HotAndCold, LonePods, AllReady, Ascending, Filtered, LoneCluster, WithHistory, ClusterEnv,
      ClusterUsage, TemperatureOf, ClassifiedUtil, Split, NodeName, NodeNames, NamedNodes, SplitUnit, IDLE, LoneMoves,
      Reversed;
    var cluster := LoneCluster(p, slos, names, now, g, n);
    var env, pods, u := ClusterEnv(cluster, p), WithHistory(cluster, log), SplitUnit(g as real, 2 * n);
    LonePodsOf(p, slos, names, now, g, n, log);
    LoneUtil(p, slos, names, now, g, n);
    SplitTemperatures(p, n, g as real);
    LonePlanned(p, slos, names, log, now, g, n);
    var planned := LoneMoves(env, pods, IDLE, n, 2 * n, u);
    trace := PlanTrace(NamedNodes('h', n), NodeNames('c', n), pods, planned, now, now, []);
    sorted := Reversed(planned);
    ReadyPodsAreCandidates(cluster, p, log, trace);
    SplitUnitPositive(g as real, 2 * n);
    LoneMovesDescend(env, pods, IDLE, n, 2 * n, u);
    ReversedKeepsElements(trace.planned);
    PodsOfReversed(env, pods, IDLE, n, 2 * n, u, names);
  }

  lemma PodsOfReversed(env: Env, pods: seq<Pod>, to: string, q: int, n: int, u: real, names: seq<PodName>)
    requires |pods| == |names| && forall i | 0 <= i < |names| :: pods[i].name == names[|names| - 1 - i]
    ensures PodsOfMoves(Reversed(LoneMoves(env, pods, to, q, n, u))) == names
  {
    var moves := LoneMoves(env, pods, to, q, n, u);
    forall i | 0 <= i < |names| ensures Reversed(moves)[i].pod == names[i] {
      assert moves[|names| - 1 - i].pod == pods[|names| - 1 - i].name;
    }
  }

  // ---------------------------------------------------------------- how many nodes are enough

  lemma EnoughNodes(m: nat, top: real, target: real) returns (n: nat)
    requires target < top && top > 0.0
    ensures n > m && Mul(n as real, top - target) > Mul(m as real, top)
  {
    var q := Mul(m as real, top) / (top - target);
    MeanTimesCount(top - target, Mul(m as real, top));
    QuotientSign(Mul(m as real, top), top - target);
    n := q.Floor + 1 + m;
    Exceeds(q, n as real, top - target, Mul(m as real, top));
  }

  lemma Exceeds(q: real, n: real, gap: real, total: real)
    requires gap > 0.0 && n > q && Mul(gap, q) == total
    ensures Mul(n, gap) > total
  {
  }

  // A gap of n steps narrowed by d still leaves more than the target.
  lemma WideEnough(n: real, d: real, unit: real, top: real, target: real)
    requires n > 0.0 && d >= 0.0 && top == Sq(Mul(n, unit)) / 4.0
    requires Mul(n, top - target) > Mul(2.0 * d, top)
    ensures Mul(Sq(n - d), Sq(unit)) / 4.0 > target
  {
    hide Sq;
    var u := Sq(unit);
    SqNonNegative(unit);
    NarrowedSquare(n, d);
    ScaleRight(Sq(n) - Mul(2.0 * d, n), Sq(n - d), u);
    SquareOfProduct(n, unit);
    LostSquare(n, d, Sq(n), u);
    ScaledGap(n, Mul(Sq(n - d), u) / 4.0, top, target, Mul(Mul(2.0 * d, n), u) / 4.0, Mul(2.0 * d, top));
  }

  lemma NarrowedSquare(n: real, d: real)
    ensures Sq(n - d) >= Sq(n) - Mul(2.0 * d, n)
  {
    SqNonNegative(d);
    assert Sq(n - d) == Sq(n) - Mul(2.0 * d, n) + Sq(d);
  }

  lemma SquareOfProduct(n: real, unit: real)
    ensures Sq(Mul(n, unit)) == Mul(Sq(n), Sq(unit))
  {
  }

  lemma LostSquare(n: real, d: real, square: real, u: real)
    requires square == Sq(n)
    ensures Mul(square - Mul(2.0 * d, n), u) / 4.0 == Mul(square, u) / 4.0 - Mul(Mul(2.0 * d, n), u) / 4.0
    ensures n * (Mul(Mul(2.0 * d, n), u) / 4.0) == Mul(2.0 * d, Mul(square, u) / 4.0)
  {
    assert n * (Mul(2.0 * d, n) * u) == 2.0 * d * (n * n * u);
  }

  lemma ScaledGap(n: real, left: real, top: real, target: real, lost: real, cost: real)
    requires n > 0.0 && left >= top - lost && n * lost == cost && Mul(n, top - target) > cost
    ensures left > target
  {
    assert n * (top - lost - target) > 0.0;
  }

  // With j of n hot nodes relieved, the variance is still above the target.
  lemma DeepEnough(n: real, j: real, v: real, top: real, target: real)
    requires 0.0 <= j < n && Sq(2.0 * n) > 0.0 && top == Sq(v) / 4.0 && top > 0.0
    requires Mul(n, top - target) > Mul(j, top)
    ensures Mul(Mul(n - j, n + j), Sq(v) / Sq(2.0 * n)) > target
  {
    hide Mul, Sq;
    var r := j / n;
    RatioBounds(n, j);
    LeftOver(n, j, r, Sq(v));
    RatioDecides(n, j, r, top, target);
  }

  lemma RatioBounds(n: real, j: real)
    requires 0.0 <= j < n
    ensures j == (j / n) * n && 0.0 <= j / n < 1.0
  {
  }

  lemma RatioDecides(n: real, j: real, r: real, top: real, target: real)
    requires n > 0.0 && j == r * n && 0.0 <= r < 1.0 && top > 0.0 && Mul(n, top - target) > Mul(j, top)
    ensures top * (1.0 - r * r) > target
  {
    assert Mul(n, Mul(r, top)) == Mul(j, top);
    ScaledOrder(n, top - target, Mul(r, top));
    MulMonotone(Mul(r, top), r, 1.0);
    assert Mul(Mul(r, top), r) == top * (r * r) && Mul(Mul(r, top), 1.0) == Mul(r, top);
  }

  lemma LeftOver(n: real, j: real, r: real, w: real)
    requires n > 0.0 && Sq(2.0 * n) > 0.0 && j == r * n
    ensures Mul(Mul(n - j, n + j), w / Sq(2.0 * n)) == w / 4.0 * (1.0 - r * r)
  {
    assert (n - j) * (n + j) == Sq(2.0 * n) / 4.0 * (1.0 - r * r);
    MeanTimesCount(Sq(2.0 * n), w);
    CancelFour(Sq(2.0 * n), w / Sq(2.0 * n), w, 1.0 - r * r);
  }

  lemma CancelFour(s: real, q: real, w: real, rest: real)
    requires Mul(s, q) == w
    ensures Mul(s / 4.0 * rest, q) == w / 4.0 * rest
  {
    assert s / 4.0 * rest * q == (s * q) / 4.0 * rest;
  }

  lemma PairWithin(p: Policy, slos: map<string, SLO>, names: seq<PodName>, now: int, g: nat, c: nat)
    requires c > 0
    ensures Within(PairCluster(p, slos, names, now, g * c, c), g)
  {
    CapacityTimes(g, c);
  }

  lemma CapacityTimes(g: nat, c: nat)
    ensures 0 <= g * c && g * (1000 * c) == 1000 * (g * c)
    ensures (g * c) as real * 1000.0 == (g * (1000 * c)) as real
  {
    assert g * (1000 * c) == 1000 * (g * c);
  }

  lemma LoneWithin(p: Policy, slos: map<string, SLO>, names: seq<PodName>, now: int, g: nat, n: nat)
    ensures Within(LoneCluster(p, slos, names, now, g, n), g)
  {
  }

  // With weights, two large enough nodes will do.
  lemma PairsAreEnough(p: Policy, slos: map<string, SLO>, names: seq<PodName>, log: seq<Record>, now: int, g: nat)
    returns (cluster: ClusterInfo, trace: PlanTrace, sorted: seq<Move>)
    requires PositiveWeights(p.weights) && RoomForMoves(p, g) && Evictable(p, log, names, now)
    ensures CanPlan(cluster, p, log, trace, sorted) && Within(cluster, g) && cluster.slos == slos
    ensures PodsOfMoves(sorted) == names && trace.started == trace.filtered == now
  {
    hide Evictable, CanPlan, Within, Unit, Mul, Sq;
    var k, top := |names|, TopVariance(p, g);
    FullLoad(p, g);
    var c := EnoughNodes(4 * k, top, p.targetVariance);
    assert c > 0;
    var unit := Unit(c, p.weights);
    ScaledLevel(g, c, p.weights);
    PairGap(p, g, c, k);
    PairWithin(p, slos, names, now, g, c);
    cluster := PairCluster(p, slos, names, now, g * c, c);
    trace := PairPlan(p, slos, names, log, now, g * c, c);
    sorted := trace.planned;
  }

  lemma FullLoad(p: Policy, g: nat)
    requires RoomForMoves(p, g)
    ensures g > 0 && Mul(g as real, FullPressure(p)) > 0.0 && TopVariance(p, g) > 0.0
  {
    hide Sq;
    ZeroTimes(FullPressure(p));
    SquareOf(Mul(g as real, FullPressure(p)));
  }

  lemma SquareOf(x: real)
    requires x > 0.0
    ensures Sq(x) > 0.0
  {
    SqNonNegative(x);
  }

  lemma ScaledLevel(g: nat, c: nat, w: Weights)
    requires c > 0
    ensures Mul((g * c) as real, Unit(c, w)) == Mul(g as real, w.cpu + w.memory)
  {
    assert (g * c) as real == g as real * c as real;
    MeanTimesCount(c as real, w.cpu + w.memory);
    RegroupProduct(g as real, c as real, Unit(c, w), w.cpu + w.memory);
  }

  lemma RegroupProduct(g: real, c: real, unit: real, full: real)
    requires Mul(c, unit) == full
    ensures Mul(g * c, unit) == Mul(g, full)
  {
    assert g * c * unit == g * (c * unit);
  }

  lemma PairGap(p: Policy, g: nat, c: nat, k: nat)
    requires c > 4 * k && g > 0 && p.weights != NO_WEIGHTS
    requires Mul((g * c) as real, Unit(c, p.weights)) == Mul(g as real, p.weights.cpu + p.weights.memory)
    requires TopVariance(p, g) > p.targetVariance && TopVariance(p, g) > 0.0
    requires Mul(c as real, TopVariance(p, g) - p.targetVariance) > Mul((4 * k) as real, TopVariance(p, g))
    ensures WideGap(g * c, k, Unit(c, p.weights), p.targetVariance)
  {
    hide Mul, Sq, Unit;
    var n, unit, top := g * c, Unit(c, p.weights), TopVariance(p, g);
    assert n >= c by { AtLeast(g, c); }
    if k > 1 {
      var d := 2 * k - 2;
      ScaleRight(c as real, n as real, top - p.targetVariance);
      ScaleRight(2.0 * d as real, (4 * k) as real, top);
      WideEnough(n as real, d as real, unit, top, p.targetVariance);
      assert (n - 2 * k + 2) as real == n as real - d as real;
    }
  }

  lemma AtLeast(g: nat, c: nat)
    requires g > 0
    ensures g * c >= c
  {
    assert g * c == c + (g - 1) * c;
  }

  // Without weights it takes many nodes, half of them full.
  lemma ManyAreEnough(p: Policy, slos: map<string, SLO>, names: seq<PodName>, log: seq<Record>, now: int, g: nat)
    returns (cluster: ClusterInfo, trace: PlanTrace, sorted: seq<Move>)
    requires p.weights == NO_WEIGHTS && RoomForMoves(p, g) && Evictable(p, log, names, now)
    ensures CanPlan(cluster, p, log, trace, sorted) && Within(cluster, g) && cluster.slos == slos
    ensures PodsOfMoves(sorted) == names && trace.started == trace.filtered == now
  {
    hide Evictable, CanPlan, Within, Mul, Sq;
    var k, top := |names|, TopVariance(p, g);
    FullLoad(p, g);
    TimesOne(g as real, FullPressure(p));
    var n := EnoughNodes(k, top, p.targetVariance);
    LoneGap(p, g, n, k);
    LoneWithin(p, slos, names, now, g, n);
    cluster := LoneCluster(p, slos, names, now, g, n);
    trace, sorted := LonePlan(p, slos, names, log, now, g, n);
  }

  lemma TimesOne(x: real, one: real)
    requires one == 1.0
    ensures Mul(x, one) == x
  {
  }

  lemma LoneGap(p: Policy, g: nat, n: nat, k: nat)
    requires n > k && Mul(g as real, FullPressure(p)) == g as real
    requires TopVariance(p, g) > p.targetVariance && TopVariance(p, g) > 0.0
    requires Mul(n as real, TopVariance(p, g) - p.targetVariance) > Mul(k as real, TopVariance(p, g))
    ensures EnoughHot(n, 2 * n, k, SplitUnit(g as real, 2 * n), p.targetVariance)
  {
    hide Mul, Sq;
    if k > 1 {
      var j, top := k - 1, TopVariance(p, g);
      ScaleRight(j as real, k as real, top);
      SquareOf(2.0 * n as real);
      DeepEnough(n as real, j as real, g as real, top, p.targetVariance);
      assert (2 * n) as real == 2.0 * n as real && n - k + 1 == n - j;
      SplitAsReal(n, j, Sq(g as real) / Sq(2.0 * n as real));
    }
  }

  lemma SplitAsReal(n: nat, j: nat, u: real)
    ensures SplitVariance(n - j, 2 * n, u) == Mul(Mul(n as real - j as real, n as real + j as real), u)
  {
    assert 2 * n - (n - j) == n + j;
    assert ((n - j) * (n + j)) as real == (n - j) as real * (n + j) as real;
  }

  // ---------------------------------------------------------------- rounds and runs

  // Whatever round can start with a log, some cluster makes the planner come up with it.
  lemma RoundIsReachable(log: seq<Record>, r: Round, g: nat) returns (t: TracedRound)
    requires RoundFrom(log, r) && NonNegativeWeights(r.policy.weights) && RoomForMoves(r.policy, g)
    requires forall pod | pod in r.pods :: NamespaceAllowed(r.policy, pod.namespace)
    ensures TracedFrom(log, t) && t.round == r && Within(t.cluster, g)
  {
    hide RoomForMoves, CanPlan, Chronological, Within, NamelessFail, Executed, Allowed, BackedOff, NamespaceAllowed;
    var cluster, trace, sorted;
    if r.policy.weights == NO_WEIGHTS {
      cluster, trace, sorted := ManyAreEnough(r.policy, r.slos, r.pods, log, r.filtered, g);
    } else {
      cluster, trace, sorted := PairsAreEnough(r.policy, r.slos, r.pods, log, r.filtered, g);
    }
    ChecksDoNotMatter(cluster, r.policy, log, trace, sorted, r.checks);
    t := TracedRound(r, cluster, trace.(checks := r.checks), sorted);
  }

  lemma ChecksDoNotMatter(cluster: ClusterInfo, p: Policy, log: seq<Record>, trace: PlanTrace, sorted: seq<Move>,
                          checks: seq<int>)
    requires CanPlan(cluster, p, log, trace, sorted)
    ensures CanPlan(cluster, p, log, trace.(checks := checks), sorted)
  {
    hide PlannedFrom, Ascending;
    KeepPlanned(ClusterEnv(cluster, p), p, ClusterUsage(cluster), WithHistory(cluster, log), trace, checks);
  }

  /** The policy allows the pod's namespace and leaves room for moves at the given load. */
  ghost predicate Plannable(r: Round, g: nat) {
    && NonNegativeWeights(r.policy.weights) && RoomForMoves(r.policy, g)
    && forall pod | pod in r.pods :: NamespaceAllowed(r.policy, pod.namespace)
  }

  // Whole runs can happen as well.
  lemma {:induction false} RunIsReachable(rounds: seq<Round>, g: nat) returns (run: seq<TracedRound>)
    requires ValidRun(rounds) && forall r | r in rounds :: Plannable(r, g)
    ensures TracedRun(run) && RoundsOf(run) == rounds
    ensures forall t | t in run :: Within(t.cluster, g)
    decreases |rounds|
  {
    hide RoundFrom, TracedFrom, TracedRun, ValidRun, RoomForMoves, NamespaceAllowed, Within, LogOf;
    if rounds == [] {
      run := [];
      EmptyRun();
    } else {
      var n := |rounds| - 1;
      ValidRunPrefix(rounds);
      assert rounds == rounds[..n] + [rounds[n]];
      run := RunIsReachable(rounds[..n], g);
      assert rounds[n] in rounds;
      var t := RoundIsReachable(LogOf(rounds[..n]), rounds[n], g);
      TracedRunAppend(run, t);
      run := run + [t];
    }
  }

  lemma EmptyRun()
    ensures TracedRun([])
  {
  }
}
