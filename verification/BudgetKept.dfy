/** For which policies the hourly disruption budget of a namespace is kept over every run. */
module BudgetKept {
  import opened Arithmetic
  import opened Imbalance
  import opened Cluster
  import opened Greedy
  import opened PlanTheorems
  import opened Window
  import opened Admission
  import opened Rounds
  import opened HourlyBudget
  import opened Planning
  import opened PlannerState
  import opened Traces
  import opened Reachability

  /** All rounds are of one policy, with the hourly budget d, and no node uses more than g times its size. */
  ghost predicate Ruled(run: seq<TracedRound>, p: Policy, ns: string, d: int, g: nat) {
    forall i | 0 <= i < |run| ::
      && run[i].round.policy == p
      && SloOf(run[i].round.slos, ns).Some? && SloOf(run[i].round.slos, ns).value.maxDisruptionsPerHour == d
      && Within(run[i].cluster, g)
  }

  ghost predicate BudgetAlwaysKept(p: Policy, ns: string, d: int, g: nat) {
    forall run, t | TracedRun(run) && Ruled(run, p, ns, d, g) :: HourCount(LogOf(RoundsOf(run)), ns, t) <= d
  }

  // ---------------------------------------------------------------- when a plan has no two moves

  lemma WithinPressure(u: Usage, size: Size, w: Weights, g: nat)
    requires 0.0 <= u.cpu && u.cpu * 1000.0 <= (g * size.milliCPU) as real && 0 <= u.memory <= g * size.bytes
    requires NonNegativeWeights(w)
    ensures 0.0 <= Pressure(u, size, w) <= Mul(g as real, w.cpu + w.memory)
  {
    hide Mul, Share;
    PressureNonNegative(u, size, w);
    var c, b := size.milliCPU as real / 1000.0, size.bytes as real;
    IntProduct(g, size.milliCPU);
    IntProduct(g, size.bytes);
    ShareWithin(u.cpu, c, g as real, w.cpu);
    ShareWithin(u.memory as real, b, g as real, w.memory);
    MulSum(g as real, w.cpu, w.memory);
  }

  lemma IntProduct(x: int, y: int)
    ensures (x * y) as real == x as real * y as real
  {
  }

  lemma ShareWithin(x: real, capacity: real, g: real, w: real)
    requires capacity > 0.0 && x <= g * capacity && w >= 0.0
    ensures Mul(Share(x, capacity), w) <= Mul(g, w)
  {
    MeanTimesCount(capacity, x);
    ShareBound(x, capacity, g);
    ScaleDown(Share(x, capacity), g, w);
  }

  lemma ShareBound(x: real, capacity: real, g: real)
    requires capacity > 0.0 && x <= g * capacity
    ensures Share(x, capacity) <= g
  {
    assert Share(x, capacity) * capacity == x;
    if Share(x, capacity) > g {
      SameSignProduct(Share(x, capacity) - g, capacity);
    }
  }

  lemma ScaleDown(x: real, y: real, w: real)
    requires w >= 0.0 && x <= y
    ensures Mul(x, w) <= Mul(y, w)
  {
    MulMonotone(w, x, y);
  }

  lemma MulSum(g: real, a: real, b: real)
    ensures Mul(g, a) + Mul(g, b) == Mul(g, a + b)
  {
  }

  lemma ClusterPressure(cluster: ClusterInfo, p: Policy, g: nat)
    requires Within(cluster, g) && NonNegativeWeights(p.weights)
    ensures var util := ClassifiedUtil(ClusterEnv(cluster, p), ClusterUsage(cluster));
            forall n | n in util :: 0.0 <= util[n] <= Mul(g as real, FullPressure(p))
  {
    hide Pressure, Mul;
    forall n | n in cluster.nodes
      ensures 0.0 <= Pressure(cluster.nodes[n].usage, cluster.nodes[n].size, EffectiveWeights(p.weights))
                  <= Mul(g as real, FullPressure(p))
    {
      WithinPressure(cluster.nodes[n].usage, cluster.nodes[n].size, EffectiveWeights(p.weights), g);
    }
  }

  /** No candidate has a cold node to go to. */
  ghost predicate NobodyToMove(cold: seq<string>, pods: seq<Pod>) {
    forall pod, to | pod in pods :: to !in cold
  }

  lemma ShortWalk(env: Env, hot: set<string>, cold: seq<string>, pods: seq<Pod>, usage: map<string, Usage>,
                  util: map<string, real>, top: real)
    requires usage.Keys == env.sizes.Keys && Setting(env, hot, cold, Start(usage, util))
    requires forall p | p in pods :: p.nodeName in hot
    requires forall n | n in util :: 0.0 <= util[n] <= top
    requires NobodyToMove(cold, pods) || (util.Keys != {} && env.target >= Sq(top) / 4.0)
    ensures |Walk(env, cold, Start(usage, util), pods).plan| <= 1
  {
    hide Walk, Setting, Variance, Sq, Improves;
    StoppingRule(env, hot, cold, pods, usage, util);
    if !NobodyToMove(cold, pods) {
      assert |util| == |util.Keys| > 0;
      VarianceBounded(util, 0.0, top);
    }
  }

  // Without room for moves there are no hot or no cold nodes, or the start is at or below the target.
  lemma NoRoom(util: map<string, real>, p: Policy, pods: seq<Pod>, trace: PlanTrace, g: nat)
    requires Triaged(util, p, pods, trace) && !RoomForMoves(p, g)
    requires forall n | n in util :: 0.0 <= util[n] <= Mul(g as real, FullPressure(p))
    ensures NobodyToMove(trace.cold, trace.candidates)
         || (util.Keys != {} && p.targetVariance >= Sq(Mul(g as real, FullPressure(p))) / 4.0)
  {
    hide Mul, Sq, FullPressure, ReadyLongEnough, HasBackoff, NamespaceAllowed, Ascending;
    var top := Mul(g as real, FullPressure(p));
    forall pod, to | pod in trace.candidates && to in trace.cold
      ensures 0.0 <= util[to] && util[pod.nodeName] <= top && HotAndCold(p, top)
    {
      assert Movable(pod, p, trace.hot, trace.filtered);
    }
  }

  // Such a plan has at most one move.
  lemma ShortPlan(cluster: ClusterInfo, p: Policy, log: seq<Record>, trace: PlanTrace, g: nat)
    requires PlannedFrom(ClusterEnv(cluster, p), p, ClusterUsage(cluster), WithHistory(cluster, log), trace)
    requires Within(cluster, g) && NonNegativeWeights(p.weights) && !RoomForMoves(p, g)
    ensures |trace.planned| <= 1
  {
    hide WithHistory, ClassifiedUtil, Within, Walk, Setting, Variance, Movable, Mul, Sq, Triaged, RoomForMoves,
      NobodyToMove, FullPressure;
    var env, usage, pods := ClusterEnv(cluster, p), ClusterUsage(cluster), WithHistory(cluster, log);
    var util := ClassifiedUtil(env, usage);
    ClusterPressure(cluster, p, g);
    TraceSetting(env, p, usage, pods, trace);
    NoRoom(util, p, pods, trace, g);
    ShortWalk(env, trace.hot, trace.cold, trace.candidates, usage, util, Mul(g as real, FullPressure(p)));
  }

  lemma {:induction false} PlannedWithin(namespaces: seq<string>, ns: string)
    ensures Planned(namespaces, ns) <= |namespaces|
    ensures (forall i | 0 <= i < |namespaces| :: namespaces[i] != ns) ==> Planned(namespaces, ns) == 0
  {
    if namespaces != [] {
      PlannedWithin(namespaces[..|namespaces| - 1], ns);
    }
  }

  // No pod of a namespace that the policy shuts out is ever planned.
  lemma ShutOut(env: Env, p: Policy, usage: map<string, Usage>, pods: seq<Pod>, trace: PlanTrace, ns: string)
    requires PlannedFrom(env, p, usage, pods, trace) && !NamespaceAllowed(p, ns)
    ensures forall m | m in trace.planned :: m.pod.namespace != ns
  {
    hide PlannedFrom, NamespaceAllowed, ReadyLongEnough, HasBackoff, Drop;
    TraceIsSound(env, p, usage, pods, trace);
    TraceSetting(env, p, usage, pods, trace);
    forall m | m in trace.planned ensures m.pod.namespace != ns {
      var i :| 0 <= i < |trace.planned| && trace.planned[i] == m;
      assert SoundMove(env, trace.hot, trace.cold, trace.candidates, trace.planned[i]);
    }
  }

  /** The policy never makes a plan with two admitted pods of the namespace. */
  predicate OneAtMost(p: Policy, ns: string, g: nat) {
    || p.dryRun || NamespaceCap(p) <= 1 || !NamespaceAllowed(p, ns)
    || (NonNegativeWeights(p.weights) && !RoomForMoves(p, g))
  }

  lemma EvictsOneAtMost(log: seq<Record>, t: TracedRound, ns: string, g: nat)
    requires TracedFrom(log, t) && Within(t.cluster, g)
    requires OneAtMost(t.round.policy, ns, g)
    ensures EvictsAtMost(t.round, ns, 1)
  {
    hide PlannedFrom, RoundFrom, Within, RoomForMoves, NamespaceAllowed, NamespaceCap, Planned, Ascending;
    var p := t.round.policy;
    var env, usage, pods := ClusterEnv(t.cluster, p), ClusterUsage(t.cluster), WithHistory(t.cluster, log);
    SameElements(t.sorted, t.trace.planned);
    assert |t.sorted| == |multiset(t.sorted)| == |multiset(t.trace.planned)| == |t.trace.planned|;
    PlannedWithin(Namespaces(t.round.pods), ns);
    if NonNegativeWeights(p.weights) && !RoomForMoves(p, g) {
      ShortPlan(t.cluster, p, log, t.trace, g);
    } else if !NamespaceAllowed(p, ns) {
      ShutOut(env, p, usage, pods, t.trace, ns);
      forall i | 0 <= i < |t.round.pods| ensures Namespaces(t.round.pods)[i] != ns {
        assert t.sorted[i] in t.sorted;
      }
    }
  }

  // ---------------------------------------------------------------- the exact condition

  // A run in which an hour holds as many evictions as the bound allows, on nodes that use no more than g times their
  // size: d - 1 evictions one by one, then as many in one plan as the policy admits.
  lemma OverBudget(p: Policy, ns: string, d: int, g: nat) returns (run: seq<TracedRound>)
    requires !p.dryRun && d > 0 && NamespaceAllowed(p, ns) && RoomForMoves(p, g) && NonNegativeWeights(p.weights)
    ensures TracedRun(run) && Ruled(run, p, ns, d, g)
    ensures HourCount(LogOf(RoundsOf(run)), ns, 0) == d - 1 + NamespaceCap(p)
  {
    hide TracedRun, ValidRun, RoomForMoves, NamespaceAllowed, NamespaceCap, Within, LogOf, HourCount;
    var rounds := FullHour(p, ns, d);
    run := RunIsReachable(rounds, g);
    forall i | 0 <= i < |run| ensures run[i].round == rounds[i] && run[i] in run {
      assert RoundsOf(run)[i] == run[i].round;
    }
  }

  lemma KeptOneByOne(run: seq<TracedRound>, p: Policy, ns: string, d: int, g: nat, t: int)
    requires d > 0 && OneAtMost(p, ns, g)
    requires TracedRun(run) && Ruled(run, p, ns, d, g)
    ensures HourCount(LogOf(RoundsOf(run)), ns, t) <= d
  {
    hide OneAtMost, TracedFrom, EvictsAtMost, Within, LogOf, HourCount, ValidRun;
    TracedRunIsValid(run);
    forall i | 0 <= i < |run| ensures EvictsAtMost(RoundsOf(run)[i], ns, 1) {
      EvictsOneAtMost(LogOf(RoundsOf(run)[..i]), run[i], ns, g);
    }
    SlidingHour(RoundsOf(run), ns, d, 1, t);
  }

  // On nodes that use no more than g times their size, the hourly budget of a namespace is kept over every run if the
  // policy is dry, or may admit only one pod of the namespace, or shuts the namespace out. With weights that are not
  // negative the only other case is that nodes cannot be both hot and cold above the target variance.
  lemma HourlyBudgetExactlyWhen(p: Policy, ns: string, d: int, g: nat)
    requires d > 0
    ensures p.dryRun || NamespaceCap(p) <= 1 || !NamespaceAllowed(p, ns) ==> BudgetAlwaysKept(p, ns, d, g)
    ensures NonNegativeWeights(p.weights) ==>
              (BudgetAlwaysKept(p, ns, d, g) <==>
                 p.dryRun || NamespaceCap(p) <= 1 || !NamespaceAllowed(p, ns) || !RoomForMoves(p, g))
  {
    hide TracedRun, Ruled, LogOf, HourCount, NamespaceCap, NamespaceAllowed, RoomForMoves;
    if OneAtMost(p, ns, g) {
      forall run, t | TracedRun(run) && Ruled(run, p, ns, d, g)
        ensures HourCount(LogOf(RoundsOf(run)), ns, t) <= d
      {
        KeptOneByOne(run, p, ns, d, g, t);
      }
    } else if NonNegativeWeights(p.weights) {
      var run := OverBudget(p, ns, d, g);
      assert HourCount(LogOf(RoundsOf(run)), ns, 0) > d;
    }
  }

  // However high the load may be, only the bands decide whether there is room for moves.
  lemma RoomAtSomeLoad(p: Policy) returns (g: nat)
    requires NonNegativeWeights(p.weights)
    ensures RoomForMoves(p, g) <==> 0.0 < p.hotThreshold - p.hysteresis && 0.0 <= p.coldThreshold + p.hysteresis
  {
    hide Mul, Sq;
    var full, hot := FullPressure(p), p.hotThreshold - p.hysteresis;
    var need := if hot > p.targetVariance then hot else p.targetVariance;
    var most := if need < 4.0 then 5.0 else need + 1.0;
    MeanTimesCount(full, most);
    QuotientSign(most, full);
    g := (most / full).Floor + 1;
    Reaches(g as real, full, most);
    HighEnough(Mul(g as real, full), p.targetVariance);
  }

  lemma Reaches(g: real, full: real, most: real)
    requires full > 0.0 && g > most / full
    ensures Mul(g, full) >= most
  {
    assert (g - most / full) * full > 0.0;
    assert most / full * full == most;
  }

  lemma HighEnough(top: real, target: real)
    requires top >= 5.0 && top > target
    ensures Sq(top) / 4.0 > target
  {
    assert Sq(top) >= 5.0 * top;
  }

  // If nothing bounds the load of a node, the two bands take the place of the last condition.
  lemma HourlyBudgetAtAnyLoad(p: Policy, ns: string, d: int)
    requires d > 0 && NonNegativeWeights(p.weights)
    ensures (forall g: nat :: BudgetAlwaysKept(p, ns, d, g)) <==>
              p.dryRun || NamespaceCap(p) <= 1 || !NamespaceAllowed(p, ns)
              || p.hotThreshold - p.hysteresis <= 0.0 || p.coldThreshold + p.hysteresis < 0.0
  {
    hide BudgetAlwaysKept, NamespaceCap, NamespaceAllowed, TopVariance;
    var g := RoomAtSomeLoad(p);
    HourlyBudgetExactlyWhen(p, ns, d, g);
    forall other: nat ensures RoomForMoves(p, other) ==> RoomForMoves(p, g) {
    }
    forall other: nat | OneAtMost(p, ns, g) ensures BudgetAlwaysKept(p, ns, d, other) {
      HourlyBudgetExactlyWhen(p, ns, d, other);
    }
  }

  // With the default thresholds, weights and limits, and evictions switched on, no namespace's budget is always kept,
  // even if no node ever uses more than it can allocate.
  lemma DefaultsExceedBudgets(ns: string, d: int)
    requires d > 0
    ensures !BudgetAlwaysKept(DEFAULTS.(dryRun := false), ns, d, 1)
  {
    hide BudgetAlwaysKept;
    HourlyBudgetExactlyWhen(DEFAULTS.(dryRun := false), ns, d, 1);
  }

  // An hour can then hold two evictions more than the limit, and no more.
  lemma DefaultsOverrunByTwo(ns: string, d: int) returns (run: seq<TracedRound>)
    requires d > 0
    ensures TracedRun(run) && Ruled(run, DEFAULTS.(dryRun := false), ns, d, 1)
    ensures HourCount(LogOf(RoundsOf(run)), ns, 0) == d + 2
    ensures forall other, t | TracedRun(other) && Ruled(other, DEFAULTS.(dryRun := false), ns, d, 1) ::
              HourCount(LogOf(RoundsOf(other)), ns, t) <= d + 2
  {
    hide TracedRun, Ruled, LogOf, HourCount, Within;
    var p := DEFAULTS.(dryRun := false);
    run := OverBudget(p, ns, d, 1);
    forall other, t | TracedRun(other) && Ruled(other, p, ns, d, 1)
      ensures HourCount(LogOf(RoundsOf(other)), ns, t) <= d + 2
    {
      WithinCap(other, p, ns, d, 1, t);
    }
  }

  lemma WithinCap(run: seq<TracedRound>, p: Policy, ns: string, d: int, g: nat, t: int)
    requires d > 0 && TracedRun(run) && Ruled(run, p, ns, d, g)
    ensures HourCount(LogOf(RoundsOf(run)), ns, t) <= d - 1 + NamespaceCap(p)
  {
    hide TracedFrom, Within, LogOf, HourCount, ValidRun, NamespaceCap, Planned;
    TracedRunIsValid(run);
    SlidingHour(RoundsOf(run), ns, d, NamespaceCap(p), t);
  }
}
