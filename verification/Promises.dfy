/**
 * What plans and runs promise in terms of the fields of pods, nodes and policies alone. Constants are written out and
 * no function of the planner's own is used to say what a pod is protected by, how loaded a node is, or how long a
 * backoff lasts.
 */
module Promises {
  import opened Sums
  import opened Cluster
  import opened Greedy
  import opened PlanTheorems
  import opened UsageTheorems
  import opened Window
  import opened Admission
  import opened Rounds
  import opened Planning
  import opened PlannerState
  import opened Traces

  // ---------------------------------------------------------------- which pods may be moved

  /** Why a pod must be left where it is. */
  datatype Reason =
    | Unscheduled | NamespaceExcluded | NamespaceNotIncluded | ScreenedOut | SystemCritical | Daemon | Stateful
    | NotReadyYet | BackingOff | NotOnHotNode

  /** Whether a reason holds at a time. */
  predicate Holds(reason: Reason, pod: Pod, policy: Policy, hot: set<string>, now: int) {
    match reason
    case Unscheduled => pod.nodeName == ""
    case NamespaceExcluded => pod.name.namespace in policy.excludes
    case NamespaceNotIncluded =>
      policy.includes != {} && "*" !in policy.includes && pod.name.namespace !in policy.includes
    case ScreenedOut => !pod.screened
    case SystemCritical => policy.respectPodPriority && (pod.priority >= 2_000_000_000 || pod.criticalClass)
    case Daemon => pod.kind == "DaemonSet"
    case Stateful => pod.kind == "StatefulSet" && !(pod.slo.Some? && pod.slo.value.allowStatefulSetEviction)
    case NotReadyYet =>
      pod.slo.Some? && pod.slo.value.minReadySeconds > 0 &&
      (pod.readySince.None? || now - pod.readySince.value < pod.slo.value.minReadySeconds * 1_000_000_000)
    case BackingOff =>
      pod.lastEvicted.Some? &&
      now - pod.lastEvicted.value < if policy.backoff.Some? then policy.backoff.value else 900_000_000_000
    case NotOnHotNode => pod.nodeName !in hot
  }

  // A pod is movable exactly when nothing speaks against it.
  lemma MovableUnlessReason(pod: Pod, policy: Policy, hot: set<string>, now: int)
    ensures Movable(pod, policy, hot, now) <==> forall reason :: !Holds(reason, pod, policy, hot, now)
  {
    if !Movable(pod, policy, hot, now) {
      var reason := SomeReason(pod, policy, hot, now);
    } else {
      forall reason ensures !Holds(reason, pod, policy, hot, now) {
      }
    }
  }

  lemma SomeReason(pod: Pod, policy: Policy, hot: set<string>, now: int) returns (reason: Reason)
    requires !Movable(pod, policy, hot, now)
    ensures Holds(reason, pod, policy, hot, now)
  {
    reason :=
      if pod.nodeName == "" then Unscheduled
      else if pod.name.namespace in policy.excludes then NamespaceExcluded
      else if Holds(NamespaceNotIncluded, pod, policy, hot, now) then NamespaceNotIncluded
      else if !pod.screened then ScreenedOut
      else if Holds(SystemCritical, pod, policy, hot, now) then SystemCritical
      else if pod.kind == "DaemonSet" then Daemon
      else if Holds(Stateful, pod, policy, hot, now) then Stateful
      else if pod.nodeName !in hot then NotOnHotNode
      else if Holds(NotReadyYet, pod, policy, hot, now) then NotReadyYet
      else BackingOff;
  }

  // A request of nothing counts as a twentieth of a core or 50 MiB.
  lemma DemandExactly(pod: Pod)
    ensures Demand(pod).cpu == if pod.milliCPU == 0 then 1.0 / 20.0 else pod.milliCPU as real / 1000.0
    ensures Demand(pod).memory == if pod.bytes == 0 then 52_428_800 else pod.bytes
  {
  }

  // Nothing spoke against any planned pod when the candidates had been filtered, and its move carries its request.
  lemma PlannedPodsAreFree(env: Env, policy: Policy, usage: map<string, Usage>, pods: seq<Pod>, trace: PlanTrace,
                           m: Move) returns (p: Pod)
    requires PlannedFrom(env, policy, usage, pods, trace) && m in trace.planned
    ensures p in pods && p.name == m.pod && p.nodeName == m.from
    ensures forall reason :: !Holds(reason, p, policy, trace.hot, trace.filtered)
    ensures m.request.cpu == if p.milliCPU == 0 then 1.0 / 20.0 else p.milliCPU as real / 1000.0
    ensures m.request.memory == if p.bytes == 0 then 52_428_800 else p.bytes
  {
    hide PlannedFrom, Movable, Holds, Drop, Demand;
    TraceIsSound(env, policy, usage, pods, trace);
    TraceSetting(env, policy, usage, pods, trace);
    var i :| 0 <= i < |trace.planned| && trace.planned[i] == m;
    assert SoundMove(env, trace.hot, trace.cold, trace.candidates, trace.planned[i]);
    p :| p in trace.candidates && p.name == m.pod && p.nodeName == m.from && Demand(p) == m.request;
    MovableUnlessReason(p, policy, trace.hot, trace.filtered);
    DemandExactly(p);
  }

  // With a cold node to go to, every pod that nothing spoke against when filtering started is a candidate, and lower
  // priorities come first.
  lemma FreePodsAreCandidates(env: Env, policy: Policy, usage: map<string, Usage>, pods: seq<Pod>, trace: PlanTrace)
    requires PlannedFrom(env, policy, usage, pods, trace)
    ensures trace.cold != [] ==>
              forall p | p in pods && (forall reason :: !Holds(reason, p, policy, trace.hot, trace.started)) ::
                p in trace.candidates
    ensures forall i, j | 0 <= i < j < |trace.candidates| ::
              trace.candidates[i].priority <= trace.candidates[j].priority
  {
    hide Movable, Holds, Walk, ClassifiedUtil;
    LowestPriorityFirst(trace.candidates);
    forall p | p in pods && (forall reason :: !Holds(reason, p, policy, trace.hot, trace.started)) && trace.cold != []
      ensures p in trace.candidates
    {
      MovableUnlessReason(p, policy, trace.hot, trace.started);
    }
  }

  // ---------------------------------------------------------------- which nodes are hot and cold

  /** A node's CPU and memory use, as shares of what it can allocate, weighted 0.7 to 0.3 if the policy says nothing. */
  function Loaded(used: Usage, size: Size, w: Weights): real {
    var a := if w.cpu == 0.0 && w.memory == 0.0 then 0.7 else w.cpu;
    var b := if w.cpu == 0.0 && w.memory == 0.0 then 0.3 else w.memory;
    used.cpu * 1000.0 / size.milliCPU as real * a + used.memory as real / size.bytes as real * b
  }

  lemma LoadedIsPressure(used: Usage, size: Size, w: Weights)
    ensures Loaded(used, size, w) == Pressure(used, size, EffectiveWeights(w))
  {
    SharesAgree(used, size, EffectiveWeights(w));
    hide Pressure;
  }

  // Pods are moved from nodes in the hot band to nodes in the cold band, and the hot band is looked at first.
  lemma BandsDecide(cluster: ClusterInfo, policy: Policy, pods: seq<Pod>, trace: PlanTrace, n: string)
    requires PlannedFrom(ClusterEnv(cluster, policy), policy, ClusterUsage(cluster), pods, trace) && n in cluster.nodes
    ensures var load := Loaded(cluster.nodes[n].usage, cluster.nodes[n].size, policy.weights);
            && (n in trace.hot <==> load >= policy.hotThreshold - policy.hysteresis)
            && (n in trace.cold <==>
                  load < policy.hotThreshold - policy.hysteresis && load <= policy.coldThreshold + policy.hysteresis)
  {
    hide Pressure, Loaded, Walk, Filtered;
    LoadedIsPressure(cluster.nodes[n].usage, cluster.nodes[n].size, policy.weights);
  }

  /** What class preference adds to the score of a move to the given node. */
  function ClassTerm(classes: set<string>, policy: Policy): real {
    if policy.nodeClassPreference == {} then 0.0
    else if exists c | c in classes :: c in policy.nodeClassPreference then -0.01
    else 0.01
  }

  lemma ClassTermIsBias(cluster: ClusterInfo, policy: Policy, n: string)
    requires n in cluster.nodes
    ensures Bias(ClusterEnv(cluster, policy), n) == ClassTerm(cluster.nodes[n].classes, policy)
    ensures ClassTerm(cluster.nodes[n].classes, policy) > 0.0 ==> ClassTerm(cluster.nodes[n].classes, policy) == 0.01
  {
    var both := cluster.nodes[n].classes * policy.nodeClassPreference;
    if c :| c in cluster.nodes[n].classes && c in policy.nodeClassPreference {
      assert c in both;
    }
  }

  // Every planned move is to a node where its pod fits. Take the class term off its score, and what is left is the
  // change of the recomputed variance: a fall, and one of more than 0.01 if the node is not of a class asked for.
  lemma ScoresMeasureFalls(cluster: ClusterInfo, policy: Policy, pods: seq<Pod>, trace: PlanTrace, i: nat)
    requires PlannedFrom(ClusterEnv(cluster, policy), policy, ClusterUsage(cluster), pods, trace) && i < |trace.planned|
    requires Metered({}, ClusterUsage(cluster)) && policy.weights != NO_WEIGHTS
    ensures trace.planned[i].to in cluster.nodes && (trace.planned[i].pod, trace.planned[i].to) in cluster.fits
    ensures var env, usage, m := ClusterEnv(cluster, policy), ClusterUsage(cluster), trace.planned[i];
            var term := ClassTerm(cluster.nodes[m.to].classes, policy);
            && ImbalanceOf(env, Replay(usage, trace.planned[..i + 1]))
               == ImbalanceOf(env, Replay(usage, trace.planned[..i])) + (m.score - term)
            && m.score - term < 0.0
            && (term > 0.0 ==> m.score - term < -0.01)
  {
    hide Walk, ClassifiedUtil, Triaged, ImbalanceOf, Replay, Setting, Bias, ClassTerm, Metered, UtilOf, ClusterEnv,
      ClusterUsage, SoundMove;
    FitsAsRead(cluster, policy);
    var env, usage, m := ClusterEnv(cluster, policy), ClusterUsage(cluster), trace.planned[i];
    TraceSetting(env, policy, usage, pods, trace);
    TraceIsSound(env, policy, usage, pods, trace);
    ClassifiedIsUtil(env, usage);
    IncrementalIsExact(env, trace.hot, trace.cold, trace.candidates, usage);
    SoundTarget(cluster, policy, trace, Start(usage, ClassifiedUtil(env, usage)), m);
    ClassTermIsBias(cluster, policy, m.to);
  }

  lemma FitsAsRead(cluster: ClusterInfo, policy: Policy)
    ensures ClusterEnv(cluster, policy).fits == cluster.fits && ClusterEnv(cluster, policy).weights == policy.weights
  {
  }

  lemma SoundTarget(cluster: ClusterInfo, policy: Policy, trace: PlanTrace, st: State, m: Move)
    requires Setting(ClusterEnv(cluster, policy), trace.hot, trace.cold, st)
    requires SoundMove(ClusterEnv(cluster, policy), trace.hot, trace.cold, trace.candidates, m)
    ensures m.to in cluster.nodes && (m.pod, m.to) in cluster.fits && m.score < 0.0
  {
    FitsAsRead(cluster, policy);
  }

  // ---------------------------------------------------------------- what a round evicts

  // Every eviction of a round is of a pod that was on a node in the hot band and that nothing spoke against. What its
  // namespace says about stateful sets and readiness is looked up in the cluster.
  lemma EvictedPodsWereFree(log: seq<Record>, t: TracedRound, k: nat) returns (pod: Pod)
    requires TracedFrom(log, t) && k < |t.round.records|
    ensures pod in t.cluster.pods && pod.name == t.round.records[k].pod && pod.nodeName in t.cluster.nodes
    ensures var node, p := t.cluster.nodes[pod.nodeName], t.round.policy;
            Loaded(node.usage, node.size, p.weights) >= p.hotThreshold - p.hysteresis
    ensures forall reason | reason !in {BackingOff, Stateful, NotReadyYet, NotOnHotNode} ::
              !Holds(reason, pod, t.round.policy, {}, t.round.filtered)
    ensures var slos, ns := t.cluster.slos, pod.name.namespace;
            && (pod.kind == "StatefulSet" ==> ns in slos && slos[ns].allowStatefulSetEviction)
            && (ns in slos && slos[ns].minReadySeconds > 0 ==>
                  pod.readySince.Some?
                  && t.round.filtered - pod.readySince.value >= slos[ns].minReadySeconds * 1_000_000_000)
  {
    hide PlannedFrom, RoundFrom, Executed, Allowed, Loaded, ClusterEnv, ClusterUsage, WithHistory, LastTime;
    var policy := t.round.policy;
    var env, usage, pods := ClusterEnv(t.cluster, policy), ClusterUsage(t.cluster), WithHistory(t.cluster, log);
    var i := RecordIsPlanned(log, t.round, k);
    SameElements(t.sorted, t.trace.planned);
    assert t.sorted[i] in t.sorted;
    var q := PlannedPodsAreFree(env, policy, usage, pods, t.trace, t.sorted[i]);
    var j :| 0 <= j < |pods| && pods[j] == q;
    pod := t.cluster.pods[j];
    HistoryOf(t.cluster, log, j);
    assert !Holds(NotOnHotNode, q, policy, t.trace.hot, t.trace.filtered);
    assert !Holds(Stateful, q, policy, t.trace.hot, t.trace.filtered);
    assert !Holds(NotReadyYet, q, policy, t.trace.hot, t.trace.filtered);
    HotIsANode(t.cluster, policy, pods, t.trace, q.nodeName);
    BandsDecide(t.cluster, policy, pods, t.trace, q.nodeName);
    forall reason | reason !in {BackingOff, Stateful, NotReadyYet, NotOnHotNode}
      ensures !Holds(reason, pod, policy, {}, t.round.filtered)
    {
      assert !Holds(reason, q, policy, t.trace.hot, t.trace.filtered);
    }
  }

  lemma RecordIsPlanned(log: seq<Record>, r: Round, k: nat) returns (i: nat)
    requires RoundFrom(log, r) && k < |r.records|
    ensures i < |r.pods| && r.pods[i] == r.records[k].pod
  {
    hide Executed, Allowed, Chronological, BackedOff, RoundFrom;
    RoundAccounting(log, r);
    RoundShape(log, r);
    var allowed := Allowed(log, r.policy, r.slos, r.pods, r.checks);
    i :| 0 <= i < |r.pods| && r.pods[i] == r.records[k].pod && allowed[i] && r.outcomes[i].Evicted?;
  }

  lemma RoundShape(log: seq<Record>, r: Round)
    requires RoundFrom(log, r)
    ensures |r.pods| == |r.checks| == |r.outcomes|
  {
  }

  lemma HistoryOf(cluster: ClusterInfo, log: seq<Record>, j: nat)
    requires j < |cluster.pods|
    ensures var pod := cluster.pods[j];
            WithHistory(cluster, log)[j] ==
              pod.(slo := SloOf(cluster.slos, pod.name.namespace), lastEvicted := LastTime(log, pod.name))
  {
  }

  lemma HotIsANode(cluster: ClusterInfo, policy: Policy, pods: seq<Pod>, trace: PlanTrace, n: string)
    requires PlannedFrom(ClusterEnv(cluster, policy), policy, ClusterUsage(cluster), pods, trace) && n in trace.hot
    ensures n in cluster.nodes
  {
    hide Pressure, Walk, Filtered;
  }

  // ---------------------------------------------------------------- how many it evicts

  // No round records more evictions than its policy's number, or than one if that number is not positive.
  lemma RoundWithinNumber(log: seq<Record>, r: Round)
    requires RoundFrom(log, r)
    ensures r.policy.maxEvictionsPerMinute > 0 ==> |r.records| <= r.policy.maxEvictionsPerMinute
    ensures r.policy.maxEvictionsPerMinute <= 0 ==> |r.records| <= 1
  {
    hide RoundFrom;
    RoundAccounting(log, r);
  }

  // With windows fixed, the number of entries admitted is the policy's number, or what the namespaces may get together
  // if that is less.
  lemma AdmittedExactly(log: seq<Record>, policy: Policy, slos: map<string, SLO>, pods: seq<PodName>, checks: seq<int>,
                        closed: set<string>, keys: set<string>)
    requires |pods| == |checks| && NamespacesOf(Namespaces(pods)) <= keys
    requires FixedWindows(Namespaces(pods), Windows(log, slos, pods, checks), closed)
    ensures var number := if policy.maxEvictionsPerMinute > 0 then policy.maxEvictionsPerMinute else 1;
            var total := Sum(Quotas(Namespaces(pods), closed, policy.maxEvictionsPerNamespace, keys));
            Count(Allowed(log, policy, slos, pods, checks)) as real ==
              if number as real <= total then number as real else total
  {
    hide Sum, Admit, Count, Quotas, WindowOpen, FixedWindows;
    ExactAdmissionCount(Namespaces(pods), Windows(log, slos, pods, checks), closed, EvictionLimit(policy),
                        policy.maxEvictionsPerNamespace, keys);
  }

  // If no namespace has an hourly limit, whether for want of an entry or because it is 0, windows never matter: only
  // the policy's number and its cap for one namespace do.
  lemma UnlimitedAdmission(log: seq<Record>, policy: Policy, slos: map<string, SLO>, pods: seq<PodName>,
                           checks: seq<int>, keys: set<string>)
    requires |pods| == |checks| && NamespacesOf(Namespaces(pods)) <= keys
    requires forall ns | ns in slos :: slos[ns].maxDisruptionsPerHour == 0
    ensures var number := if policy.maxEvictionsPerMinute > 0 then policy.maxEvictionsPerMinute else 1;
            var total := Sum(Quotas(Namespaces(pods), {}, policy.maxEvictionsPerNamespace, keys));
            Count(Allowed(log, policy, slos, pods, checks)) as real ==
              if number as real <= total then number as real else total
  {
    hide Sum, Admit, Count, Quotas, LastHour, Allowed;
    AdmittedExactly(log, policy, slos, pods, checks, {}, keys);
  }
}
