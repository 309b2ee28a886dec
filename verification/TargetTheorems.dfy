/** Which target the variance search really picks: the least loaded node that takes the pod. */
module TargetTheorems {
  import opened Arithmetic
  import opened Imbalance
  import opened Cluster
  import opened Greedy
  import opened PlanTheorems
  import opened UsageTheorems
  import opened SubsetTheorems

  /** A source that covers the pod, and cold nodes of the same size wherever the pod fits. */
  ghost predicate Uniform(env: Env, hot: set<string>, cold: seq<string>, usage: map<string, Usage>, pod: Pod) {
    && usage.Keys == env.sizes.Keys
    && pod.nodeName in usage && pod.nodeName in hot
    && Demand(pod).cpu <= usage[pod.nodeName].cpu && Demand(pod).memory <= usage[pod.nodeName].memory
    && (forall n | n in usage :: usage[n].cpu >= 0.0 && usage[n].memory >= 0)
    && forall c | c in cold ::
         c in usage && c !in hot && ((pod.name, c) in env.fits ==> env.sizes[c] == env.sizes[pod.nodeName])
  }

  function PodLoad(env: Env, pod: Pod): real
    requires pod.nodeName in env.sizes
  {
    Pressure(Demand(pod), env.sizes[pod.nodeName], env.weights)
  }

  // The predicted variance of a target depends on its current utilization alone.
  lemma TargetEffect(env: Env, hot: set<string>, cold: seq<string>, usage: map<string, Usage>, pod: Pod, to: string)
    requires Uniform(env, hot, cold, usage, pod) && to in cold && (pod.name, to) in env.fits
    ensures var util := UtilOf(env, usage);
            && |util| > 0
            && Mul(|util| as real,
                   Variance(SimulatedUtil(env, usage, util, pod.nodeName, to, Demand(pod))) - Variance(util))
            == 2.0 * Mul(PodLoad(env, pod), util[to] + PodLoad(env, pod) - util[pod.nodeName])
  {
    hide Variance, Mul, Carry, Pressure, SimulatedUtil, UtilOf, Moved, Demand;
    var util := UtilOf(env, usage);
    var m := Move(pod.name, pod.nodeName, to, Demand(pod), 0.0);
    DemandPositive(pod);
    SimulationAgrees(env, hot, usage, pod.nodeName, to, Demand(pod));
    UtilOfMoved(env, usage, m);
    VarianceOfShift(util, pod.nodeName, to, PodLoad(env, pod));
    assert util.Keys != {} && |util| == |util.Keys|;
  }

  ghost function AfterMoveTo(env: Env, usage: map<string, Usage>, pod: Pod, to: string): real
    requires usage.Keys == env.sizes.Keys
  {
    Variance(SimulatedUtil(env, usage, UtilOf(env, usage), pod.nodeName, to, Demand(pod)))
  }

  lemma TargetOrder(env: Env, hot: set<string>, cold: seq<string>, usage: map<string, Usage>, pod: Pod, a: string,
                    b: string)
    requires Uniform(env, hot, cold, usage, pod) && PositiveWeights(env.weights)
    requires a in cold && (pod.name, a) in env.fits && b in cold && (pod.name, b) in env.fits
    ensures var util := UtilOf(env, usage);
            && (AfterMoveTo(env, usage, pod, a) <= AfterMoveTo(env, usage, pod, b) <==> util[a] <= util[b])
            && (AfterMoveTo(env, usage, pod, a) < Variance(util) <==>
                  util[pod.nodeName] - util[a] > PodLoad(env, pod))
  {
    hide Variance, SimulatedUtil, UtilOf, Pressure, Demand, Mul;
    var util, d := UtilOf(env, usage), PodLoad(env, pod);
    DemandPositive(pod);
    PressurePositive(Demand(pod), env.sizes[pod.nodeName], env.weights);
    TargetEffect(env, hot, cold, usage, pod, a);
    TargetEffect(env, hot, cold, usage, pod, b);
    GapDecides(|util| as real, AfterMoveTo(env, usage, pod, a), AfterMoveTo(env, usage, pod, b), Variance(util), d,
               util[a], util[b], util[pod.nodeName]);
  }

  lemma GapDecides(n: real, va: real, vb: real, v: real, d: real, a: real, b: real, from: real)
    requires n > 0.0 && d > 0.0
    requires Mul(n, va - v) == 2.0 * Mul(d, a + d - from) && Mul(n, vb - v) == 2.0 * Mul(d, b + d - from)
    ensures va <= vb <==> a <= b
    ensures va < v <==> from - a > d
  {
    hide Mul;
    ScaledOrder(n, va - v, vb - v);
    ScaledOrder(d, a + d - from, b + d - from);
    ScaledOrder(n, 0.0, va - v);
    ScaledOrder(d, 0.0, a + d - from);
    MulZero(n);
    MulZero(d);
  }

  /** Position i holds the first of the least loaded cold nodes that take the pod. */
  predicate LeastLoadedAt(env: Env, util: map<string, real>, pod: Pod, cold: seq<string>, i: nat)
    requires forall c | c in cold :: c in util
  {
    && i < |cold|
    && (pod.name, cold[i]) in env.fits
    && (forall j | 0 <= j < i && (pod.name, cold[j]) in env.fits :: util[cold[i]] < util[cold[j]])
    && (forall j | i <= j < |cold| && (pod.name, cold[j]) in env.fits :: util[cold[i]] <= util[cold[j]])
  }

  // With equal sizes and no class preference the search takes the least loaded node, if the gap exceeds the pod's load.
  lemma LeastLoadedTarget(env: Env, hot: set<string>, cold: seq<string>, st: State, pod: Pod) returns (i: nat)
    requires Uniform(env, hot, cold, st.usage, pod) && PositiveWeights(env.weights)
    requires env.preferred == {} && pod.name !in st.visited
    requires st.util == UtilOf(env, st.usage) && st.variance == Variance(st.util)
    ensures Accepts(env, cold, st, pod) <==>
              exists c :: c in cold && (pod.name, c) in env.fits
                && st.util[pod.nodeName] - st.util[c] > PodLoad(env, pod)
    ensures Accepts(env, cold, st, pod) ==>
              && LeastLoadedAt(env, st.util, pod, cold, i)
              && Best(env, st.usage, st.util, st.variance, pod, cold).value.to == cold[i]
  {
    hide Variance, SimulatedUtil, UtilOf, Uniform, PodLoad, Demand, Best;
    UniformKeys(env, hot, cold, st.usage, pod);
    i := BestIsChosen(env, st.usage, st.util, st.variance, pod, cold);
    forall j, k | 0 <= j < |cold| && 0 <= k < |cold| && (pod.name, cold[j]) in env.fits
      && (pod.name, cold[k]) in env.fits
      ensures var a, b := Attempt(env, st.usage, st.util, st.variance, pod, cold[j]).variance,
                          Attempt(env, st.usage, st.util, st.variance, pod, cold[k]).variance;
              && (a <= b <==> st.util[cold[j]] <= st.util[cold[k]])
              && (a < st.variance <==> st.util[pod.nodeName] - st.util[cold[j]] > PodLoad(env, pod))
    {
      TargetOrder(env, hot, cold, st.usage, pod, cold[j], cold[k]);
    }
    forall j | 0 <= j < |cold|
      ensures Eligible(env, st.usage, st.util, st.variance, pod, cold[j]) <==>
                (pod.name, cold[j]) in env.fits && st.util[pod.nodeName] - st.util[cold[j]] > PodLoad(env, pod)
    {
    }
  }

  lemma UniformKeys(env: Env, hot: set<string>, cold: seq<string>, usage: map<string, Usage>, pod: Pod)
    requires Uniform(env, hot, cold, usage, pod)
    ensures usage.Keys == env.sizes.Keys && pod.nodeName in usage && forall c | c in cold :: c in usage
  {
  }
}
