/** What holds of every plan the greedy planner can make. */
module PlanTheorems {
  import opened Sums
  import opened Imbalance
  import opened Cluster
  import opened Greedy

  // ---------------------------------------------------------------- choosing a target

  /** The attempt at position i is chosen: least variance among eligible nodes, earliest among equals. */
  ghost predicate ChosenAt(env: Env, usage: map<string, Usage>, util: map<string, real>, current: real, pod: Pod,
                           cold: seq<string>, i: nat)
    requires usage.Keys == env.sizes.Keys
  {
    && i < |cold|
    && Eligible(env, usage, util, current, pod, cold[i])
    && var v := Attempt(env, usage, util, current, pod, cold[i]).variance;
       && (forall j | 0 <= j < i && Eligible(env, usage, util, current, pod, cold[j]) ::
             v < Attempt(env, usage, util, current, pod, cold[j]).variance)
       && (forall j | i <= j < |cold| && Eligible(env, usage, util, current, pod, cold[j]) ::
             v <= Attempt(env, usage, util, current, pod, cold[j]).variance)
  }

  lemma {:induction false} BestIsChosen(env: Env, usage: map<string, Usage>, util: map<string, real>, current: real,
                                        pod: Pod, cold: seq<string>) returns (i: nat)
    requires usage.Keys == env.sizes.Keys
    ensures var best := Best(env, usage, util, current, pod, cold);
            if best.None? then
              forall j | 0 <= j < |cold| :: !Eligible(env, usage, util, current, pod, cold[j])
            else
              && ChosenAt(env, usage, util, current, pod, cold, i)
              && best.value == Attempt(env, usage, util, current, pod, cold[i])
    decreases |cold|
  {
    hide Attempt;
    i := 0;
    if cold != [] {
      var n := |cold| - 1;
      i := BestIsChosen(env, usage, util, current, pod, cold[..n]);
      var shorter := Best(env, usage, util, current, pod, cold[..n]);
      forall j | 0 <= j < n ensures cold[j] == cold[..n][j] {
      }
      if Best(env, usage, util, current, pod, cold) != shorter || shorter.None? {
        i := n;
      }
    }
  }

  // A target that a candidate may be moved to: lower variance, by more than 0.01 when another class is preferred.
  ghost predicate Improves(env: Env, usage: map<string, Usage>, util: map<string, real>, current: real, pod: Pod,
                           to: string)
    requires usage.Keys == env.sizes.Keys
  {
    && (pod.name, to) in env.fits
    && var v := Variance(SimulatedUtil(env, usage, util, pod.nodeName, to, Demand(pod)));
       if env.preferred == {} || (to in env.classes && env.classes[to] * env.preferred != {}) then v < current
       else v < current - 0.01
  }

  // Class preference can veto a target but never admits one that raises the variance.
  lemma AcceptedExactly(env: Env, cold: seq<string>, st: State, pod: Pod)
    requires st.usage.Keys == env.sizes.Keys
    ensures Accepts(env, cold, st, pod) <==>
              pod.name !in st.visited &&
              exists to :: to in cold && Improves(env, st.usage, st.util, st.variance, pod, to)
    ensures Accepts(env, cold, st, pod) ==>
              var c := Best(env, st.usage, st.util, st.variance, pod, cold).value;
              && c.to in cold && Improves(env, st.usage, st.util, st.variance, pod, c.to)
              && forall to | to in cold && Eligible(env, st.usage, st.util, st.variance, pod, to) ::
                   c.variance <= Variance(SimulatedUtil(env, st.usage, st.util, pod.nodeName, to, Demand(pod)))
  {
    hide SimulatedUtil, Variance, Demand;
    var i := BestIsChosen(env, st.usage, st.util, st.variance, pod, cold);
    var best := Best(env, st.usage, st.util, st.variance, pod, cold);
    if to :| to in cold && Improves(env, st.usage, st.util, st.variance, pod, to) {
      var j :| 0 <= j < |cold| && cold[j] == to;
      assert Eligible(env, st.usage, st.util, st.variance, pod, cold[j]);
    }
    if best.Some? {
      assert best.value.to == cold[i];
      if best.value.variance < st.variance {
        assert Improves(env, st.usage, st.util, st.variance, pod, cold[i]);
      }
      forall to | to in cold && Eligible(env, st.usage, st.util, st.variance, pod, to)
        ensures best.value.variance <= Variance(SimulatedUtil(env, st.usage, st.util, pod.nodeName, to, Demand(pod)))
      {
        var j :| 0 <= j < |cold| && cold[j] == to;
      }
    }
  }

  /** The state after moving a pod to a given node, whether or not the search would choose it. */
  ghost function MovedTo(env: Env, st: State, pod: Pod, to: string): (r: State)
    requires st.usage.Keys == env.sizes.Keys
    ensures r.usage.Keys == st.usage.Keys
  {
    var after := SimulatedUtil(env, st.usage, st.util, pod.nodeName, to, Demand(pod));
    State(Moved(st.usage, pod.nodeName, to, Demand(pod)),
          after,
          Variance(after),
          st.plan + [Move(pod.name, pod.nodeName, to, Demand(pod), Variance(after) - st.variance + Bias(env, to))],
          st.visited + {pod.name})
  }

  ghost predicate Unvisited(pods: seq<Pod>, visited: set<PodName>) {
    forall p | p in pods :: p.name !in visited
  }

  /** The pod fits this one cold node only, and class preference does not rule the node out. */
  ghost predicate OnlyTarget(env: Env, cold: seq<string>, pod: Pod, to: string) {
    && to in cold
    && (forall c | c in cold :: (pod.name, c) in env.fits <==> c == to)
    && (env.preferred == {} || Preferred(env, to))
  }

  // A pod with a single target is moved there if that lowers the variance.
  lemma OnlyTargetIsChosen(env: Env, cold: seq<string>, st: State, pod: Pod, to: string)
    requires st.usage.Keys == env.sizes.Keys && OnlyTarget(env, cold, pod, to) && pod.name !in st.visited
    requires MovedTo(env, st, pod, to).variance < st.variance
    ensures Accepts(env, cold, st, pod) && Step(env, cold, st, pod) == MovedTo(env, st, pod, to)
  {
    hide Variance, SimulatedUtil, Demand, Moved, Preferred;
    var i := BestIsChosen(env, st.usage, st.util, st.variance, pod, cold);
    var k :| 0 <= k < |cold| && cold[k] == to;
    assert Eligible(env, st.usage, st.util, st.variance, pod, cold[k]);
  }

  // Such a move is one step of the walk, which goes on unless the target is reached with pods to spare.
  lemma OnlyTargetWalk(env: Env, cold: seq<string>, st: State, pods: seq<Pod>, to: string)
    requires st.usage.Keys == env.sizes.Keys && pods != [] && OnlyTarget(env, cold, pods[0], to)
    requires pods[0].name !in st.visited
    requires var next := MovedTo(env, st, pods[0], to);
             next.variance < st.variance && (|pods| == 1 || next.variance > env.target)
    ensures Walk(env, cold, st, pods) == Walk(env, cold, MovedTo(env, st, pods[0], to), pods[1..])
  {
    hide Accepts, Step, MovedTo;
    OnlyTargetIsChosen(env, cold, st, pods[0], to);
  }

  /** No candidate may be moved anywhere from the given state. */
  ghost predicate NothingImproves(env: Env, cold: seq<string>, st: State, pods: seq<Pod>)
    requires st.usage.Keys == env.sizes.Keys
  {
    forall p, to | p in pods && to in cold :: !Improves(env, st.usage, st.util, st.variance, p, to)
  }

  lemma {:induction false} WalkKeepsMoves(env: Env, cold: seq<string>, st: State, pods: seq<Pod>)
    requires st.usage.Keys == env.sizes.Keys
    ensures |Walk(env, cold, st, pods).plan| >= |st.plan|
    decreases |pods|
  {
    hide Accepts, Best;
    if pods != [] {
      WalkKeepsMoves(env, cold, Step(env, cold, st, pods[0]), pods[1..]);
    }
  }

  // A plan is empty exactly when no candidate could be moved to begin with.
  lemma {:induction false} PlanIsEmptyExactly(env: Env, cold: seq<string>, st: State, pods: seq<Pod>)
    requires st.usage.Keys == env.sizes.Keys && st.plan == [] && st.visited == {}
    ensures Walk(env, cold, st, pods).plan == [] <==> NothingImproves(env, cold, st, pods)
    decreases |pods|
  {
    hide Best, Improves;
    if pods != [] {
      AcceptedExactly(env, cold, st, pods[0]);
      WalkKeepsMoves(env, cold, Step(env, cold, st, pods[0]), pods[1..]);
      if !Accepts(env, cold, st, pods[0]) {
        PlanIsEmptyExactly(env, cold, st, pods[1..]);
        assert pods == [pods[0]] + pods[1..];
      }
    }
  }

  // ---------------------------------------------------------------- every state of the walk

  /** Hot nodes are never cold, and every node has a size, a usage and a utilization. */
  ghost predicate Setting(env: Env, hot: set<string>, cold: seq<string>, st: State) {
    && st.usage.Keys == st.util.Keys == env.sizes.Keys
    && hot <= env.sizes.Keys
    && forall c | c in cold :: c in env.sizes && c !in hot
  }

  /** A move of a candidate from its hot node to a cold node where it fits, with a negative score. */
  ghost predicate SoundMove(env: Env, hot: set<string>, cold: seq<string>, pods: seq<Pod>, m: Move) {
    && m.from in hot
    && m.to in cold
    && (m.pod, m.to) in env.fits
    && m.score < 0.0
    && exists p :: p in pods && p.name == m.pod && p.nodeName == m.from && Demand(p) == m.request
  }

  /** The fall in variance behind a score, without the class preference. */
  function Drop(env: Env, m: Move): real {
    m.score - Bias(env, m.to)
  }

  function Drops(env: Env): Move -> real {
    m => Drop(env, m)
  }

  /** The planner's variance after the first i moves, told from the scores alone. */
  ghost function VarianceAfter(env: Env, start: State, plan: seq<Move>, i: nat): real
    requires i <= |plan|
  {
    start.variance + Total(Drops(env), plan[..i])
  }

  ghost predicate AllSound(env: Env, hot: set<string>, cold: seq<string>, pods: seq<Pod>, plan: seq<Move>) {
    && (forall i | 0 <= i < |plan| :: SoundMove(env, hot, cold, pods, plan[i]) && Drop(env, plan[i]) < 0.0)
    && forall i, j | 0 <= i < j < |plan| :: plan[i].pod != plan[j].pod
  }

  /** Only the last move may have brought the variance down to the target. */
  ghost predicate AboveTarget(env: Env, start: State, plan: seq<Move>) {
    forall i | 0 < i < |plan| :: VarianceAfter(env, start, plan, i) > env.target
  }

  ghost predicate Invariant(env: Env, hot: set<string>, cold: seq<string>, pods: seq<Pod>, start: State, st: State) {
    && Setting(env, hot, cold, st)
    && st.usage == Replay(start.usage, st.plan)
    && st.variance == Variance(st.util) == VarianceAfter(env, start, st.plan, |st.plan|)
    && (forall p :: p in st.visited <==> exists m :: m in st.plan && m.pod == p)
    && AllSound(env, hot, cold, pods, st.plan)
    && AboveTarget(env, start, st.plan)
  }

  /** While the walk goes on, an accepted move has left the variance above the target. */
  ghost predicate Ongoing(env: Env, st: State) {
    st.plan != [] ==> st.variance > env.target
  }

  // An accepted candidate adds one sound move whose drop is the change of variance.
  lemma AcceptedMove(env: Env, hot: set<string>, cold: seq<string>, pods: seq<Pod>, st: State, pod: Pod)
    returns (m: Move)
    requires Setting(env, hot, cold, st)
    requires st.variance == Variance(st.util)
    requires pod in pods && pod.nodeName in hot && Accepts(env, cold, st, pod)
    ensures var next := Step(env, cold, st, pod);
            && Setting(env, hot, cold, next)
            && next.plan == st.plan + [m]
            && next.visited == st.visited + {m.pod}
            && next.usage == Moved(st.usage, m.from, m.to, m.request)
            && next.util == SimulatedUtil(env, st.usage, st.util, m.from, m.to, m.request)
            && next.variance == Variance(next.util) == st.variance + Drop(env, m) < st.variance
    ensures m.pod !in st.visited && SoundMove(env, hot, cold, pods, m)
  {
    hide Variance, Demand, Moved;
    var i := BestIsChosen(env, st.usage, st.util, st.variance, pod, cold);
    var c := Best(env, st.usage, st.util, st.variance, pod, cold).value;
    assert c == Attempt(env, st.usage, st.util, st.variance, pod, cold[i]);
    m := Move(pod.name, pod.nodeName, c.to, Demand(pod), c.score);
  }

  lemma AppendSound(env: Env, hot: set<string>, cold: seq<string>, pods: seq<Pod>, plan: seq<Move>, m: Move)
    requires AllSound(env, hot, cold, pods, plan)
    requires SoundMove(env, hot, cold, pods, m) && Drop(env, m) < 0.0
    requires forall k | k in plan :: k.pod != m.pod
    ensures AllSound(env, hot, cold, pods, plan + [m])
  {
    hide SoundMove, Drop;
  }

  lemma AppendAboveTarget(env: Env, start: State, plan: seq<Move>, m: Move)
    requires AboveTarget(env, start, plan)
    requires plan != [] ==> VarianceAfter(env, start, plan, |plan|) > env.target
    ensures AboveTarget(env, start, plan + [m])
    ensures VarianceAfter(env, start, plan + [m], |plan| + 1) == VarianceAfter(env, start, plan, |plan|) + Drop(env, m)
  {
    var longer := plan + [m];
    forall k | 0 <= k <= |plan| ensures VarianceAfter(env, start, longer, k) == VarianceAfter(env, start, plan, k) {
      assert longer[..k] == plan[..k];
    }
    TotalAppend(Drops(env), plan, m);
    assert plan[..|plan|] == plan && longer[..|longer|] == longer;
  }

  lemma AppendReplay(usage: map<string, Usage>, plan: seq<Move>, m: Move)
    ensures Replay(usage, plan + [m]) == Moved(Replay(usage, plan), m.from, m.to, m.request)
  {
    var longer := plan + [m];
    assert longer[..|longer| - 1] == plan;
  }

  lemma StepKeepsInvariant(env: Env, hot: set<string>, cold: seq<string>, pods: seq<Pod>, start: State, st: State,
                           pod: Pod)
    requires start.usage.Keys == env.sizes.Keys
    requires Invariant(env, hot, cold, pods, start, st) && Ongoing(env, st)
    requires pod in pods && pod.nodeName in hot
    ensures Invariant(env, hot, cold, pods, start, Step(env, cold, st, pod))
  {
    hide Setting, Replay, Moved, Step, Accepts, AllSound, AboveTarget, VarianceAfter, SoundMove, Variance,
      SimulatedUtil;
    StepUnlessAccepted(env, cold, st, pod);
    if Accepts(env, cold, st, pod) {
      var m := AcceptedMove(env, hot, cold, pods, st, pod);
      AppendSound(env, hot, cold, pods, st.plan, m);
      AppendAboveTarget(env, start, st.plan, m);
      AppendReplay(start.usage, st.plan, m);
    }
  }

  lemma StepUnlessAccepted(env: Env, cold: seq<string>, st: State, pod: Pod)
    requires st.usage.Keys == env.sizes.Keys
    ensures !Accepts(env, cold, st, pod) ==> Step(env, cold, st, pod) == st
  {
  }

  lemma {:induction false} WalkKeepsInvariant(env: Env, hot: set<string>, cold: seq<string>, pods: seq<Pod>,
                                              start: State, st: State, rest: seq<Pod>)
    requires start.usage.Keys == env.sizes.Keys
    requires Invariant(env, hot, cold, pods, start, st) && Ongoing(env, st)
    requires forall p | p in rest :: p in pods && p.nodeName in hot
    ensures Invariant(env, hot, cold, pods, start, Walk(env, cold, st, rest))
    decreases |rest|
  {
    hide Accepts, Step, Setting, AllSound, AboveTarget, Replay, VarianceAfter, Variance;
    if rest != [] {
      StepKeepsInvariant(env, hot, cold, pods, start, st, rest[0]);
      StepUnlessAccepted(env, cold, st, rest[0]);
      var next := Step(env, cold, st, rest[0]);
      if !(Accepts(env, cold, st, rest[0]) && next.variance <= env.target) {
        WalkKeepsInvariant(env, hot, cold, pods, start, next, rest[1..]);
      }
    }
  }

  // ---------------------------------------------------------------- what a finished plan satisfies

  lemma PlanInvariant(env: Env, hot: set<string>, cold: seq<string>, pods: seq<Pod>, usage: map<string, Usage>,
                      util: map<string, real>)
    requires usage.Keys == env.sizes.Keys && Setting(env, hot, cold, Start(usage, util))
    requires forall p | p in pods :: p.nodeName in hot
    ensures var start := Start(usage, util);
            Invariant(env, hot, cold, pods, start, Walk(env, cold, start, pods))
  {
    StartInvariant(env, hot, cold, pods, usage, util);
    WalkKeepsInvariant(env, hot, cold, pods, Start(usage, util), Start(usage, util), pods);
  }

  lemma StartInvariant(env: Env, hot: set<string>, cold: seq<string>, pods: seq<Pod>, usage: map<string, Usage>,
                       util: map<string, real>)
    requires usage.Keys == env.sizes.Keys && Setting(env, hot, cold, Start(usage, util))
    ensures var start := Start(usage, util);
            Invariant(env, hot, cold, pods, start, start) && Ongoing(env, start)
  {
    hide Variance;
    assert VarianceAfter(env, Start(usage, util), [], 0) == Start(usage, util).variance;
  }

  // Every planned eviction is a distinct candidate moving from a hot node to a schedulable cold one.
  lemma PlanIsSound(env: Env, hot: set<string>, cold: seq<string>, pods: seq<Pod>, usage: map<string, Usage>,
                    util: map<string, real>)
    requires usage.Keys == env.sizes.Keys && Setting(env, hot, cold, Start(usage, util))
    requires forall p | p in pods :: p.nodeName in hot
    ensures var plan := Walk(env, cold, Start(usage, util), pods).plan;
            && AllSound(env, hot, cold, pods, plan)
            && forall m | m in plan :: m.from in usage && m.to in usage && m.to !in hot
  {
    PlanInvariant(env, hot, cold, pods, usage, util);
  }

  // The planner's variance falls with every move, and only the last one may bring it down to the target. Started at or
  // below the target there is exactly one move if any candidate improves on the start, otherwise none.
  lemma StoppingRule(env: Env, hot: set<string>, cold: seq<string>, pods: seq<Pod>, usage: map<string, Usage>,
                     util: map<string, real>)
    requires usage.Keys == env.sizes.Keys && Setting(env, hot, cold, Start(usage, util))
    requires forall p | p in pods :: p.nodeName in hot
    ensures var start := Start(usage, util);
            var end := Walk(env, cold, start, pods);
            && (forall i | 0 <= i < |end.plan| ::
                  VarianceAfter(env, start, end.plan, i + 1) < VarianceAfter(env, start, end.plan, i))
            && (forall i | 0 < i < |end.plan| :: VarianceAfter(env, start, end.plan, i) > env.target)
            && (end.plan == [] <==> NothingImproves(env, cold, start, pods))
            && (start.variance <= env.target ==>
                  |end.plan| == if NothingImproves(env, cold, start, pods) then 0 else 1)
            && end.variance == VarianceAfter(env, start, end.plan, |end.plan|)
  {
    hide Walk, SoundMove, Variance, NothingImproves;
    PlanInvariant(env, hot, cold, pods, usage, util);
    var start := Start(usage, util);
    PlanIsEmptyExactly(env, cold, start, pods);
    VarianceFalls(env, start, Walk(env, cold, start, pods).plan);
    if start.variance <= env.target {
      AtMostOneBelowTarget(env, start, Walk(env, cold, start, pods).plan);
    }
  }

  lemma AtMostOneBelowTarget(env: Env, start: State, plan: seq<Move>)
    requires forall i | 0 <= i < |plan| :: Drop(env, plan[i]) < 0.0
    requires AboveTarget(env, start, plan) && start.variance <= env.target
    ensures |plan| <= 1
  {
    VarianceFalls(env, start, plan);
    if plan != [] {
      assert VarianceAfter(env, start, plan, 0 + 1) < VarianceAfter(env, start, plan, 0);
    }
  }

  lemma VarianceFalls(env: Env, start: State, plan: seq<Move>)
    requires forall i | 0 <= i < |plan| :: Drop(env, plan[i]) < 0.0
    ensures forall i | 0 <= i < |plan| :: VarianceAfter(env, start, plan, i + 1) < VarianceAfter(env, start, plan, i)
    ensures VarianceAfter(env, start, plan, 0) == start.variance
  {
    forall i | 0 <= i < |plan|
      ensures VarianceAfter(env, start, plan, i + 1) == VarianceAfter(env, start, plan, i) + Drop(env, plan[i])
    {
      assert plan[..i + 1] == plan[..i] + [plan[i]];
      TotalAppend(Drops(env), plan[..i], plan[i]);
    }
  }

  /** Trying every candidate in turn, without ever stopping. */
  ghost function Exhaust(env: Env, cold: seq<string>, st: State, pods: seq<Pod>): (r: State)
    requires st.usage.Keys == env.sizes.Keys
    ensures r.usage.Keys == st.usage.Keys
    decreases |pods|
  {
    if pods == [] then st else Exhaust(env, cold, Step(env, cold, st, pods[0]), pods[1..])
  }

  // The walk tries every candidate in order unless it stops at the target, right after an accepted move.
  lemma {:induction false} WalkStopsAtTarget(env: Env, cold: seq<string>, st: State, pods: seq<Pod>) returns (k: nat)
    requires st.usage.Keys == env.sizes.Keys
    ensures k <= |pods| && Walk(env, cold, st, pods) == Exhaust(env, cold, st, pods[..k])
    ensures k < |pods| ==>
              && Walk(env, cold, st, pods).variance <= env.target
              && k > 0 && Accepts(env, cold, Exhaust(env, cold, st, pods[..k - 1]), pods[k - 1])
    decreases |pods|
  {
    hide Step, Accepts;
    k := 0;
    if pods != [] {
      var next := Step(env, cold, st, pods[0]);
      if Accepts(env, cold, st, pods[0]) && next.variance <= env.target {
        k := 1;
      } else {
        k := WalkStopsAtTarget(env, cold, next, pods[1..]);
        k := k + 1;
        if 1 < k < |pods| {
          assert pods[..k - 1][1..] == pods[1..][..k - 2];
        }
      }
      assert pods[..k][1..] == pods[1..][..k - 1];
    }
  }

  // ---------------------------------------------------------------- scores

  function CountTargets(env: Env, plan: seq<Move>, preferred: bool): nat {
    if plan == [] then
      0
    else
      CountTargets(env, plan[..|plan| - 1], preferred) +
      if Preferred(env, plan[|plan| - 1].to) == preferred then 1 else 0
  }

  lemma {:induction false} ScoresAreDropsAndBias(env: Env, plan: seq<Move>)
    ensures Total(Score(), plan) - Total(Drops(env), plan)
         == if env.preferred == {} then 0.0
            else 0.01 * (CountTargets(env, plan, false) - CountTargets(env, plan, true)) as real
  {
    if plan != [] {
      ScoresAreDropsAndBias(env, plan[..|plan| - 1]);
    }
  }

  // However the plan is sorted, its scores add up to the fall in variance, corrected by 0.01 for each target's class.
  lemma ScoresTelescope(env: Env, hot: set<string>, cold: seq<string>, pods: seq<Pod>, usage: map<string, Usage>,
                        util: map<string, real>, sorted: seq<Move>)
    requires usage.Keys == env.sizes.Keys && Setting(env, hot, cold, Start(usage, util))
    requires forall p | p in pods :: p.nodeName in hot
    requires multiset(sorted) == multiset(Walk(env, cold, Start(usage, util), pods).plan)
    ensures var end := Walk(env, cold, Start(usage, util), pods);
            Total(Score(), sorted) == Variance(end.util) - Variance(util) +
              if env.preferred == {} then 0.0
              else 0.01 * (CountTargets(env, end.plan, false) - CountTargets(env, end.plan, true)) as real
  {
    PlanInvariant(env, hot, cold, pods, usage, util);
    var end := Walk(env, cold, Start(usage, util), pods);
    hide Walk, Setting, Variance, Total, CountTargets;
    TotalPermutation(Score(), sorted, end.plan);
    ScoresAreDropsAndBias(env, end.plan);
    assert end.plan[..|end.plan|] == end.plan;
  }
}
