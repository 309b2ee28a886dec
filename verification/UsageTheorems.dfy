/** The planner's running utilization against the utilization recomputed from node usage. */
module UsageTheorems {
  import opened Arithmetic
  import opened Sums
  import opened Imbalance
  import opened Cluster
  import opened Greedy
  import opened PlanTheorems

  /** Usage as metrics report it, with memory negative at most where pods have been moved away. */
  ghost predicate Metered(hot: set<string>, usage: map<string, Usage>) {
    forall n | n in usage :: usage[n].cpu >= 0.0 && (n in hot || usage[n].memory >= 0)
  }

  // ---------------------------------------------------------------- refinement

  ghost function ImbalanceOf(env: Env, usage: map<string, Usage>): real
    requires usage.Keys <= env.sizes.Keys
  {
    Variance(UtilOf(env, usage))
  }

  /** Each move's drop is the change of the variance recomputed from usage. */
  ghost predicate Faithful(env: Env, usage: map<string, Usage>, plan: seq<Move>)
    requires usage.Keys <= env.sizes.Keys
  {
    forall i | 0 <= i < |plan| ::
      ImbalanceOf(env, Replay(usage, plan[..i + 1])) == ImbalanceOf(env, Replay(usage, plan[..i])) + Drop(env, plan[i])
  }

  ghost predicate Refined(env: Env, hot: set<string>, start: State, st: State) {
    && start.usage.Keys == st.usage.Keys == env.sizes.Keys
    && st.util == UtilOf(env, st.usage)
    && Metered(hot, st.usage)
    && Faithful(env, start.usage, st.plan)
  }

  // The simulation floors memory and the applied move does not, yet they agree on a hot source and a cold target.
  lemma SimulationAgrees(env: Env, hot: set<string>, usage: map<string, Usage>, from: string, to: string,
                         request: Usage)
    requires usage.Keys == env.sizes.Keys
    requires from in hot && to !in hot && from in usage && to in usage
    requires Metered(hot, usage) && request.cpu >= 0.0 && request.memory >= 0
    ensures SimulatedUtil(env, usage, UtilOf(env, usage), from, to, request)
         == UtilOf(env, Moved(usage, from, to, request))
    ensures Metered(hot, Moved(usage, from, to, request))
  {
    hide Pressure;
    var moved := Moved(usage, from, to, request);
    assert Floored(Heavier(usage[to], request)) == Heavier(usage[to], request);
  }

  // What the simulation predicts, number by number: the source keeps what the pod does not take of its CPU and memory,
  // never less than nothing, the target gains the whole request, and no other node changes.
  lemma SimulatedExactly(env: Env, usage: map<string, Usage>, util: map<string, real>, from: string, to: string,
                         request: Usage)
    requires usage.Keys == env.sizes.Keys && from != to
    ensures from !in usage || to !in usage ==> SimulatedUtil(env, usage, util, from, to, request) == util
    ensures from in usage && to in usage ==>
            var r, w := SimulatedUtil(env, usage, util, from, to, request), env.weights;
            var source, target := env.sizes[from], env.sizes[to];
            var cpu := if usage[from].cpu > request.cpu then usage[from].cpu - request.cpu else 0.0;
            var memory := if usage[from].memory > request.memory then usage[from].memory - request.memory else 0;
            && r.Keys == util.Keys + {from, to}
            && r[from] == cpu / (source.milliCPU as real / 1000.0) * w.cpu
                          + memory as real / source.bytes as real * w.memory
            && r[to] == (usage[to].cpu + request.cpu) / (target.milliCPU as real / 1000.0) * w.cpu
                        + (usage[to].memory + request.memory) as real / target.bytes as real * w.memory
            && forall n | n in util && n != from && n != to :: r[n] == util[n]
  {
  }

  // What an applied move leaves: the source's CPU is floored at nothing, its memory may go into debt.
  lemma MovedExactly(usage: map<string, Usage>, from: string, to: string, request: Usage)
    requires from != to
    ensures from !in usage || to !in usage ==> Moved(usage, from, to, request) == usage
    ensures from in usage && to in usage ==>
            var r := Moved(usage, from, to, request);
            && r[from].cpu == (if usage[from].cpu > request.cpu then usage[from].cpu - request.cpu else 0.0)
            && r[from].memory == usage[from].memory - request.memory
            && r[to] == Usage(usage[to].cpu + request.cpu, usage[to].memory + request.memory)
            && r == usage[from := r[from]][to := r[to]]
  {
  }

  // A pod that asks for more memory than its node uses leaves no memory behind, and no debt.
  lemma NothingLeftBehind(env: Env, usage: map<string, Usage>, util: map<string, real>, from: string, to: string,
                          request: Usage)
    requires usage.Keys == env.sizes.Keys && from in usage && to in usage && from != to
    ensures var r := SimulatedUtil(env, usage, util, from, to, request);
            && (request.memory >= usage[from].memory && request.cpu <= usage[from].cpu ==>
                  r[from] == (usage[from].cpu - request.cpu) / (env.sizes[from].milliCPU as real / 1000.0)
                             * env.weights.cpu)
            && (NonNegativeWeights(env.weights) ==> r[from] >= 0.0)
  {
    hide Pressure;
    SimulatedExactly(env, usage, util, from, to, request);
    if NonNegativeWeights(env.weights) {
      PressureNonNegative(Floored(Lighter(usage[from], request)), env.sizes[from], env.weights);
    }
    NoShare(env.sizes[from].bytes, env.weights.memory);
  }

  lemma NoShare(bytes: int, w: real)
    requires bytes > 0
    ensures 0 as real / bytes as real * w == 0.0
  {
  }

  lemma DemandPositive(pod: Pod)
    ensures Demand(pod).cpu > 0.0 && Demand(pod).memory > 0
  {
  }

  lemma SoundRequest(env: Env, hot: set<string>, cold: seq<string>, pods: seq<Pod>, m: Move)
    requires SoundMove(env, hot, cold, pods, m)
    ensures m.request.cpu > 0.0 && m.request.memory > 0
  {
    var p :| p in pods && Demand(p) == m.request;
    DemandPositive(p);
  }

  lemma AppendFaithful(env: Env, usage: map<string, Usage>, plan: seq<Move>, m: Move)
    requires usage.Keys <= env.sizes.Keys
    requires Faithful(env, usage, plan)
    requires ImbalanceOf(env, Moved(Replay(usage, plan), m.from, m.to, m.request))
          == ImbalanceOf(env, Replay(usage, plan)) + Drop(env, m)
    ensures Faithful(env, usage, plan + [m])
  {
    hide ImbalanceOf, Moved, Drop, Replay;
    var longer := plan + [m];
    AppendReplay(usage, plan, m);
    forall i | 0 <= i < |longer|
      ensures ImbalanceOf(env, Replay(usage, longer[..i + 1]))
           == ImbalanceOf(env, Replay(usage, longer[..i])) + Drop(env, longer[i])
    {
      assert longer[..i] == plan[..i];
      if i < |plan| {
        assert longer[..i + 1] == plan[..i + 1];
      } else {
        assert plan[..i] == plan && longer[..i + 1] == longer;
      }
    }
  }

  lemma StepKeepsRefined(env: Env, hot: set<string>, cold: seq<string>, pods: seq<Pod>, start: State, st: State,
                         pod: Pod)
    requires start.usage.Keys == env.sizes.Keys
    requires Invariant(env, hot, cold, pods, start, st) && Refined(env, hot, start, st)
    requires pod in pods && pod.nodeName in hot
    ensures Refined(env, hot, start, Step(env, cold, st, pod))
  {
    hide Replay, Moved, Step, Accepts, AllSound, AboveTarget, VarianceAfter, SoundMove, Variance, SimulatedUtil, UtilOf,
      Metered, Faithful;
    StepUnlessAccepted(env, cold, st, pod);
    if Accepts(env, cold, st, pod) {
      var m := AcceptedMove(env, hot, cold, pods, st, pod);
      SoundRequest(env, hot, cold, pods, m);
      SoundEnds(env, hot, cold, pods, m);
      SimulationAgrees(env, hot, st.usage, m.from, m.to, m.request);
      AppendFaithful(env, start.usage, st.plan, m);
    }
  }

  lemma SoundEnds(env: Env, hot: set<string>, cold: seq<string>, pods: seq<Pod>, m: Move)
    requires SoundMove(env, hot, cold, pods, m)
    ensures m.from in hot && m.to in cold
  {
  }

  lemma {:induction false} WalkKeepsRefined(env: Env, hot: set<string>, cold: seq<string>, pods: seq<Pod>,
                                            start: State, st: State, rest: seq<Pod>)
    requires start.usage.Keys == env.sizes.Keys
    requires Invariant(env, hot, cold, pods, start, st) && Ongoing(env, st)
    requires Refined(env, hot, start, st)
    requires forall p | p in rest :: p in pods && p.nodeName in hot
    ensures Refined(env, hot, start, Walk(env, cold, st, rest))
    decreases |rest|
  {
    hide Accepts, Step, Refined, Setting, AllSound, AboveTarget, Replay, VarianceAfter, UtilOf, Variance, Moved;
    if rest != [] {
      StepKeepsInvariant(env, hot, cold, pods, start, st, rest[0]);
      StepKeepsRefined(env, hot, cold, pods, start, st, rest[0]);
      StepUnlessAccepted(env, cold, st, rest[0]);
      var next := Step(env, cold, st, rest[0]);
      if !(Accepts(env, cold, st, rest[0]) && next.variance <= env.target) {
        WalkKeepsRefined(env, hot, cold, pods, start, next, rest[1..]);
      }
    }
  }

  // Started from the classified utilization, the running utilization is always the recomputed one.
  lemma IncrementalIsExact(env: Env, hot: set<string>, cold: seq<string>, pods: seq<Pod>, usage: map<string, Usage>)
    requires usage.Keys == env.sizes.Keys && Setting(env, hot, cold, Start(usage, UtilOf(env, usage)))
    requires forall p | p in pods :: p.nodeName in hot
    requires Metered({}, usage)
    ensures var end := Walk(env, cold, Start(usage, UtilOf(env, usage)), pods);
            && end.usage == Replay(usage, end.plan)
            && end.util == UtilOf(env, end.usage)
            && end.variance == ImbalanceOf(env, end.usage)
            && Faithful(env, usage, end.plan)
  {
    hide Walk, Setting, AllSound, AboveTarget, UtilOf, Variance, Faithful;
    var start := Start(usage, UtilOf(env, usage));
    StartInvariant(env, hot, cold, pods, usage, start.util);
    StartRefined(env, hot, usage);
    PlanInvariant(env, hot, cold, pods, usage, start.util);
    WalkKeepsRefined(env, hot, cold, pods, start, start, pods);
  }

  lemma StartRefined(env: Env, hot: set<string>, usage: map<string, Usage>)
    requires usage.Keys == env.sizes.Keys && Metered({}, usage)
    ensures var start := Start(usage, UtilOf(env, usage)); Refined(env, hot, start, start)
  {
  }

  // ---------------------------------------------------------------- conservation

  ghost function CpuOf(usage: map<string, Usage>): map<string, real> {
    map n | n in usage :: usage[n].cpu
  }

  ghost function MemoryOf(usage: map<string, Usage>): map<string, real> {
    map n | n in usage :: usage[n].memory as real
  }

  /** CPU that appears out of nowhere because the source's usage is floored at zero. */
  function Shortfall(u: map<string, Usage>, m: Move): real
    requires m.from in u
  {
    if u[m.from].cpu - m.request.cpu < 0.0 then m.request.cpu - u[m.from].cpu else 0.0
  }

  ghost function Shortfalls(usage: map<string, Usage>, moves: seq<Move>): real
    requires forall m | m in moves :: m.from in usage
  {
    if moves == [] then
      0.0
    else
      var prefix, m := moves[..|moves| - 1], moves[|moves| - 1];
      assert m in moves;
      Shortfalls(usage, prefix) + Shortfall(Replay(usage, prefix), m)
  }

  lemma MoveConserves(u: map<string, Usage>, m: Move)
    requires m.from in u && m.to in u && m.from != m.to
    ensures Sum(MemoryOf(Moved(u, m.from, m.to, m.request))) == Sum(MemoryOf(u))
    ensures Sum(CpuOf(Moved(u, m.from, m.to, m.request))) == Sum(CpuOf(u)) + Shortfall(u, m)
  {
    hide Sum;
    var lighter, heavier := Lighter(u[m.from], m.request), Heavier(u[m.to], m.request);
    SumUpdate(MemoryOf(u), m.from, lighter.memory as real);
    SumUpdate(MemoryOf(u)[m.from := lighter.memory as real], m.to, heavier.memory as real);
    SumUpdate(CpuOf(u), m.from, lighter.cpu);
    SumUpdate(CpuOf(u)[m.from := lighter.cpu], m.to, heavier.cpu);
    var moved := Moved(u, m.from, m.to, m.request);
    assert MemoryOf(moved) == MemoryOf(u)[m.from := lighter.memory as real][m.to := heavier.memory as real];
    assert CpuOf(moved) == CpuOf(u)[m.from := lighter.cpu][m.to := heavier.cpu];
  }

  // Moves keep the total memory, and total CPU grows by exactly what the floors cut off.
  lemma {:induction false} MovesConserve(usage: map<string, Usage>, moves: seq<Move>)
    requires forall m | m in moves :: m.from in usage && m.to in usage && m.from != m.to
    ensures Sum(MemoryOf(Replay(usage, moves))) == Sum(MemoryOf(usage))
    ensures Sum(CpuOf(Replay(usage, moves))) == Sum(CpuOf(usage)) + Shortfalls(usage, moves)
  {
    hide Sum, CpuOf, MemoryOf, Moved, Shortfall;
    if moves != [] {
      var prefix, m := moves[..|moves| - 1], moves[|moves| - 1];
      assert m in moves;
      MovesConserve(usage, prefix);
      MoveConserves(Replay(usage, prefix), m);
    }
  }

  // ---------------------------------------------------------------- unset weights

  /** Nodes are classified with defaulted weights but moves are simulated with the weights as given. */
  function Classifying(env: Env): Env {
    env.(weights := EffectiveWeights(env.weights))
  }

  /** Targets of moves made without weights: predicted idle although they are not. */
  ghost predicate Drifted(start: State, st: State) {
    && (st.plan == [] ==> st.util == start.util)
    && forall m | m in st.plan ::
         && m.to in st.util && st.util[m.to] == 0.0
         && m.to in st.usage && st.usage[m.to].cpu > 0.0 && st.usage[m.to].memory > 0
  }

  lemma NoWeightsNoPressure(u: Usage, size: Size)
    ensures Pressure(u, size, NO_WEIGHTS) == 0.0
  {
    hide Mul, Share;
    MulZero(Share(u.cpu, size.milliCPU as real / 1000.0));
    MulZero(Share(u.memory as real, size.bytes as real));
  }

  lemma StepDrifts(env: Env, hot: set<string>, cold: seq<string>, pods: seq<Pod>, start: State, st: State, pod: Pod)
    requires start.usage.Keys == env.sizes.Keys && env.weights == NO_WEIGHTS
    requires Invariant(env, hot, cold, pods, start, st) && Metered(hot, st.usage) && Drifted(start, st)
    requires pod in pods && pod.nodeName in hot
    ensures Metered(hot, Step(env, cold, st, pod).usage) && Drifted(start, Step(env, cold, st, pod))
  {
    hide Accepts, Step, AboveTarget, VarianceAfter, Variance, Pressure, Replay, SoundMove, Drop, Floored;
    StepUnlessAccepted(env, cold, st, pod);
    if Accepts(env, cold, st, pod) {
      var m := AcceptedMove(env, hot, cold, pods, st, pod);
      SoundRequest(env, hot, cold, pods, m);
      SoundEnds(env, hot, cold, pods, m);
      NoWeightsNoPressure(Heavier(st.usage[m.to], m.request), env.sizes[m.to]);
      forall k | k in st.plan ensures k.to !in hot {
        SoundEnds(env, hot, cold, pods, k);
      }
    }
  }

  lemma {:induction false} WalkDrifts(env: Env, hot: set<string>, cold: seq<string>, pods: seq<Pod>, start: State,
                                      st: State, rest: seq<Pod>)
    requires start.usage.Keys == env.sizes.Keys && env.weights == NO_WEIGHTS
    requires Invariant(env, hot, cold, pods, start, st) && Ongoing(env, st)
    requires Metered(hot, st.usage) && Drifted(start, st)
    requires forall p | p in rest :: p in pods && p.nodeName in hot
    ensures Drifted(start, Walk(env, cold, st, rest))
    decreases |rest|
  {
    hide Accepts, Step, Drifted, Metered, Setting, AllSound, AboveTarget, Replay, VarianceAfter, Variance, Moved;
    if rest != [] {
      StepKeepsInvariant(env, hot, cold, pods, start, st, rest[0]);
      StepDrifts(env, hot, cold, pods, start, st, rest[0]);
      StepUnlessAccepted(env, cold, st, rest[0]);
      var next := Step(env, cold, st, rest[0]);
      if !(Accepts(env, cold, st, rest[0]) && next.variance <= env.target) {
        WalkDrifts(env, hot, cold, pods, start, next, rest[1..]);
      }
    }
  }

  // Running and recomputed utilization agree at the end of a plan exactly when weights are set or no candidate could be
  // moved to begin with.
  lemma IncrementalExactlyWithWeights(env: Env, hot: set<string>, cold: seq<string>, pods: seq<Pod>,
                                      usage: map<string, Usage>)
    requires usage.Keys == env.sizes.Keys && Setting(env, hot, cold, Start(usage, ClassifiedUtil(env, usage)))
    requires forall p | p in pods :: p.nodeName in hot
    requires Metered({}, usage)
    ensures var start := Start(usage, ClassifiedUtil(env, usage));
            var end := Walk(env, cold, start, pods);
            end.util == UtilOf(Classifying(env), end.usage) <==>
              env.weights != NO_WEIGHTS || NothingImproves(env, cold, start, pods)
  {
    hide NothingImproves, Walk;
    ClassifiedIsUtil(env, usage);
    if env.weights != NO_WEIGHTS {
      assert Classifying(env) == env;
      IncrementalIsExact(env, hot, cold, pods, usage);
    } else {
      UnsetWeightsDrift(env, hot, cold, pods, usage);
      PlanIsEmptyExactly(env, cold, Start(usage, ClassifiedUtil(env, usage)), pods);
    }
  }

  // Nothing is floored when a plan starts.
  lemma ClassifiedIsUtil(env: Env, usage: map<string, Usage>)
    requires usage.Keys == env.sizes.Keys && Metered({}, usage)
    ensures ClassifiedUtil(env, usage) == UtilOf(Classifying(env), usage)
    ensures env.weights != NO_WEIGHTS ==> ClassifiedUtil(env, usage) == UtilOf(env, usage)
  {
    hide Pressure;
    assert forall n | n in usage :: Floored(usage[n]) == usage[n];
    assert env.weights != NO_WEIGHTS ==> Classifying(env) == env;
  }

  lemma UnsetWeightsDrift(env: Env, hot: set<string>, cold: seq<string>, pods: seq<Pod>, usage: map<string, Usage>)
    requires usage.Keys == env.sizes.Keys && Setting(env, hot, cold, Start(usage, UtilOf(Classifying(env), usage)))
    requires forall p | p in pods :: p.nodeName in hot
    requires Metered({}, usage) && env.weights == NO_WEIGHTS
    ensures var end := Walk(env, cold, Start(usage, UtilOf(Classifying(env), usage)), pods);
            end.util == UtilOf(Classifying(env), end.usage) <==> end.plan == []
  {
    hide Walk, Setting, AllSound, AboveTarget, Variance, Pressure;
    var start := Start(usage, UtilOf(Classifying(env), usage));
    StartInvariant(env, hot, cold, pods, usage, start.util);
    PlanInvariant(env, hot, cold, pods, usage, start.util);
    WalkDrifts(env, hot, cold, pods, start, start, pods);
    var end := Walk(env, cold, start, pods);
    if end.plan != [] {
      var to := end.plan[0].to;
      assert end.plan[0] in end.plan;
      PressurePositive(end.usage[to], env.sizes[to], EffectiveWeights(env.weights));
      assert Floored(end.usage[to]) == end.usage[to];
    }
  }
}
