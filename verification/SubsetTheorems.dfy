/**
 * Executing only part of a plan. Sorting, budgets, failed evictions and an early stop leave an arbitrary selection of
 * the planned moves, made in an arbitrary order.
 */
module SubsetTheorems {
  import opened Arithmetic
  import opened Sums
  import opened Imbalance
  import opened Cluster
  import opened Greedy
  import opened PlanTheorems
  import opened UsageTheorems
  import opened Transfers

  function Cpu(): Move -> real {
    (m: Move) => m.request.cpu
  }

  function Memory(): Move -> real {
    (m: Move) => m.request.memory as real
  }

  /** The utilization a move takes off its source. */
  function Load(env: Env): Move -> real {
    (m: Move) => if m.from in env.sizes then Pressure(m.request, env.sizes[m.from], env.weights) else 0.0
  }

  /** The utilization it puts on its target. */
  function Gain(env: Env): Move -> real {
    (m: Move) => if m.to in env.sizes then Pressure(m.request, env.sizes[m.to], env.weights) else 0.0
  }

  function LeavingFrom(node: string, d: Move -> real): Move -> real {
    (m: Move) => if m.from == node then d(m) else 0.0
  }

  /** The usage of each node covers all that is planned to leave it. */
  ghost predicate Covers(usage: map<string, Usage>, plan: seq<Move>) {
    forall n | n in usage ::
      && Total(LeavingFrom(n, Cpu()), plan) <= usage[n].cpu
      && Total(LeavingFrom(n, Memory()), plan) <= usage[n].memory as real
  }

  /** Each move joins two nodes of the same size. */
  ghost predicate Matched(env: Env, plan: seq<Move>) {
    forall m | m in plan :: m.from in env.sizes && m.to in env.sizes && env.sizes[m.from] == env.sizes[m.to]
  }

  ghost predicate Positive(plan: seq<Move>) {
    forall m | m in plan :: m.request.cpu > 0.0 && m.request.memory > 0
  }

  /** A plan as the greedy walk makes it, on nodes whose usage covers it. */
  ghost predicate Covered(env: Env, hot: set<string>, usage: map<string, Usage>, plan: seq<Move>) {
    && usage.Keys == env.sizes.Keys
    && Metered({}, usage)
    && Covers(usage, plan)
    && Positive(plan)
    && forall m | m in plan :: m.from in usage && m.to in usage && m.from in hot && m.to !in hot
  }

  /** What a greedy plan brings to the range and selection theorems. */
  ghost predicate Certified(env: Env, hot: set<string>, usage: map<string, Usage>, plan: seq<Move>) {
    && Covered(env, hot, usage, plan)
    && NonNegativeWeights(env.weights)
    && Distinct(plan)
    && Faithful(env, usage, plan)
    && forall m | m in plan :: Drop(env, m) < 0.0
  }

  lemma CoveredDownhill(env: Env, hot: set<string>, usage: map<string, Usage>, plan: seq<Move>, exec: seq<Move>,
                        v: map<string, real>)
    requires Covered(env, hot, usage, plan) && Selection(exec, plan) && v.Keys == usage.Keys
    ensures Downhill(hot, v, plan) && Downhill(hot, v, exec)
  {
  }

  lemma {:induction false} HotLoses(hot: set<string>, v: map<string, real>, plan: seq<Move>, off: Move -> real,
                                    on: Move -> real, n: string)
    requires Downhill(hot, v, plan) && n in v && n in hot
    ensures Shifts(hot, v, plan, off, on)[n] == v[n] - Total(LeavingFrom(n, off), plan)
  {
    if plan != [] {
      HotLoses(hot, v, plan[..|plan| - 1], off, on, n);
    }
  }

  lemma {:induction false} OthersGain(hot: set<string>, v: map<string, real>, plan: seq<Move>, off: Move -> real,
                                      on: Move -> real, n: string)
    requires Downhill(hot, v, plan) && n in v && n !in hot
    requires forall m | m in plan :: on(m) >= 0.0
    ensures Shifts(hot, v, plan, off, on)[n] >= v[n]
  {
    if plan != [] {
      OthersGain(hot, v, plan[..|plan| - 1], off, on, n);
    }
  }

  // In one resource, a selection never drives a covered node below zero.
  lemma SelectionStaysPositive(hot: set<string>, v: map<string, real>, plan: seq<Move>, exec: seq<Move>,
                               d: Move -> real)
    requires Downhill(hot, v, plan) && Selection(exec, plan)
    requires forall m | m in plan :: d(m) >= 0.0
    requires forall n | n in v :: v[n] >= 0.0 && Total(LeavingFrom(n, d), plan) <= v[n]
    ensures Downhill(hot, v, exec)
    ensures forall n | n in v :: Shifts(hot, v, exec, d, d)[n] >= 0.0
  {
    SelectionBounds(hot, v, plan, exec, d, d);
    forall n | n in v ensures Shifts(hot, v, exec, d, d)[n] >= 0.0 {
      if n in hot {
        HotLoses(hot, v, plan, d, d, n);
      } else {
        OthersGain(hot, v, exec, d, d, n);
      }
    }
  }

  lemma CoveredStaysPositive(env: Env, hot: set<string>, usage: map<string, Usage>, plan: seq<Move>, exec: seq<Move>)
    requires Covered(env, hot, usage, plan) && Selection(exec, plan)
    ensures Downhill(hot, CpuOf(usage), exec) && Downhill(hot, MemoryOf(usage), exec)
    ensures forall n | n in usage ::
              && Shifts(hot, CpuOf(usage), exec, Cpu(), Cpu())[n] >= 0.0
              && Shifts(hot, MemoryOf(usage), exec, Memory(), Memory())[n] >= 0.0
  {
    CoveredDownhill(env, hot, usage, plan, exec, CpuOf(usage));
    CoveredDownhill(env, hot, usage, plan, exec, MemoryOf(usage));
    SelectionStaysPositive(hot, CpuOf(usage), plan, exec, Cpu());
    SelectionStaysPositive(hot, MemoryOf(usage), plan, exec, Memory());
  }

  lemma SelectionPrefix(exec: seq<Move>, plan: seq<Move>)
    requires Selection(exec, plan) && exec != []
    ensures Selection(exec[..|exec| - 1], plan) && exec[|exec| - 1] in plan
  {
  }

  // On covered nodes nothing is clamped: usage moves exactly by the requests.
  lemma {:induction false} ReplayIsExact(env: Env, hot: set<string>, usage: map<string, Usage>, plan: seq<Move>,
                                         exec: seq<Move>)
    requires Covered(env, hot, usage, plan) && Selection(exec, plan)
    ensures Downhill(hot, CpuOf(usage), exec) && Downhill(hot, MemoryOf(usage), exec)
    ensures CpuOf(Replay(usage, exec)) == Shifts(hot, CpuOf(usage), exec, Cpu(), Cpu())
    ensures MemoryOf(Replay(usage, exec)) == Shifts(hot, MemoryOf(usage), exec, Memory(), Memory())
    decreases |exec|
  {
    CoveredStaysPositive(env, hot, usage, plan, exec);
    if exec != [] {
      var prefix, m := exec[..|exec| - 1], exec[|exec| - 1];
      SelectionPrefix(exec, plan);
      ReplayIsExact(env, hot, usage, plan, prefix);
      hide Selection, Covers, Positive;
      var u := Replay(usage, prefix);
      assert CpuOf(u)[m.from] == u[m.from].cpu && CpuOf(u)[m.to] == u[m.to].cpu;
      assert MemoryOf(u)[m.from] == u[m.from].memory as real && MemoryOf(u)[m.to] == u[m.to].memory as real;
      assert Shifts(hot, CpuOf(usage), exec, Cpu(), Cpu())
          == Carry(CpuOf(u), m.from, m.to, m.request.cpu, m.request.cpu);
      assert Shifts(hot, MemoryOf(usage), exec, Memory(), Memory())
          == Carry(MemoryOf(u), m.from, m.to, m.request.memory as real, m.request.memory as real);
      MovedUnclamped(u, m);
    }
  }

  lemma MovedUnclamped(u: map<string, Usage>, m: Move)
    requires m.from in u && m.to in u && m.from != m.to
    requires u[m.from].cpu >= m.request.cpu
    ensures CpuOf(Moved(u, m.from, m.to, m.request))
         == Carry(CpuOf(u), m.from, m.to, m.request.cpu, m.request.cpu)
    ensures MemoryOf(Moved(u, m.from, m.to, m.request))
         == Carry(MemoryOf(u), m.from, m.to, m.request.memory as real, m.request.memory as real)
  {
  }

  // With nothing clamped, a move takes its load off the source and puts its gain on the target.
  lemma UtilOfMoved(env: Env, u: map<string, Usage>, m: Move)
    requires u.Keys == env.sizes.Keys
    requires m.from in u && m.to in u && m.from != m.to
    requires m.request.cpu <= u[m.from].cpu && m.request.memory <= u[m.from].memory
    requires forall n | n in u :: u[n].memory >= 0
    requires m.request.memory >= 0
    ensures UtilOf(env, Moved(u, m.from, m.to, m.request))
         == Carry(UtilOf(env, u), m.from, m.to, Load(env)(m), Gain(env)(m))
  {
    hide Pressure;
    var moved := Moved(u, m.from, m.to, m.request);
    PressureLinear(u[m.from], m.request, env.sizes[m.from], env.weights);
    PressureLinear(u[m.to], m.request, env.sizes[m.to], env.weights);
    assert forall n | n in u :: Floored(u[n]) == u[n];
    assert forall n | n in u :: Floored(moved[n]) == moved[n];
  }

  lemma {:induction false} UtilIsShifted(env: Env, hot: set<string>, usage: map<string, Usage>, plan: seq<Move>,
                                         exec: seq<Move>)
    requires Covered(env, hot, usage, plan) && Selection(exec, plan)
    ensures Downhill(hot, UtilOf(env, usage), exec)
    ensures UtilOf(env, Replay(usage, exec)) == Shifts(hot, UtilOf(env, usage), exec, Load(env), Gain(env))
    decreases |exec|
  {
    CoveredDownhill(env, hot, usage, plan, exec, UtilOf(env, usage));
    if exec != [] {
      var prefix, m := exec[..|exec| - 1], exec[|exec| - 1];
      SelectionPrefix(exec, plan);
      UtilIsShifted(env, hot, usage, plan, prefix);
      CoveredHasRoom(env, hot, usage, plan, exec);
      hide Selection, Covered, Carry, UtilOf, Moved, Load, Gain;
      UtilOfMoved(env, Replay(usage, prefix), m);
    }
  }

  // Before the last move of a selection, its source still uses at least what is taken off it.
  lemma CoveredHasRoom(env: Env, hot: set<string>, usage: map<string, Usage>, plan: seq<Move>, exec: seq<Move>)
    requires Covered(env, hot, usage, plan) && Selection(exec, plan) && exec != []
    ensures var u, m := Replay(usage, exec[..|exec| - 1]), exec[|exec| - 1];
            && m.from in u && m.to in u
            && m.request.cpu <= u[m.from].cpu && m.request.memory <= u[m.from].memory
            && forall n | n in u :: u[n].memory >= 0
  {
    var prefix, m := exec[..|exec| - 1], exec[|exec| - 1];
    SelectionPrefix(exec, plan);
    ReplayIsExact(env, hot, usage, plan, prefix);
    CoveredStaysPositive(env, hot, usage, plan, prefix);
    CoveredStaysPositive(env, hot, usage, plan, exec);
    hide Selection, Covers, Positive, Replay;
    var u := Replay(usage, prefix);
    assert CpuOf(u)[m.from] == u[m.from].cpu && MemoryOf(u)[m.from] == u[m.from].memory as real;
    assert forall n | n in u :: MemoryOf(u)[n] == u[n].memory as real;
  }

  lemma LoadsNonNegative(env: Env, plan: seq<Move>)
    requires NonNegativeWeights(env.weights) && Positive(plan)
    ensures forall m | m in plan :: Load(env)(m) >= 0.0 && Gain(env)(m) >= 0.0
  {
    hide Pressure;
    forall m | m in plan ensures Load(env)(m) >= 0.0 && Gain(env)(m) >= 0.0 {
      if m.from in env.sizes {
        PressureNonNegative(m.request, env.sizes[m.from], env.weights);
      }
      if m.to in env.sizes {
        PressureNonNegative(m.request, env.sizes[m.to], env.weights);
      }
    }
  }

  lemma PlanPrefixSelected(plan: seq<Move>, i: nat)
    requires Distinct(plan) && i <= |plan|
    ensures Selection(plan[..i], plan)
  {
  }

  ghost function UtilAfter(env: Env, usage: map<string, Usage>, plan: seq<Move>, i: nat): (r: map<string, real>)
    requires usage.Keys <= env.sizes.Keys && i <= |plan|
    ensures r.Keys == usage.Keys
  {
    UtilOf(env, Replay(usage, plan[..i]))
  }

  lemma UtilAfterIsShifted(env: Env, hot: set<string>, usage: map<string, Usage>, plan: seq<Move>, i: nat)
    requires usage.Keys == env.sizes.Keys && Certified(env, hot, usage, plan) && i <= |plan|
    ensures Downhill(hot, UtilOf(env, usage), plan) && Downhill(hot, UtilOf(env, usage), plan[..i])
    ensures UtilAfter(env, usage, plan, i) == Shifts(hot, UtilOf(env, usage), plan[..i], Load(env), Gain(env))
  {
    CoveredDownhill(env, hot, usage, plan, plan, UtilOf(env, usage));
    PlanPrefixSelected(plan, i);
    UtilIsShifted(env, hot, usage, plan, plan[..i]);
  }

  lemma FaithfulAt(env: Env, hot: set<string>, usage: map<string, Usage>, plan: seq<Move>, i: nat)
    requires usage.Keys == env.sizes.Keys && Certified(env, hot, usage, plan) && i < |plan|
    ensures Variance(UtilAfter(env, usage, plan, i + 1))
      == Variance(UtilAfter(env, usage, plan, i)) + Drop(env, plan[i])
    ensures Drop(env, plan[i]) < 0.0
  {
    hide Variance, Replay, UtilOf, Drop, Covered, Distinct;
    assert plan[i] in plan;
    assert ImbalanceOf(env, Replay(usage, plan[..i + 1]))
        == ImbalanceOf(env, Replay(usage, plan[..i])) + Drop(env, plan[i]);
  }

  lemma CertifiedIsTracked(env: Env, hot: set<string>, usage: map<string, Usage>, plan: seq<Move>)
    requires usage.Keys == env.sizes.Keys && Certified(env, hot, usage, plan)
    ensures Downhill(hot, UtilOf(env, usage), plan)
    ensures Tracked(hot, UtilOf(env, usage), plan, Load(env), Gain(env), Drops(env))
  {
    hide Certified, UtilOf, UtilAfter, Shifts, Load, Gain, Variance, Drop, Downhill;
    UtilAfterIsShifted(env, hot, usage, plan, 0);
    DownhillPrefix(hot, UtilOf(env, usage), plan);
    forall i | 0 <= i < |plan|
      ensures Variance(Shifts(hot, UtilOf(env, usage), plan[..i + 1], Load(env), Gain(env)))
           == Variance(Shifts(hot, UtilOf(env, usage), plan[..i], Load(env), Gain(env))) + Drops(env)(plan[i])
    {
      UtilAfterIsShifted(env, hot, usage, plan, i);
      UtilAfterIsShifted(env, hot, usage, plan, i + 1);
      FaithfulAt(env, hot, usage, plan, i);
    }
  }

  lemma CertifiedLoads(env: Env, hot: set<string>, usage: map<string, Usage>, plan: seq<Move>)
    requires Certified(env, hot, usage, plan)
    ensures forall m | m in plan :: Load(env)(m) >= 0.0 && m.from in usage && m.to in usage && m.from != m.to
  {
    LoadsNonNegative(env, plan);
  }

  /** What the moves of a selection gain less, or more, for want of the planned moves left out before them. */
  ghost function MissedBy(env: Env, exec: seq<Move>, plan: seq<Move>): real {
    Missed(|env.sizes|, exec, plan, Load(env), Gain(env))
  }

  /** No planned move works against an earlier one. */
  ghost predicate InHarmony(env: Env, plan: seq<Move>) {
    Compatible(|env.sizes|, plan, Load(env), Gain(env))
  }

  // Moves between nodes of the same size are in harmony.
  lemma MatchedIsInHarmony(env: Env, plan: seq<Move>)
    requires Matched(env, plan) && NonNegativeWeights(env.weights) && Positive(plan)
    ensures InHarmony(env, plan)
  {
    hide Pressure, Overlap;
    LoadsNonNegative(env, plan);
    forall i, j | 0 <= i < j < |plan| ensures Overlap(|env.sizes|, plan[j], plan[i], Load(env), Gain(env)) >= 0.0 {
      assert plan[i] in plan && plan[j] in plan;
      EqualLoadsOverlap(|env.sizes|, plan[j], plan[i], Load(env), Gain(env));
    }
  }

  lemma TrackedEffect(env: Env, hot: set<string>, v: map<string, real>, plan: seq<Move>, exec: seq<Move>)
    requires v.Keys == env.sizes.Keys && Downhill(hot, v, plan) && Selection(exec, plan)
    requires Tracked(hot, v, plan, Load(env), Gain(env), Drops(env))
    ensures Downhill(hot, v, exec)
    ensures Mul(Sq(|env.sizes| as real), Variance(Shifts(hot, v, exec, Load(env), Gain(env))) - Variance(v))
         == Mul(Sq(|env.sizes| as real), Total(Drops(env), exec)) - 2.0 * MissedBy(env, exec, plan)
  {
    hide Selection, Variance, Load, Gain, Tracked, Mul, Sq, Total, Missed, Drop, Shifts, Downhill;
    SelectionVariance(hot, v, plan, exec, Load(env), Gain(env), Drops(env));
    assert |v| == |v.Keys| == |env.sizes.Keys| == |env.sizes|;
  }

  // What any selection of a plan's moves does to the recomputed variance, in any order, exactly.
  lemma SelectionEffect(env: Env, hot: set<string>, usage: map<string, Usage>, plan: seq<Move>, exec: seq<Move>)
    requires usage.Keys == env.sizes.Keys && Certified(env, hot, usage, plan) && Selection(exec, plan)
    ensures Mul(Sq(|env.sizes| as real), ImbalanceOf(env, Replay(usage, exec)) - ImbalanceOf(env, usage))
         == Mul(Sq(|env.sizes| as real), Total(Drops(env), exec)) - 2.0 * MissedBy(env, exec, plan)
  {
    hide Covered, Distinct, Faithful, Selection, UtilOf, Variance, Load, Gain, Replay, Tracked, Mul, Sq, Total,
      MissedBy, Drop, Downhill, Shifts;
    UtilIsShifted(env, hot, usage, plan, exec);
    CertifiedIsTracked(env, hot, usage, plan);
    TrackedEffect(env, hot, UtilOf(env, usage), plan, exec);
  }

  // ---------------------------------------------------------------- the greedy plan

  ghost function GreedyPlan(env: Env, cold: seq<string>, pods: seq<Pod>, usage: map<string, Usage>): seq<Move>
    requires usage.Keys == env.sizes.Keys
  {
    Walk(env, cold, Start(usage, UtilOf(env, usage)), pods).plan
  }

  lemma GreedyPlanCertified(env: Env, hot: set<string>, cold: seq<string>, pods: seq<Pod>, usage: map<string, Usage>)
    requires usage.Keys == env.sizes.Keys && Setting(env, hot, cold, Start(usage, UtilOf(env, usage)))
    requires forall p | p in pods :: p.nodeName in hot
    requires Metered({}, usage) && NonNegativeWeights(env.weights)
    requires Covers(usage, GreedyPlan(env, cold, pods, usage))
    ensures Certified(env, hot, usage, GreedyPlan(env, cold, pods, usage))
  {
    hide Setting, UtilOf, Walk, SoundMove, Faithful, Metered, Covers, Variance, Start, AllSound;
    IncrementalIsExact(env, hot, cold, pods, usage);
    PlanIsSound(env, hot, cold, pods, usage, UtilOf(env, usage));
    SoundIsCertified(env, hot, cold, pods, usage, GreedyPlan(env, cold, pods, usage));
  }

  lemma SoundIsCertified(env: Env, hot: set<string>, cold: seq<string>, pods: seq<Pod>, usage: map<string, Usage>,
                         plan: seq<Move>)
    requires usage.Keys == env.sizes.Keys && AllSound(env, hot, cold, pods, plan) && Faithful(env, usage, plan)
    requires forall m | m in plan :: m.from in usage && m.to in usage && m.to !in hot
    requires Metered({}, usage) && NonNegativeWeights(env.weights) && Covers(usage, plan)
    ensures Certified(env, hot, usage, plan)
  {
    hide Faithful, SoundMove, Metered, Covers;
    forall m | m in plan ensures m.request.cpu > 0.0 && m.request.memory > 0 && m.from in hot {
      SoundRequest(env, hot, cold, pods, m);
      SoundEnds(env, hot, cold, pods, m);
    }
  }

  lemma CertifiedSelection(env: Env, hot: set<string>, usage: map<string, Usage>, plan: seq<Move>, exec: seq<Move>)
    requires Certified(env, hot, usage, plan) && Distinct(exec) && forall m | m in exec :: m in plan
    ensures Selection(exec, plan)
    ensures exec != [] ==> |env.sizes| > 0
  {
    if exec != [] {
      assert exec[0] in plan;
      assert |env.sizes| == |env.sizes.Keys|;
    }
  }

  // Whatever is left of a plan after sorting, budgets, failures and an early stop: it lowers the variance exactly when
  // the drops of its moves outweigh what they miss, and by no less than those drops exactly when they miss nothing.
  lemma {:induction false} SelectionHelpsExactlyWhen(env: Env, hot: set<string>, cold: seq<string>, pods: seq<Pod>,
                                                     usage: map<string, Usage>, exec: seq<Move>)
    requires usage.Keys == env.sizes.Keys && Setting(env, hot, cold, Start(usage, UtilOf(env, usage)))
    requires forall p | p in pods :: p.nodeName in hot
    requires Metered({}, usage) && NonNegativeWeights(env.weights)
    requires var plan := GreedyPlan(env, cold, pods, usage);
             Covers(usage, plan) && Distinct(exec) && forall m | m in exec :: m in plan
    ensures var missed := MissedBy(env, exec, GreedyPlan(env, cold, pods, usage));
            var before, after := ImbalanceOf(env, usage), ImbalanceOf(env, Replay(usage, exec));
            && (after < before <==> Mul(Sq(|env.sizes| as real), Total(Drops(env), exec)) < 2.0 * missed)
            && (after <= before + Total(Drops(env), exec) <==> missed >= 0.0)
  {
    hide GreedyPlan, Covers, Replay, ImbalanceOf, Setting, Total, MissedBy, Mul, Sq, Certified, Selection, UtilOf;
    GreedyPlanCertified(env, hot, cold, pods, usage);
    var plan := GreedyPlan(env, cold, pods, usage);
    if exec == [] {
      NothingExecuted(env, usage, plan);
    } else {
      CertifiedSelection(env, hot, usage, plan, exec);
      SelectionEffect(env, hot, usage, plan, exec);
      ScaledFall(|env.sizes|, ImbalanceOf(env, Replay(usage, exec)), ImbalanceOf(env, usage), Total(Drops(env), exec),
                 MissedBy(env, exec, plan));
    }
  }

  lemma NothingExecuted(env: Env, usage: map<string, Usage>, plan: seq<Move>)
    ensures Replay(usage, []) == usage && Total(Drops(env), []) == 0.0 && MissedBy(env, [], plan) == 0.0
    ensures Mul(Sq(|env.sizes| as real), 0.0) == 0.0
  {
    MissedByNothing(|env.sizes|, plan, Load(env), Gain(env));
    MulZero(Sq(|env.sizes| as real));
  }

  // If no planned move works against an earlier one, every selection lowers the variance, at least by its own drops.
  lemma {:induction false} AnySelectionOfThePlanHelps(env: Env, hot: set<string>, cold: seq<string>, pods: seq<Pod>,
                                                      usage: map<string, Usage>, exec: seq<Move>)
    requires usage.Keys == env.sizes.Keys && Setting(env, hot, cold, Start(usage, UtilOf(env, usage)))
    requires forall p | p in pods :: p.nodeName in hot
    requires Metered({}, usage) && NonNegativeWeights(env.weights)
    requires var plan := GreedyPlan(env, cold, pods, usage);
             InHarmony(env, plan) && Covers(usage, plan) && Distinct(exec) && forall m | m in exec :: m in plan
    ensures ImbalanceOf(env, Replay(usage, exec)) <= ImbalanceOf(env, usage) + Total(Drops(env), exec)
    ensures exec != [] ==> ImbalanceOf(env, Replay(usage, exec)) < ImbalanceOf(env, usage)
  {
    var plan := GreedyPlan(env, cold, pods, usage);
    hide GreedyPlan, Covers, ImbalanceOf, Setting, Overlap, Drop;
    if exec != [] {
      GreedyDrops(env, hot, cold, pods, usage);
      CompatibleMissesNothing(|env.sizes|, exec, plan, Load(env), Gain(env));
      SelectionHelpsExactlyWhen(env, hot, cold, pods, usage, exec);
      NegativeTotal(Drops(env), exec);
    }
  }

  lemma GreedyDrops(env: Env, hot: set<string>, cold: seq<string>, pods: seq<Pod>, usage: map<string, Usage>)
    requires usage.Keys == env.sizes.Keys && Setting(env, hot, cold, Start(usage, UtilOf(env, usage)))
    requires forall p | p in pods :: p.nodeName in hot
    ensures forall m | m in GreedyPlan(env, cold, pods, usage) :: Drop(env, m) < 0.0 && m.from in env.sizes
  {
    hide Setting, UtilOf, Walk, SoundMove, Variance;
    PlanIsSound(env, hot, cold, pods, usage, UtilOf(env, usage));
  }

  // In a plan of two moves the later one keeps its gain without the earlier exactly when the two do not work against
  // each other.
  lemma {:induction false} LaterAlone(env: Env, hot: set<string>, cold: seq<string>, pods: seq<Pod>,
                                      usage: map<string, Usage>, first: Move, later: Move)
    requires usage.Keys == env.sizes.Keys && Setting(env, hot, cold, Start(usage, UtilOf(env, usage)))
    requires forall p | p in pods :: p.nodeName in hot
    requires Metered({}, usage) && NonNegativeWeights(env.weights)
    requires GreedyPlan(env, cold, pods, usage) == [first, later] && Covers(usage, [first, later])
    ensures ImbalanceOf(env, Replay(usage, [later])) <= ImbalanceOf(env, usage) + Drop(env, later)
       <==> InHarmony(env, [first, later])
  {
    hide GreedyPlan, Covers, ImbalanceOf, Setting, Overlap, Drop, Replay, Load, Gain, Covered, Faithful, UtilOf;
    GreedyPlanCertified(env, hot, cold, pods, usage);
    assert [first, later][0] != [first, later][1];
    SelectionHelpsExactlyWhen(env, hot, cold, pods, usage, [later]);
    MissedFirst(|env.sizes|, first, later, Load(env), Gain(env));
    TotalOne(Drops(env), later);
  }

  lemma TotalOne(f: Move -> real, m: Move)
    ensures Total(f, [m]) == f(m)
  {
    assert [m] == [] + [m];
    TotalAppend(f, [], m);
  }

  lemma MissedFirst(n: nat, first: Move, later: Move, off: Move -> real, on: Move -> real)
    requires first != later
    ensures Missed(n, [later], [first, later], off, on) == Overlap(n, later, first, off, on)
    ensures Compatible(n, [first, later], off, on) <==> Overlap(n, later, first, off, on) >= 0.0
  {
    hide Overlap;
    var plan, f := [first, later], Unless([later], OverlapWith(n, later, off, on));
    TotalOne(f, first);
    assert plan[..1] == [first] && [first][..0] == [];
    assert Missed(n, [later], [first], off, on) == 0.0;
    assert plan[1] == later && plan[0] == first;
  }

  lemma {:induction false} NegativeTotal(f: Move -> real, s: seq<Move>)
    requires forall m | m in s :: f(m) < 0.0
    ensures Total(f, s) <= 0.0 && (s != [] ==> Total(f, s) < 0.0)
  {
    if s != [] {
      NegativeTotal(f, s[..|s| - 1]);
    }
  }

  // ---------------------------------------------------------------- range

  ghost predicate Between(util: map<string, real>, lo: real, hi: real) {
    forall n | n in util :: lo <= util[n] <= hi
  }

  // A move that lowers the variance leaves its target below where its source was.
  lemma LoweringMove(util: map<string, real>, from: string, to: string, d: real)
    requires from in util && to in util && from != to && d >= 0.0
    requires Variance(Shift(util, from, to, d)) < Variance(util)
    ensures d > 0.0 && util[to] + d < util[from]
  {
    hide Variance, Mul, Shift;
    VarianceOfShift(util, from, to, d);
    assert util.Keys != {} && |util| == |util.Keys|;
    var n, fall, gap := |util| as real, Variance(Shift(util, from, to, d)) - Variance(util), util[to] + d - util[from];
    ScaledOrder(n, 0.0, fall);
    MulZero(n);
    if gap >= 0.0 {
      MulMonotone(d, 0.0, gap);
      MulZero(d);
    }
    if d == 0.0 {
      ZeroTimes(gap);
    }
  }

  /** Move i stops short of swapping the utilization of its two nodes. */
  ghost predicate StopsShort(env: Env, usage: map<string, Usage>, plan: seq<Move>, i: nat)
    requires usage.Keys <= env.sizes.Keys && i < |plan|
  {
    var before := UtilAfter(env, usage, plan, i);
    plan[i].from in before && plan[i].to in before && before[plan[i].to] + Load(env)(plan[i]) < before[plan[i].from]
  }

  lemma MoveNarrows(env: Env, hot: set<string>, usage: map<string, Usage>, plan: seq<Move>, i: nat, lo: real, hi: real)
    requires usage.Keys == env.sizes.Keys && Certified(env, hot, usage, plan) && Matched(env, plan) && i < |plan|
    ensures StopsShort(env, usage, plan, i)
    ensures Between(UtilAfter(env, usage, plan, i), lo, hi) ==> Between(UtilAfter(env, usage, plan, i + 1), lo, hi)
  {
    hide Certified, UtilOf, UtilAfter, Shifts, Variance, Drop, Downhill, Carry, Between, Pressure;
    assert plan[i] in plan;
    CertifiedLoads(env, hot, usage, plan);
    UtilAfterIsShifted(env, hot, usage, plan, i);
    UtilAfterIsShifted(env, hot, usage, plan, i + 1);
    ShiftsStep(hot, UtilOf(env, usage), plan, i, Load(env), Gain(env));
    FaithfulAt(env, hot, usage, plan, i);
    var before, m, d := UtilAfter(env, usage, plan, i), plan[i], Load(env)(plan[i]);
    LoweringMove(before, m.from, m.to, d);
    if Between(before, lo, hi) {
      ShiftStaysBetween(before, m.from, m.to, d, lo, hi);
    }
  }

  lemma ShiftStaysBetween(util: map<string, real>, from: string, to: string, d: real, lo: real, hi: real)
    requires from in util && to in util && from != to && d >= 0.0 && util[to] + d < util[from]
    requires Between(util, lo, hi)
    ensures Between(Shift(util, from, to, d), lo, hi)
  {
  }

  lemma NothingMoved(env: Env, usage: map<string, Usage>, plan: seq<Move>)
    requires usage.Keys <= env.sizes.Keys
    ensures UtilAfter(env, usage, plan, 0) == UtilOf(env, usage)
  {
    assert plan[..0] == [];
  }

  lemma {:induction false} PrefixStaysBetween(env: Env, hot: set<string>, usage: map<string, Usage>, plan: seq<Move>,
                                              i: nat, lo: real, hi: real)
    requires usage.Keys == env.sizes.Keys && Certified(env, hot, usage, plan) && Matched(env, plan) && i <= |plan|
    requires Between(UtilOf(env, usage), lo, hi)
    ensures Between(UtilAfter(env, usage, plan, i), lo, hi)
  {
    hide Certified, UtilOf, UtilAfter, Between, StopsShort, Matched;
    if i == 0 {
      NothingMoved(env, usage, plan);
    } else {
      PrefixStaysBetween(env, hot, usage, plan, i - 1, lo, hi);
      MoveNarrows(env, hot, usage, plan, i - 1, lo, hi);
    }
  }

  // Every accepted move stops short of swapping its nodes, and no node ever leaves the starting range.
  lemma RangeContracts(env: Env, hot: set<string>, cold: seq<string>, pods: seq<Pod>, usage: map<string, Usage>,
                       lo: real, hi: real)
    requires usage.Keys == env.sizes.Keys && Setting(env, hot, cold, Start(usage, UtilOf(env, usage)))
    requires forall p | p in pods :: p.nodeName in hot
    requires Metered({}, usage) && NonNegativeWeights(env.weights)
    requires var plan := GreedyPlan(env, cold, pods, usage); Matched(env, plan) && Covers(usage, plan)
    requires Between(UtilOf(env, usage), lo, hi)
    ensures var plan := GreedyPlan(env, cold, pods, usage);
            && (forall i | 0 <= i < |plan| :: StopsShort(env, usage, plan, i))
            && (forall i | 0 <= i <= |plan| :: Between(UtilAfter(env, usage, plan, i), lo, hi))
  {
    GreedyPlanCertified(env, hot, cold, pods, usage);
    var plan := GreedyPlan(env, cold, pods, usage);
    hide GreedyPlan, Setting, StopsShort, Between, UtilAfter, Certified, Covers, Matched, UtilOf;
    forall i | 0 <= i < |plan| ensures StopsShort(env, usage, plan, i) {
      MoveNarrows(env, hot, usage, plan, i, lo, hi);
    }
    forall i | 0 <= i <= |plan| ensures Between(UtilAfter(env, usage, plan, i), lo, hi) {
      PrefixStaysBetween(env, hot, usage, plan, i, lo, hi);
    }
  }
}
