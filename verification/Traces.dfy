/** Rounds with the cluster, the plan and the walk behind them. */
module Traces {
  import opened Sums
  import opened Cluster
  import opened Greedy
  import opened PlanTheorems
  import opened UsageTheorems
  import opened SubsetTheorems
  import opened Window
  import opened Admission
  import opened Rounds
  import opened Planning
  import opened PlannerState

  /** The pods as the planner sees them after a given log. */
  function WithHistory(cluster: ClusterInfo, log: seq<Record>): (r: seq<Pod>)
    ensures |r| == |cluster.pods|
  {
    seq(|cluster.pods|, i requires 0 <= i < |cluster.pods| =>
      var pod := cluster.pods[i];
      pod.(slo := SloOf(cluster.slos, pod.name.namespace), lastEvicted := LastTime(log, pod.name)))
  }

  /** A round together with the cluster it read, how its plan came about, and its moves sorted by score. */
  datatype TracedRound = TracedRound(round: Round, cluster: ClusterInfo, trace: PlanTrace, sorted: seq<Move>)

  /** Reading the cluster with this log, the planner can find the moves of the trace and sort them like this. */
  ghost predicate CanPlan(cluster: ClusterInfo, policy: Policy, log: seq<Record>, trace: PlanTrace, sorted: seq<Move>) {
    && PlannedFrom(ClusterEnv(cluster, policy), policy, ClusterUsage(cluster), WithHistory(cluster, log), trace)
    && multiset(sorted) == multiset(trace.planned) && Ascending(sorted, Score())
  }

  /** The round's entries are what the planner finds for the cluster, given the log at the start of the round. */
  ghost predicate TracedFrom(log: seq<Record>, t: TracedRound) {
    && RoundFrom(log, t.round)
    && t.round.slos == t.cluster.slos
    && CanPlan(t.cluster, t.round.policy, log, t.trace, t.sorted)
    && t.round.pods == PodsOfMoves(t.sorted)
    && UpTo(log, t.trace.started)
    && t.round.filtered == t.trace.filtered && t.round.checks == t.trace.checks
  }

  function RoundsOf(run: seq<TracedRound>): (r: seq<Round>)
    ensures |r| == |run| && forall i | 0 <= i < |r| :: r[i] == run[i].round
  {
    seq(|run|, i requires 0 <= i < |run| => run[i].round)
  }

  ghost predicate TracedRun(run: seq<TracedRound>) {
    forall i | 0 <= i < |run| :: TracedFrom(LogOf(RoundsOf(run)[..i]), run[i])
  }

  lemma TracedRunIsValid(run: seq<TracedRound>)
    requires TracedRun(run)
    ensures ValidRun(RoundsOf(run))
  {
    hide RoundFrom, PlannedFrom, Ascending, UpTo, LogOf;
  }

  lemma TracedRunAppend(run: seq<TracedRound>, t: TracedRound)
    requires TracedRun(run) && TracedFrom(LogOf(RoundsOf(run)), t)
    ensures TracedRun(run + [t]) && LogOf(RoundsOf(run + [t])) == LogOf(RoundsOf(run)) + t.round.records
  {
    hide TracedFrom;
    var longer := run + [t];
    assert RoundsOf(longer)[..|run|] == RoundsOf(run);
    forall i | 0 <= i < |run| ensures RoundsOf(longer)[..i] == RoundsOf(run)[..i] {
    }
  }

  // ---------------------------------------------------------------- what a traced plan satisfies

  lemma TraceSetting(env: Env, policy: Policy, usage: map<string, Usage>, pods: seq<Pod>, trace: PlanTrace)
    requires PlannedFrom(env, policy, usage, pods, trace)
    ensures usage.Keys == env.sizes.Keys
      && Setting(env, trace.hot, trace.cold, Start(usage, ClassifiedUtil(env, usage)))
    ensures forall p | p in trace.candidates ::
              p in pods && p.nodeName in trace.hot && Movable(p, policy, trace.hot, trace.filtered)
  {
    hide Walk;
  }

  // A traced plan has distinct pods, each a movable candidate going from its hot node to a schedulable cold one.
  lemma TraceIsSound(env: Env, policy: Policy, usage: map<string, Usage>, pods: seq<Pod>, trace: PlanTrace)
    requires PlannedFrom(env, policy, usage, pods, trace)
    ensures AllSound(env, trace.hot, trace.cold, trace.candidates, trace.planned)
  {
    TraceSetting(env, policy, usage, pods, trace);
    hide Walk, Setting, Triaged;
    PlanIsSound(env, trace.hot, trace.cold, trace.candidates, usage, ClassifiedUtil(env, usage));
  }

  // Whatever part of a traced plan is carried out, in whatever order, the recomputed variance falls.
  lemma TracedSelectionHelps(env: Env, policy: Policy, usage: map<string, Usage>, pods: seq<Pod>, trace: PlanTrace,
                             exec: seq<Move>)
    requires PlannedFrom(env, policy, usage, pods, trace) && usage.Keys == env.sizes.Keys
    requires Metered({}, usage) && PositiveWeights(env.weights)
    requires InHarmony(env, trace.planned) && Covers(usage, trace.planned)
    requires Distinct(exec) && forall m | m in exec :: m in trace.planned
    ensures exec != [] ==> ImbalanceOf(env, Replay(usage, exec)) < ImbalanceOf(env, usage)
  {
    TraceSetting(env, policy, usage, pods, trace);
    ClassifiedIsUtil(env, usage);
    hide Walk, Setting, Triaged, InHarmony, Covers, UtilOf, ClassifiedUtil, ImbalanceOf, Replay;
    AnySelectionOfThePlanHelps(env, trace.hot, trace.cold, trace.candidates, usage, exec);
  }

  function Scores(moves: seq<Move>): (r: seq<real>)
    ensures |r| == |moves| && forall i | 0 <= i < |r| :: r[i] == moves[i].score
  {
    seq(|moves|, i requires 0 <= i < |moves| => moves[i].score)
  }

  /** Namespaces among the plan's whose hourly budget has no room at a given time. */
  function Closed(log: seq<Record>, slos: map<string, SLO>, pods: seq<PodName>, now: int): set<string> {
    set p | p in pods && !WindowOpen(log, p.namespace, SloOf(slos, p.namespace), now) :: p.namespace
  }

  lemma WindowsAreFixed(log: seq<Record>, slos: map<string, SLO>, pods: seq<PodName>, now: int)
    ensures FixedWindows(Namespaces(pods), Windows(log, slos, pods, seq(|pods|, _ => now)),
                         Closed(log, slos, pods, now))
  {
    hide WindowOpen;
    forall i | 0 <= i < |pods|
      ensures WindowOpen(log, pods[i].namespace, SloOf(slos, pods[i].namespace), now)
              <==> pods[i].namespace !in Closed(log, slos, pods, now)
    {
      assert pods[i] in pods;
    }
  }

  // With the clock standing still while a traced plan is admitted, the entries let through score the least of all
  // choices within the budgets, and no such choice has more entries.
  lemma TracedAdmissionIsOptimal(env: Env, policy: Policy, usage: map<string, Usage>, pods: seq<Pod>, trace: PlanTrace,
                                 sorted: seq<Move>, log: seq<Record>, slos: map<string, SLO>, now: int,
                                 choice: seq<bool>)
    requires PlannedFrom(env, policy, usage, pods, trace)
    requires multiset(sorted) == multiset(trace.planned) && Ascending(sorted, Score())
    requires Feasible(Namespaces(PodsOfMoves(sorted)), Closed(log, slos, PodsOfMoves(sorted), now),
                      EvictionLimit(policy), policy.maxEvictionsPerNamespace, choice)
    ensures var names, closed := Namespaces(PodsOfMoves(sorted)), Closed(log, slos, PodsOfMoves(sorted), now);
            var allowed := Allowed(log, policy, slos, PodsOfMoves(sorted), seq(|sorted|, _ => now));
            && Feasible(names, closed, EvictionLimit(policy), policy.maxEvictionsPerNamespace, allowed)
            && |choice| == |sorted| && ScoreOf(Scores(sorted), allowed) <= ScoreOf(Scores(sorted), choice)
            && Count(choice) <= Count(allowed)
  {
    hide PlannedFrom, WindowOpen, SoundMove, Feasible, FixedWindows, Admit, ScoreOf, Count, Closed;
    TraceIsSound(env, policy, usage, pods, trace);
    SortedStaysDistinct(trace.planned, sorted);
    var evicted := PodsOfMoves(sorted);
    var names, closed := Namespaces(evicted), Closed(log, slos, evicted, now);
    var open := Windows(log, slos, evicted, seq(|sorted|, _ => now));
    WindowsAreFixed(log, slos, evicted, now);
    forall i | 0 <= i < |sorted| ensures sorted[i].score < 0.0 {
      assert sorted[i] in trace.planned;
      var k :| 0 <= k < |trace.planned| && trace.planned[k] == sorted[i];
      SoundScore(env, trace.hot, trace.cold, trace.candidates, trace.planned[k]);
    }
    forall i, j | 0 <= i < j < |sorted| ensures Scores(sorted)[i] <= Scores(sorted)[j] {
      assert Score()(sorted[i]) <= Score()(sorted[j]);
    }
    FeasibleLength(names, closed, EvictionLimit(policy), policy.maxEvictionsPerNamespace, choice);
    AdmissionIsOptimal(names, open, closed, EvictionLimit(policy), policy.maxEvictionsPerNamespace, Scores(sorted),
                       choice);
    AdmitTakesMost(names, open, closed, EvictionLimit(policy), policy.maxEvictionsPerNamespace, choice);
  }

  lemma SoundScore(env: Env, hot: set<string>, cold: seq<string>, pods: seq<Pod>, m: Move)
    requires SoundMove(env, hot, cold, pods, m)
    ensures m.score < 0.0
  {
  }

  // ---------------------------------------------------------------- sorting keeps pods distinct

  lemma {:induction false} DistinctOccursOnce(moves: seq<Move>, m: Move)
    requires forall i, j | 0 <= i < j < |moves| :: moves[i].pod != moves[j].pod
    ensures multiset(moves)[m] <= 1
  {
    if moves != [] {
      var n := |moves| - 1;
      assert moves == moves[..n] + [moves[n]];
      DistinctOccursOnce(moves[..n], m);
      if m == moves[n] {
        assert m !in moves[..n];
      }
    }
  }

  lemma SortedStaysDistinct(planned: seq<Move>, sorted: seq<Move>)
    requires multiset(sorted) == multiset(planned)
    requires forall i, j | 0 <= i < j < |planned| :: planned[i].pod != planned[j].pod
    ensures forall i, j | 0 <= i < j < |sorted| :: sorted[i].pod != sorted[j].pod
    ensures forall m :: m in sorted <==> m in planned
  {
    SameElements(sorted, planned);
    forall i, j | 0 <= i < j < |sorted| ensures sorted[i].pod != sorted[j].pod {
      assert sorted[i] in planned && sorted[j] in planned;
      DistinctOccursOnce(planned, sorted[i]);
      OccursTwice(sorted, i, j);
    }
  }

  lemma OccursTwice(moves: seq<Move>, i: nat, j: nat)
    requires i < j < |moves|
    ensures moves[i] == moves[j] ==> multiset(moves)[moves[i]] >= 2
  {
    assert moves == moves[..j] + [moves[j]] + moves[j + 1..];
    assert moves[i] in moves[..j];
  }

  lemma TracedPlanIsDistinct(env: Env, policy: Policy, usage: map<string, Usage>, pods: seq<Pod>, trace: PlanTrace,
                             sorted: seq<Move>)
    requires PlannedFrom(env, policy, usage, pods, trace) && multiset(sorted) == multiset(trace.planned)
    ensures forall i, j | 0 <= i < j < |sorted| :: sorted[i].pod != sorted[j].pod
    ensures forall m :: m in sorted <==> m in trace.planned
  {
    hide PlannedFrom, SoundMove;
    TraceIsSound(env, policy, usage, pods, trace);
    SortedStaysDistinct(trace.planned, sorted);
  }

  // A candidate that passed the filter is out of its backoff.
  lemma CandidateBackedOff(cluster: ClusterInfo, log: seq<Record>, policy: Policy, hot: set<string>, pod: Pod, now: int)
    requires pod in WithHistory(cluster, log) && Movable(pod, policy, hot, now)
    ensures BackedOff(log, pod.name, EffectiveBackoff(policy), now)
  {
    hide LastTime;
    var i :| 0 <= i < |cluster.pods| && WithHistory(cluster, log)[i] == pod;
  }

  lemma RoundIsValid(log: seq<Record>, cluster: ClusterInfo, trace: PlanTrace, sorted: seq<Move>, r: Round,
                     planned: int)
    requires PlannedFrom(ClusterEnv(cluster, r.policy), r.policy, ClusterUsage(cluster), WithHistory(cluster, log),
                         trace)
    requires multiset(sorted) == multiset(trace.planned)
    requires r.filtered == trace.filtered && r.pods == PodsOfMoves(sorted)
    requires |r.pods| == |r.checks| == |r.outcomes| && UpTo(log, r.filtered) && Chronological(log + r.records)
    requires forall i | 0 <= i < |r.checks| :: r.filtered <= r.checks[i] <= planned
    requires forall k | 0 <= k < |r.records| :: planned <= r.records[k].at
    requires NamelessFail(r.pods, r.outcomes)
    requires PodsOf(r.records) == if r.policy.dryRun then []
               else Executed(r.pods, Allowed(log, r.policy, r.slos, r.pods, r.checks), r.outcomes)
    ensures RoundFrom(log, r)
  {
    hide PlannedFrom, Executed, Allowed, Movable, LastTime, Chronological, BackedOff, Walk, ClusterEnv, WithHistory;
    var env, usage, pods := ClusterEnv(cluster, r.policy), ClusterUsage(cluster), WithHistory(cluster, log);
    TracedPlanIsDistinct(env, r.policy, usage, pods, trace, sorted);
    TraceIsSound(env, r.policy, usage, pods, trace);
    TraceSetting(env, r.policy, usage, pods, trace);
    forall i | 0 <= i < |r.pods| ensures BackedOff(log, r.pods[i], EffectiveBackoff(r.policy), r.filtered) {
      assert sorted[i] in trace.planned;
      var p :| p in trace.candidates && p.name == sorted[i].pod;
      CandidateBackedOff(cluster, log, r.policy, trace.hot, p, r.filtered);
    }
  }
}
