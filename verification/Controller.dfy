/** The reconcile loop: one round at a time, each a plan followed by the evictions it allows. */
module Controller {
  import opened Sums
  import opened Cluster
  import opened Window
  import opened Admission
  import opened Rounds
  import opened Requests
  import opened Planning
  import opened PlannerState
  import opened Traces

  // ---------------------------------------------------------------- execution

  /** The eviction API. It answers as it likes. */
  class EvictionAPI {
    ghost var calls: seq<Call>  // every request ever made

    constructor ()
      ensures calls == []
    {
      calls := [];
    }

    method Create(pod: PodName) returns (answer: Outcome)
      modifies this
      ensures calls == old(calls) + [Call(pod, answer)]
    {
      answer := *;
      calls := calls + [Call(pod, answer)];
    }
  }

  /** Asks the API to evict pods. A pod without a name fails without a request. */
  class Evictor {
    const api: EvictionAPI

    constructor (api: EvictionAPI)
      ensures this.api == api
    {
      this.api := api;
    }

    method Evict(pod: PodName) returns (outcome: Outcome)
      modifies api
      ensures pod.name == "" ==> outcome.Failed?
      ensures api.calls == old(api.calls) + if pod.name == "" then [] else [Call(pod, outcome)]
    {
      if pod.name == "" {
        return Failed;
      }
      outcome := api.Create(pod);
    }
  }

  lemma {:induction false} ExecutedSelected(moves: seq<Move>, allowed: seq<bool>, outcomes: seq<Outcome>)
    requires |moves| == |allowed| == |outcomes|
    requires forall i, j | 0 <= i < j < |moves| :: moves[i].pod != moves[j].pod
    ensures var exec := Executed(moves, allowed, outcomes); Distinct(exec) && forall m | m in exec :: m in moves
  {
    hide Refused;
    if moves != [] {
      var n := |moves| - 1;
      ExecutedSelected(moves[..n], allowed[..n], outcomes[..n]);
      var before := Executed(moves[..n], allowed[..n], outcomes[..n]);
      forall k | 0 <= k < |before| ensures before[k] != moves[n] && before[k] in moves {
        assert before[k] in before;
        var i :| 0 <= i < n && moves[..n][i] == before[k];
      }
    }
  }

  lemma {:induction false} PodsOfExecuted(moves: seq<Move>, allowed: seq<bool>, outcomes: seq<Outcome>)
    requires |moves| == |allowed| == |outcomes|
    ensures PodsOfMoves(Executed(moves, allowed, outcomes)) == Executed(PodsOfMoves(moves), allowed, outcomes)
  {
    hide Refused;
    if moves != [] {
      var n := |moves| - 1;
      PodsOfExecuted(moves[..n], allowed[..n], outcomes[..n]);
      assert PodsOfMoves(moves)[..n] == PodsOfMoves(moves[..n]);
      var before := Executed(moves[..n], allowed[..n], outcomes[..n]);
      assert PodsOfMoves(before + [moves[n]]) == PodsOfMoves(before) + [moves[n].pod];
    }
  }

  class PolicyReconciler {
    const planner: Planner
    const evictor: Evictor

    constructor (planner: Planner, evictor: Evictor)
      ensures this.planner == planner && this.evictor == evictor
    {
      this.planner, this.evictor := planner, evictor;
    }

    /** Tries one entry if it is allowed, and records a success. */
    method ExecuteOne(eviction: PlanEviction) returns (outcome: Outcome, ghost records: seq<Record>)
      requires planner.Valid()
      modifies planner, planner.clock, planner.Buffers(), evictor.api
      ensures planner.Valid() && fresh(planner.Buffers() - old(planner.Buffers()))
      ensures planner.clock.now >= old(planner.clock.now) && planner.log == old(planner.log) + records
      ensures eviction.move.pod.name == "" ==> outcome.Failed?
      ensures evictor.api.calls == old(evictor.api.calls) +
                CallFor(eviction.move.pod, eviction.allowed, outcome)
      ensures records ==
                if eviction.allowed && outcome.Evicted? then [Record(eviction.move.pod, planner.clock.now)] else []
    {
      hide Planner.Valid, Planner.Contents, After, Times;
      outcome, records := Failed, [];
      if eviction.allowed {
        outcome := evictor.Evict(eviction.move.pod);
        if outcome.Evicted? {
          planner.RecordEviction(eviction.move.pod);
          records := [Record(eviction.move.pod, planner.clock.now)];
        }
      }
    }

    /**
     * Evicts the allowed entries in order and records each success. A refusal ends the round; any other failure is
     * skipped. Outcomes of entries that were not tried are reported as failures.
     */
    method Execute(evictions: seq<PlanEviction>)
      returns (executed: nat, refused: bool, ghost outcomes: seq<Outcome>, ghost records: seq<Record>,
               ghost calls: seq<Call>)
      requires planner.Valid()
      modifies planner, planner.clock, planner.Buffers(), evictor.api
      ensures planner.Valid() && fresh(planner.Buffers() - old(planner.Buffers()))
      ensures planner.log == old(planner.log) + records && executed == |records|
      ensures forall k | 0 <= k < |records| :: records[k].at >= old(planner.clock.now)
      ensures |outcomes| == |evictions| && refused == Refused(FlagsOf(evictions), outcomes)
      ensures PodsOf(records) == Executed(PodsOfMoves(MovesOf(evictions)), FlagsOf(evictions), outcomes)
      ensures NamelessFail(PodsOfMoves(MovesOf(evictions)), outcomes)
      ensures evictor.api.calls == old(evictor.api.calls) + calls
      ensures AskedInOrder(Asked(PodsOfMoves(MovesOf(evictions)), FlagsOf(evictions)), calls)
      ensures EvictedBy(calls) == PodsOf(records) && (refused <==> RefusedBy(calls))
    {
      hide Executed, Refused, Planner.Valid, Asked, AskedInOrder, AskedSoFar, EvictedBy, RefusedBy, CallFor;
      ghost var pods, flags := PodsOfMoves(MovesOf(evictions)), FlagsOf(evictions);
      executed, refused, outcomes, records, calls := 0, false, [], [], [];
      NothingExecuted();
      NothingAsked(pods, flags);
      for i := 0 to |evictions|
        invariant planner.Valid() && fresh(planner.Buffers() - old(planner.Buffers()))
        invariant planner.log == old(planner.log) + records && executed == |records|
        invariant planner.clock.now >= old(planner.clock.now)
        invariant forall k | 0 <= k < |records| :: records[k].at >= old(planner.clock.now)
        invariant |outcomes| == i && !Refused(flags[..i], outcomes)
        invariant PodsOf(records) == Executed(pods[..i], flags[..i], outcomes)
        invariant forall k | 0 <= k < i && pods[k].name == "" :: outcomes[k].Failed?
        invariant evictor.api.calls == old(evictor.api.calls) + calls
        invariant AskedSoFar(pods, flags, i, calls) && EvictedBy(calls) == PodsOf(records)
      {
        var outcome;
        ghost var more;
        outcome, more := ExecuteOne(evictions[i]);
        ghost var asked := CallFor(pods[i], flags[i], outcome);
        ExecutedNext(pods, flags, outcomes, i, outcome);
        PodsOfConcat(records, more);
        RefusalShows(pods, flags, i, calls, outcome);
        EvictedByNext(calls, pods[i], flags[i], outcome);
        if flags[i] && outcome.TooManyRequests? {
          AskedEnds(pods, flags, i, calls, outcome);
        } else {
          AskedGoesOn(pods, flags, i, calls, outcome);
        }
        outcomes, records, calls := outcomes + [outcome], records + more, calls + asked;
        if evictions[i].allowed && outcome.Evicted? {
          executed := executed + 1;
        }
        if evictions[i].allowed && outcome.TooManyRequests? {
          outcomes := PadOutcomes(pods, flags, outcomes);
          refused := true;
          return;
        }
      }
      assert pods[..|pods|] == pods && flags[..|flags|] == flags;
      AskedAll(pods, flags, calls);
    }

    /**
     * One round: read the cluster, plan, and unless it is a dry run evict what the budgets allow. The number executed
     * is reported as status, except after a refusal.
     */
    method Reconcile(cluster: ClusterInfo, policy: Policy)
      returns (status: Option<nat>, ghost t: TracedRound, ghost exec: seq<Move>, ghost calls: seq<Call>)
      requires planner.Valid()
      modifies planner, planner.clock, planner.Buffers(), evictor.api
      ensures planner.Valid() && fresh(planner.Buffers() - old(planner.Buffers()))
      ensures t.cluster == cluster && t.round.policy == policy && TracedFrom(old(planner.log), t)
      ensures planner.log == old(planner.log) + t.round.records
      ensures |t.round.pods| == |t.round.checks| == |t.round.outcomes|
      ensures evictor.api.calls == old(evictor.api.calls) + calls
      ensures policy.dryRun ==> calls == []
      ensures !policy.dryRun ==>
                AskedInOrder(Asked(t.round.pods, Allowed(old(planner.log), policy, cluster.slos, t.round.pods,
                                                         t.round.checks)), calls)
      ensures |calls| <= if policy.maxEvictionsPerMinute > 0 then policy.maxEvictionsPerMinute else 1
      ensures EvictedBy(calls) == PodsOf(t.round.records)
      ensures status == if RefusedBy(calls) then None else Some(|EvictedBy(calls)|)
      ensures PodsOfMoves(exec) == PodsOf(t.round.records) && Distinct(exec)
      ensures forall m | m in exec :: m in t.trace.planned
    {
      hide Planner.Valid, RoundFrom, PlannedFrom, Executed, Allowed, Refused, Ascending, Namespaces, CountIn,
        Reported, Mirrors, EnvOf, ClusterEnv, UsageIn, ClusterUsage, Distinct, Asked, AskedInOrder, EvictedBy,
        RefusedBy;
      ghost var log := planner.log;
      planner.ValidLog();
      var snapshot := planner.TakeSnapshot(cluster);
      MirrorsEnv(snapshot, cluster, policy);
      assert snapshot.pods == WithHistory(cluster, log);
      var evictions, budgets;
      ghost var trace;
      evictions, budgets, trace := planner.Plan(snapshot, policy);
      ghost var sorted, flags := MovesOf(evictions), FlagsOf(evictions);
      ghost var planned := planner.clock.now;
      ghost var outcomes: seq<Outcome>, records: seq<Record> := seq(|evictions|, _ => Failed), [];
      exec, calls := [], [];
      NothingAsked([], []);
      NoRefusal();
      TracedPlanIsDistinct(ClusterEnv(cluster, policy), policy, ClusterUsage(cluster), snapshot.pods, trace, sorted);
      if policy.dryRun {
        status := Some(0);
        assert Distinct(exec) by { NothingIsDistinct(); }
      } else {
        var executed, refused;
        executed, refused, outcomes, records, calls := Execute(evictions);
        RequestsWithinLimit(log, policy, cluster.slos, PodsOfMoves(sorted), trace.checks, calls);
        status := if refused then None else Some(executed);
        exec := Executed(sorted, flags, outcomes);
        ExecutedSelected(sorted, flags, outcomes);
        PodsOfExecuted(sorted, flags, outcomes);
      }
      planner.ValidLog();
      ghost var round :=
        Round(policy, cluster.slos, trace.filtered, PodsOfMoves(sorted), trace.checks, outcomes, records);
      t := TracedRound(round, cluster, trace, sorted);
      RoundIsValid(log, cluster, trace, sorted, round, planned);
    }

    /** Rounds are run one at a time, for whatever policy is due and however the cluster has changed meanwhile. */
    method Serve(requests: seq<(ClusterInfo, Policy)>) returns (ghost run: seq<TracedRound>, ghost calls: seq<Call>)
      requires planner.Valid() && planner.log == []
      modifies planner, planner.clock, planner.Buffers(), evictor.api
      ensures planner.Valid() && fresh(planner.Buffers() - old(planner.Buffers()))
      ensures evictor.api.calls == old(evictor.api.calls) + calls && PodsOf(planner.log) == EvictedBy(calls)
      ensures |run| == |requests| && TracedRun(run) && planner.log == LogOf(RoundsOf(run))
      ensures forall i | 0 <= i < |run| :: run[i].cluster == requests[i].0 && run[i].round.policy == requests[i].1
    {
      hide Planner.Valid, TracedFrom, TracedRun, Distinct, AskedInOrder, Asked, EvictedBy, RefusedBy, Allowed;
      run, calls := [], [];
      NoRounds();
      NothingAsked([], []);
      for i := 0 to |requests|
        invariant planner.Valid() && fresh(planner.Buffers() - old(planner.Buffers()))
        invariant evictor.api.calls == old(evictor.api.calls) + calls && PodsOf(planner.log) == EvictedBy(calls)
        invariant |run| == i && TracedRun(run) && planner.log == LogOf(RoundsOf(run))
        invariant forall k | 0 <= k < i :: run[k].cluster == requests[k].0 && run[k].round.policy == requests[k].1
      {
        ghost var t, exec, more;
        var status;
        status, t, exec, more := Reconcile(requests[i].0, requests[i].1);
        TracedRunAppend(run, t);
        PodsOfConcat(LogOf(RoundsOf(run)), t.round.records);
        EvictedByConcat(calls, more);
        run, calls := run + [t], calls + more;
      }
    }
  }

  lemma NoRounds()
    ensures TracedRun([]) && LogOf(RoundsOf([])) == []
  {
  }

  lemma NothingIsDistinct()
    ensures Distinct<Move>([])
  {
  }

  lemma NothingExecuted()
    ensures !Refused([], []) && Executed<PodName>([], [], []) == []
  {
  }

  lemma PodsOfConcat(a: seq<Record>, b: seq<Record>)
    ensures PodsOf(a + b) == PodsOf(a) + PodsOf(b)
  {
  }

  // After a refusal the outcomes that are missing do not matter.
  lemma PadOutcomes(pods: seq<PodName>, allowed: seq<bool>, outcomes: seq<Outcome>) returns (padded: seq<Outcome>)
    requires |outcomes| <= |pods| == |allowed| && Refused(allowed[..|outcomes|], outcomes)
    ensures |padded| == |pods| && Refused(allowed, padded)
    ensures padded[..|outcomes|] == outcomes && forall k | |outcomes| <= k < |pods| :: padded[k].Failed?
    ensures Executed(pods, allowed, padded)
         == Executed(pods[..|outcomes|], allowed[..|outcomes|], outcomes)
  {
    var k := |outcomes|;
    padded := outcomes + seq(|pods| - k, _ => Failed);
    assert padded[..k] == outcomes;
    ExecutedUntilRefused(pods, allowed, padded, k);
    var i :| 0 <= i < k && allowed[..k][i] && outcomes[i].TooManyRequests?;
    assert allowed[i] && padded[i].TooManyRequests?;
  }
}
