/** The planner: its memory of past evictions, and the plans it makes. */
module PlannerState {
  import opened Cluster
  import opened Window
  import opened Greedy
  import opened Planning
  import opened Admission
  import opened Rounds

  /** A clock that never goes back. */
  class Clock {
    var now: int

    constructor (start: int)
      ensures now == start
    {
      now := start;
    }

    method Now() returns (t: int)
      modifies this
      ensures t == now >= old(now)
    {
      t :| t >= now;
      now := t;
    }
  }

  /** A window onto the first len elements of a buffer. */
  datatype Slice = Slice(buf: array<int>, len: nat)

  /** Moves the times after the cutoff to the front of the same buffer. */
  method Compact(s: Slice, cutoff: int) returns (r: Slice)
    requires s.len <= s.buf.Length
    modifies s.buf
    ensures r.buf == s.buf && r.len <= s.len
    ensures r.buf[..r.len] == After(old(s.buf[..s.len]), cutoff)
  {
    var k := 0;
    for i := 0 to s.len
      invariant k <= i
      invariant s.buf[..k] == After(old(s.buf[..i]), cutoff)
      invariant s.buf[i..] == old(s.buf[i..])
    {
      assert old(s.buf[..i + 1])[..i] == old(s.buf[..i]);
      assert s.buf[i] == s.buf[i..][0] == old(s.buf[i..])[0];
      if s.buf[i] > cutoff {
        s.buf[k] := s.buf[i];
        k := k + 1;
      }
      assert s.buf[i + 1..] == old(s.buf[i + 1..]);
    }
    r := Slice(s.buf, k);
  }

  /** Appends into the buffer when it has room, then copies the result out. */
  method AppendAndCopy(s: Slice, x: int) returns (r: Slice)
    requires s.len <= s.buf.Length
    modifies s.buf
    ensures fresh(r.buf) && r.len == r.buf.Length
    ensures r.buf[..r.len] == old(s.buf[..s.len]) + [x]
  {
    if s.len < s.buf.Length {
      s.buf[s.len] := x;
    }
    var copy := new int[s.len + 1];
    forall i | 0 <= i < s.len {
      copy[i] := s.buf[i];
    }
    copy[s.len] := x;
    r := Slice(copy, s.len + 1);
  }

  /** A planned eviction and whether the budgets let it through. */
  datatype PlanEviction = PlanEviction(move: Move, allowed: bool)

  function MovesOf(evictions: seq<PlanEviction>): (r: seq<Move>)
    ensures |r| == |evictions| && forall i | 0 <= i < |r| :: r[i] == evictions[i].move
  {
    seq(|evictions|, i requires 0 <= i < |evictions| => evictions[i].move)
  }

  function PodsOfMoves(moves: seq<Move>): (r: seq<PodName>)
    ensures |r| == |moves| && forall i | 0 <= i < |r| :: r[i] == moves[i].pod
  {
    seq(|moves|, i requires 0 <= i < |moves| => moves[i].pod)
  }

  function FlagsOf(evictions: seq<PlanEviction>): (r: seq<bool>)
    ensures |r| == |evictions| && forall i | 0 <= i < |r| :: r[i] == evictions[i].allowed
  {
    seq(|evictions|, i requires 0 <= i < |evictions| => evictions[i].allowed)
  }

  lemma NoEvictions()
    ensures MovesOf([]) == [] && FlagsOf([]) == [] && PodsOfMoves([]) == []
  {
  }

  lemma EvictionsNext(evictions: seq<PlanEviction>, plan: seq<Move>, i: nat, e: PlanEviction)
    requires i < |plan| && MovesOf(evictions) == plan[..i] && e.move == plan[i]
    ensures MovesOf(evictions + [e]) == plan[..i + 1]
    ensures FlagsOf(evictions + [e]) == FlagsOf(evictions) + [e.allowed]
    ensures PodsOfMoves(plan[..i + 1]) == PodsOfMoves(plan[..i]) + [e.move.pod]
  {
  }

  function CountOf(counts: map<string, int>, ns: string): int {
    if ns in counts then counts[ns] else 0
  }

  /**
   * How a plan came about: the classified nodes, the candidates and when their filtering started and ended, the moves
   * as found, and the times at which budgets were looked at.
   */
  datatype PlanTrace = PlanTrace(
    hot: set<string>,
    cold: seq<string>,
    candidates: seq<Pod>,
    planned: seq<Move>,
    started: int,
    filtered: int,
    checks: seq<int>)

  /** The candidates: pods that may be moved off hot nodes, lowest priority first, and none without a cold node. */
  ghost predicate Filtered(policy: Policy, pods: seq<Pod>, trace: PlanTrace) {
    && trace.started <= trace.filtered
    && (forall p | p in trace.candidates :: p in pods && Movable(p, policy, trace.hot, trace.filtered))
    && multiset(trace.candidates) <= multiset(pods)
    && Ascending(trace.candidates, Priority())
    && (trace.cold == [] ==> trace.candidates == [])
    && (trace.cold != [] ==>
          forall p | p in pods && Movable(p, policy, trace.hot, trace.started) :: p in trace.candidates)
  }

  /** Nodes split by temperature, the cold ones coldest first, and the candidates on the hot ones. */
  ghost predicate Triaged(util: map<string, real>, policy: Policy, pods: seq<Pod>, trace: PlanTrace) {
    && (forall n :: n in trace.hot <==> n in util && TemperatureOf(util[n], policy) == NodeHot)
    && (forall n :: n in trace.cold <==> n in util && TemperatureOf(util[n], policy) == NodeCold)
    && (forall i, j | 0 <= i < j < |trace.cold| :: util[trace.cold[i]] <= util[trace.cold[j]])
    && Filtered(policy, pods, trace)
  }

  /** The moves of a trace are what the greedy walk finds for its candidates on its nodes. */
  ghost predicate PlannedFrom(env: Env, policy: Policy, usage: map<string, Usage>, pods: seq<Pod>, trace: PlanTrace) {
    && usage.Keys == env.sizes.Keys
    && var util := ClassifiedUtil(env, usage);
       && Triaged(util, policy, pods, trace)
       && trace.planned == Walk(env, trace.cold, Start(usage, util), trace.candidates).plan
  }

  /** The counts are those of the flagged entries, with no entry for a namespace without any. */
  ghost predicate Tallied(counts: map<string, int>, pods: seq<PodName>, flags: seq<bool>)
    requires |pods| == |flags|
  {
    && (forall ns :: CountOf(counts, ns) == CountIn(Namespaces(pods), flags, ns))
    && (forall ns | ns in counts :: counts[ns] > 0)
  }

  lemma TallyNext(counts: map<string, int>, pods: seq<PodName>, flags: seq<bool>, pod: PodName, allowed: bool)
    requires |pods| == |flags| && Tallied(counts, pods, flags)
    ensures var ns := pod.namespace;
            Tallied(if allowed then counts[ns := CountOf(counts, ns) + 1] else counts, pods + [pod], flags + [allowed])
  {
    var names, longer := Namespaces(pods + [pod]), flags + [allowed];
    assert names[..|pods|] == Namespaces(pods) && longer[..|flags|] == flags;
    forall ns ensures CountIn(names, longer, ns)
                   == CountIn(Namespaces(pods), flags, ns) + if allowed && pod.namespace == ns then 1 else 0
    {
    }
  }

  /** The part of a namespace's budget still unused after a plan; -1 means no limit. */
  function Unused(limit: int, count: int): int {
    if limit < 0 then -1 else if limit < count then 0 else limit - count
  }

  ghost predicate Reported(log: seq<Record>, ns: string, policy: Policy, slos: map<string, SLO>, count: int, value: int,
                           from: int, to: int)
  {
    exists t :: from <= t <= to && value == Unused(BudgetLeft(log, ns, policy, SloOf(slos, ns), t), count)
  }

  /** Whether so many more evictions of the namespace would respect its cap for one plan and its hourly limit. */
  predicate HasRoomFor(log: seq<Record>, ns: string, policy: Policy, slo: Option<SLO>, t: int, count: int, more: int) {
    && (policy.maxEvictionsPerNamespace > 0 ==> count + more <= policy.maxEvictionsPerNamespace)
    && (slo.Some? && slo.value.maxDisruptionsPerHour > 0 ==>
          LastHour(log, ns, t) + count + more <= slo.value.maxDisruptionsPerHour)
  }

  // A reported budget is how many more evictions there is room for at some time during the report; -1 is no limit.
  lemma ReportedIsRoomLeft(log: seq<Record>, ns: string, policy: Policy, slos: map<string, SLO>, count: int, value: int,
                           from: int, to: int) returns (t: int)
    requires Reported(log, ns, policy, slos, count, value, from, to) && count > 0
    ensures from <= t <= to && value >= -1
    ensures forall more | more > 0 ::
              HasRoomFor(log, ns, policy, SloOf(slos, ns), t, count, more) <==> value == -1 || more <= value
  {
    hide LastHour;
    t :| from <= t <= to && value == Unused(BudgetLeft(log, ns, policy, SloOf(slos, ns), t), count);
  }

  function NamespaceAllowed(policy: Policy, ns: string): bool {
    ns !in policy.excludes && (policy.includes == {} || "*" in policy.includes || ns in policy.includes)
  }

  function HighPriority(pod: Pod): bool {
    pod.priority >= SYSTEM_CRITICAL_PRIORITY || pod.criticalClass
  }

  function ReadyLongEnough(pod: Pod, now: int): bool {
    pod.slo.None? || pod.slo.value.minReadySeconds <= 0 ||
    (pod.readySince.Some? && now - pod.readySince.value >= pod.slo.value.minReadySeconds * SECOND)
  }

  function HasBackoff(pod: Pod, duration: int, now: int): bool {
    pod.lastEvicted.Some? && now - pod.lastEvicted.value < duration
  }

  /** The screens a candidate must pass, whatever the time. */
  predicate Screened(pod: Pod, policy: Policy, hot: set<string>) {
    && pod.nodeName != ""
    && NamespaceAllowed(policy, pod.name.namespace)
    && pod.screened
    && !(policy.respectPodPriority && HighPriority(pod))
    && pod.kind != "DaemonSet"
    && (pod.kind == "StatefulSet" ==> pod.slo.Some? && pod.slo.value.allowStatefulSetEviction)
    && pod.nodeName in hot
  }

  /** A candidate: screened, ready long enough, and out of its backoff. */
  predicate Movable(pod: Pod, policy: Policy, hot: set<string>, now: int) {
    Screened(pod, policy, hot) && ReadyLongEnough(pod, now) && !HasBackoff(pod, EffectiveBackoff(policy), now)
  }

  lemma StayMovable(pods: seq<Pod>, policy: Policy, hot: set<string>, before: int, now: int)
    requires before <= now
    ensures forall p | p in pods && Movable(p, policy, hot, before) :: Movable(p, policy, hot, now)
  {
    hide Screened;
  }

  lemma LowestPriorityFirst(pods: seq<Pod>)
    requires Ascending(pods, Priority())
    ensures forall i, j | 0 <= i < j < |pods| :: pods[i].priority <= pods[j].priority
  {
    forall i, j | 0 <= i < j < |pods| ensures pods[i].priority <= pods[j].priority {
      assert Priority()(pods[i]) <= Priority()(pods[j]);
    }
  }

  lemma OutOfBackoff(pods: seq<Pod>, policy: Policy, hot: set<string>, now: int)
    requires forall p | p in pods :: Movable(p, policy, hot, now)
    ensures forall p | p in pods && p.lastEvicted.Some? ::
              now - p.lastEvicted.value >= if policy.backoff.Some? then policy.backoff.value else 900_000_000_000
  {
    hide Screened, ReadyLongEnough;
  }

  lemma OneMoreStaysWithin<T>(a: seq<T>, b: seq<T>, x: T)
    requires multiset(a) <= multiset(b)
    ensures multiset(a) <= multiset(b + [x]) && multiset(a + [x]) <= multiset(b + [x])
  {
  }

  function Priority(): Pod -> real {
    (p: Pod) => p.priority as real
  }

  class Planner {
    const clock: Clock
    var history: map<PodName, int>
    var nsHistory: map<string, Slice>
    ghost var log: seq<Record>  // every eviction ever recorded

    ghost function Buffers(): set<array<int>>
      reads this
    {
      set ns | ns in nsHistory :: nsHistory[ns].buf
    }

    /** Every namespace's slice fits its buffer, and no two share one. */
    ghost predicate Separate()
      reads this
    {
      && (forall ns | ns in nsHistory :: nsHistory[ns].len <= nsHistory[ns].buf.Length)
      && forall a, b | a in nsHistory && b in nsHistory && a != b :: nsHistory[a].buf != nsHistory[b].buf
    }

    ghost function Contents(ns: string): seq<int>
      requires Separate()
      reads this, Buffers()
    {
      if ns in nsHistory then nsHistory[ns].buf[..nsHistory[ns].len] else []
    }

    ghost predicate Valid()
      reads this, clock, Buffers()
    {
      && Separate()
      && Chronological(log) && UpTo(log, clock.now)
      && Latest(log, history)
      && forall ns :: Kept(Contents(ns), Times(log, ns), clock.now)
    }

    constructor (clock: Clock)
      ensures Valid() && log == [] && this.clock == clock && fresh(Buffers())
    {
      this.clock := clock;
      history, nsHistory, log := map[], map[], [];
    }

    method LastEvicted(pod: PodName) returns (at: Option<int>)
      requires Valid()
      ensures at == LastTime(log, pod)
    {
      at := if pod in history then Some(history[pod]) else None;
    }

    /** Compacts one namespace's history, in the buffer it already has. */
    method CompactHistory(ns: string, cutoff: int)
      requires Separate()
      modifies this`nsHistory, Buffers()
      ensures Separate() && fresh(Buffers() - old(Buffers()))
      ensures ns in nsHistory && Contents(ns) == After(old(Contents(ns)), cutoff)
      ensures forall other | other != ns :: Contents(other) == old(Contents(other))
    {
      var slice: Slice;
      if ns in nsHistory {
        slice := nsHistory[ns];
      } else {
        var empty := new int[0];
        slice := Slice(empty, 0);
      }
      slice := Compact(slice, cutoff);
      nsHistory := nsHistory[ns := slice];
    }

    method AppendHistory(ns: string, t: int)
      requires Separate() && ns in nsHistory
      modifies this`nsHistory, Buffers()
      ensures Separate() && fresh(Buffers() - old(Buffers()))
      ensures Contents(ns) == old(Contents(ns)) + [t]
      ensures forall other | other != ns :: Contents(other) == old(Contents(other))
    {
      var longer := AppendAndCopy(nsHistory[ns], t);
      nsHistory := nsHistory[ns := longer];
    }

    /** Builds node states and looks up when each pod was last evicted. */
    method TakeSnapshot(cluster: ClusterInfo) returns (snapshot: Snapshot)
      requires Valid()
      ensures snapshot.nodes.Keys == cluster.nodes.Keys && fresh(snapshot.nodes.Values)
      ensures Mirrors(snapshot.nodes, cluster.nodes)
      ensures snapshot.slos == cluster.slos && snapshot.fits == cluster.fits && |snapshot.pods| == |cluster.pods|
      ensures forall i | 0 <= i < |snapshot.pods| ::
                var pod := cluster.pods[i];
                snapshot.pods[i] ==
                  pod.(slo := SloOf(cluster.slos, pod.name.namespace), lastEvicted := LastTime(log, pod.name))
    {
      var nodes: map<string, NodeState> := map[];
      var rest := cluster.nodes.Keys;
      while rest != {}
        invariant rest <= cluster.nodes.Keys && nodes.Keys == cluster.nodes.Keys - rest
        invariant Mirrors(nodes, cluster.nodes) && forall k | k in nodes :: fresh(nodes[k])
      {
        var k :| k in rest;
        var info := cluster.nodes[k];
        var node := new NodeState(k, info.size, info.classes, info.usage);
        nodes := nodes[k := node];
        rest := rest - {k};
      }
      var pods: seq<Pod> := [];
      for i := 0 to |cluster.pods|
        invariant |pods| == i && Mirrors(nodes, cluster.nodes)
        invariant forall j | 0 <= j < i ::
                    var pod := cluster.pods[j];
                    pods[j] == pod.(slo := SloOf(cluster.slos, pod.name.namespace),
                                    lastEvicted := LastTime(log, pod.name))
      {
        var pod := cluster.pods[i];
        var last := LastEvicted(pod.name);
        pods := pods + [pod.(slo := SloOf(cluster.slos, pod.name.namespace), lastEvicted := last)];
      }
      snapshot := Snapshot(nodes, pods, cluster.slos, cluster.fits);
    }

    /** Prunes a namespace's history to the hour before the current time. */
    method Prune(ns: string) returns (now: int)
      requires Valid()
      modifies this`nsHistory, clock, Buffers()
      ensures Valid() && fresh(Buffers() - old(Buffers()))
      ensures now == clock.now >= old(clock.now)
      ensures ns in nsHistory && Contents(ns) == After(Times(log, ns), now - HOUR)
      ensures nsHistory[ns].len == LastHour(log, ns, now)
      ensures forall other | other != ns :: Contents(other) == old(Contents(other))
    {
      hide Kept, Latest, Times, After, Chronological, Sorted;
      now := clock.Now();
      CompactHistory(ns, now - HOUR);
      TimesSorted(log, ns, now);
      KeptReadsTheSame(old(Contents(ns)), Times(log, ns), old(clock.now), now);
      PruningKeeps(old(Contents(ns)), Times(log, ns), now);
      forall other ensures Kept(Contents(other), Times(log, other), now) {
        if other != ns {
          KeptReadsTheSame(Contents(other), Times(log, other), old(clock.now), now);
        }
      }
    }

    method CanDisruptNamespace(ns: string, policy: Policy, slo: Option<SLO>, currentPlanCount: int) returns (ok: bool)
      requires Valid()
      modifies this`nsHistory, clock, Buffers()
      ensures Valid() && fresh(Buffers() - old(Buffers())) && clock.now >= old(clock.now)
      ensures ok <==> !(0 < policy.maxEvictionsPerNamespace <= currentPlanCount) && WindowOpen(log, ns, slo, clock.now)
      ensures slo.None? || slo.value.maxDisruptionsPerHour == 0 ==>
                (ok <==> policy.maxEvictionsPerNamespace <= 0 || currentPlanCount < policy.maxEvictionsPerNamespace)
      ensures forall other | other != ns :: Contents(other) == old(Contents(other))
    {
      hide Valid, Kept, Latest, Times, After, Chronological, UpTo;
      if policy.maxEvictionsPerNamespace > 0 && currentPlanCount >= policy.maxEvictionsPerNamespace {
        return false;
      }
      if slo.None? || slo.value.maxDisruptionsPerHour == 0 {
        return true;
      }
      var now := Prune(ns);
      ok := nsHistory[ns].len < slo.value.maxDisruptionsPerHour;
    }

    /** What is left for a namespace; -1 means no limit. */
    method RemainingNamespaceBudget(ns: string, policy: Policy, slo: Option<SLO>) returns (limit: int)
      requires Valid()
      modifies this`nsHistory, clock, Buffers()
      ensures Valid() && fresh(Buffers() - old(Buffers())) && clock.now >= old(clock.now)
      ensures limit == BudgetLeft(log, ns, policy, slo, clock.now)
      ensures forall other | other != ns :: Contents(other) == old(Contents(other))
    {
      hide Valid, Kept, Latest, Times, After, Chronological, UpTo;
      limit := -1;
      if policy.maxEvictionsPerNamespace > 0 {
        limit := policy.maxEvictionsPerNamespace;
      }
      if slo.Some? && slo.value.maxDisruptionsPerHour > 0 {
        var now := Prune(ns);
        var remaining := slo.value.maxDisruptionsPerHour - nsHistory[ns].len;
        if remaining < 0 {
          remaining := 0;
        }
        if limit == -1 || remaining < limit {
          limit := remaining;
        }
      }
    }

    // After any sequence of operations a history is sorted, and from now on its last hour is that of the full log.
    lemma HistoryIsFaithful(ns: string, t: int)
      requires Valid() && t >= clock.now
      ensures Sorted(Contents(ns)) && After(Contents(ns), t - HOUR) == After(Times(log, ns), t - HOUR)
    {
      TimesSorted(log, ns, clock.now);
      KeptReadsTheSame(Contents(ns), Times(log, ns), clock.now, t);
    }

    lemma ValidLog()
      requires Valid()
      ensures Chronological(log) && UpTo(log, clock.now)
    {
    }

    // Time passing keeps the memory valid.
    twostate lemma ValidLater(before: int)
      requires old(Valid()) && before == old(clock.now) <= clock.now
      requires unchanged(this) && unchanged(old(Buffers()))
      ensures Valid()
    {
      forall ns ensures Kept(Contents(ns), Times(log, ns), clock.now) {
        KeptReadsTheSame(old(Contents(ns)), Times(log, ns), before, clock.now);
      }
    }

    /** Adds a record at the current time behind an already pruned history. */
    method Push(pod: PodName)
      requires Valid() && pod.namespace in nsHistory
      modifies this, Buffers()
      ensures Valid() && fresh(Buffers() - old(Buffers()))
      ensures log == old(log) + [Record(pod, clock.now)]
      ensures Contents(pod.namespace) == old(Contents(pod.namespace)) + [clock.now]
      ensures forall other | other != pod.namespace :: Contents(other) == old(Contents(other))
    {
      hide Kept, Latest, Times, Chronological, UpTo;
      var r := Record(pod, clock.now);
      LatestAppend(log, history, r);
      ChronologicalAppend(log, r);
      AppendHistory(pod.namespace, clock.now);
      history := history[pod := clock.now];
      forall other ensures Kept(Contents(other), Times(log + [r], other), r.at) {
        KeptAppend(old(Contents(other)), log, r, other);
      }
      log := log + [r];
    }

    method RecordEviction(pod: PodName)
      requires Valid()
      modifies this, clock, Buffers()
      ensures Valid() && fresh(Buffers() - old(Buffers())) && clock.now >= old(clock.now)
      ensures log == old(log) + [Record(pod, clock.now)]
      ensures Contents(pod.namespace) == After(Times(old(log), pod.namespace), clock.now - HOUR) + [clock.now]
      ensures forall other | other != pod.namespace :: Contents(other) == old(Contents(other))
    {
      hide Valid;
      var now := Prune(pod.namespace);
      Push(pod);
    }

    /** Runs one pod through the screens, reading the clock for readiness and again for the backoff. */
    method IsCandidate(pod: Pod, policy: Policy, hot: set<string>) returns (ok: bool)
      modifies clock
      ensures clock.now >= old(clock.now)
      ensures Movable(pod, policy, hot, old(clock.now)) ==> ok
      ensures ok ==> Movable(pod, policy, hot, clock.now)
    {
      hide Screened;
      if !Screened(pod, policy, hot) {
        return false;
      }
      if pod.slo.Some? && pod.slo.value.minReadySeconds > 0 {
        var now := clock.Now();
        if !ReadyLongEnough(pod, now) {
          return false;
        }
      }
      var now := clock.Now();
      ok := !HasBackoff(pod, EffectiveBackoff(policy), now);
    }

    /** The movable pods on hot nodes, lowest priority first. The clock may move while they are filtered. */
    method FilterCandidates(snapshot: Snapshot, policy: Policy, hot: set<string>) returns (filtered: seq<Pod>)
      modifies clock
      ensures clock.now >= old(clock.now)
      ensures forall p | p in filtered :: p in snapshot.pods && Movable(p, policy, hot, clock.now)
      ensures forall p | p in snapshot.pods && Movable(p, policy, hot, old(clock.now)) :: p in filtered
      ensures multiset(filtered) <= multiset(snapshot.pods)
      ensures Ascending(filtered, Priority())
      ensures forall i, j | 0 <= i < j < |filtered| :: filtered[i].priority <= filtered[j].priority
      ensures forall p | p in filtered && p.lastEvicted.Some? ::
                clock.now - p.lastEvicted.value >=
                  if policy.backoff.Some? then policy.backoff.value else 900_000_000_000
    {
      hide Movable, Ascending;
      filtered := [];
      for i := 0 to |snapshot.pods|
        invariant clock.now >= old(clock.now)
        invariant forall p | p in filtered :: p in snapshot.pods && Movable(p, policy, hot, clock.now)
        invariant forall k | 0 <= k < i && Movable(snapshot.pods[k], policy, hot, old(clock.now)) ::
                    snapshot.pods[k] in filtered
        invariant multiset(filtered) <= multiset(snapshot.pods[..i])
      {
        var pod := snapshot.pods[i];
        StayMovable([pod], policy, hot, old(clock.now), clock.now);
        ghost var before := clock.now;
        var ok := IsCandidate(pod, policy, hot);
        StayMovable(filtered, policy, hot, before, clock.now);
        assert snapshot.pods[..i + 1] == snapshot.pods[..i] + [pod];
        OneMoreStaysWithin(filtered, snapshot.pods[..i], pod);
        if ok {
          filtered := filtered + [pod];
        }
      }
      assert snapshot.pods[..|snapshot.pods|] == snapshot.pods;
      ghost var found := filtered;
      filtered := SortBy(filtered, Priority());
      SameElements(found, filtered);
      LowestPriorityFirst(filtered);
      OutOfBackoff(filtered, policy, hot, clock.now);
    }

    /** Marks the entries of a sorted plan that the budgets let through, counting them by namespace. */
    method AdmitPlan(plan: seq<Move>, policy: Policy, slos: map<string, SLO>)
      returns (evictions: seq<PlanEviction>, counts: map<string, int>, ghost checks: seq<int>)
      requires Valid()
      modifies this`nsHistory, clock, Buffers()
      ensures Valid() && fresh(Buffers() - old(Buffers())) && clock.now >= old(clock.now)
      ensures MovesOf(evictions) == plan && |checks| == |plan|
      ensures forall i | 0 <= i < |checks| :: old(clock.now) <= checks[i] <= clock.now
      ensures FlagsOf(evictions) == Allowed(log, policy, slos, PodsOfMoves(plan), checks)
      ensures Count(FlagsOf(evictions)) <= if policy.maxEvictionsPerMinute > 0 then policy.maxEvictionsPerMinute else 1
      ensures Tallied(counts, PodsOfMoves(plan), FlagsOf(evictions))
    {
      hide Valid, Contents, Allowed, Count, CountIn, WindowOpen, Namespaces, Tallied, MovesOf, FlagsOf, PodsOfMoves;
      NoEvictions();
      evictions, counts, checks := [], map[], [];
      var clusterRemaining: int := EvictionLimit(policy);
      NothingAllowed(log, policy, slos);
      for i := 0 to |plan|
        invariant Valid() && fresh(Buffers() - old(Buffers())) && clock.now >= old(clock.now)
        invariant MovesOf(evictions) == plan[..i] && |checks| == i
        invariant forall k | 0 <= k < i :: old(clock.now) <= checks[k] <= clock.now
        invariant FlagsOf(evictions) == Allowed(log, policy, slos, PodsOfMoves(plan[..i]), checks)
        invariant clusterRemaining == EvictionLimit(policy) - Count(FlagsOf(evictions)) >= 0
        invariant Tallied(counts, PodsOfMoves(plan[..i]), FlagsOf(evictions))
      {
        var pod := plan[i].pod;
        TalliedAt(counts, PodsOfMoves(plan[..i]), FlagsOf(evictions), pod.namespace);
        var allowed := false;
        if clusterRemaining > 0 {
          allowed := CanDisruptNamespace(pod.namespace, policy, SloOf(slos, pod.namespace),
                                         CountOf(counts, pod.namespace));
        }
        AllowedNext(log, policy, slos, PodsOfMoves(plan[..i]), checks, pod, clock.now);
        TallyNext(counts, PodsOfMoves(plan[..i]), FlagsOf(evictions), pod, allowed);
        EvictionsNext(evictions, plan, i, PlanEviction(plan[i], allowed));
        if allowed {
          counts := counts[pod.namespace := CountOf(counts, pod.namespace) + 1];
          clusterRemaining := clusterRemaining - 1;
        }
        evictions := evictions + [PlanEviction(plan[i], allowed)];
        checks := checks + [clock.now];
      }
      assert plan[..|plan|] == plan;
      assert EvictionLimit(policy) == if policy.maxEvictionsPerMinute > 0 then policy.maxEvictionsPerMinute else 1;
    }

    /** What is left of the budgets of the namespaces a plan draws on. */
    method ReportBudgets(counts: map<string, int>, policy: Policy, slos: map<string, SLO>)
      returns (budgets: map<string, int>)
      requires Valid()
      modifies this`nsHistory, clock, Buffers()
      ensures Valid() && fresh(Buffers() - old(Buffers())) && clock.now >= old(clock.now)
      ensures budgets.Keys == counts.Keys
      ensures forall ns | ns in counts ::
                Reported(log, ns, policy, slos, counts[ns], budgets[ns], old(clock.now), clock.now)
    {
      hide BudgetLeft;
      budgets := map[];
      var rest := counts.Keys;
      while rest != {}
        invariant Valid() && fresh(Buffers() - old(Buffers())) && clock.now >= old(clock.now)
        invariant rest <= counts.Keys && budgets.Keys == counts.Keys - rest
        invariant forall ns | ns in budgets ::
                    Reported(log, ns, policy, slos, counts[ns], budgets[ns], old(clock.now), clock.now)
      {
        var ns :| ns in rest;
        var remaining := RemainingNamespaceBudget(ns, policy, SloOf(slos, ns));
        if remaining < 0 {
          budgets := budgets[ns := -1];
        } else {
          remaining := remaining - counts[ns];
          if remaining < 0 {
            remaining := 0;
          }
          budgets := budgets[ns := remaining];
        }
        rest := rest - {ns};
      }
    }

    /** Classifies and filters. There are no candidates without both hot and cold nodes. */
    method Triage(snapshot: Snapshot, policy: Policy)
      returns (cold: seq<NodeState>, util: map<string, real>, candidates: seq<Pod>, ghost trace: PlanTrace)
      requires WellNamed(snapshot.nodes)
      modifies clock, snapshot.nodes.Values
      ensures old(clock.now) <= trace.started <= trace.filtered == clock.now
      ensures UsageIn(snapshot.nodes) == old(UsageIn(snapshot.nodes))
      ensures util == ClassifiedUtil(EnvOf(snapshot, policy), UsageIn(snapshot.nodes))
      ensures forall n | n in cold :: n.name in snapshot.nodes && snapshot.nodes[n.name] == n
      ensures Triaged(util, policy, snapshot.pods, trace)
      ensures trace.cold == Names(cold) && trace.candidates == candidates && trace.planned == [] && trace.checks == []
    {
      hide Triaged, Ascending, Movable, Collected, UsageIn, PressureOf, SizesIn, NamesOfTemperature, Names;
      var hot;
      hot, cold, util := ClassifyNodes(snapshot.nodes, EffectiveWeights(policy.weights), policy);
      CollectedNames(snapshot.nodes, util, policy, NodeHot, hot);
      CollectedNames(snapshot.nodes, util, policy, NodeCold, cold);
      var hotNames := NameSet(hot);
      candidates := [];
      ghost var started := clock.now;
      if hot != [] && cold != [] {
        candidates := FilterCandidates(snapshot, policy, hotNames);
      }
      trace := PlanTrace(hotNames, Names(cold), candidates, [], started, clock.now, []);
      NoCandidates(policy, snapshot.pods, trace, hot);
      TraceFits(policy, snapshot.pods, trace, hot, cold, util);
    }

    /** Finds the moves worth making, sorted by score. */
    method FindMoves(snapshot: Snapshot, policy: Policy) returns (plan: seq<Move>, ghost trace: PlanTrace)
      requires WellNamed(snapshot.nodes)
      modifies clock, snapshot.nodes.Values
      ensures old(clock.now) <= trace.started <= trace.filtered == clock.now
      ensures PlannedFrom(EnvOf(snapshot, policy), policy, old(UsageIn(snapshot.nodes)), snapshot.pods, trace)
      ensures multiset(plan) == multiset(trace.planned) && Ascending(plan, Score())
    {
      hide Triaged, Ascending, Walk, UsageIn, EnvOf, ClassifiedUtil, Names;
      var cold, util, candidates;
      cold, util, candidates, trace := Triage(snapshot, policy);
      ghost var env, usage := EnvOf(snapshot, policy), UsageIn(snapshot.nodes);
      plan := [];
      ghost var planned: seq<Move> := [];
      if candidates != [] {
        plan, planned := GreedyPlan(snapshot, candidates, policy, cold, util);
      } else {
        SortedWhenEmpty(plan, Score());
        WalkEnds(env, trace.cold, Start(usage, util));
      }
      PlannedDoesNotMatter(util, policy, snapshot.pods, trace, planned, []);
      trace := trace.(planned := planned);
    }

    /** Plans and admits, then reports what is left of the budgets drawn on. */
    method Plan(snapshot: Snapshot, policy: Policy)
      returns (evictions: seq<PlanEviction>, budgets: map<string, int>, ghost trace: PlanTrace)
      requires Valid() && WellNamed(snapshot.nodes)
      modifies this`nsHistory, clock, Buffers(), snapshot.nodes.Values
      ensures Valid() && fresh(Buffers() - old(Buffers())) && clock.now >= old(clock.now)
      ensures PlannedFrom(EnvOf(snapshot, policy), policy, old(UsageIn(snapshot.nodes)), snapshot.pods, trace)
      ensures multiset(MovesOf(evictions)) == multiset(trace.planned) && Ascending(MovesOf(evictions), Score())
      ensures old(clock.now) <= trace.started <= trace.filtered && |trace.checks| == |evictions|
      ensures forall i | 0 <= i < |trace.checks| :: trace.filtered <= trace.checks[i] <= clock.now
      ensures FlagsOf(evictions) == Allowed(log, policy, snapshot.slos, PodsOfMoves(MovesOf(evictions)), trace.checks)
      ensures forall ns ::
                ns in budgets <==> CountIn(Namespaces(PodsOfMoves(MovesOf(evictions))), FlagsOf(evictions), ns) > 0
      ensures forall ns | ns in budgets ::
                Reported(log, ns, policy, snapshot.slos,
                         CountIn(Namespaces(PodsOfMoves(MovesOf(evictions))), FlagsOf(evictions), ns), budgets[ns],
                         old(clock.now), clock.now)
    {
      hide PlannedFrom, Ascending, Allowed, Tallied, Reported, Namespaces, CountIn, EnvOf, UsageIn, MovesOf, FlagsOf,
        PodsOfMoves, Planner.Valid;
      ghost var start := clock.now;
      var plan;
      plan, trace := FindMoves(snapshot, policy);
      assert Valid() by { ValidLater(old(clock.now)); }
      ghost var checks;
      var counts;
      evictions, counts, checks := AdmitPlan(plan, policy, snapshot.slos);
      ghost var mid := clock.now;
      budgets := ReportBudgets(counts, policy, snapshot.slos);
      KeepPlanned(EnvOf(snapshot, policy), policy, old(UsageIn(snapshot.nodes)), snapshot.pods, trace, checks);
      trace := trace.(checks := checks);
      ReportedCounts(log, policy, snapshot.slos, counts, budgets, PodsOfMoves(plan), FlagsOf(evictions), start, mid,
                     clock.now);
    }
  }

  function NameSet(nodes: seq<NodeState>): set<string> {
    set n | n in Names(nodes)
  }

  lemma PlannedDoesNotMatter(util: map<string, real>, policy: Policy, pods: seq<Pod>, trace: PlanTrace,
                             planned: seq<Move>, checks: seq<int>)
    requires Triaged(util, policy, pods, trace)
    ensures Triaged(util, policy, pods, trace.(planned := planned, checks := checks))
  {
    hide Movable, TemperatureOf, Ascending;
  }

  // Without hot or cold nodes there are no candidates.
  lemma NoCandidates(policy: Policy, pods: seq<Pod>, trace: PlanTrace, hot: seq<NodeState>)
    requires trace.hot == NameSet(hot) && trace.started <= trace.filtered
    ensures (hot == [] || trace.cold == []) && trace.candidates == [] ==> Filtered(policy, pods, trace)
  {
    if trace.candidates == [] {
      SortedWhenEmpty(trace.candidates, Priority());
    }
  }

  lemma KeepPlanned(env: Env, policy: Policy, usage: map<string, Usage>, pods: seq<Pod>, trace: PlanTrace,
                    checks: seq<int>)
    requires PlannedFrom(env, policy, usage, pods, trace)
    ensures PlannedFrom(env, policy, usage, pods, trace.(checks := checks))
  {
    hide Walk, ClassifiedUtil, Triaged;
    PlannedDoesNotMatter(ClassifiedUtil(env, usage), policy, pods, trace, trace.planned, checks);
  }

  lemma ReportedCounts(log: seq<Record>, policy: Policy, slos: map<string, SLO>, counts: map<string, int>,
                       budgets: map<string, int>, pods: seq<PodName>, flags: seq<bool>, start: int, from: int, to: int)
    requires |pods| == |flags| && Tallied(counts, pods, flags) && budgets.Keys == counts.Keys && start <= from
    requires forall ns | ns in counts :: Reported(log, ns, policy, slos, counts[ns], budgets[ns], from, to)
    ensures forall ns :: ns in budgets <==> CountIn(Namespaces(pods), flags, ns) > 0
    ensures forall ns | ns in budgets ::
              Reported(log, ns, policy, slos, CountIn(Namespaces(pods), flags, ns), budgets[ns], start, to)
  {
    hide BudgetLeft, CountIn, Namespaces;
    forall ns | ns in budgets
      ensures Reported(log, ns, policy, slos, CountIn(Namespaces(pods), flags, ns), budgets[ns], start, to)
    {
      assert counts[ns] == CountOf(counts, ns) == CountIn(Namespaces(pods), flags, ns);
      assert Reported(log, ns, policy, slos, counts[ns], budgets[ns], from, to);
    }
  }

  lemma TraceFits(policy: Policy, pods: seq<Pod>, trace: PlanTrace, hot: seq<NodeState>, cold: seq<NodeState>,
                  util: map<string, real>)
    requires NamesOfTemperature(Names(hot), util, policy, NodeHot)
    requires NamesOfTemperature(Names(cold), util, policy, NodeCold)
    requires Ascending(cold, WeightedIn(util))
    requires trace.cold == Names(cold) && trace.hot == NameSet(hot) && Filtered(policy, pods, trace)
    ensures Triaged(util, policy, pods, trace)
  {
    hide Filtered, TemperatureOf;
    forall i, j | 0 <= i < j < |trace.cold| ensures util[trace.cold[i]] <= util[trace.cold[j]] {
      assert WeightedIn(util)(cold[i]) <= WeightedIn(util)(cold[j]);
      assert trace.cold[i] in Names(cold) && trace.cold[j] in Names(cold);
      assert trace.cold[i] == cold[i].name && trace.cold[j] == cold[j].name;
      assert trace.cold[i] in util && trace.cold[j] in util;
    }
  }

  lemma TalliedAt(counts: map<string, int>, pods: seq<PodName>, flags: seq<bool>, ns: string)
    requires |pods| == |flags| && Tallied(counts, pods, flags)
    ensures CountOf(counts, ns) == CountIn(Namespaces(pods), flags, ns)
  {
  }

  lemma NothingAllowed(log: seq<Record>, policy: Policy, slos: map<string, SLO>)
    ensures Allowed(log, policy, slos, PodsOfMoves([]), []) == [] && Count([]) == 0
    ensures Tallied(map[], PodsOfMoves([]), [])
  {
  }
}
