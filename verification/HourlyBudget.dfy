/** What the hourly disruption budget of a namespace really guarantees over a run. */
module HourlyBudget {
  import opened Cluster
  import opened Window
  import opened Admission
  import opened Rounds

  /** Evictions of a namespace recorded in the 3600 seconds up to t, whether or not t is the present. */
  function HourCount(log: seq<Record>, ns: string, t: int): nat {
    if log == [] then
      0
    else
      var n := |log| - 1;
      HourCount(log[..n], ns, t) +
        if log[n].pod.namespace == ns && t - 3_600_000_000_000 < log[n].at <= t then 1 else 0
  }

  lemma {:induction false} HourCountConcat(a: seq<Record>, b: seq<Record>, ns: string, t: int)
    ensures HourCount(a + b, ns, t) == HourCount(a, ns, t) + HourCount(b, ns, t)
  {
    if b == [] {
      assert a + b == a;
    } else {
      var n := |b| - 1;
      HourCountConcat(a, b[..n], ns, t);
      assert (a + b)[..|a + b| - 1] == a + b[..n];
    }
  }

  // Looking at the log later than its last record, the count is what the window check counts.
  lemma {:induction false} HourCountIsLastHour(log: seq<Record>, ns: string, now: int)
    requires UpTo(log, now)
    ensures HourCount(log, ns, now) == LastHour(log, ns, now)
  {
    if log != [] {
      var n := |log| - 1;
      HourCountIsLastHour(log[..n], ns, now);
      var times := Times(log, ns);
      if log[n].pod.namespace == ns {
        assert times[..|times| - 1] == Times(log[..n], ns);
      }
    }
  }

  // Once all records are in the past, the count only falls as time passes.
  lemma {:induction false} HourCountFades(log: seq<Record>, ns: string, now: int, t: int)
    requires UpTo(log, now) && now <= t
    ensures HourCount(log, ns, t) <= HourCount(log, ns, now)
  {
    if log != [] {
      HourCountFades(log[..|log| - 1], ns, now, t);
    }
  }

  lemma {:induction false} HourCountWithinPlanned(records: seq<Record>, ns: string, t: int)
    ensures HourCount(records, ns, t) <= Planned(Namespaces(PodsOf(records)), ns)
  {
    if records != [] {
      var n := |records| - 1;
      HourCountWithinPlanned(records[..n], ns, t);
      assert Namespaces(PodsOf(records))[..n] == Namespaces(PodsOf(records[..n]));
    }
  }

  lemma {:induction false} HourCountWitness(records: seq<Record>, ns: string, t: int) returns (k: nat)
    requires HourCount(records, ns, t) > 0
    ensures k < |records| && records[k].pod.namespace == ns && records[k].at <= t
  {
    var n := |records| - 1;
    if records[n].pod.namespace == ns && t - 3_600_000_000_000 < records[n].at <= t {
      k := n;
    } else {
      k := HourCountWitness(records[..n], ns, t);
    }
  }

  /** The round evicts at most k pods of the namespace: it is dry, its cap says so, or it plans no more. */
  ghost predicate EvictsAtMost(r: Round, ns: string, k: nat) {
    r.policy.dryRun || NamespaceCap(r.policy) <= k || Planned(Namespaces(r.pods), ns) <= k
  }

  /** Every round gives the namespace the hourly budget d and evicts at most k of its pods. */
  ghost predicate Budgeted(rounds: seq<Round>, ns: string, d: int, k: nat) {
    forall i | 0 <= i < |rounds| ::
      && SloOf(rounds[i].slos, ns).Some? && SloOf(rounds[i].slos, ns).value.maxDisruptionsPerHour == d
      && EvictsAtMost(rounds[i], ns, k)
  }

  // A round that evicts from a namespace saw room in its window, and adds no more than one plan may evict.
  lemma RoundHourCount(log: seq<Record>, r: Round, ns: string, d: int, k: nat, t: int)
    requires RoundFrom(log, r) && Budgeted([r], ns, d, k) && d > 0
    ensures HourCount(log + r.records, ns, t) <= HourCount(log, ns, t) || HourCount(log + r.records, ns, t) <= d - 1 + k
  {
    hide Executed, Allowed, LastHour, HourCount, Chronological, BackedOff, Refused, NamelessFail, CountIn, Planned,
      NamespaceCap;
    assert [r][0] == r;
    HourCountConcat(log, r.records, ns, t);
    NoRecordsNoCount(ns, t);
    if HourCount(r.records, ns, t) > 0 {
      var allowed := Allowed(log, r.policy, r.slos, r.pods, r.checks);
      var e := HourCountWitness(r.records, ns, t);
      RoundAccounting(log, r);
      assert AllowedAndEvicted(r.pods, allowed, r.outcomes, r.records[e].pod);
      var i :| 0 <= i < |r.pods| && r.pods[i] == r.records[e].pod && allowed[i] && r.outcomes[i].Evicted?;
      AllowedWithinBudgets(log, r.policy, r.slos, r.pods, r.checks);
      assert WindowOpen(log, ns, SloOf(r.slos, ns), r.checks[i]);
      HourCountIsLastHour(log, ns, r.checks[i]);
      HourCountFades(log, ns, r.checks[i], t);
      HourCountWithinPlanned(r.records, ns, t);
      ExecutedWithinAllowed(r.pods, allowed, r.outcomes);
      FeasibleWithinQuotas(Namespaces(r.pods), {}, 0, allowed, ns);
    }
  }

  lemma NoRecordsNoCount(ns: string, t: int)
    ensures HourCount([], ns, t) == 0
  {
  }

  // In every run, any hour holds at most d - 1 + k evictions of the namespace.
  lemma {:induction false} SlidingHour(rounds: seq<Round>, ns: string, d: int, k: nat, t: int)
    requires ValidRun(rounds) && Budgeted(rounds, ns, d, k) && d > 0
    ensures HourCount(LogOf(rounds), ns, t) <= d - 1 + k
  {
    hide RoundFrom, NamespaceCap;
    if rounds != [] {
      var n := |rounds| - 1;
      ValidRunPrefix(rounds);
      SlidingHour(rounds[..n], ns, d, k, t);
      RoundHourCount(LogOf(rounds[..n]), rounds[n], ns, d, k, t);
    }
  }

  // ---------------------------------------------------------------- the bound is reached

  /** Rounds of one policy that plan pods of one namespace only, with the hourly budget d. */
  ghost predicate Steady(rounds: seq<Round>, p: Policy, ns: string, d: int) {
    forall i | 0 <= i < |rounds| ::
      && rounds[i].policy == p
      && SloOf(rounds[i].slos, ns).Some? && SloOf(rounds[i].slos, ns).value.maxDisruptionsPerHour == d
      && forall pod | pod in rounds[i].pods :: pod.namespace == ns
  }

  function NthPod(ns: string, i: nat): PodName {
    PodName(ns, seq(i + 1, _ => 'x'))
  }

  lemma PodsDiffer(ns: string, i: nat, j: nat)
    requires i != j
    ensures NthPod(ns, i) != NthPod(ns, j)
  {
    assert |NthPod(ns, i).name| == i + 1 && |NthPod(ns, j).name| == j + 1;
  }

  /** A round, all at time 0, that evicts the given pods. */
  function RoundAtZero(p: Policy, ns: string, d: int, pods: seq<PodName>): Round {
    Round(p, map[ns := SLO(d, 0, false)], 0, pods, seq(|pods|, _ => 0), seq(|pods|, _ => Evicted),
          seq(|pods|, i requires 0 <= i < |pods| => Record(pods[i], 0)))
  }

  /** n evictions of different pods of the namespace, all at time 0. */
  function FullLog(ns: string, n: nat): (log: seq<Record>)
    ensures |log| == n
  {
    seq(n, i requires 0 <= i < n => Record(NthPod(ns, i), 0))
  }

  lemma {:induction false} FullLogCount(ns: string, n: nat)
    ensures HourCount(FullLog(ns, n), ns, 0) == n == LastHour(FullLog(ns, n), ns, 0)
  {
    if n > 0 {
      FullLogCount(ns, n - 1);
      assert FullLog(ns, n)[..n - 1] == FullLog(ns, n - 1);
    }
    HourCountIsLastHour(FullLog(ns, n), ns, 0);
  }

  lemma {:induction false} FullLogLacks(ns: string, n: nat, i: nat)
    requires i >= n
    ensures LastTime(FullLog(ns, n), NthPod(ns, i)) == None
  {
    if n > 0 {
      FullLogLacks(ns, n - 1, i);
      assert FullLog(ns, n)[..n - 1] == FullLog(ns, n - 1);
      PodsDiffer(ns, n - 1, i);
    }
  }

  /** The next m pods. */
  function NextPods(ns: string, n: nat, m: nat): (pods: seq<PodName>)
    ensures |pods| == m && forall i | 0 <= i < m :: pods[i] == NthPod(ns, n + i)
  {
    seq(m, i requires 0 <= i < m => NthPod(ns, n + i))
  }

  // From a log below the budget, a plan with as many pods as the cap allows evicts them all.
  lemma RoundAtZeroIsValid(p: Policy, ns: string, d: int, n: nat, m: nat)
    requires !p.dryRun && n < d && m <= NamespaceCap(p)
    ensures var r := RoundAtZero(p, ns, d, NextPods(ns, n, m));
            RoundFrom(FullLog(ns, n), r) && FullLog(ns, n) + r.records == FullLog(ns, n + m) && Steady([r], p, ns, d)
  {
    hide Executed, Allowed, LastTime, Refused, NamespaceCap, HourCount, LastHour;
    var pods := NextPods(ns, n, m);
    var r := RoundAtZero(p, ns, d, pods);
    var log := FullLog(ns, n);
    forall i | 0 <= i < m ensures LastTime(log, pods[i]) == None {
      FullLogLacks(ns, n, n + i);
    }
    forall i, j | 0 <= i < j < m ensures pods[i] != pods[j] {
      PodsDiffer(ns, n + i, n + j);
    }
    forall i | 0 <= i < m ensures pods[i].name != "" {
      assert |pods[i].name| == n + i + 1;
    }
    AllAdmitted(p, ns, d, n, m);
    AllExecuted(pods, Allowed(log, p, r.slos, pods, r.checks), r.outcomes);
    assert PodsOf(r.records) == pods;
  }

  lemma AllAdmitted(p: Policy, ns: string, d: int, n: nat, m: nat)
    requires n < d && m <= NamespaceCap(p)
    ensures var pods := NextPods(ns, n, m);
            var allowed := Allowed(FullLog(ns, n), p, map[ns := SLO(d, 0, false)], pods, seq(m, _ => 0));
            forall i | 0 <= i < m :: allowed[i]
  {
    hide FullLog, LastHour, HourCount, NextPods, NthPod, Admit;
    var pods := NextPods(ns, n, m);
    FullLogCount(ns, n);
    PodsOfNamespace(ns, n, m);
    AdmitsAll(Namespaces(pods), Windows(FullLog(ns, n), map[ns := SLO(d, 0, false)], pods, seq(m, _ => 0)),
              EvictionLimit(p), p.maxEvictionsPerNamespace, ns);
  }

  lemma PodsOfNamespace(ns: string, n: nat, m: nat)
    ensures forall i | 0 <= i < m :: NextPods(ns, n, m)[i].namespace == ns
  {
  }

  lemma {:induction false} AllExecuted(pods: seq<PodName>, allowed: seq<bool>, outcomes: seq<Outcome>)
    requires |pods| == |allowed| == |outcomes|
    requires forall i | 0 <= i < |pods| :: allowed[i] && outcomes[i].Evicted?
    ensures Executed(pods, allowed, outcomes) == pods
  {
    if pods != [] {
      var n := |pods| - 1;
      AllExecuted(pods[..n], allowed[..n], outcomes[..n]);
      assert pods == pods[..n] + [pods[n]];
    }
  }

  // n rounds that evict one pod each.
  lemma {:induction false} OneByOne(p: Policy, ns: string, d: int, n: nat) returns (rounds: seq<Round>)
    requires !p.dryRun && n <= d
    ensures ValidRun(rounds) && Steady(rounds, p, ns, d) && LogOf(rounds) == FullLog(ns, n)
  {
    hide RoundFrom, RoundAtZero, NextPods, NamespaceCap, EvictionLimit;
    rounds := [];
    if n > 0 {
      rounds := OneByOne(p, ns, d, n - 1);
      CapIsPositive(p);
      rounds := OneMore(p, ns, d, rounds, n - 1, 1);
    }
  }

  lemma CapIsPositive(p: Policy)
    ensures NamespaceCap(p) >= 1
  {
  }

  lemma OneMore(p: Policy, ns: string, d: int, rounds: seq<Round>, n: nat, m: nat) returns (longer: seq<Round>)
    requires !p.dryRun && n < d && m <= NamespaceCap(p)
    requires ValidRun(rounds) && Steady(rounds, p, ns, d) && LogOf(rounds) == FullLog(ns, n)
    ensures ValidRun(longer) && Steady(longer, p, ns, d) && LogOf(longer) == FullLog(ns, n + m)
  {
    hide RoundFrom, ValidRun, FullLog, RoundAtZero, NextPods, LogOf, NamespaceCap;
    RoundAtZeroIsValid(p, ns, d, n, m);
    var r := RoundAtZero(p, ns, d, NextPods(ns, n, m));
    ValidRunAppend(rounds, r);
    longer := rounds + [r];
    assert [r][0] == r;
  }

  // d - 1 evictions one by one, then a plan with as many pods as it may admit.
  lemma FullHour(p: Policy, ns: string, d: int) returns (rounds: seq<Round>)
    requires !p.dryRun && d > 0
    ensures ValidRun(rounds) && Steady(rounds, p, ns, d)
    ensures HourCount(LogOf(rounds), ns, 0) == d - 1 + NamespaceCap(p)
  {
    hide ValidRun, Steady, FullLog, LogOf, HourCount, NamespaceCap;
    rounds := OneByOne(p, ns, d, d - 1);
    rounds := OneMore(p, ns, d, rounds, d - 1, NamespaceCap(p));
    FullLogCount(ns, d - 1 + NamespaceCap(p));
  }
}
