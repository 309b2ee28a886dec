/** Reconcile rounds one after another, and what every run of them keeps. */
module Rounds {
  import opened Sums
  import opened Cluster
  import opened Window
  import opened Admission

  /** What the eviction API answers. */
  datatype Outcome = Evicted | Failed | TooManyRequests

  /**
   * One round. `pods` is the plan in score order; entry i's budgets were looked at when the clock read `checks[i]`,
   * after the candidates had been filtered at `filtered`. Outcomes are arbitrary.
   */
  datatype Round = Round(
    policy: Policy,
    slos: map<string, SLO>,
    filtered: int,
    pods: seq<PodName>,
    checks: seq<int>,
    outcomes: seq<Outcome>,
    records: seq<Record>)

  function SloOf(slos: map<string, SLO>, ns: string): Option<SLO> {
    if ns in slos then Some(slos[ns]) else None
  }

  function Namespaces(pods: seq<PodName>): (r: seq<string>)
    ensures |r| == |pods| && forall i | 0 <= i < |pods| :: r[i] == pods[i].namespace
  {
    seq(|pods|, i requires 0 <= i < |pods| => pods[i].namespace)
  }

  function Windows(log: seq<Record>, slos: map<string, SLO>, pods: seq<PodName>, checks: seq<int>): (r: seq<bool>)
    requires |pods| == |checks|
    ensures |r| == |pods|
    ensures forall i | 0 <= i < |pods| ::
              r[i] == WindowOpen(log, pods[i].namespace, SloOf(slos, pods[i].namespace), checks[i])
  {
    seq(|pods|, i requires 0 <= i < |pods| =>
      WindowOpen(log, pods[i].namespace, SloOf(slos, pods[i].namespace), checks[i]))
  }

  function Allowed(log: seq<Record>, policy: Policy, slos: map<string, SLO>, pods: seq<PodName>, checks: seq<int>)
    : (r: seq<bool>)
    requires |pods| == |checks|
    ensures |r| == |pods|
  {
    Admit(Namespaces(pods), Windows(log, slos, pods, checks), EvictionLimit(policy), policy.maxEvictionsPerNamespace)
  }

  lemma AllowedNext(log: seq<Record>, policy: Policy, slos: map<string, SLO>, pods: seq<PodName>, checks: seq<int>,
                    pod: PodName, check: int)
    requires |pods| == |checks|
    ensures var before := Allowed(log, policy, slos, pods, checks);
            var ns, cap := pod.namespace, policy.maxEvictionsPerNamespace;
            var passes := Count(before) < EvictionLimit(policy) && WindowOpen(log, ns, SloOf(slos, ns), check)
                          && (cap <= 0 || CountIn(Namespaces(pods), before, ns) < cap);
            && Allowed(log, policy, slos, pods + [pod], checks + [check]) == before + [passes]
            && Count(before + [passes]) == Count(before) + (if passes then 1 else 0)
            && forall other :: CountIn(Namespaces(pods + [pod]), before + [passes], other) ==
                               CountIn(Namespaces(pods), before, other) + if passes && ns == other then 1 else 0
  {
    hide Admit, Count, CountIn, WindowOpen;
    var open := WindowOpen(log, pod.namespace, SloOf(slos, pod.namespace), check);
    AdmitNext(Namespaces(pods), Windows(log, slos, pods, checks), pod.namespace, open, EvictionLimit(policy),
              policy.maxEvictionsPerNamespace);
    assert Namespaces(pods + [pod]) == Namespaces(pods) + [pod.namespace];
    assert Windows(log, slos, pods + [pod], checks + [check]) == Windows(log, slos, pods, checks) + [open];
  }

  /** Whether the eviction API has refused an allowed entry for now, which ends the round. */
  predicate Refused(allowed: seq<bool>, outcomes: seq<Outcome>)
    requires |allowed| == |outcomes|
  {
    exists i | 0 <= i < |allowed| :: allowed[i] && outcomes[i].TooManyRequests?
  }

  /** The entries carried out, in order: those allowed that succeed before the first refusal. */
  function Executed<T>(entries: seq<T>, allowed: seq<bool>, outcomes: seq<Outcome>): seq<T>
    requires |entries| == |allowed| == |outcomes|
  {
    if entries == [] then
      []
    else
      var n := |entries| - 1;
      var before := Executed(entries[..n], allowed[..n], outcomes[..n]);
      if allowed[n] && outcomes[n].Evicted? && !Refused(allowed[..n], outcomes[..n]) then before + [entries[n]]
        else before
  }

  function PodsOf(records: seq<Record>): (r: seq<PodName>)
    ensures |r| == |records|
  {
    seq(|records|, i requires 0 <= i < |records| => records[i].pod)
  }

  /**
   * A round that starts with the given log: filter, admit, then evict and record, on a clock that never goes back. No
   * pod without a name is ever evicted.
   */
  ghost predicate RoundFrom(log: seq<Record>, r: Round) {
    && |r.pods| == |r.checks| == |r.outcomes|
    && Distinct(r.pods)
    && Chronological(log + r.records) && UpTo(log, r.filtered)
    && (forall i | 0 <= i < |r.checks| :: r.filtered <= r.checks[i])
    && (forall i, j | 0 <= i < |r.checks| && 0 <= j < |r.records| :: r.checks[i] <= r.records[j].at)
    && (forall i | 0 <= i < |r.pods| :: BackedOff(log, r.pods[i], EffectiveBackoff(r.policy), r.filtered))
    && NamelessFail(r.pods, r.outcomes)
    && PodsOf(r.records) ==
         if r.policy.dryRun then []
         else Executed(r.pods, Allowed(log, r.policy, r.slos, r.pods, r.checks), r.outcomes)
  }

  ghost predicate NamelessFail(pods: seq<PodName>, outcomes: seq<Outcome>)
    requires |pods| == |outcomes|
  {
    forall i | 0 <= i < |pods| && pods[i].name == "" :: outcomes[i].Failed?
  }

  /** The pod was never evicted, or at least the backoff ago. */
  predicate BackedOff(log: seq<Record>, pod: PodName, backoff: int, now: int) {
    var last := LastTime(log, pod);
    last.None? || now - last.value >= backoff
  }

  function LogOf(rounds: seq<Round>): seq<Record> {
    if rounds == [] then [] else LogOf(rounds[..|rounds| - 1]) + rounds[|rounds| - 1].records
  }

  /** Rounds are serialised: each starts with the log its predecessors left. */
  ghost predicate ValidRun(rounds: seq<Round>) {
    forall i | 0 <= i < |rounds| :: RoundFrom(LogOf(rounds[..i]), rounds[i])
  }

  lemma ValidRunPrefix(rounds: seq<Round>)
    requires ValidRun(rounds) && rounds != []
    ensures var n := |rounds| - 1; ValidRun(rounds[..n]) && RoundFrom(LogOf(rounds[..n]), rounds[n])
  {
    hide RoundFrom, LogOf;
    var n := |rounds| - 1;
    forall i | 0 <= i < n ensures rounds[..n][..i] == rounds[..i] {
    }
    assert RoundFrom(LogOf(rounds[..n]), rounds[n]);
  }

  lemma ValidRunAppend(rounds: seq<Round>, r: Round)
    requires ValidRun(rounds) && RoundFrom(LogOf(rounds), r)
    ensures ValidRun(rounds + [r]) && LogOf(rounds + [r]) == LogOf(rounds) + r.records
  {
    hide RoundFrom;
    var longer := rounds + [r];
    assert longer[..|rounds|] == rounds;
    forall i | 0 <= i < |rounds| ensures longer[..i] == rounds[..i] {
    }
  }

  // ---------------------------------------------------------------- accounting

  // Entry i is evicted exactly when it is allowed, the API accepts it, and nothing before it was refused.
  lemma {:induction false} ExecutedExactly(pods: seq<PodName>, allowed: seq<bool>, outcomes: seq<Outcome>, i: nat)
    requires |pods| == |allowed| == |outcomes| && i < |pods| && Distinct(pods)
    ensures pods[i] in Executed(pods, allowed, outcomes) <==>
              allowed[i] && outcomes[i].Evicted? && !Refused(allowed[..i], outcomes[..i])
  {
    var n := |pods| - 1;
    if i < n {
      ExecutedExactly(pods[..n], allowed[..n], outcomes[..n], i);
      assert allowed[..n][..i] == allowed[..i] && outcomes[..n][..i] == outcomes[..i];
    } else {
      ExecutedFromPods(pods[..n], allowed[..n], outcomes[..n]);
    }
  }

  ghost predicate AllowedAndEvicted(pods: seq<PodName>, allowed: seq<bool>, outcomes: seq<Outcome>, p: PodName)
    requires |pods| == |allowed| == |outcomes|
  {
    exists i :: 0 <= i < |pods| && pods[i] == p && allowed[i] && outcomes[i].Evicted?
  }

  lemma {:induction false} ExecutedFromPods(pods: seq<PodName>, allowed: seq<bool>, outcomes: seq<Outcome>)
    requires |pods| == |allowed| == |outcomes|
    ensures forall p | p in Executed(pods, allowed, outcomes) :: AllowedAndEvicted(pods, allowed, outcomes, p)
  {
    if pods != [] {
      var n := |pods| - 1;
      ExecutedFromPods(pods[..n], allowed[..n], outcomes[..n]);
      forall p | p in Executed(pods, allowed, outcomes)
        ensures AllowedAndEvicted(pods, allowed, outcomes, p)
      {
        if p in Executed(pods[..n], allowed[..n], outcomes[..n]) {
          var i :| 0 <= i < n && pods[..n][i] == p && allowed[..n][i] && outcomes[..n][i].Evicted?;
          assert pods[i] == p;
        } else {
          assert pods[n] == p;
        }
      }
    }
  }

  // Nothing is evicted after a refusal.
  lemma {:induction false} ExecutedUntilRefused(pods: seq<PodName>, allowed: seq<bool>, outcomes: seq<Outcome>, k: nat)
    requires |pods| == |allowed| == |outcomes| && k <= |pods|
    requires Refused(allowed[..k], outcomes[..k])
    ensures Executed(pods, allowed, outcomes) == Executed(pods[..k], allowed[..k], outcomes[..k])
  {
    var n := |pods| - 1;
    if k > n {
      assert pods[..k] == pods && allowed[..k] == allowed && outcomes[..k] == outcomes;
    } else {
      assert pods[..n][..k] == pods[..k] && allowed[..n][..k] == allowed[..k] && outcomes[..n][..k] == outcomes[..k];
      var i :| 0 <= i < k && allowed[..k][i] && outcomes[..k][i].TooManyRequests?;
      assert allowed[..n][i] && outcomes[..n][i].TooManyRequests?;
      ExecutedUntilRefused(pods[..n], allowed[..n], outcomes[..n], k);
    }
  }

  // Looking at one more entry while nothing has been refused.
  lemma ExecutedNext(pods: seq<PodName>, allowed: seq<bool>, outcomes: seq<Outcome>, i: nat, outcome: Outcome)
    requires |pods| == |allowed| && i == |outcomes| < |pods| && !Refused(allowed[..i], outcomes)
    ensures Executed(pods[..i + 1], allowed[..i + 1], outcomes + [outcome])
         == Executed(pods[..i], allowed[..i], outcomes) + if allowed[i] && outcome.Evicted? then [pods[i]] else []
    ensures Refused(allowed[..i + 1], outcomes + [outcome]) <==> allowed[i] && outcome.TooManyRequests?
  {
    var longer := outcomes + [outcome];
    assert longer[..i] == outcomes && pods[..i + 1][..i] == pods[..i] && allowed[..i + 1][..i] == allowed[..i];
    if allowed[i] && outcome.TooManyRequests? {
      assert allowed[..i + 1][i] && longer[i].TooManyRequests?;
    }
    forall k | 0 <= k < i ensures !(allowed[..i + 1][k] && longer[k].TooManyRequests?) {
      assert allowed[..i][k] == allowed[k] && longer[k] == outcomes[k];
    }
  }

  lemma {:induction false} ExecutedDistinct(pods: seq<PodName>, allowed: seq<bool>, outcomes: seq<Outcome>)
    requires |pods| == |allowed| == |outcomes| && Distinct(pods)
    ensures Distinct(Executed(pods, allowed, outcomes))
  {
    if pods != [] {
      var n := |pods| - 1;
      var before := Executed(pods[..n], allowed[..n], outcomes[..n]);
      ExecutedDistinct(pods[..n], allowed[..n], outcomes[..n]);
      ExecutedFromPods(pods[..n], allowed[..n], outcomes[..n]);
      forall k | 0 <= k < |before| ensures before[k] != pods[n] {
        assert before[k] in before;
        var i :| 0 <= i < n && pods[..n][i] == before[k];
      }
    }
  }

  lemma {:induction false} ExecutedWithinAllowed(pods: seq<PodName>, allowed: seq<bool>, outcomes: seq<Outcome>)
    requires |pods| == |allowed| == |outcomes|
    ensures var done := Executed(pods, allowed, outcomes);
            && |done| <= Count(allowed)
            && forall ns :: Planned(Namespaces(done), ns) <= CountIn(Namespaces(pods), allowed, ns)
  {
    if pods != [] {
      var n := |pods| - 1;
      ExecutedWithinAllowed(pods[..n], allowed[..n], outcomes[..n]);
      var before, done := Executed(pods[..n], allowed[..n], outcomes[..n]), Executed(pods, allowed, outcomes);
      assert Namespaces(pods)[..n] == Namespaces(pods[..n]);
      if done != before {
        assert Namespaces(done)[..|done| - 1] == Namespaces(before);
      }
    }
  }

  // A round records at most its limit, nothing when dry, and only pods of allowed entries that the API evicted.
  lemma RoundAccounting(log: seq<Record>, r: Round)
    requires RoundFrom(log, r)
    ensures |r.records| <= EvictionLimit(r.policy)
    ensures r.policy.dryRun ==> r.records == []
    ensures var allowed := Allowed(log, r.policy, r.slos, r.pods, r.checks);
            && (forall k | 0 <= k < |r.records| :: AllowedAndEvicted(r.pods, allowed, r.outcomes, r.records[k].pod))
            && (!r.policy.dryRun ==> forall i | 0 <= i < |r.pods| ::
                  r.pods[i] in PodsOf(r.records) <==>
                    allowed[i] && r.outcomes[i].Evicted? && !Refused(allowed[..i], r.outcomes[..i]))
  {
    hide Chronological, BackedOff, Executed, Allowed, Refused;
    var allowed := Allowed(log, r.policy, r.slos, r.pods, r.checks);
    AllowedWithinBudgets(log, r.policy, r.slos, r.pods, r.checks);
    ExecutedWithinAllowed(r.pods, allowed, r.outcomes);
    ExecutedFromPods(r.pods, allowed, r.outcomes);
    forall k | 0 <= k < |r.records|
      ensures AllowedAndEvicted(r.pods, allowed, r.outcomes, r.records[k].pod)
    {
      var p := PodsOf(r.records)[k];
      assert p == r.records[k].pod && p in Executed(r.pods, allowed, r.outcomes);
    }
    forall i | 0 <= i < |r.pods|
      ensures r.pods[i] in Executed(r.pods, allowed, r.outcomes) <==>
                allowed[i] && r.outcomes[i].Evicted? && !Refused(allowed[..i], r.outcomes[..i])
    {
      ExecutedExactly(r.pods, allowed, r.outcomes, i);
    }
  }

  /** The most that one plan may admit for a single namespace. */
  function NamespaceCap(p: Policy): nat {
    if 0 < p.maxEvictionsPerNamespace < EvictionLimit(p) then p.maxEvictionsPerNamespace else EvictionLimit(p)
  }

  lemma AllowedWithinBudgets(log: seq<Record>, policy: Policy, slos: map<string, SLO>, pods: seq<PodName>,
                             checks: seq<int>)
    requires |pods| == |checks|
    ensures var allowed := Allowed(log, policy, slos, pods, checks);
            && Count(allowed) <= EvictionLimit(policy)
            && (forall ns :: CountIn(Namespaces(pods), allowed, ns) <= NamespaceCap(policy))
            && forall i | 0 <= i < |pods| && allowed[i] ::
                 WindowOpen(log, pods[i].namespace, SloOf(slos, pods[i].namespace), checks[i])
  {
    hide WindowOpen, Admit;
    AdmitWithinBudgets(Namespaces(pods), Windows(log, slos, pods, checks), EvictionLimit(policy),
                       policy.maxEvictionsPerNamespace);
    forall ns ensures CountIn(Namespaces(pods), Allowed(log, policy, slos, pods, checks), ns)
                      <= Count(Allowed(log, policy, slos, pods, checks))
    {
      CountInWithinCount(Namespaces(pods), Allowed(log, policy, slos, pods, checks), ns);
    }
  }

  lemma {:induction false} NoneFlagged(namespaces: seq<string>, flags: seq<bool>, ns: string)
    requires |namespaces| == |flags|
    requires forall i | 0 <= i < |flags| && flags[i] :: namespaces[i] != ns
    ensures CountIn(namespaces, flags, ns) == 0
  {
    if flags != [] {
      NoneFlagged(namespaces[..|flags| - 1], flags[..|flags| - 1], ns);
    }
  }

  // A namespace whose window is closed whenever it is looked at gets nothing out of a plan.
  lemma ClosedAdmitsNothing(log: seq<Record>, policy: Policy, slos: map<string, SLO>, pods: seq<PodName>,
                            checks: seq<int>, ns: string)
    requires |pods| == |checks|
    requires forall i | 0 <= i < |pods| && pods[i].namespace == ns :: !WindowOpen(log, ns, SloOf(slos, ns), checks[i])
    ensures CountIn(Namespaces(pods), Allowed(log, policy, slos, pods, checks), ns) == 0
  {
    hide Allowed, WindowOpen, NamespaceCap;
    AllowedWithinBudgets(log, policy, slos, pods, checks);
    NoneFlagged(Namespaces(pods), Allowed(log, policy, slos, pods, checks), ns);
  }

  lemma {:induction false} CountInWithinCount(namespaces: seq<string>, flags: seq<bool>, ns: string)
    requires |namespaces| == |flags|
    ensures CountIn(namespaces, flags, ns) <= Count(flags)
  {
    if flags != [] {
      var n := |flags| - 1;
      CountInWithinCount(namespaces[..n], flags[..n], ns);
    }
  }

  ghost function LimitSum(rounds: seq<Round>): nat {
    if rounds == [] then 0
    else LimitSum(rounds[..|rounds| - 1]) + EvictionLimit(rounds[|rounds| - 1].policy)
  }

  // However many rounds run, they record at most the sum of their limits.
  lemma {:induction false} RunAccounting(rounds: seq<Round>)
    requires ValidRun(rounds)
    ensures |LogOf(rounds)| <= LimitSum(rounds)
  {
    if rounds != [] {
      hide ValidRun, RoundFrom;
      ValidRunPrefix(rounds);
      var n := |rounds| - 1;
      RunAccounting(rounds[..n]);
      RoundAccounting(LogOf(rounds[..n]), rounds[n]);
    }
  }

  // ---------------------------------------------------------------- backoff

  lemma {:induction false} LastTimeIsLatest(log: seq<Record>, k: nat)
    requires Chronological(log) && k < |log|
    ensures LastTime(log, log[k].pod).Some? && log[k].at <= LastTime(log, log[k].pod).value
  {
    var n := |log| - 1;
    if log[n].pod != log[k].pod {
      assert log[..n][k] == log[k];
      LastTimeIsLatest(log[..n], k);
    }
  }

  // Two evictions of one pod are never closer than the backoff of the later one's policy.
  lemma BackoffIsKept(rounds: seq<Round>, i: nat, earlier: nat, k: nat)
    requires ValidRun(rounds) && i < |rounds|
    requires earlier < |LogOf(rounds[..i])| && k < |rounds[i].records|
    requires LogOf(rounds[..i])[earlier].pod == rounds[i].records[k].pod
    ensures var apart := rounds[i].records[k].at - LogOf(rounds[..i])[earlier].at;
            apart >= if rounds[i].policy.backoff.Some? then rounds[i].policy.backoff.value else 900_000_000_000
  {
    hide Executed, Allowed, LogOf, Refused;
    var log, r := LogOf(rounds[..i]), rounds[i];
    assert RoundFrom(log, r);
    RoundAccounting(log, r);
    var j :| 0 <= j < |r.pods| && r.pods[j] == r.records[k].pod;
    assert BackedOff(log, r.pods[j], EffectiveBackoff(r.policy), r.filtered);
    assert r.filtered <= r.checks[j] <= r.records[k].at;
    assert Chronological(log) by {
      assert forall a | 0 <= a < |log| :: (log + r.records)[a] == log[a];
    }
    LastTimeIsLatest(log, earlier);
  }

  // One round never evicts the same pod twice.
  lemma RoundEvictsOnce(log: seq<Record>, r: Round)
    requires RoundFrom(log, r)
    ensures forall i, j | 0 <= i < j < |r.records| :: r.records[i].pod != r.records[j].pod
  {
    hide Executed, Allowed, Chronological, BackedOff;
    ExecutedDistinct(r.pods, Allowed(log, r.policy, r.slos, r.pods, r.checks), r.outcomes);
    assert forall i | 0 <= i < |r.records| :: r.records[i].pod == PodsOf(r.records)[i];
  }
}
