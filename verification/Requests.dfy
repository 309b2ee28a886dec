/** What a round asks of the eviction API. */
module Requests {
  import opened Cluster
  import opened Admission
  import opened Window
  import opened Rounds

  /** A request to evict a pod, and what came of it. */
  datatype Call = Call(pod: PodName, answer: Outcome)

  /** The pods that a round may ask the API to evict, in order: those of allowed entries, if they have a name. */
  function Asked(pods: seq<PodName>, allowed: seq<bool>): seq<PodName>
    requires |pods| == |allowed|
  {
    if pods == [] then
      []
    else
      var n := |pods| - 1;
      Asked(pods[..n], allowed[..n]) + if allowed[n] && pods[n].name != "" then [pods[n]] else []
  }

  /** Requests made in order, up to and including the first that is answered with too many requests. */
  ghost predicate AskedInOrder(asked: seq<PodName>, calls: seq<Call>) {
    && |calls| <= |asked|
    && (forall i | 0 <= i < |calls| :: calls[i].pod == asked[i])
    && (forall i | 0 <= i < |calls| - 1 :: !calls[i].answer.TooManyRequests?)
    && (|calls| < |asked| ==> calls != [] && calls[|calls| - 1].answer.TooManyRequests?)
  }

  /** The pods that the API evicted, in order. */
  function EvictedBy(calls: seq<Call>): seq<PodName> {
    if calls == [] then
      []
    else
      var n := |calls| - 1;
      EvictedBy(calls[..n]) + if calls[n].answer.Evicted? then [calls[n].pod] else []
  }

  lemma {:induction false} EvictedByConcat(a: seq<Call>, b: seq<Call>)
    ensures EvictedBy(a + b) == EvictedBy(a) + EvictedBy(b)
  {
    if b == [] {
      assert a + b == a;
    } else {
      var n := |b| - 1;
      EvictedByConcat(a, b[..n]);
      assert (a + b)[..|a + b| - 1] == a + b[..n];
    }
  }

  lemma AskedNext(pods: seq<PodName>, allowed: seq<bool>, i: nat)
    requires |pods| == |allowed| && i < |pods|
    ensures Asked(pods[..i + 1], allowed[..i + 1])
         == Asked(pods[..i], allowed[..i]) + if allowed[i] && pods[i].name != "" then [pods[i]] else []
  {
    assert pods[..i + 1][..i] == pods[..i] && allowed[..i + 1][..i] == allowed[..i];
  }

  lemma {:induction false} AskedSplits(pods: seq<PodName>, allowed: seq<bool>, i: nat)
    requires |pods| == |allowed| && i <= |pods|
    ensures Asked(pods[..i], allowed[..i]) <= Asked(pods, allowed)
    decreases |pods| - i
  {
    if i == |pods| {
      assert pods[..i] == pods && allowed[..i] == allowed;
    } else {
      AskedNext(pods, allowed, i);
      AskedSplits(pods, allowed, i + 1);
    }
  }

  lemma {:induction false} AskedWithinCount(pods: seq<PodName>, allowed: seq<bool>)
    requires |pods| == |allowed|
    ensures |Asked(pods, allowed)| <= Count(allowed)
  {
    if pods != [] {
      AskedWithinCount(pods[..|pods| - 1], allowed[..|pods| - 1]);
    }
  }

  /** The request, if any, that an entry leads to. */
  function CallFor(pod: PodName, allowed: bool, outcome: Outcome): seq<Call> {
    if allowed && pod.name != "" then [Call(pod, outcome)] else []
  }

  /** While nothing has been refused, all requests so far have been made. */
  ghost predicate AskedSoFar(pods: seq<PodName>, allowed: seq<bool>, i: nat, calls: seq<Call>)
    requires |pods| == |allowed| && i <= |pods|
  {
    var asked := Asked(pods[..i], allowed[..i]);
    && |calls| == |asked|
    && forall k | 0 <= k < |calls| :: calls[k].pod == asked[k] && !calls[k].answer.TooManyRequests?
  }

  lemma AskedGoesOn(pods: seq<PodName>, allowed: seq<bool>, i: nat, calls: seq<Call>, outcome: Outcome)
    requires |pods| == |allowed| && i < |pods| && AskedSoFar(pods, allowed, i, calls)
    requires !(allowed[i] && outcome.TooManyRequests?)
    ensures AskedSoFar(pods, allowed, i + 1, calls + CallFor(pods[i], allowed[i], outcome))
  {
    hide Asked;
    AskedNext(pods, allowed, i);
  }

  lemma AskedEnds(pods: seq<PodName>, allowed: seq<bool>, i: nat, calls: seq<Call>, outcome: Outcome)
    requires |pods| == |allowed| && i < |pods| && AskedSoFar(pods, allowed, i, calls)
    requires allowed[i] && outcome.TooManyRequests? && pods[i].name != ""
    ensures AskedInOrder(Asked(pods, allowed), calls + CallFor(pods[i], allowed[i], outcome))
  {
    hide Asked;
    AskedNext(pods, allowed, i);
    AskedSplits(pods, allowed, i + 1);
  }

  lemma RefusalShows(pods: seq<PodName>, allowed: seq<bool>, i: nat, calls: seq<Call>, outcome: Outcome)
    requires |pods| == |allowed| && i < |pods| && AskedSoFar(pods, allowed, i, calls)
    requires pods[i].name == "" ==> outcome.Failed?
    ensures RefusedBy(calls + CallFor(pods[i], allowed[i], outcome)) <==> allowed[i] && outcome.TooManyRequests?
  {
    hide Asked;
    var longer := calls + CallFor(pods[i], allowed[i], outcome);
    if allowed[i] && outcome.TooManyRequests? {
      assert longer[|calls|].answer.TooManyRequests?;
    }
  }

  lemma EvictedByNext(calls: seq<Call>, pod: PodName, allowed: bool, outcome: Outcome)
    requires pod.name == "" ==> outcome.Failed?
    ensures EvictedBy(calls + CallFor(pod, allowed, outcome))
         == EvictedBy(calls) + if allowed && outcome.Evicted? then [pod] else []
  {
    EvictedByConcat(calls, CallFor(pod, allowed, outcome));
    assert [Call(pod, outcome)][..0] == [];
  }

  lemma AskedAll(pods: seq<PodName>, allowed: seq<bool>, calls: seq<Call>)
    requires |pods| == |allowed| && AskedSoFar(pods, allowed, |pods|, calls)
    ensures AskedInOrder(Asked(pods, allowed), calls) && !RefusedBy(calls)
  {
    assert pods[..|pods|] == pods && allowed[..|pods|] == allowed;
  }

  lemma NothingAsked(pods: seq<PodName>, allowed: seq<bool>)
    requires |pods| == |allowed|
    ensures AskedSoFar(pods, allowed, 0, []) && EvictedBy([]) == []
  {
  }

  predicate RefusedBy(calls: seq<Call>) {
    exists i | 0 <= i < |calls| :: calls[i].answer.TooManyRequests?
  }

  lemma NoRefusal()
    ensures !RefusedBy([])
  {
  }

  // A round makes no more requests than its limit.
  lemma RequestsWithinLimit(log: seq<Record>, policy: Policy, slos: map<string, SLO>, pods: seq<PodName>,
                            checks: seq<int>, calls: seq<Call>)
    requires |pods| == |checks| && AskedInOrder(Asked(pods, Allowed(log, policy, slos, pods, checks)), calls)
    ensures |calls| <= if policy.maxEvictionsPerMinute > 0 then policy.maxEvictionsPerMinute else 1
  {
    hide Allowed, WindowOpen, NamespaceCap, Count, Asked;
    AllowedWithinBudgets(log, policy, slos, pods, checks);
    AskedWithinCount(pods, Allowed(log, policy, slos, pods, checks));
  }
}
