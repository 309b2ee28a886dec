/** Eviction records and the sliding hour over them. */
module Window {
  import opened Cluster

  datatype Record = Record(pod: PodName, at: int)

  /** The times later than a cutoff, in order. */
  function After(times: seq<int>, cutoff: int): (r: seq<int>)
    ensures forall t | t in r :: t in times && t > cutoff
  {
    if times == [] then
      []
    else
      var n := |times| - 1;
      After(times[..n], cutoff) + if times[n] > cutoff then [times[n]] else []
  }

  ghost predicate Sorted(times: seq<int>) {
    forall i, j | 0 <= i <= j < |times| :: times[i] <= times[j]
  }

  lemma {:induction false} AfterConcat(a: seq<int>, b: seq<int>, cutoff: int)
    ensures After(a + b, cutoff) == After(a, cutoff) + After(b, cutoff)
  {
    if b == [] {
      assert a + b == a;
    } else {
      var n := |b| - 1;
      AfterConcat(a, b[..n], cutoff);
      assert (a + b)[..|a + b| - 1] == a + b[..n];
    }
  }

  lemma {:induction false} AfterNone(times: seq<int>, cutoff: int)
    requires forall i | 0 <= i < |times| :: times[i] <= cutoff
    ensures After(times, cutoff) == []
  {
    if times != [] {
      AfterNone(times[..|times| - 1], cutoff);
    }
  }

  lemma SuffixGrows(times: seq<int>, k: nat)
    requires k < |times|
    ensures var n := |times| - 1; times[k..] == times[..n][k..] + [times[n]]
  {
  }

  // Of sorted times, those after a cutoff are a suffix.
  lemma {:induction false} AfterIsSuffix(times: seq<int>, cutoff: int) returns (k: nat)
    requires Sorted(times)
    ensures k <= |times| && After(times, cutoff) == times[k..]
    ensures forall i | 0 <= i < k :: times[i] <= cutoff
  {
    if times == [] {
      k := 0;
    } else {
      var n := |times| - 1;
      k := AfterIsSuffix(times[..n], cutoff);
      if times[n] <= cutoff {
        AfterNone(times, cutoff);
        k := n + 1;
      } else {
        SuffixGrows(times, k);
      }
    }
  }

  /** The times of a namespace's records, in order. */
  function Times(log: seq<Record>, ns: string): seq<int> {
    if log == [] then
      []
    else
      var n := |log| - 1;
      if log[n].pod.namespace == ns then Times(log[..n], ns) + [log[n].at] else Times(log[..n], ns)
  }

  function LastTime(log: seq<Record>, pod: PodName): Option<int> {
    if log == [] then
      None
    else if log[|log| - 1].pod == pod then
      Some(log[|log| - 1].at)
    else
      LastTime(log[..|log| - 1], pod)
  }

  ghost predicate Chronological(log: seq<Record>) {
    forall i, j | 0 <= i <= j < |log| :: log[i].at <= log[j].at
  }

  ghost predicate UpTo(log: seq<Record>, now: int) {
    forall i | 0 <= i < |log| :: log[i].at <= now
  }

  lemma {:induction false} TimesSorted(log: seq<Record>, ns: string, now: int)
    requires Chronological(log) && UpTo(log, now)
    ensures Sorted(Times(log, ns)) && forall i | 0 <= i < |Times(log, ns)| :: Times(log, ns)[i] <= now
  {
    if log != [] {
      var n := |log| - 1;
      TimesSorted(log[..n], ns, log[n].at);
    }
  }

  lemma TimesAppend(log: seq<Record>, r: Record, ns: string)
    ensures Times(log + [r], ns) == if r.pod.namespace == ns then Times(log, ns) + [r.at] else Times(log, ns)
  {
    assert (log + [r])[..|log|] == log;
  }

  lemma LastTimeAppend(log: seq<Record>, r: Record, pod: PodName)
    ensures LastTime(log + [r], pod) == if r.pod == pod then Some(r.at) else LastTime(log, pod)
  {
    assert (log + [r])[..|log|] == log;
  }

  /** A map that gives each pod's latest record. */
  ghost predicate Latest(log: seq<Record>, history: map<PodName, int>) {
    forall pod :: LastTime(log, pod) == if pod in history then Some(history[pod]) else None
  }

  lemma LatestAppend(log: seq<Record>, history: map<PodName, int>, r: Record)
    requires Latest(log, history)
    ensures Latest(log + [r], history[r.pod := r.at])
  {
    forall pod ensures LastTime(log + [r], pod) == if r.pod == pod then Some(r.at) else LastTime(log, pod) {
      LastTimeAppend(log, r, pod);
    }
  }

  lemma ChronologicalAppend(log: seq<Record>, r: Record)
    requires Chronological(log) && UpTo(log, r.at)
    ensures Chronological(log + [r]) && UpTo(log + [r], r.at)
  {
  }

  // ---------------------------------------------------------------- pruned histories

  /** A history that has lost at most a prefix of the full one, all of it over an hour old. */
  ghost predicate Kept(history: seq<int>, full: seq<int>, now: int) {
    && |history| <= |full|
    && history == full[|full| - |history|..]
    && forall i | 0 <= i < |full| - |history| :: full[i] <= now - HOUR
  }

  // Pruned or not, the last hour reads the same.
  lemma KeptReadsTheSame(history: seq<int>, full: seq<int>, before: int, now: int)
    requires Kept(history, full, before) && before <= now
    ensures After(history, now - HOUR) == After(full, now - HOUR)
    ensures Kept(history, full, now)
  {
    var k := |full| - |history|;
    AfterConcat(full[..k], history, now - HOUR);
    AfterNone(full[..k], now - HOUR);
    assert full == full[..k] + history;
  }

  // Pruning keeps what it must.
  lemma PruningKeeps(history: seq<int>, full: seq<int>, now: int)
    requires Kept(history, full, now) && Sorted(full)
    ensures Kept(After(history, now - HOUR), full, now)
  {
    KeptReadsTheSame(history, full, now, now);
    var k := AfterIsSuffix(full, now - HOUR);
  }

  lemma KeptAppend(history: seq<int>, log: seq<Record>, r: Record, ns: string)
    requires Kept(history, Times(log, ns), r.at)
    ensures r.pod.namespace == ns ==> Kept(history + [r.at], Times(log + [r], ns), r.at)
    ensures r.pod.namespace != ns ==> Kept(history, Times(log + [r], ns), r.at)
  {
    TimesAppend(log, r, ns);
  }

  // ---------------------------------------------------------------- budgets over the last hour

  function LastHour(log: seq<Record>, ns: string, now: int): nat {
    |After(Times(log, ns), now - HOUR)|
  }

  /** Whether a namespace's hourly budget has room. A budget of zero means none is set. */
  predicate WindowOpen(log: seq<Record>, ns: string, slo: Option<SLO>, now: int) {
    slo.None? || slo.value.maxDisruptionsPerHour == 0 || LastHour(log, ns, now) < slo.value.maxDisruptionsPerHour
  }

  function Min(a: int, b: int): int {
    if a < b then a else b
  }

  /** The tighter of the cap for one plan and what the hour has left, or -1 when neither is set. */
  function BudgetLeft(log: seq<Record>, ns: string, policy: Policy, slo: Option<SLO>, now: int): int {
    var cap := policy.maxEvictionsPerNamespace;
    if slo.None? || slo.value.maxDisruptionsPerHour <= 0 then
      if cap > 0 then cap else -1
    else
      var left := slo.value.maxDisruptionsPerHour - Min(LastHour(log, ns, now), slo.value.maxDisruptionsPerHour);
      if cap > 0 then Min(cap, left) else left
  }
}
