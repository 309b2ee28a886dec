/** Which entries of a sorted plan the budgets let through. */
module Admission {
  import opened Arithmetic
  import opened Sums

  function Count(flags: seq<bool>): nat {
    if flags == [] then 0 else Count(flags[..|flags| - 1]) + if flags[|flags| - 1] then 1 else 0
  }

  /** How many flagged entries belong to a namespace. */
  function CountIn(namespaces: seq<string>, flags: seq<bool>, ns: string): nat
    requires |namespaces| == |flags|
  {
    if flags == [] then
      0
    else
      var n := |flags| - 1;
      CountIn(namespaces[..n], flags[..n], ns) + if flags[n] && namespaces[n] == ns then 1 else 0
  }

  function Planned(namespaces: seq<string>, ns: string): nat {
    if namespaces == [] then
      0
    else
      Planned(namespaces[..|namespaces| - 1], ns) + if namespaces[|namespaces| - 1] == ns then 1 else 0
  }

  /**
   * The greedy pass. Entry i passes when the cluster limit is not used up, its namespace is below its cap for one
   * plan (a cap that is not positive means none), and its namespace's hourly window is open when it is looked at.
   */
  function Admit(namespaces: seq<string>, open: seq<bool>, limit: nat, cap: int): (flags: seq<bool>)
    requires |namespaces| == |open|
    ensures |flags| == |namespaces|
  {
    if namespaces == [] then
      []
    else
      var n := |namespaces| - 1;
      var flags := Admit(namespaces[..n], open[..n], limit, cap);
      flags + [Count(flags) < limit && open[n] && (cap <= 0 || CountIn(namespaces[..n], flags, namespaces[n]) < cap)]
  }

  lemma AdmitStep(namespaces: seq<string>, open: seq<bool>, limit: nat, cap: int)
    requires |namespaces| == |open| && namespaces != []
    ensures var n := |namespaces| - 1;
            var flags, before := Admit(namespaces, open, limit, cap), Admit(namespaces[..n], open[..n], limit, cap);
            && flags[..n] == before
            && (flags[n] <==> Count(before) < limit && open[n] &&
                              (cap <= 0 || CountIn(namespaces[..n], before, namespaces[n]) < cap))
            && Count(flags) == Count(before) + (if flags[n] then 1 else 0)
            && forall ns :: CountIn(namespaces, flags, ns) ==
                            CountIn(namespaces[..n], before, ns) + if flags[n] && namespaces[n] == ns then 1 else 0
  {
  }

  // Looking at one more entry.
  lemma AdmitNext(namespaces: seq<string>, open: seq<bool>, ns: string, isOpen: bool, limit: nat, cap: int)
    requires |namespaces| == |open|
    ensures var before := Admit(namespaces, open, limit, cap);
            var passes := Count(before) < limit && isOpen && (cap <= 0 || CountIn(namespaces, before, ns) < cap);
            && Admit(namespaces + [ns], open + [isOpen], limit, cap) == before + [passes]
            && Count(before + [passes]) == Count(before) + (if passes then 1 else 0)
            && forall other :: CountIn(namespaces + [ns], before + [passes], other) ==
                               CountIn(namespaces, before, other) + if passes && ns == other then 1 else 0
  {
    var longer := namespaces + [ns];
    var longerOpen := open + [isOpen];
    assert longer[..|namespaces|] == namespaces && longerOpen[..|open|] == open;
    AdmitStep(longer, longerOpen, limit, cap);
    var flags := Admit(longer, longerOpen, limit, cap);
    assert flags == flags[..|namespaces|] + [flags[|namespaces|]];
  }

  // The budgets are respected, whatever the windows said.
  lemma {:induction false} AdmitWithinBudgets(namespaces: seq<string>, open: seq<bool>, limit: nat, cap: int)
    requires |namespaces| == |open|
    ensures var flags := Admit(namespaces, open, limit, cap);
            && Count(flags) <= limit
            && (cap > 0 ==> forall ns :: CountIn(namespaces, flags, ns) <= cap)
            && forall i | 0 <= i < |flags| :: flags[i] ==> open[i]
  {
    if namespaces != [] {
      var n := |namespaces| - 1;
      AdmitWithinBudgets(namespaces[..n], open[..n], limit, cap);
      AdmitStep(namespaces, open, limit, cap);
      var flags := Admit(namespaces, open, limit, cap);
      forall i | 0 <= i < |flags| && flags[i] ensures open[i] {
        if i < n {
          assert flags[i] == flags[..n][i];
        }
      }
    }
  }

  // Entries of one namespace that fit its cap and the limit all pass while the window is open.
  lemma {:induction false} AdmitsAll(namespaces: seq<string>, open: seq<bool>, limit: nat, cap: int, ns: string)
    requires |namespaces| == |open| <= limit && (cap > 0 ==> |namespaces| <= cap)
    requires forall i | 0 <= i < |open| :: open[i] && namespaces[i] == ns
    ensures var flags := Admit(namespaces, open, limit, cap);
            (forall i | 0 <= i < |flags| :: flags[i]) && Count(flags) == CountIn(namespaces, flags, ns) == |namespaces|
  {
    hide Admit, Count, CountIn;
    if namespaces == [] {
      NothingAdmitted(limit, cap, ns);
      assert open == [];
    } else {
      var n := |namespaces| - 1;
      AdmitsAll(namespaces[..n], open[..n], limit, cap, ns);
      AdmitStep(namespaces, open, limit, cap);
      var flags := Admit(namespaces, open, limit, cap);
      assert forall i | 0 <= i < n :: flags[i] == flags[..n][i];
    }
  }

  lemma NothingAdmitted(limit: nat, cap: int, ns: string)
    ensures Admit([], [], limit, cap) == [] && Count([]) == CountIn([], [], ns) == 0
  {
  }

  // ---------------------------------------------------------------- how many are admitted

  /** What a namespace may get out of a plan: nothing when its window is closed, otherwise its entries up to the cap. */
  function Quota(closed: set<string>, cap: int, ns: string, planned: nat): nat {
    if ns in closed then 0 else if 0 < cap < planned then cap else planned
  }

  /** Windows that stay open or closed for the whole pass. */
  predicate FixedWindows(namespaces: seq<string>, open: seq<bool>, closed: set<string>) {
    |namespaces| == |open| && forall i | 0 <= i < |open| :: open[i] <==> namespaces[i] !in closed
  }

  // Below the cluster limit every namespace gets its quota; at the limit none gets more.
  lemma {:induction false} AdmitMeetsQuotas(namespaces: seq<string>, open: seq<bool>, closed: set<string>, limit: nat,
                                            cap: int)
    requires FixedWindows(namespaces, open, closed)
    ensures var flags := Admit(namespaces, open, limit, cap);
            && Count(flags) <= limit
            && forall ns ::
                 && CountIn(namespaces, flags, ns) <= Quota(closed, cap, ns, Planned(namespaces, ns))
                 && (Count(flags) < limit ==>
                       CountIn(namespaces, flags, ns) == Quota(closed, cap, ns, Planned(namespaces, ns)))
  {
    if namespaces != [] {
      var n := |namespaces| - 1;
      AdmitMeetsQuotas(namespaces[..n], open[..n], closed, limit, cap);
      AdmitStep(namespaces, open, limit, cap);
    }
  }

  ghost function NamespacesOf(namespaces: seq<string>): set<string> {
    set i | 0 <= i < |namespaces| :: namespaces[i]
  }

  ghost function Counts(namespaces: seq<string>, flags: seq<bool>, keys: set<string>): map<string, real>
    requires |namespaces| == |flags|
  {
    map ns | ns in keys :: CountIn(namespaces, flags, ns) as real
  }

  ghost function Quotas(namespaces: seq<string>, closed: set<string>, cap: int, keys: set<string>): map<string, real> {
    map ns | ns in keys :: Quota(closed, cap, ns, Planned(namespaces, ns)) as real
  }

  // The cluster budget used equals the namespace counts together.
  lemma {:induction false} CountsAddUp(namespaces: seq<string>, flags: seq<bool>, keys: set<string>)
    requires |namespaces| == |flags| && NamespacesOf(namespaces) <= keys
    ensures Sum(Counts(namespaces, flags, keys)) == Count(flags) as real
  {
    hide Sum;
    if flags == [] {
      ZeroSum(Counts(namespaces, flags, keys));
    } else {
      var n := |flags| - 1;
      var ns := namespaces[n];
      assert namespaces[n] in NamespacesOf(namespaces);
      CountsAddUp(namespaces[..n], flags[..n], keys);
      var before := Counts(namespaces[..n], flags[..n], keys);
      if flags[n] {
        SumUpdate(before, ns, before[ns] + 1.0);
        assert Counts(namespaces, flags, keys) == before[ns := before[ns] + 1.0];
      } else {
        assert Counts(namespaces, flags, keys) == before;
      }
    }
  }

  lemma ZeroSum(m: map<string, real>)
    requires forall k | k in m :: m[k] == 0.0
    ensures Sum(m) == 0.0
  {
    SumNonNegative(m);
  }

  // With windows fixed, the number admitted is the smaller of the limit and the sum of the quotas.
  lemma ExactAdmissionCount(namespaces: seq<string>, open: seq<bool>, closed: set<string>, limit: nat, cap: int,
                            keys: set<string>)
    requires FixedWindows(namespaces, open, closed) && NamespacesOf(namespaces) <= keys
    ensures var total := Sum(Quotas(namespaces, closed, cap, keys));
            Count(Admit(namespaces, open, limit, cap)) as real == if limit as real <= total then limit as real
              else total
  {
    hide Sum, Admit, CountIn, Count, Quota, Planned;
    var flags := Admit(namespaces, open, limit, cap);
    AdmitMeetsQuotas(namespaces, open, closed, limit, cap);
    CountsAddUp(namespaces, flags, keys);
    SumMonotone(Counts(namespaces, flags, keys), Quotas(namespaces, closed, cap, keys));
    if Count(flags) < limit {
      assert Counts(namespaces, flags, keys) == Quotas(namespaces, closed, cap, keys);
    }
  }

  // ---------------------------------------------------------------- which are admitted

  /** A choice of entries that the cluster limit, the namespace cap and the closed windows allow. */
  ghost predicate Feasible(namespaces: seq<string>, closed: set<string>, limit: nat, cap: int, choice: seq<bool>) {
    && |choice| == |namespaces|
    && Count(choice) <= limit
    && (cap > 0 ==> forall ns :: CountIn(namespaces, choice, ns) <= cap)
    && forall i | 0 <= i < |choice| :: choice[i] ==> namespaces[i] !in closed
  }

  ghost function ScoreOf(scores: seq<real>, choice: seq<bool>): real
    requires |scores| == |choice|
  {
    if scores == [] then
      0.0
    else
      var n := |scores| - 1;
      ScoreOf(scores[..n], choice[..n]) + if choice[n] then scores[n] else 0.0
  }

  lemma {:induction false} PrefixFeasible(namespaces: seq<string>, closed: set<string>, limit: nat, cap: int,
                                          choice: seq<bool>)
    requires Feasible(namespaces, closed, limit, cap, choice) && namespaces != []
    ensures var n := |namespaces| - 1; Feasible(namespaces[..n], closed, limit, cap, choice[..n])
  {
    var n := |namespaces| - 1;
    forall ns ensures CountIn(namespaces[..n], choice[..n], ns) <= CountIn(namespaces, choice, ns) {
    }
  }

  lemma {:induction false} FeasibleWithinQuotas(namespaces: seq<string>, closed: set<string>, cap: int,
                                                choice: seq<bool>, ns: string)
    requires |choice| == |namespaces|
    requires forall i | 0 <= i < |choice| :: choice[i] ==> namespaces[i] !in closed
    ensures CountIn(namespaces, choice, ns) <= if ns in closed then 0 else Planned(namespaces, ns)
  {
    if choice != [] {
      var n := |choice| - 1;
      FeasibleWithinQuotas(namespaces[..n], closed, cap, choice[..n], ns);
    }
  }

  // No feasible choice takes more entries than the greedy pass.
  lemma AdmitTakesMost(namespaces: seq<string>, open: seq<bool>, closed: set<string>, limit: nat, cap: int,
                       choice: seq<bool>)
    requires FixedWindows(namespaces, open, closed) && Feasible(namespaces, closed, limit, cap, choice)
    ensures Count(choice) <= Count(Admit(namespaces, open, limit, cap))
  {
    hide Sum, Admit, CountIn, Count, Planned;
    var keys := NamespacesOf(namespaces);
    CountsAddUp(namespaces, choice, keys);
    ExactAdmissionCount(namespaces, open, closed, limit, cap, keys);
    forall ns | ns in keys
      ensures Counts(namespaces, choice, keys)[ns] <= Quotas(namespaces, closed, cap, keys)[ns]
    {
      FeasibleWithinQuotas(namespaces, closed, cap, choice, ns);
    }
    SumMonotone(Counts(namespaces, choice, keys), Quotas(namespaces, closed, cap, keys));
  }

  // Summation by parts: being ahead on every prefix of an ascending list pays at least its last score per entry.
  lemma {:induction false} AdmitScoresLeast(namespaces: seq<string>, open: seq<bool>, closed: set<string>, limit: nat,
                                            cap: int, scores: seq<real>, choice: seq<bool>, top: real)
    requires FixedWindows(namespaces, open, closed) && Feasible(namespaces, closed, limit, cap, choice)
    requires |scores| == |namespaces|
    requires forall i, j | 0 <= i < j < |scores| :: scores[i] <= scores[j]
    requires forall i | 0 <= i < |scores| :: scores[i] <= top
    ensures var flags := Admit(namespaces, open, limit, cap);
            ScoreOf(scores, flags) <= ScoreOf(scores, choice) + Mul((Count(flags) - Count(choice)) as real, top)
    decreases |scores|
  {
    hide Mul, CountIn, Feasible, Admit, FixedWindows, Planned, Quota;
    FeasibleLength(namespaces, closed, limit, cap, choice);
    FixedPrefix(namespaces, open, closed);
    var flags := Admit(namespaces, open, limit, cap);
    if scores == [] {
      ZeroTimes(top);
    } else {
      var n := |scores| - 1;
      PrefixFeasible(namespaces, closed, limit, cap, choice);
      AdmitScoresLeast(namespaces[..n], open[..n], closed, limit, cap, scores[..n], choice[..n], scores[n]);
      AdmitStep(namespaces, open, limit, cap);
      AdmitTakesMost(namespaces, open, closed, limit, cap, choice);
      LeadGrows(Count(flags[..n]) - Count(choice[..n]), flags[n], choice[n], scores[n]);
      MulMonotone((Count(flags) - Count(choice)) as real, scores[n], top);
    }
  }

  lemma FixedPrefix(namespaces: seq<string>, open: seq<bool>, closed: set<string>)
    requires FixedWindows(namespaces, open, closed)
    ensures |namespaces| == |open|
    ensures namespaces != [] ==> var n := |namespaces| - 1; FixedWindows(namespaces[..n], open[..n], closed)
  {
  }

  lemma FeasibleLength(namespaces: seq<string>, closed: set<string>, limit: nat, cap: int, choice: seq<bool>)
    requires Feasible(namespaces, closed, limit, cap, choice)
    ensures |choice| == |namespaces|
  {
  }

  lemma LeadGrows(lead: int, taken: bool, chosen: bool, score: real)
    ensures var more, fewer := (if taken then 1 else 0), if chosen then 1 else 0;
            Mul(lead as real, score) + (if taken then score else 0.0) - (if chosen then score else 0.0)
            == Mul((lead + more - fewer) as real, score)
  {
  }

  // The admitted entries have the least total score of all choices the budgets allow.
  lemma AdmissionIsOptimal(namespaces: seq<string>, open: seq<bool>, closed: set<string>, limit: nat, cap: int,
                           scores: seq<real>, choice: seq<bool>)
    requires FixedWindows(namespaces, open, closed) && Feasible(namespaces, closed, limit, cap, choice)
    requires |scores| == |namespaces|
    requires forall i, j | 0 <= i < j < |scores| :: scores[i] <= scores[j]
    requires forall i | 0 <= i < |scores| :: scores[i] < 0.0
    ensures var flags := Admit(namespaces, open, limit, cap);
            Feasible(namespaces, closed, limit, cap, flags) && ScoreOf(scores, flags) <= ScoreOf(scores, choice)
  {
    hide Admit, ScoreOf, Count, CountIn, Mul;
    AdmitWithinBudgets(namespaces, open, limit, cap);
    AdmitScoresLeast(namespaces, open, closed, limit, cap, scores, choice, 0.0);
    MulZero((Count(Admit(namespaces, open, limit, cap)) - Count(choice)) as real);
  }
}
