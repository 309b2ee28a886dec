/** Nodes that are either fully hot or idle, and what the planner does to them without weights. */
module ManyNodes {
  import opened Arithmetic
  import opened Sums
  import opened Imbalance
  import opened Cluster
  import opened Greedy
  import opened PlanTheorems
  import opened UsageTheorems

  // ---------------------------------------------------------------- two levels of utilization

  /** Some of the nodes at level v, the others at zero. */
  ghost function Split(hot: set<string>, all: set<string>, v: real): (util: map<string, real>)
    ensures util.Keys == all
  {
    map k | k in all :: if k in hot then v else 0.0
  }

  lemma {:induction false} SplitSum(hot: set<string>, all: set<string>, v: real)
    requires hot <= all
    ensures Sum(Split(hot, all, v)) == Mul(|hot| as real, v)
    decreases |hot|
  {
    hide Sum, Mul;
    if k :| k in hot {
      SplitSum(hot - {k}, all, v);
      SumUpdate(Split(hot - {k}, all, v), k, v);
      assert Split(hot, all, v) == Split(hot - {k}, all, v)[k := v];
      AddOne(|hot - {k}|, |hot|, v);
    } else {
      SumNonNegative(Split(hot, all, v));
      ZeroTimes(v);
      assert |hot| == 0;
    }
  }

  /** The variance of n nodes of which q are hot, in units of u. */
  function SplitVariance(q: int, n: int, u: real): real {
    Mul((q * (n - q)) as real, u)
  }

  function SplitUnit(v: real, n: nat): real
    requires n > 0
  {
    Sq(v) / Sq(n as real)
  }

  lemma SquareOfCount(n: nat)
    requires n > 0
    ensures Sq(n as real) > 0.0
  {
    hide Mul;
    SameSignProduct(n as real, n as real);
  }

  lemma VarianceOfSplit(hot: set<string>, all: set<string>, v: real)
    requires hot <= all && all != {}
    ensures Variance(Split(hot, all, v)) == SplitVariance(|hot|, |all|, SplitUnit(v, |all|))
  {
    hide Sum, Squares, Variance, Mul, Sq, SplitUnit, SplitVariance;
    var util := Split(hot, all, v);
    assert util.Keys == all && |util| == |util.Keys| == |all|;
    SplitSum(hot, all, v);
    SplitSum(hot, all, Sq(v));
    SquaresOfSplit(hot, all, v);
    MeanOfSquares(util);
    SplitArithmetic(|hot|, |all|, v);
  }

  lemma SquaresOfSplit(hot: set<string>, all: set<string>, v: real)
    ensures Squares(Split(hot, all, v)) == Split(hot, all, Sq(v))
  {
    assert Sq(0.0) == 0.0;
  }

  lemma SplitArithmetic(q: nat, n: nat, v: real)
    requires n > 0
    ensures Mul(q as real, Sq(v)) / n as real - Sq(Average(Mul(q as real, v), n))
         == SplitVariance(q, n, SplitUnit(v, n))
  {
    var x, r := q as real, n as real;
    assert (q * (n - q)) as real == x * (r - x);
    SquareOfCount(n);
    assert Sq(Mul(x, v) / r) == Sq(Mul(x, v)) / Sq(r);
    assert Mul(x, Sq(v)) / r == Mul(x, Sq(v)) * r / Sq(r);
  }

  // Up to half of the nodes, more hot ones mean more variance, and one fewer takes off n + 1 - 2 * q units.
  lemma SplitShrinks(small: nat, q: nat, n: nat, u: real)
    requires small < q && 2 * q <= n && u > 0.0
    ensures SplitVariance(q - 1, n, u) - SplitVariance(q, n, u) == Mul((2 * q - n - 1) as real, u) < 0.0
    ensures SplitVariance(small, n, u) <= SplitVariance(q - 1, n, u)
  {
    hide Mul;
    assert (q - 1) * (n - (q - 1)) - q * (n - q) == 2 * q - n - 1;
    MulLeftDifference(((q - 1) * (n - (q - 1))) as real, (q * (n - q)) as real, u);
    SameSignProduct((n + 1 - 2 * q) as real, u);
    MulLeftDifference(0.0, (n + 1 - 2 * q) as real, u);
    ZeroTimes(u);
    SpreadGrows(small, q - 1, n);
    MulLeftOrder((small * (n - small)) as real, ((q - 1) * (n - (q - 1))) as real, u);
  }

  lemma SpreadGrows(small: nat, q: nat, n: nat)
    requires small <= q && 2 * q <= n
    ensures small * (n - small) <= q * (n - q)
  {
    assert q * (n - q) - small * (n - small) == (q - small) * (n - q - small);
  }

  lemma MulLeftDifference(x: real, y: real, u: real)
    ensures Mul(x, u) - Mul(y, u) == Mul(x - y, u)
  {
  }

  lemma MulLeftOrder(x: real, y: real, u: real)
    requires x <= y && u > 0.0
    ensures Mul(x, u) <= Mul(y, u)
  {
    MulMonotone(u, x, y);
    assert Mul(u, x) == Mul(x, u) && Mul(u, y) == Mul(y, u);
  }

  // ---------------------------------------------------------------- the walk without weights

  /** Pods on hot nodes of their own that fit a single idle one. */
  ghost predicate LonePods(env: Env, hot: set<string>, cold: seq<string>, to: string, pods: seq<Pod>) {
    && to !in hot
    && (forall p | p in pods :: p.nodeName in hot && OnlyTarget(env, cold, p, to))
    && forall i, j | 0 <= i < j < |pods| :: pods[i].name != pods[j].name && pods[i].nodeName != pods[j].nodeName
  }

  /** Every node has a size, no weights are set. */
  ghost predicate Unweighted(env: Env, all: set<string>) {
    env.sizes.Keys == all && all != {} && env.weights == NO_WEIGHTS
  }

  ghost predicate SplitState(st: State, hot: set<string>, all: set<string>, v: real)
    requires all != {}
  {
    && hot <= all && 2 * |hot| <= |all|
    && st.usage.Keys == all && st.util == Split(hot, all, v)
    && st.variance == SplitVariance(|hot|, |all|, SplitUnit(v, |all|))
  }

  function LoneMove(env: Env, pod: Pod, to: string, q: int, n: int, u: real): Move {
    Move(pod.name, pod.nodeName, to, Demand(pod), Bias(env, to) + Mul((2 * q - n - 1) as real, u))
  }

  // To the simulation both ends of a move go idle.
  lemma IdleEnds(env: Env, hot: set<string>, all: set<string>, v: real, usage: map<string, Usage>, from: string,
                 to: string, request: Usage)
    requires Unweighted(env, all) && usage.Keys == all && from in hot && from in all && to in all && to !in hot
    ensures SimulatedUtil(env, usage, Split(hot, all, v), from, to, request) == Split(hot - {from}, all, v)
  {
    hide Pressure;
    NoWeightsNoPressure(Floored(Lighter(usage[from], request)), env.sizes[from]);
    NoWeightsNoPressure(Heavier(usage[to], request), env.sizes[to]);
  }

  lemma MovedLone(env: Env, hot: set<string>, all: set<string>, cold: seq<string>, v: real, st: State, pod: Pod,
                  to: string)
    requires Unweighted(env, all) && SplitState(st, hot, all, v) && v > 0.0
    requires pod.nodeName in hot && to in all && to !in hot
    ensures var next, u := MovedTo(env, st, pod, to), SplitUnit(v, |all|);
            && SplitState(next, hot - {pod.nodeName}, all, v)
            && next.plan == st.plan + [LoneMove(env, pod, to, |hot|, |all|, u)]
            && next.visited == st.visited + {pod.name}
            && next.variance < st.variance
  {
    hide Variance, SimulatedUtil, Moved, Demand, Bias, SplitVariance, SplitUnit, Split, Mul;
    var fewer := hot - {pod.nodeName};
    assert |fewer| == |hot| - 1;
    IdleEnds(env, hot, all, v, st.usage, pod.nodeName, to, Demand(pod));
    VarianceOfSplit(fewer, all, v);
    SplitUnitPositive(v, |all|);
    SplitShrinks(0, |hot|, |all|, SplitUnit(v, |all|));
  }

  lemma SplitUnitPositive(v: real, n: nat)
    requires v > 0.0 && n > 0
    ensures SplitUnit(v, n) > 0.0
  {
    hide Mul;
    SquareOfCount(n);
    SameSignProduct(v, v);
    QuotientSign(Sq(v), Sq(n as real));
  }

  /** The target is not reached before the last of k moves. */
  predicate EnoughHot(q: nat, n: nat, k: nat, u: real, target: real) {
    k <= q && (k > 1 ==> SplitVariance(q - k + 1, n, u) > target)
  }

  lemma LoneStep(env: Env, hot: set<string>, all: set<string>, cold: seq<string>, v: real, st: State, pods: seq<Pod>,
                 to: string)
    requires Unweighted(env, all) && SplitState(st, hot, all, v) && v > 0.0 && to in all
    requires LonePods(env, hot, cold, to, pods) && pods != [] && pods[0].name !in st.visited
    requires EnoughHot(|hot|, |all|, |pods|, SplitUnit(v, |all|), env.target)
    ensures Walk(env, cold, st, pods) == Walk(env, cold, MovedTo(env, st, pods[0], to), pods[1..])
  {
    hide Walk, MovedTo, OnlyTarget, SplitVariance, SplitUnit, Split;
    assert pods[0] in pods;
    var next := MovedTo(env, st, pods[0], to);
    MovedLone(env, hot, all, cold, v, st, pods[0], to);
    if |pods| > 1 {
      SplitUnitPositive(v, |all|);
      assert |hot - {pods[0].nodeName}| == |hot| - 1;
      SplitShrinks(|hot| - |pods| + 1, |hot|, |all|, SplitUnit(v, |all|));
    }
    OnlyTargetWalk(env, cold, st, pods, to);
  }

  /** The moves of a plan that starts with q hot nodes of n. */
  function LoneMoves(env: Env, pods: seq<Pod>, to: string, q: int, n: int, u: real): (moves: seq<Move>)
    ensures |moves| == |pods|
    ensures forall i | 0 <= i < |pods| :: moves[i] == LoneMove(env, pods[i], to, q - i, n, u)
  {
    seq(|pods|, i requires 0 <= i < |pods| => LoneMove(env, pods[i], to, q - i, n, u))
  }

  lemma LoneMovesSplit(env: Env, pods: seq<Pod>, to: string, q: int, n: int, u: real)
    requires pods != []
    ensures LoneMoves(env, pods, to, q, n, u)
         == [LoneMove(env, pods[0], to, q, n, u)] + LoneMoves(env, pods[1..], to, q - 1, n, u)
  {
    hide LoneMove;
    var moves, rest := LoneMoves(env, pods, to, q, n, u), LoneMoves(env, pods[1..], to, q - 1, n, u);
    forall i | 0 < i < |pods| ensures moves[i] == rest[i - 1] {
      assert pods[1..][i - 1] == pods[i] && q - i == q - 1 - (i - 1);
    }
  }

  lemma LoneRest(env: Env, hot: set<string>, n: nat, cold: seq<string>, to: string, pods: seq<Pod>,
                visited: set<PodName>, u: real)
    requires LonePods(env, hot, cold, to, pods) && Unvisited(pods, visited) && pods != []
    requires EnoughHot(|hot|, n, |pods|, u, env.target)
    ensures var fewer := hot - {pods[0].nodeName};
            && |fewer| == |hot| - 1
            && LonePods(env, fewer, cold, to, pods[1..])
            && Unvisited(pods[1..], visited + {pods[0].name})
            && EnoughHot(|fewer|, n, |pods[1..]|, u, env.target)
    ensures pods[0].name !in visited && pods[0].nodeName in hot && to !in hot
  {
    hide OnlyTarget, SplitVariance;
    assert pods[0] in pods;
  }

  // Every pod is moved in turn, whatever the nodes really use.
  lemma {:induction false} LoneWalk(env: Env, hot: set<string>, all: set<string>, cold: seq<string>, v: real, st: State,
                                    pods: seq<Pod>, to: string)
    requires Unweighted(env, all) && SplitState(st, hot, all, v) && v > 0.0 && to in all
    requires LonePods(env, hot, cold, to, pods) && Unvisited(pods, st.visited)
    requires EnoughHot(|hot|, |all|, |pods|, SplitUnit(v, |all|), env.target)
    ensures Walk(env, cold, st, pods).plan
         == st.plan + LoneMoves(env, pods, to, |hot|, |all|, SplitUnit(v, |all|))
    decreases |pods|
  {
    hide Walk, LoneMove, LoneMoves, MovedTo, SplitVariance, SplitUnit, Split, LonePods, Unvisited, EnoughHot;
    var u := SplitUnit(v, |all|);
    if pods == [] {
      WalkEnds(env, cold, st);
      NoLoneMoves(env, to, |hot|, |all|, u);
    } else {
      LoneRest(env, hot, |all|, cold, to, pods, st.visited, u);
      LoneStep(env, hot, all, cold, v, st, pods, to);
      MovedLone(env, hot, all, cold, v, st, pods[0], to);
      LoneWalk(env, hot - {pods[0].nodeName}, all, cold, v, MovedTo(env, st, pods[0], to), pods[1..], to);
      LoneMovesSplit(env, pods, to, |hot|, |all|, u);
    }
  }

  lemma NoLoneMoves(env: Env, to: string, q: int, n: int, u: real)
    ensures LoneMoves(env, [], to, q, n, u) == []
  {
  }

  // ---------------------------------------------------------------- names

  function NodeName(prefix: char, i: nat): string {
    [prefix] + seq(i, _ => 'x')
  }

  lemma NodeNamesDiffer(a: char, i: nat, b: char, j: nat)
    ensures NodeName(a, i) == NodeName(b, j) <==> a == b && i == j
  {
    assert NodeName(a, i)[0] == a && NodeName(b, j)[0] == b;
    assert |NodeName(a, i)| == i + 1 && |NodeName(b, j)| == j + 1;
  }

  function NodeNames(prefix: char, n: nat): (names: seq<string>)
    ensures |names| == n && forall i | 0 <= i < n :: names[i] == NodeName(prefix, i)
  {
    seq(n, i requires 0 <= i < n => NodeName(prefix, i))
  }

  function NamedNodes(prefix: char, n: nat): set<string> {
    set name | name in NodeNames(prefix, n)
  }

  lemma {:induction false} CountNamed(prefix: char, n: nat)
    ensures |NamedNodes(prefix, n)| == n
  {
    hide NodeName;
    if n > 0 {
      CountNamed(prefix, n - 1);
      var last := NodeName(prefix, n - 1);
      assert NodeNames(prefix, n) == NodeNames(prefix, n - 1) + [last];
      assert NamedNodes(prefix, n) == NamedNodes(prefix, n - 1) + {last};
      if last in NamedNodes(prefix, n - 1) {
        var i :| 0 <= i < n - 1 && NodeNames(prefix, n - 1)[i] == last;
        NodeNamesDiffer(prefix, i, prefix, n - 1);
      }
    }
  }

  lemma HotOrCold(n: nat)
    ensures NamedNodes('h', n) !! NamedNodes('c', n) && |NamedNodes('h', n) + NamedNodes('c', n)| == 2 * n
  {
    hide NodeName;
    CountNamed('h', n);
    CountNamed('c', n);
    forall k | k in NamedNodes('h', n) ensures k !in NamedNodes('c', n) {
      if k in NamedNodes('c', n) {
        var i :| 0 <= i < n && NodeNames('h', n)[i] == k;
        var j :| 0 <= j < n && NodeNames('c', n)[j] == k;
        NodeNamesDiffer('h', i, 'c', j);
      }
    }
  }
}
