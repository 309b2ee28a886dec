/** A hot node and a cold one of the same size, and pods that move between them one by one. */
module TwoNodes {
  import opened Arithmetic
  import opened Sums
  import opened Imbalance
  import opened Cluster
  import opened Greedy
  import opened PlanTheorems

  const COLD := ["cold"]

  // ---------------------------------------------------------------- utilization of two nodes

  function Two(x: real, y: real): map<string, real> {
    map["hot" := x, "cold" := y]
  }

  lemma SumOfTwo(x: real, y: real)
    ensures Sum(Two(x, y)) == x + y && |Two(x, y)| == 2
  {
    hide Sum;
    var none: map<string, real> := map[];
    SumEmpty(none);
    SumExtend(none, "hot", x);
    SumExtend(map["hot" := x], "cold", y);
    assert none["hot" := x] == map["hot" := x];
    assert map["hot" := x]["cold" := y] == Two(x, y);
    assert Two(x, y).Keys == {"hot", "cold"} && |Two(x, y)| == |Two(x, y).Keys|;
  }

  // The variance is a quarter of the squared gap.
  lemma VarianceOfTwo(x: real, y: real)
    ensures Variance(Two(x, y)) == Sq(x - y) / 4.0
  {
    hide Sum, Sq, Variance, Squares;
    SumOfTwo(x, y);
    SumOfTwo(Sq(x), Sq(y));
    assert Squares(Two(x, y)) == Two(Sq(x), Sq(y)) by { SquaresOfTwo(x, y); }
    MeanOfSquares(Two(x, y));
    HalfOf(x + y, |Two(x, y)|);
    QuarterOfGap(x, y, |Two(x, y)|);
  }

  lemma SquaresOfTwo(x: real, y: real)
    ensures Squares(Two(x, y)) == Two(Sq(x), Sq(y))
  {
    hide Sq;
  }

  lemma HalfOf(total: real, n: nat)
    requires n == 2
    ensures Average(total, n) == total / 2.0
  {
  }

  lemma QuarterOfGap(x: real, y: real, n: nat)
    requires n == 2
    ensures (Sq(x) + Sq(y)) / n as real - Sq((x + y) / 2.0) == Sq(x - y) / 4.0
  {
  }

  // ---------------------------------------------------------------- usage in steps of one core and one byte

  function Level(x: nat): Usage {
    Usage(x as real, x)
  }

  function EvenSize(c: nat): Size
    requires c > 0
  {
    Allocatable(1000 * c, c)
  }

  /** What one core and one byte add to the utilization of a node. */
  function Unit(c: nat, w: Weights): real
    requires c > 0
  {
    (w.cpu + w.memory) / c as real
  }

  lemma LevelPressure(x: nat, c: nat, w: Weights)
    requires c > 0
    ensures Pressure(Level(x), EvenSize(c), w) == Mul(x as real, Unit(c, w))
  {
    var r := c as real;
    assert Share(x as real, EvenSize(c).milliCPU as real / 1000.0) == x as real / r;
    LevelArithmetic(x as real, r, w.cpu, w.memory);
  }

  lemma LevelArithmetic(x: real, r: real, a: real, b: real)
    requires r > 0.0
    ensures Mul(x / r, a) + Mul(x / r, b) == Mul(x, (a + b) / r)
  {
    assert Mul(x / r, a + b) == Mul(x, (a + b) / r);
  }

  function TwoLevels(x: nat, y: nat): map<string, Usage> {
    map["hot" := Level(x), "cold" := Level(y)]
  }

  ghost function TwoUtil(x: nat, y: nat, unit: real): map<string, real> {
    Two(Mul(x as real, unit), Mul(y as real, unit))
  }

  /** The variance of two nodes whose levels are so far apart. */
  function GapVariance(gap: int, unit: real): real {
    Mul(Sq(gap as real), Sq(unit)) / 4.0
  }

  lemma TwoUtilVariance(x: nat, y: nat, unit: real)
    ensures Variance(TwoUtil(x, y, unit)) == GapVariance(x - y, unit)
  {
    hide Variance, Two;
    VarianceOfTwo(Mul(x as real, unit), Mul(y as real, unit));
    GapArithmetic(x as real, y as real, unit);
  }

  lemma GapArithmetic(x: real, y: real, unit: real)
    ensures Sq(Mul(x, unit) - Mul(y, unit)) == Mul(Sq(x - y), Sq(unit))
  {
    assert Mul(x, unit) - Mul(y, unit) == Mul(x - y, unit);
  }

  // Closing the gap by two lowers the variance by the gap less one, in squared units.
  lemma GapCloses(gap: int, unit: real)
    ensures GapVariance(gap - 2, unit) - GapVariance(gap, unit) == -Mul((gap - 1) as real, Sq(unit))
  {
    hide Sq;
    GapSquares(gap as real);
    GapScaled(Sq((gap - 2) as real), Sq(gap as real), (gap - 1) as real, Sq(unit));
  }

  lemma GapSquares(gap: real)
    ensures Sq(gap - 2.0) - Sq(gap) == -4.0 * (gap - 1.0)
  {
  }

  lemma GapScaled(a: real, b: real, step: real, u: real)
    requires a - b == -4.0 * step
    ensures Mul(a, u) / 4.0 - Mul(b, u) / 4.0 == -Mul(step, u)
  {
  }

  lemma WiderGap(small: int, gap: int, unit: real)
    requires 0 <= small <= gap
    ensures GapVariance(small, unit) <= GapVariance(gap, unit)
  {
    hide Mul, Sq;
    SqWithin(small as real, gap as real);
    SqNonNegative(unit);
    ScaleRight(Sq(small as real), Sq(gap as real), Sq(unit));
  }

  lemma ScaleRight(x: real, y: real, d: real)
    requires d >= 0.0 && x <= y
    ensures Mul(x, d) <= Mul(y, d)
  {
    MulMonotone(d, x, y);
    assert Mul(x, d) == Mul(d, x) && Mul(y, d) == Mul(d, y);
  }

  // ---------------------------------------------------------------- the walk

  /** Two nodes of capacity c where class preference rules nothing out. */
  ghost predicate EvenPair(env: Env, c: nat) {
    && c > 0
    && env.sizes == map["hot" := EvenSize(c), "cold" := EvenSize(c)]
    && PositiveWeights(env.weights)
    && (env.preferred == {} || Preferred(env, "cold"))
  }

  /** Pods on the hot node that ask for one core and one byte each and fit the cold one. */
  ghost predicate UnitPods(env: Env, pods: seq<Pod>) {
    && (forall p | p in pods ::
          p.nodeName == "hot" && p.milliCPU == 1000 && p.bytes == 1 && (p.name, "cold") in env.fits)
    && forall i, j | 0 <= i < j < |pods| :: pods[i].name != pods[j].name
  }

  ghost function PairState(x: nat, y: nat, unit: real, plan: seq<Move>, visited: set<PodName>): (st: State)
    ensures st.usage == TwoLevels(x, y) && st.plan == plan && st.visited == visited
    ensures st.variance == GapVariance(x - y, unit)
  {
    State(TwoLevels(x, y), TwoUtil(x, y, unit), GapVariance(x - y, unit), plan, visited)
  }

  lemma UnitDemand(pod: Pod)
    requires pod.milliCPU == 1000 && pod.bytes == 1
    ensures Demand(pod) == Level(1)
  {
  }

  lemma MoveOneLevel(env: Env, c: nat, x: nat, y: nat, util: map<string, real>)
    requires EvenPair(env, c) && x > 0 && util.Keys == {"hot", "cold"}
    ensures SimulatedUtil(env, TwoLevels(x, y), util, "hot", "cold", Level(1))
         == TwoUtil(x - 1, y + 1, Unit(c, env.weights))
    ensures Moved(TwoLevels(x, y), "hot", "cold", Level(1)) == TwoLevels(x - 1, y + 1)
  {
    hide Pressure, Mul, Unit;
    LevelPressure(x - 1, c, env.weights);
    LevelPressure(y + 1, c, env.weights);
    assert Floored(Lighter(Level(x), Level(1))) == Level(x - 1);
    assert Heavier(Level(y), Level(1)) == Level(y + 1);
  }

  function UnitMove(env: Env, name: PodName, gap: int, unit: real): Move {
    Move(name, "hot", "cold", Level(1), Bias(env, "cold") - Mul((gap - 1) as real, Sq(unit)))
  }

  lemma MovedUnit(env: Env, c: nat, x: nat, y: nat, plan: seq<Move>, visited: set<PodName>, pod: Pod)
    requires EvenPair(env, c) && UnitPods(env, [pod]) && x > 0
    ensures var unit := Unit(c, env.weights);
            MovedTo(env, PairState(x, y, unit, plan, visited), pod, "cold")
            == PairState(x - 1, y + 1, unit, plan + [UnitMove(env, pod.name, x - y, unit)], visited + {pod.name})
  {
    hide Variance, SimulatedUtil, Moved, Demand, Bias, GapVariance, Unit, Mul, Sq;
    var unit := Unit(c, env.weights);
    assert pod in [pod];
    UnitDemand(pod);
    MoveOneLevel(env, c, x, y, TwoUtil(x, y, unit));
    TwoUtilVariance(x - 1, y + 1, unit);
    GapCloses(x - y, unit);
  }

  /** The moves of a plan that starts with the given gap. */
  function UnitMoves(env: Env, pods: seq<Pod>, gap: int, unit: real): (moves: seq<Move>)
    ensures |moves| == |pods|
    ensures forall i | 0 <= i < |pods| :: moves[i] == UnitMove(env, pods[i].name, gap - 2 * i, unit)
  {
    seq(|pods|, i requires 0 <= i < |pods| => UnitMove(env, pods[i].name, gap - 2 * i, unit))
  }

  lemma NoUnitMoves(env: Env, gap: int, unit: real)
    ensures UnitMoves(env, [], gap, unit) == []
  {
  }

  lemma UnitMovesSplit(env: Env, pods: seq<Pod>, gap: int, unit: real)
    requires pods != []
    ensures UnitMoves(env, pods, gap, unit)
         == [UnitMove(env, pods[0].name, gap, unit)] + UnitMoves(env, pods[1..], gap - 2, unit)
  {
    hide UnitMove;
    var moves, first, rest :=
      UnitMoves(env, pods, gap, unit), UnitMove(env, pods[0].name, gap, unit), UnitMoves(env, pods[1..], gap - 2, unit);
    forall i | 0 < i < |pods| ensures moves[i] == rest[i - 1] {
      assert pods[1..][i - 1] == pods[i] && gap - 2 * i == gap - 2 - 2 * (i - 1);
    }
  }

  /** The gap is wide enough for all pods, and the target is not reached before the last. */
  predicate WideGap(gap: int, n: nat, unit: real, target: real) {
    gap >= 2 * n && (n > 1 ==> GapVariance(gap - 2 * n + 2, unit) > target)
  }

  lemma PairStep(env: Env, c: nat, x: nat, y: nat, plan: seq<Move>, visited: set<PodName>, pods: seq<Pod>)
    requires EvenPair(env, c) && UnitPods(env, pods) && pods != [] && pods[0].name !in visited
    requires WideGap(x - y, |pods|, Unit(c, env.weights), env.target)
    ensures var unit := Unit(c, env.weights);
            Walk(env, COLD, PairState(x, y, unit, plan, visited), pods)
            == Walk(env, COLD, PairState(x - 1, y + 1, unit, plan + [UnitMove(env, pods[0].name, x - y, unit)],
                                         visited + {pods[0].name}), pods[1..])
  {
    hide Walk, UnitMove, MovedTo, GapVariance, Unit, EvenPair, TwoLevels, PairState, OnlyTarget, Mul, Sq;
    PairKeys(env, c, x, y);
    assert UnitPods(env, [pods[0]]) by { assert pods[0] in pods; }
    PairOnlyTarget(env, c, pods[0]);
    MovedUnit(env, c, x, y, plan, visited, pods[0]);
    PairImproves(env, c, x - y, |pods|);
    OnlyTargetWalk(env, COLD, PairState(x, y, Unit(c, env.weights), plan, visited), pods, "cold");
  }

  lemma PairRest(env: Env, c: nat, gap: int, pods: seq<Pod>, visited: set<PodName>)
    requires c > 0 && UnitPods(env, pods) && Unvisited(pods, visited) && pods != []
    requires WideGap(gap, |pods|, Unit(c, env.weights), env.target)
    ensures UnitPods(env, pods[1..]) && Unvisited(pods[1..], visited + {pods[0].name})
    ensures WideGap(gap - 2, |pods[1..]|, Unit(c, env.weights), env.target) && pods[0].name !in visited && gap >= 2
  {
    hide GapVariance, Unit;
    assert pods[0] in pods;
    assert gap - 2 - 2 * |pods[1..]| + 2 == gap - 2 * |pods| + 2;
  }

  // All pods are moved in turn.
  lemma {:induction false} PairWalk(env: Env, c: nat, x: nat, y: nat, plan: seq<Move>, visited: set<PodName>,
                                    pods: seq<Pod>)
    requires EvenPair(env, c) && UnitPods(env, pods) && Unvisited(pods, visited)
    requires WideGap(x - y, |pods|, Unit(c, env.weights), env.target)
    ensures var unit := Unit(c, env.weights);
            Walk(env, COLD, PairState(x, y, unit, plan, visited), pods).plan
            == plan + UnitMoves(env, pods, x - y, unit)
    decreases |pods|
  {
    hide Walk, UnitMove, UnitMoves, GapVariance, Unit, EvenPair, TwoLevels, PairState, UnitPods, Unvisited, WideGap;
    PairKeys(env, c, x, y);
    var unit := Unit(c, env.weights);
    if pods == [] {
      WalkEnds(env, COLD, PairState(x, y, unit, plan, visited));
      NoUnitMoves(env, x - y, unit);
    } else {
      var m := UnitMove(env, pods[0].name, x - y, unit);
      PairRest(env, c, x - y, pods, visited);
      PairStep(env, c, x, y, plan, visited, pods);
      PairWalk(env, c, x - 1, y + 1, plan + [m], visited + {pods[0].name}, pods[1..]);
      UnitMovesSplit(env, pods, x - y, unit);
      assert x - 1 - (y + 1) == x - y - 2;
    }
  }

  lemma PairKeys(env: Env, c: nat, x: nat, y: nat)
    requires EvenPair(env, c)
    ensures TwoLevels(x, y).Keys == env.sizes.Keys && c > 0
  {
  }

  lemma PairOnlyTarget(env: Env, c: nat, pod: Pod)
    requires EvenPair(env, c) && UnitPods(env, [pod])
    ensures OnlyTarget(env, COLD, pod, "cold")
  {
    assert pod in [pod];
  }

  lemma PairImproves(env: Env, c: nat, gap: int, n: nat)
    requires EvenPair(env, c) && n > 0 && gap >= 2 * n
    ensures var unit := Unit(c, env.weights);
            && GapVariance(gap - 2, unit) < GapVariance(gap, unit)
            && (n > 1 ==> GapVariance(gap - 2 * n + 2, unit) <= GapVariance(gap - 2, unit))
  {
    hide GapVariance, Mul, Sq;
    var unit := Unit(c, env.weights);
    QuotientSign(env.weights.cpu + env.weights.memory, c as real);
    SqNonNegative(unit);
    SameSignProduct((gap - 1) as real, Sq(unit));
    GapCloses(gap, unit);
    if n > 1 {
      WiderGap(gap - 2 * n + 2, gap - 2, unit);
    }
  }
}
