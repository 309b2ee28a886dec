/** Sequences of transfers between two groups of nodes, and what becomes of them when some are left out. */
module Transfers {
  import opened Arithmetic
  import opened Sums
  import opened Imbalance
  import opened Cluster

  /** Every move goes from a hot node to one that is not hot. */
  ghost predicate Downhill(hot: set<string>, v: map<string, real>, moves: seq<Move>) {
    forall m | m in moves :: m.from in v && m.to in v && m.from in hot && m.to !in hot
  }

  /** The list without its p-th element. */
  function Without<T>(s: seq<T>, p: nat): seq<T>
    requires p < |s|
  {
    s[..p] + s[p + 1..]
  }

  /** Each move takes off(move) from its source and puts on(move) on its target. */
  ghost function Shifts(hot: set<string>, v: map<string, real>, moves: seq<Move>, off: Move -> real, on: Move -> real)
    : (r: map<string, real>)
    requires Downhill(hot, v, moves)
    ensures r.Keys == v.Keys
  {
    if moves == [] then
      v
    else
      var last := moves[|moves| - 1];
      Carry(Shifts(hot, v, moves[..|moves| - 1], off, on), last.from, last.to, off(last), on(last))
  }

  lemma ShiftsAppend(hot: set<string>, v: map<string, real>, moves: seq<Move>, m: Move, off: Move -> real,
                     on: Move -> real)
    requires Downhill(hot, v, moves + [m])
    ensures Downhill(hot, v, moves)
    ensures Shifts(hot, v, moves + [m], off, on) == Carry(Shifts(hot, v, moves, off, on), m.from, m.to, off(m), on(m))
  {
    hide Carry;
    var longer := moves + [m];
    assert longer[..|longer| - 1] == moves;
    assert m in longer && forall k | k in moves :: k in longer;
  }

  lemma ShiftsStep(hot: set<string>, v: map<string, real>, moves: seq<Move>, i: nat, off: Move -> real,
                   on: Move -> real)
    requires Downhill(hot, v, moves) && i < |moves|
    ensures Downhill(hot, v, moves[..i]) && Downhill(hot, v, moves[..i + 1])
    ensures var m := moves[i];
            Shifts(hot, v, moves[..i + 1], off, on)
            == Carry(Shifts(hot, v, moves[..i], off, on), m.from, m.to, off(m), on(m))
  {
    assert moves[..i + 1] == moves[..i] + [moves[i]];
    ShiftsAppend(hot, v, moves[..i], moves[i], off, on);
  }

  lemma ShiftsCommute(v: map<string, real>, a: Move, b: Move, off: Move -> real, on: Move -> real)
    requires a.from in v && a.to in v && b.from in v && b.to in v
    ensures Carry(Carry(v, a.from, a.to, off(a), on(a)), b.from, b.to, off(b), on(b))
         == Carry(Carry(v, b.from, b.to, off(b), on(b)), a.from, a.to, off(a), on(a))
  {
  }

  // A move made somewhere in the middle could as well have been made last.
  lemma {:induction false} ShiftsMoveToEnd(hot: set<string>, v: map<string, real>, moves: seq<Move>, p: nat,
                                           off: Move -> real, on: Move -> real)
    requires Downhill(hot, v, moves) && p < |moves|
    ensures Downhill(hot, v, Without(moves, p))
    ensures var m := moves[p];
            Shifts(hot, v, moves, off, on)
            == Carry(Shifts(hot, v, Without(moves, p), off, on), m.from, m.to, off(m), on(m))
  {
    hide Carry;
    var n := |moves| - 1;
    if p == n {
      assert Without(moves, p) == moves[..n];
    } else {
      var prefix, last := moves[..n], moves[n];
      ShiftsMoveToEnd(hot, v, prefix, p, off, on);
      assert Without(moves, p) == Without(prefix, p) + [last];
      ShiftsAppend(hot, v, Without(prefix, p), last, off, on);
      ShiftsCommute(Shifts(hot, v, Without(prefix, p), off, on), moves[p], last, off, on);
    }
  }

  /** exec is some of the plan's moves, in any order. */
  ghost predicate Selection(exec: seq<Move>, plan: seq<Move>) {
    Distinct(exec) && Distinct(plan) && forall m | m in exec :: m in plan
  }

  // Peeling the last planned move off both lists.
  lemma SelectionPeel(exec: seq<Move>, plan: seq<Move>) returns (p: int)
    requires Selection(exec, plan) && plan != []
    ensures var n := |plan| - 1;
            if p < 0 then
              Selection(exec, plan[..n]) && plan[n] !in exec
            else
              p < |exec| && exec[p] == plan[n] && Selection(Without(exec, p), plan[..n])
  {
    var n := |plan| - 1;
    if plan[n] in exec {
      p :| 0 <= p < |exec| && exec[p] == plan[n];
      assert forall m | m in Without(exec, p) :: m in exec && m != plan[n];
    } else {
      p := -1;
    }
  }

  // Making only some of the moves leaves hot nodes no lower and other nodes no higher than making all of them.
  lemma {:induction false} SelectionBounds(hot: set<string>, v: map<string, real>, plan: seq<Move>, exec: seq<Move>,
                                           off: Move -> real, on: Move -> real)
    requires Downhill(hot, v, plan) && Selection(exec, plan)
    requires forall m | m in plan :: off(m) >= 0.0 && on(m) >= 0.0
    ensures Downhill(hot, v, exec)
    ensures forall n | n in v ::
              var some, all := Shifts(hot, v, exec, off, on)[n], Shifts(hot, v, plan, off, on)[n];
              if n in hot then some >= all else some <= all
    decreases |plan|
  {
    if plan != [] {
      var m := plan[|plan| - 1];
      var rest := plan[..|plan| - 1];
      var p := SelectionPeel(exec, plan);
      if p < 0 {
        SelectionBounds(hot, v, rest, exec, off, on);
      } else {
        SelectionBounds(hot, v, rest, Without(exec, p), off, on);
        ShiftsMoveToEnd(hot, v, exec, p, off, on);
      }
    }
  }

  // ---------------------------------------------------------------- how transfers overlap

  /** How much one transfer weakens another, half the loss of variance reduction: the covariance of the two, times n. */
  function Overlap(n: nat, m: Move, k: Move, off: Move -> real, on: Move -> real): real {
    Mul(n as real, (if m.from == k.from then Mul(off(m), off(k)) else 0.0) +
                   (if m.to == k.to then Mul(on(m), on(k)) else 0.0))
    - Mul(on(m) - off(m), on(k) - off(k))
  }

  function OverlapWith(n: nat, m: Move, off: Move -> real, on: Move -> real): Move -> real {
    (k: Move) => Overlap(n, m, k, off, on)
  }

  // A transfer changes the pull of another by their overlap.
  lemma CarryLean(hot: set<string>, u: map<string, real>, m: Move, k: Move, off: Move -> real, on: Move -> real)
    requires Downhill(hot, u, [m, k])
    ensures m.from in u && m.to in u && k.from in u && k.to in u
    ensures Lean(Carry(u, k.from, k.to, off(k), on(k)), m.from, m.to, off(m), on(m))
         == Lean(u, m.from, m.to, off(m), on(m)) + Overlap(|u|, m, k, off, on)
  {
    hide Sum;
    assert m in [m, k] && k in [m, k];
    var r := Carry(u, k.from, k.to, off(k), on(k));
    SumUpdate(u, k.from, u[k.from] - off(k));
    SumUpdate(u[k.from := u[k.from] - off(k)], k.to, u[k.to] + on(k));
    assert r.Keys == u.Keys && |r| == |r.Keys| == |u|;
    hide Mul;
    LeanArithmetic(|u| as real, Sum(u), Sum(r), off(m), on(m), off(k), on(k), u[m.from], u[m.to], r[m.from], r[m.to],
                   m.from == k.from, m.to == k.to);
  }

  lemma LeanArithmetic(n: real, sum: real, sum': real, a: real, b: real, a': real, b': real, x: real, y: real, x': real,
                       y': real, sameFrom: bool, sameTo: bool)
    requires sum' == sum - a' + b'
    requires x' == (if sameFrom then x - a' else x) && y' == if sameTo then y + b' else y
    ensures Mul(n, Mul(b, y') - Mul(a, x')) - Mul(b - a, sum')
         == Mul(n, Mul(b, y) - Mul(a, x)) - Mul(b - a, sum)
            + Mul(n, (if sameFrom then Mul(a, a') else 0.0) + (if sameTo then Mul(b, b') else 0.0))
            - Mul(b - a, b' - a')
  {
    var extra := (if sameFrom then Mul(a, a') else 0.0) + if sameTo then Mul(b, b') else 0.0;
    assert Mul(b, y') - Mul(a, x') == Mul(b, y) - Mul(a, x) + extra;
    assert Mul(n, Mul(b, y') - Mul(a, x')) == Mul(n, Mul(b, y) - Mul(a, x)) + Mul(n, extra);
  }

  // Every move made before adds its overlap to the pull of the next.
  lemma {:induction false} ShiftsLean(hot: set<string>, v: map<string, real>, moves: seq<Move>, m: Move,
                                      off: Move -> real, on: Move -> real)
    requires Downhill(hot, v, moves) && Downhill(hot, v, [m])
    ensures m.from in v && m.to in v
    ensures Lean(Shifts(hot, v, moves, off, on), m.from, m.to, off(m), on(m))
         == Lean(v, m.from, m.to, off(m), on(m)) + Total(OverlapWith(|v|, m, off, on), moves)
  {
    hide Lean, Overlap, Carry;
    assert m in [m];
    if moves != [] {
      var n := |moves| - 1;
      var k, before := moves[n], Shifts(hot, v, moves[..n], off, on);
      assert k in moves;
      ShiftsLean(hot, v, moves[..n], m, off, on);
      CarryLean(hot, before, m, k, off, on);
      assert |before| == |before.Keys| == |v.Keys| == |v|;
    }
  }

  // ---------------------------------------------------------------- what a selection achieves

  /** drop(m) is the change of variance when m is made after the moves planned before it. */
  ghost predicate Tracked(hot: set<string>, v: map<string, real>, plan: seq<Move>, off: Move -> real, on: Move -> real,
                          drop: Move -> real)
    requires Downhill(hot, v, plan)
  {
    forall i | 0 <= i < |plan| ::
      Variance(Shifts(hot, v, plan[..i + 1], off, on)) == Variance(Shifts(hot, v, plan[..i], off, on)) + drop(plan[i])
  }

  lemma TrackedPrefix(hot: set<string>, v: map<string, real>, plan: seq<Move>, off: Move -> real, on: Move -> real,
                      drop: Move -> real)
    requires plan != [] && Downhill(hot, v, plan) && Tracked(hot, v, plan, off, on, drop)
    ensures var rest, m := plan[..|plan| - 1], plan[|plan| - 1];
            && Downhill(hot, v, rest) && Downhill(hot, v, [m])
            && Tracked(hot, v, rest, off, on, drop)
            && var u := Shifts(hot, v, rest, off, on);
               Variance(Carry(u, m.from, m.to, off(m), on(m))) == Variance(u) + drop(m)
  {
    hide Variance, Carry, Shifts;
    var n := |plan| - 1;
    var rest := plan[..n];
    DownhillPrefix(hot, v, plan);
    forall i | 0 <= i < n
      ensures Variance(Shifts(hot, v, rest[..i + 1], off, on))
           == Variance(Shifts(hot, v, rest[..i], off, on)) + drop(rest[i])
    {
      assert rest[..i] == plan[..i] && rest[..i + 1] == plan[..i + 1];
    }
    ShiftsStep(hot, v, plan, n, off, on);
    assert plan[..n + 1] == plan;
  }

  lemma DownhillPrefix(hot: set<string>, v: map<string, real>, plan: seq<Move>)
    requires Downhill(hot, v, plan)
    ensures forall i | 0 <= i <= |plan| :: Downhill(hot, v, plan[..i])
    ensures forall i, j | 0 <= i <= j <= |plan| :: Downhill(hot, v, plan[..j][..i])
  {
  }

  /** f on the moves that are not carried out. */
  function Unless(exec: seq<Move>, f: Move -> real): Move -> real {
    (k: Move) => if k in exec then 0.0 else f(k)
  }

  /** The overlaps of every move carried out with the moves planned before it that were left out. */
  ghost function Missed(n: nat, exec: seq<Move>, plan: seq<Move>, off: Move -> real, on: Move -> real): real {
    if plan == [] then
      0.0
    else
      var rest, m := plan[..|plan| - 1], plan[|plan| - 1];
      Missed(n, exec, rest, off, on) + if m in exec then Total(Unless(exec, OverlapWith(n, m, off, on)), rest) else 0.0
  }

  // Only membership matters.
  lemma {:induction false} MissedSame(n: nat, exec: seq<Move>, exec': seq<Move>, plan: seq<Move>, off: Move -> real,
                                      on: Move -> real)
    requires forall m | m in plan :: m in exec <==> m in exec'
    ensures Missed(n, exec, plan, off, on) == Missed(n, exec', plan, off, on)
    decreases |plan|
  {
    hide Total, OverlapWith;
    if plan != [] {
      var rest, m := plan[..|plan| - 1], plan[|plan| - 1];
      MissedSame(n, exec, exec', rest, off, on);
      TotalSame(Unless(exec, OverlapWith(n, m, off, on)), Unless(exec', OverlapWith(n, m, off, on)), rest);
    }
  }

  lemma {:induction false} MissedByNothing(n: nat, plan: seq<Move>, off: Move -> real, on: Move -> real)
    ensures Missed(n, [], plan, off, on) == 0.0
    decreases |plan|
  {
    if plan != [] {
      MissedByNothing(n, plan[..|plan| - 1], off, on);
    }
  }

  lemma SelectedFromNothing(exec: seq<Move>)
    requires Selection(exec, [])
    ensures exec == []
  {
    assert forall m :: m in multiset(exec) ==> m in exec;
    assert multiset(exec) == multiset{};
    assert |multiset(exec)| == |exec|;
  }

  // A sum over the plan is the sum over what is carried out and over what is not.
  lemma {:induction false} TotalSplits(f: Move -> real, exec: seq<Move>, plan: seq<Move>)
    requires Selection(exec, plan)
    ensures Total(f, plan) == Total(f, exec) + Total(Unless(exec, f), plan)
    decreases |plan|
  {
    if plan == [] {
      SelectedFromNothing(exec);
    } else {
      hide Selection;
      var rest, m := plan[..|plan| - 1], plan[|plan| - 1];
      var p := SelectionPeel(exec, plan);
      if p < 0 {
        TotalSplits(f, exec, rest);
      } else {
        var others := Without(exec, p);
        TotalSplits(f, others, rest);
        TotalRemove(f, exec, p);
        WithoutMembers(exec, plan, p);
        TotalSame(Unless(others, f), Unless(exec, f), rest);
      }
    }
  }

  lemma WithoutMembers(exec: seq<Move>, plan: seq<Move>, p: nat)
    requires Selection(exec, plan) && plan != [] && p < |exec| && exec[p] == plan[|plan| - 1]
    ensures forall k | k in plan[..|plan| - 1] :: k in Without(exec, p) <==> k in exec
  {
    forall k | k in plan[..|plan| - 1] && k in exec ensures k in Without(exec, p) {
      var i :| 0 <= i < |exec| && exec[i] == k;
      assert i != p;
      assert Without(exec, p)[if i < p then i else i - 1] == k;
    }
  }

  // A move made without some of the moves planned before it gains twice its overlaps with them.
  lemma GainWithout(hot: set<string>, v: map<string, real>, others: seq<Move>, rest: seq<Move>, m: Move,
                    off: Move -> real, on: Move -> real, drop: real)
    requires Downhill(hot, v, rest) && Downhill(hot, v, others) && Downhill(hot, v, [m]) && Selection(others, rest)
    requires m.from in v && m.to in v
    requires var u := Shifts(hot, v, rest, off, on);
             Variance(Carry(u, m.from, m.to, off(m), on(m))) == Variance(u) + drop
    ensures var w := Shifts(hot, v, others, off, on);
            Mul(Sq(|v| as real), Variance(Carry(w, m.from, m.to, off(m), on(m))) - Variance(w))
            == Mul(Sq(|v| as real), drop) - 2.0 * Total(Unless(others, OverlapWith(|v|, m, off, on)), rest)
  {
    hide Lean, OverlapWith, Carry, Variance, Total, Selection, Sq, Mul, Shifts;
    assert m in [m];
    var w, u := Shifts(hot, v, others, off, on), Shifts(hot, v, rest, off, on);
    assert |w| == |w.Keys| == |u.Keys| == |u| == |v.Keys| == |v|;
    ShiftsLean(hot, v, others, m, off, on);
    ShiftsLean(hot, v, rest, m, off, on);
    TotalSplits(OverlapWith(|v|, m, off, on), others, rest);
    VarianceOfCarry(w, m.from, m.to, off(m), on(m));
    VarianceOfCarry(u, m.from, m.to, off(m), on(m));
  }

  lemma GainsAddUp(s: real, after: real, between: real, before: real, drop: real, drops: real, missed: real,
                   extra: real)
    requires Mul(s, between - before) == Mul(s, drops) - 2.0 * missed
    requires Mul(s, after - between) == Mul(s, drop) - 2.0 * extra
    ensures Mul(s, after - before) == Mul(s, drops + drop) - 2.0 * (missed + extra)
  {
    assert Mul(s, after - before) == Mul(s, after - between) + Mul(s, between - before);
    assert Mul(s, drops + drop) == Mul(s, drops) + Mul(s, drop);
  }

  lemma NothingSelected(hot: set<string>, v: map<string, real>, exec: seq<Move>, off: Move -> real, on: Move -> real,
                        drop: Move -> real)
    requires Selection(exec, [])
    ensures exec == [] && Mul(Sq(|v| as real), 0.0) == Mul(Sq(|v| as real), Total(drop, exec)) == 0.0
    ensures Missed(|v|, exec, [], off, on) == 0.0
  {
    SelectedFromNothing(exec);
    MulZero(Sq(|v| as real));
  }

  // What any selection of the moves, in any order, does to the variance, exactly: what the moves did in the plan, and
  // twice their overlaps with the earlier moves left out.
  lemma {:induction false} SelectionVariance(hot: set<string>, v: map<string, real>, plan: seq<Move>, exec: seq<Move>,
                                             off: Move -> real, on: Move -> real, drop: Move -> real)
    requires Downhill(hot, v, plan) && Selection(exec, plan) && Tracked(hot, v, plan, off, on, drop)
    ensures Downhill(hot, v, exec)
    ensures Mul(Sq(|v| as real), Variance(Shifts(hot, v, exec, off, on)) - Variance(v))
         == Mul(Sq(|v| as real), Total(drop, exec)) - 2.0 * Missed(|v|, exec, plan, off, on)
    decreases |plan|
  {
    hide Variance, Carry, Tracked, Sq, Mul, OverlapWith, Selection, Total, Unless;
    SelectionDownhill(hot, v, plan, exec);
    if plan == [] {
      NothingSelected(hot, v, exec, off, on, drop);
    } else {
      hide Shifts, Downhill;
      var m, rest := plan[|plan| - 1], plan[..|plan| - 1];
      TrackedPrefix(hot, v, plan, off, on, drop);
      var p := SelectionPeel(exec, plan);
      if p < 0 {
        SelectionVariance(hot, v, rest, exec, off, on, drop);
      } else {
        SelectionVariance(hot, v, rest, Without(exec, p), off, on, drop);
        PeeledGain(hot, v, plan, exec, p, off, on, drop);
      }
    }
  }

  lemma SelectionDownhill(hot: set<string>, v: map<string, real>, plan: seq<Move>, exec: seq<Move>)
    requires Downhill(hot, v, plan) && Selection(exec, plan)
    ensures Downhill(hot, v, exec)
  {
  }

  // Carrying out the last planned move as well.
  lemma PeeledGain(hot: set<string>, v: map<string, real>, plan: seq<Move>, exec: seq<Move>, p: nat,
                   off: Move -> real, on: Move -> real, drop: Move -> real)
    requires Downhill(hot, v, plan) && Downhill(hot, v, exec) && Tracked(hot, v, plan, off, on, drop) && plan != []
    requires Selection(exec, plan) && p < |exec| && exec[p] == plan[|plan| - 1]
    requires Downhill(hot, v, Without(exec, p)) && Selection(Without(exec, p), plan[..|plan| - 1])
    requires Mul(Sq(|v| as real), Variance(Shifts(hot, v, Without(exec, p), off, on)) - Variance(v))
          == Mul(Sq(|v| as real), Total(drop, Without(exec, p)))
             - 2.0 * Missed(|v|, Without(exec, p), plan[..|plan| - 1], off, on)
    ensures Mul(Sq(|v| as real), Variance(Shifts(hot, v, exec, off, on)) - Variance(v))
         == Mul(Sq(|v| as real), Total(drop, exec)) - 2.0 * Missed(|v|, exec, plan, off, on)
  {
    hide Variance, Carry, Tracked, Sq, Mul, OverlapWith, Selection, Total, Unless, Shifts, Downhill, Missed, Without;
    var m, rest, others := plan[|plan| - 1], plan[..|plan| - 1], Without(exec, p);
    var f := OverlapWith(|v|, m, off, on);
    TrackedPrefix(hot, v, plan, off, on, drop);
    DownhillOne(hot, v, m);
    ShiftsMoveToEnd(hot, v, exec, p, off, on);
    TotalWithout(drop, exec, p);
    GainWithout(hot, v, others, rest, m, off, on, drop(m));
    MissedRest(|v|, exec, plan, p, off, on);
    GainsAddUp(Sq(|v| as real), Variance(Shifts(hot, v, exec, off, on)), Variance(Shifts(hot, v, others, off, on)),
               Variance(v), drop(m), Total(drop, others), Missed(|v|, others, rest, off, on),
               Total(Unless(others, f), rest));
  }

  lemma TotalWithout(f: Move -> real, s: seq<Move>, p: nat)
    requires p < |s|
    ensures Total(f, s) == Total(f, Without(s, p)) + f(s[p])
  {
    TotalRemove(f, s, p);
  }

  lemma DownhillOne(hot: set<string>, v: map<string, real>, m: Move)
    requires Downhill(hot, v, [m])
    ensures m.from in v && m.to in v
  {
    assert m in [m];
  }

  lemma MissedRest(n: nat, exec: seq<Move>, plan: seq<Move>, p: nat, off: Move -> real, on: Move -> real)
    requires Selection(exec, plan) && plan != [] && p < |exec| && exec[p] == plan[|plan| - 1]
    ensures var rest, others, m := plan[..|plan| - 1], Without(exec, p), plan[|plan| - 1];
            Missed(n, exec, plan, off, on)
            == Missed(n, others, rest, off, on) + Total(Unless(others, OverlapWith(n, m, off, on)), rest)
  {
    hide Selection, Total, OverlapWith;
    var rest, others, m := plan[..|plan| - 1], Without(exec, p), plan[|plan| - 1];
    WithoutMembers(exec, plan, p);
    MissedSame(n, others, exec, rest, off, on);
    TotalSame(Unless(others, OverlapWith(n, m, off, on)), Unless(exec, OverlapWith(n, m, off, on)), rest);
  }

  // ---------------------------------------------------------------- when every selection keeps its gains

  /** No move works against one planned before it. */
  ghost predicate Compatible(n: nat, plan: seq<Move>, off: Move -> real, on: Move -> real) {
    forall i, j | 0 <= i < j < |plan| :: Overlap(n, plan[j], plan[i], off, on) >= 0.0
  }

  lemma {:induction false} TotalNonNegative(f: Move -> real, s: seq<Move>)
    requires forall m | m in s :: f(m) >= 0.0
    ensures Total(f, s) >= 0.0
  {
    if s != [] {
      TotalNonNegative(f, s[..|s| - 1]);
    }
  }

  lemma {:induction false} CompatibleMissesNothing(n: nat, exec: seq<Move>, plan: seq<Move>, off: Move -> real,
                                                   on: Move -> real)
    requires Compatible(n, plan, off, on)
    ensures Missed(n, exec, plan, off, on) >= 0.0
    decreases |plan|
  {
    hide Overlap, Total;
    if plan != [] {
      var rest, m := plan[..|plan| - 1], plan[|plan| - 1];
      CompatibleMissesNothing(n, exec, rest, off, on);
      forall k | k in rest ensures Unless(exec, OverlapWith(n, m, off, on))(k) >= 0.0 {
        var i :| 0 <= i < |rest| && plan[i] == k;
      }
      TotalNonNegative(Unless(exec, OverlapWith(n, m, off, on)), rest);
    }
  }

  // Moves between nodes of the same size never work against each other.
  lemma EqualLoadsOverlap(n: nat, m: Move, k: Move, off: Move -> real, on: Move -> real)
    requires on(m) == off(m) >= 0.0 && on(k) == off(k) >= 0.0
    ensures Overlap(n, m, k, off, on) >= 0.0
  {
    MulMonotone(off(m), 0.0, off(k));
    MulZero(off(m));
    ZeroTimes(on(k) - off(k));
    hide Mul;
    var sum := (if m.from == k.from then Mul(off(m), off(k)) else 0.0) +
               if m.to == k.to then Mul(on(m), on(k)) else 0.0;
    MulMonotone(n as real, 0.0, sum);
    MulZero(n as real);
  }

  // A change that comes with missed overlaps is a fall exactly when they do not outweigh what the moves did.
  lemma ScaledFall(n: nat, after: real, before: real, drops: real, missed: real)
    requires n > 0 && Mul(Sq(n as real), after - before) == Mul(Sq(n as real), drops) - 2.0 * missed
    ensures missed >= 0.0 <==> after <= before + drops
    ensures Mul(Sq(n as real), drops) < 2.0 * missed <==> after < before
  {
    var s := Sq(n as real);
    SqNonNegative(n as real);
    assert s > 0.0;
    hide Mul, Sq;
    ScaledOrder(s, after - before, drops);
    ScaledOrder(s, 0.0, after - before);
    MulZero(s);
  }
}
