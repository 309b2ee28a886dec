/** What the greedy planner computes, as functions over values. */
module Greedy {
  import opened Imbalance
  import opened Cluster

  /** What stays fixed while a plan is made. */
  datatype Env = Env(
    sizes: map<string, Size>,
    classes: map<string, set<string>>,
    fits: set<(PodName, string)>,
    weights: Weights,
    preferred: set<string>,
    target: real)

  // ---------------------------------------------------------------- usage

  function Floored(u: Usage): Usage {
    u.(memory := if u.memory < 0 then 0 else u.memory)
  }

  function Lighter(u: Usage, request: Usage): Usage {
    Usage(if u.cpu - request.cpu < 0.0 then 0.0 else u.cpu - request.cpu, u.memory - request.memory)
  }

  function Heavier(u: Usage, request: Usage): Usage {
    Usage(u.cpu + request.cpu, u.memory + request.memory)
  }

  /** Node usages after a pod has gone: CPU is floored at zero on the source, memory is not. */
  function Moved(usage: map<string, Usage>, from: string, to: string, request: Usage): (r: map<string, Usage>)
    ensures r.Keys == usage.Keys
  {
    if from !in usage || to !in usage then
      usage
    else
      var lighter := usage[from := Lighter(usage[from], request)];
      lighter[to := Heavier(lighter[to], request)]
  }

  function Replay(usage: map<string, Usage>, moves: seq<Move>): (r: map<string, Usage>)
    ensures r.Keys == usage.Keys
  {
    if moves == [] then
      usage
    else
      var last := moves[|moves| - 1];
      Moved(Replay(usage, moves[..|moves| - 1]), last.from, last.to, last.request)
  }

  /** Utilization as nodes are classified by it. */
  ghost function PressureOf(sizes: map<string, Size>, usage: map<string, Usage>, w: Weights): (util: map<string, real>)
    requires usage.Keys <= sizes.Keys
    ensures util.Keys == usage.Keys
  {
    map n | n in usage :: Pressure(usage[n], sizes[n], w)
  }

  /** Nodes are classified, and a plan starts, with weights of zero and zero replaced by the defaults. */
  ghost function ClassifiedUtil(env: Env, usage: map<string, Usage>): (util: map<string, real>)
    requires usage.Keys == env.sizes.Keys
    ensures util.Keys == usage.Keys
  {
    PressureOf(env.sizes, usage, EffectiveWeights(env.weights))
  }

  /** Utilization recomputed from usage, with memory floored at zero. */
  function UtilOf(env: Env, usage: map<string, Usage>): (util: map<string, real>)
    requires usage.Keys <= env.sizes.Keys
    ensures util.Keys == usage.Keys
  {
    map n | n in usage :: Pressure(Floored(usage[n]), env.sizes[n], env.weights)
  }

  // ---------------------------------------------------------------- one candidate

  /** The utilization the planner predicts for a move. */
  function SimulatedUtil(env: Env, usage: map<string, Usage>, util: map<string, real>, from: string, to: string,
                         request: Usage): (r: map<string, real>)
    requires usage.Keys == env.sizes.Keys
  {
    if from !in usage || to !in usage then
      util
    else
      util[from := Pressure(Floored(Lighter(usage[from], request)), env.sizes[from], env.weights)]
          [to := Pressure(Heavier(usage[to], request), env.sizes[to], env.weights)]
  }

  function ClassesOf(env: Env, node: string): set<string> {
    if node in env.classes then env.classes[node] else {}
  }

  predicate Preferred(env: Env, node: string) {
    ClassesOf(env, node) * env.preferred != {}
  }

  /** What class preference adds to the score of a target. */
  function Bias(env: Env, node: string): real {
    if env.preferred == {} then 0.0 else if Preferred(env, node) then -0.01 else 0.01
  }

  datatype Choice = Choice(to: string, util: map<string, real>, variance: real, score: real)

  ghost function Attempt(env: Env, usage: map<string, Usage>, util: map<string, real>, current: real, pod: Pod,
                         to: string): Choice
    requires usage.Keys == env.sizes.Keys
  {
    var after := SimulatedUtil(env, usage, util, pod.nodeName, to, Demand(pod));
    Choice(to, after, Variance(after), Variance(after) - current + Bias(env, to))
  }

  /** A cold node is eligible when the pod may be placed there and the score is negative. */
  ghost predicate Eligible(env: Env, usage: map<string, Usage>, util: map<string, real>, current: real, pod: Pod,
                           to: string)
    requires usage.Keys == env.sizes.Keys
  {
    (pod.name, to) in env.fits && Attempt(env, usage, util, current, pod, to).score < 0.0
  }

  /** The best of the cold nodes, tried in order: an eligible node replaces the best only with a lower variance. */
  ghost function Best(env: Env, usage: map<string, Usage>, util: map<string, real>, current: real, pod: Pod,
                      cold: seq<string>): Option<Choice>
    requires usage.Keys == env.sizes.Keys
  {
    if cold == [] then
      None
    else
      var best := Best(env, usage, util, current, pod, cold[..|cold| - 1]);
      var to := cold[|cold| - 1];
      var attempt := Attempt(env, usage, util, current, pod, to);
      if Eligible(env, usage, util, current, pod, to) && (best.None? || attempt.variance < best.value.variance) then
        Some(attempt)
      else
        best
  }

  // ---------------------------------------------------------------- the whole plan

  function Score(): Move -> real {
    (m: Move) => m.score
  }

  datatype State = State(
    usage: map<string, Usage>,
    util: map<string, real>,
    variance: real,
    plan: seq<Move>,
    visited: set<PodName>)

  ghost function Start(usage: map<string, Usage>, util: map<string, real>): State {
    State(usage, util, Variance(util), [], {})
  }

  ghost predicate Accepts(env: Env, cold: seq<string>, st: State, pod: Pod)
    requires st.usage.Keys == env.sizes.Keys
  {
    && pod.name !in st.visited
    && var best := Best(env, st.usage, st.util, st.variance, pod, cold);
       best.Some? && best.value.variance < st.variance
  }

  ghost function Step(env: Env, cold: seq<string>, st: State, pod: Pod): (r: State)
    requires st.usage.Keys == env.sizes.Keys
    ensures r.usage.Keys == st.usage.Keys
  {
    if !Accepts(env, cold, st, pod) then
      st
    else
      var c := Best(env, st.usage, st.util, st.variance, pod, cold).value;
      State(Moved(st.usage, pod.nodeName, c.to, Demand(pod)),
            c.util,
            c.variance,
            st.plan + [Move(pod.name, pod.nodeName, c.to, Demand(pod), c.score)],
            st.visited + {pod.name})
  }

  /** Walks the candidates, stopping right after an accepted move that reaches the target. */
  ghost function Walk(env: Env, cold: seq<string>, st: State, pods: seq<Pod>): (r: State)
    requires st.usage.Keys == env.sizes.Keys
    ensures r.usage.Keys == st.usage.Keys
    decreases |pods|
  {
    if pods == [] then
      st
    else
      var next := Step(env, cold, st, pods[0]);
      if Accepts(env, cold, st, pods[0]) && next.variance <= env.target then
        next
      else
        Walk(env, cold, next, pods[1..])
  }

  lemma WalkEnds(env: Env, cold: seq<string>, st: State)
    requires st.usage.Keys == env.sizes.Keys
    ensures Walk(env, cold, st, []) == st
  {
  }
}
