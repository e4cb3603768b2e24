/**
 * Bounded breadth-first expansion of a platform's route tree. The model's decisions, the child
 * registry reads and the clock answer each call however they like; `World` records their answers by
 * the step and the position at which they are asked.
 */
module RouteExpansion {
  import opened Wrappers

  datatype Candidate = Candidate(slug: string, path: string, displayName: string, depth: nat)

  datatype Decision = Decision(selectedSlugs: seq<string>, rationale: string)

  datatype Trace = Trace(platformPath: string, decision: Decision)

  datatype Node = Node(path: string, candidates: seq<Candidate>, depth: nat)

  datatype Routing = Routing(routePlan: seq<Candidate>, trace: seq<Trace>, truncated: bool)

  /**
   * Answers of the outside: a decision (`None` when the call throws), the children of a selected path
   * (`None` when the read fails or passes the deadline), and whether there is time left at each turn
   * of the loop and at the end.
   */
  datatype World = World(
    decide: (nat, string, seq<Candidate>) -> Option<Decision>,
    load: (nat, nat, string) -> Option<seq<Candidate>>,
    onTime: nat -> bool,
    onTimeAtEnd: bool)

  datatype Bounds = Bounds(maxSteps: nat, maxDepth: nat, maxFanout: nat)

  const PROTOCOL_MAX_STEPS: nat := 16
  const DEFAULT_MAX_STEPS: nat := 8
  const PROTOCOL_MAX_HOPS: nat := 32
  const DEFAULT_MAX_FANOUT: nat := 4
  const MAX_SAFE_INTEGER: int := 9007199254740991

  function Min(a: int, b: int): int {
    if a <= b then a else b
  }

  /** `None` stands for a missing value or one that is not an integer. */
  predicate IsSafeInteger(value: Option<int>) {
    value.Some? && -MAX_SAFE_INTEGER <= value.value <= MAX_SAFE_INTEGER
  }

  /** The bound is the setting moved into range, or the default when there is no proper setting. */
  predicate Setting(value: Option<int>, fallback: nat, maximum: nat, bound: nat) {
    if !IsSafeInteger(value) then bound == fallback
    else if 1 <= value.value <= maximum then bound == value.value
    else bound == if value.value < 1 then 1 else maximum
  }

  function BoundedPositiveInteger(value: Option<int>, fallback: nat, maximum: nat): (r: nat)
    requires 1 <= fallback <= maximum
    ensures 1 <= r <= maximum
    ensures Setting(value, fallback, maximum, r)
  {
    if IsSafeInteger(value) then
      if Min(maximum, value.value) < 1 then 1 else Min(maximum, value.value)
    else fallback
  }

  predicate BoundsOk(b: Bounds) {
    && 1 <= b.maxSteps <= PROTOCOL_MAX_STEPS && 1 <= b.maxDepth <= PROTOCOL_MAX_STEPS
    && 1 <= b.maxFanout <= DEFAULT_MAX_FANOUT * 4
  }

  function BoundsOf(steps: Option<int>, depth: Option<int>, fanout: Option<int>): (b: Bounds)
    ensures BoundsOk(b)
    ensures Setting(steps, DEFAULT_MAX_STEPS, PROTOCOL_MAX_STEPS, b.maxSteps)
    ensures Setting(depth, b.maxSteps, PROTOCOL_MAX_STEPS, b.maxDepth)
    ensures Setting(fanout, DEFAULT_MAX_FANOUT, DEFAULT_MAX_FANOUT * 4, b.maxFanout)
  {
    var maxSteps := BoundedPositiveInteger(steps, DEFAULT_MAX_STEPS, PROTOCOL_MAX_STEPS);
    Bounds(
      maxSteps,
      BoundedPositiveInteger(depth, maxSteps, PROTOCOL_MAX_STEPS),
      BoundedPositiveInteger(fanout, DEFAULT_MAX_FANOUT, DEFAULT_MAX_FANOUT * 4))
  }

  // ----- one step of the bounded expansion -----

  /** A map built from the candidates in order: the last of equal slugs wins. */
  function Find(candidates: seq<Candidate>, slug: string): (r: Option<Candidate>)
    ensures r.Some? ==> r.value in candidates && r.value.slug == slug
    ensures r.None? ==> forall c :: c in candidates ==> c.slug != slug
  {
    if candidates == [] then None else
      var last := candidates[|candidates| - 1];
      if last.slug == slug then Some(last) else Find(candidates[..|candidates| - 1], slug)
  }

  function Known(candidates: seq<Candidate>, slugs: seq<string>): (r: seq<Candidate>)
    ensures |r| <= |slugs|
  {
    if slugs == [] then [] else
      var found := Find(candidates, slugs[|slugs| - 1]);
      Known(candidates, slugs[..|slugs| - 1]) + if found.Some? then [found.value] else []
  }

  function Taken(slugs: seq<string>, b: Bounds, hops: nat): seq<string> {
    var limit: nat := Min(b.maxFanout, if hops <= PROTOCOL_MAX_HOPS then PROTOCOL_MAX_HOPS - hops else 0);
    slugs[..Min(limit, |slugs|)]
  }

  function Placed(selected: seq<Candidate>, depth: nat): seq<Candidate> {
    seq(|selected|, i requires 0 <= i < |selected| => selected[i].(depth := depth))
  }

  datatype Intake = Intake(queue: seq<Node>, visited: set<string>, truncated: bool)

  /** Queues a selected child that has children itself, guarding depth and cycles. */
  function EnqueueOne(w: World, b: Bounds, k: nat, depth: nat, c: Candidate, j: nat, q: Intake): Intake {
    match w.load(k, j, c.path)
    case None => q.(truncated := true)
    case Some(children) =>
      if children == [] then q
      else if depth >= b.maxDepth || c.path in q.visited then q.(truncated := true)
      else Intake(q.queue + [Node(c.path, children, depth)], q.visited + {c.path}, q.truncated)
  }

  /** Queues the first `n` selected children. */
  function Enqueue(w: World, b: Bounds, k: nat, depth: nat, selected: seq<Candidate>, n: nat, start: Intake): Intake
    requires n <= |selected|
  {
    if n == 0 then start
    else EnqueueOne(w, b, k, depth, selected[n - 1], n - 1, Enqueue(w, b, k, depth, selected, n - 1, start))
  }

  /** `decided` lists the nodes behind the trace, in order. */
  datatype State = State(
    queue: seq<Node>, visited: set<string>, decided: seq<Node>, trace: seq<Trace>, plan: seq<Candidate>,
    truncated: bool)

  datatype Routed = Routed(decision: Decision, selected: seq<Candidate>, intake: Intake)

  /** Decision `k`, asked at a node when the plan has `hops` hops; `start` is the queue without the node. */
  function Route(w: World, b: Bounds, k: nat, node: Node, hops: nat, start: Intake): Option<Routed> {
    match w.decide(k, node.path, node.candidates)
    case None => None
    case Some(decision) =>
      var slugs := Taken(decision.selectedSlugs, b, hops);
      var selected := Known(node.candidates, slugs);
      var cut := |slugs| < |decision.selectedSlugs| || |selected| < |slugs|;
      Some(Routed(decision, selected,
                  Enqueue(w, b, k, node.depth + 1, selected, |selected|, start.(truncated := start.truncated || cut))))
  }

  function After(st: State, r: Routed): State
    requires st.queue != []
  {
    var node := st.queue[0];
    State(r.intake.queue, r.intake.visited, st.decided + [node], st.trace + [Trace(node.path, r.decision)],
          st.plan + Placed(r.selected, node.depth + 1), r.intake.truncated)
  }

  function Advance(w: World, b: Bounds, st: State): Option<State>
    requires st.queue != []
  {
    var r := Route(w, b, |st.decided|, st.queue[0], |st.plan|, Intake(st.queue[1..], st.visited, st.truncated));
    if r.None? then None else Some(After(st, r.value))
  }

  predicate Goes(w: World, b: Bounds, st: State) {
    st.queue != [] && |st.decided| < b.maxSteps && w.onTime(|st.decided|)
  }

  lemma AdvanceDecides(w: World, b: Bounds, st: State)
    requires st.queue != [] && Advance(w, b, st).Some?
    ensures |Advance(w, b, st).value.decided| == |st.decided| + 1
  {
  }

  function Loop(w: World, b: Bounds, st: State): Option<State>
    decreases b.maxSteps - |st.decided|
  {
    if !Goes(w, b, st) then Some(st) else
      var next := Advance(w, b, st);
      if next.None? then None else
        AdvanceDecides(w, b, st);
        Loop(w, b, next.value)
  }

  function Initial(path: string, candidates: seq<Candidate>): State {
    State([Node(path, candidates, 0)], {path}, [], [], [], false)
  }

  function Finish(w: World, st: State): Routing {
    Routing(st.plan, st.trace, st.truncated || st.queue != [] || !w.onTimeAtEnd)
  }

  /** What an expansion returns, as a function of the outside's answers; `None` when a decision throws. */
  function Expanded(w: World, b: Bounds, path: string, candidates: seq<Candidate>): Option<Routing> {
    var end := Loop(w, b, Initial(path, candidates));
    if end.None? then None else Some(Finish(w, end.value))
  }

  // ----- the loop itself -----

  method SelectKnown(candidates: seq<Candidate>, slugs: seq<string>) returns (selected: seq<Candidate>)
    ensures selected == Known(candidates, slugs)
  {
    selected := [];
    for i := 0 to |slugs|
      invariant selected == Known(candidates, slugs[..i])
    {
      assert slugs[..i + 1][..i] == slugs[..i];
      var found := Find(candidates, slugs[i]);
      if found.Some? {
        selected := selected + [found.value];
      }
    }
    assert slugs[..|slugs|] == slugs;
  }

  method EnqueueLoaded(w: World, b: Bounds, k: nat, depth: nat, selected: seq<Candidate>, start: Intake)
      returns (q: Intake)
    ensures q == Enqueue(w, b, k, depth, selected, |selected|, start)
  {
    var queue, visited, truncated := start.queue, start.visited, start.truncated;
    for i := 0 to |selected|
      invariant Intake(queue, visited, truncated) == Enqueue(w, b, k, depth, selected, i, start)
    {
      var candidate := selected[i];
      var children := w.load(k, i, candidate.path);
      if children.None? {
        truncated := true;
      } else if children.value == [] {
      } else if depth >= b.maxDepth || candidate.path in visited {
        truncated := true;
      } else {
        visited := visited + {candidate.path};
        queue := queue + [Node(candidate.path, children.value, depth)];
      }
    }
    q := Intake(queue, visited, truncated);
  }

  method RouteNode(w: World, b: Bounds, k: nat, node: Node, hops: nat, start: Intake) returns (r: Option<Routed>)
    ensures r == Route(w, b, k, node, hops, start)
  {
    var decision := w.decide(k, node.path, node.candidates);
    if decision.None? {
      return None;
    }
    var truncated := start.truncated;
    var slugs := Taken(decision.value.selectedSlugs, b, hops);
    if |slugs| < |decision.value.selectedSlugs| {
      truncated := true;
    }
    var selected := SelectKnown(node.candidates, slugs);
    if |selected| < |slugs| {
      truncated := true;
    }
    var q := EnqueueLoaded(w, b, k, node.depth + 1, selected, start.(truncated := truncated));
    r := Some(Routed(decision.value, selected, q));
  }

  method ExpandWithin(w: World, b: Bounds, path: string, candidates: seq<Candidate>) returns (r: Option<Routing>)
    ensures r == Expanded(w, b, path, candidates)
  {
    var trace: seq<Trace>, routePlan: seq<Candidate> := [], [];
    var queue := [Node(path, candidates, 0)];
    var visited, truncated := {path}, false;
    ghost var decided: seq<Node> := [];
    while queue != [] && |trace| < b.maxSteps && w.onTime(|trace|)
      invariant |trace| == |decided|
      invariant Loop(w, b, State(queue, visited, decided, trace, routePlan, truncated)) ==
                Loop(w, b, Initial(path, candidates))
      decreases b.maxSteps - |trace|
    {
      ghost var st := State(queue, visited, decided, trace, routePlan, truncated);
      var node := queue[0];
      var routed := RouteNode(w, b, |trace|, node, |routePlan|, Intake(queue[1..], visited, truncated));
      if routed.None? {
        return None;
      }
      trace := trace + [Trace(node.path, routed.value.decision)];
      routePlan := routePlan + Placed(routed.value.selected, node.depth + 1);
      queue, visited, truncated := routed.value.intake.queue, routed.value.intake.visited,
          routed.value.intake.truncated;
      decided := decided + [node];
      assert Advance(w, b, st) == Some(State(queue, visited, decided, trace, routePlan, truncated));
    }
    r := Some(Routing(routePlan, trace, truncated || queue != [] || !w.onTimeAtEnd));
  }

  method ExpandPlatformRouteTree(w: World, path: string, candidates: seq<Candidate>,
                                 steps: Option<int>, depth: Option<int>, fanout: Option<int>)
      returns (r: Option<Routing>)
    ensures r == Expanded(w, BoundsOf(steps, depth, fanout), path, candidates)
  {
    r := ExpandWithin(w, BoundsOf(steps, depth, fanout), path, candidates);
  }
}
