/**
 * What a bounded route expansion guarantees whatever the outside answers, and when its result is the
 * whole unbounded breadth-first expansion.
 */
module RouteSafety {
  import opened Wrappers
  import opened RouteExpansion

  // ----- the shape of a result -----

  ghost function PathSet(nodes: seq<Node>): set<string> {
    if nodes == [] then {} else PathSet(nodes[..|nodes| - 1]) + {nodes[|nodes| - 1].path}
  }

  /** No path occurs twice. */
  ghost predicate Distinct(nodes: seq<Node>) {
    nodes != [] ==>
      var init := nodes[..|nodes| - 1];
      Distinct(init) && nodes[|nodes| - 1].path !in PathSet(init)
  }

  lemma DistinctSnoc(nodes: seq<Node>, x: Node)
    ensures Distinct(nodes + [x]) <==> Distinct(nodes) && x.path !in PathSet(nodes)
    ensures PathSet(nodes + [x]) == PathSet(nodes) + {x.path}
  {
    assert (nodes + [x])[..|nodes + [x]| - 1] == nodes;
  }

  lemma {:induction false} PathSetHas(nodes: seq<Node>, i: nat)
    requires i < |nodes|
    ensures nodes[i].path in PathSet(nodes)
  {
    if i < |nodes| - 1 {
      PathSetHas(nodes[..|nodes| - 1], i);
    }
  }

  lemma {:induction false} DistinctPair(nodes: seq<Node>, i: nat, j: nat)
    requires Distinct(nodes) && i < j < |nodes|
    ensures nodes[i].path != nodes[j].path
  {
    if j == |nodes| - 1 {
      PathSetHas(nodes[..j], i);
    } else {
      DistinctPair(nodes[..|nodes| - 1], i, j);
    }
  }

  lemma {:induction false} PrefixDistinct(a: seq<Node>, c: seq<Node>)
    requires Distinct(a + c)
    ensures Distinct(a)
    decreases |c|
  {
    if c == [] {
      assert a + c == a;
    } else {
      assert (a + c)[..|a + c| - 1] == a + c[..|c| - 1];
      PrefixDistinct(a, c[..|c| - 1]);
    }
  }

  /** The hops that the decision at a node adds to a plan of `hops` hops. */
  function Segment(b: Bounds, node: Node, decision: Decision, hops: nat): seq<Candidate> {
    Placed(Known(node.candidates, Taken(decision.selectedSlugs, b, hops)), node.depth + 1)
  }

  /** The plan of the first `n` decisions. */
  function PlanOf(b: Bounds, decided: seq<Node>, trace: seq<Trace>, n: nat): seq<Candidate>
    requires n <= |decided| == |trace|
  {
    if n == 0 then [] else
      var before := PlanOf(b, decided, trace, n - 1);
      before + Segment(b, decided[n - 1], trace[n - 1].decision, |before|)
  }

  function SegmentAt(b: Bounds, decided: seq<Node>, trace: seq<Trace>, i: nat): seq<Candidate>
    requires i < |decided| == |trace|
  {
    Segment(b, decided[i], trace[i].decision, |PlanOf(b, decided, trace, i)|)
  }

  /** The node is the `j`th hop of decision `i`, with the children loaded for it. */
  ghost predicate LoadedAt(w: World, b: Bounds, decided: seq<Node>, trace: seq<Trace>, node: Node, i: nat, j: nat) {
    && i < |decided| == |trace|
    && j < |SegmentAt(b, decided, trace, i)|
    && var hop := SegmentAt(b, decided, trace, i)[j];
      node.path == hop.path && node.depth == hop.depth && w.load(i, j, hop.path) == Some(node.candidates)
  }

  ghost predicate Loaded(w: World, b: Bounds, decided: seq<Node>, trace: seq<Trace>, node: Node, limit: nat) {
    exists i: nat, j: nat :: i < limit && LoadedAt(w, b, decided, trace, node, i, j)
  }

  /** Decision `i` was asked at its node, and that node is the root or a hop of an earlier decision. */
  ghost predicate Asked(w: World, b: Bounds, root: Node, decided: seq<Node>, trace: seq<Trace>, i: nat)
    requires i < |decided| == |trace|
  {
    && trace[i].platformPath == decided[i].path
    && w.decide(i, decided[i].path, decided[i].candidates) == Some(trace[i].decision)
    && decided[i].depth < b.maxDepth
    && (if i == 0 then decided[i] == root else Loaded(w, b, decided, trace, decided[i], i))
  }

  /**
   * The nodes decided account for the whole result: within the bounds, each path decided once, and
   * the plan made of the hops they select, in order.
   */
  ghost predicate Explains(w: World, b: Bounds, root: Node, decided: seq<Node>, r: Routing) {
    && |decided| == |r.trace| <= b.maxSteps
    && Distinct(decided)
    && (forall i :: 0 <= i < |decided| ==> Asked(w, b, root, decided, r.trace, i))
    && r.routePlan == PlanOf(b, decided, r.trace, |decided|)
    && |r.routePlan| <= PROTOCOL_MAX_HOPS
  }

  // ----- kept by every step -----

  ghost predicate Waits(w: World, b: Bounds, root: Node, st: State, node: Node) {
    && node.depth < b.maxDepth
    && (if st.decided == [] then node == root else Loaded(w, b, st.decided, st.trace, node, |st.decided|))
  }

  ghost predicate Inv(w: World, b: Bounds, root: Node, st: State) {
    && Explains(w, b, root, st.decided, Routing(st.plan, st.trace, st.truncated))
    && Distinct(st.decided + st.queue)
    && st.visited == PathSet(st.decided + st.queue)
    && (forall i :: 0 <= i < |st.queue| ==> Waits(w, b, root, st, st.queue[i]))
  }

  lemma {:induction false} PlanExtends(b: Bounds, decided: seq<Node>, trace: seq<Trace>, node: Node, t: Trace, n: nat)
    requires n <= |decided| == |trace|
    ensures PlanOf(b, decided + [node], trace + [t], n) == PlanOf(b, decided, trace, n)
  {
    if n > 0 {
      PlanExtends(b, decided, trace, node, t, n - 1);
    }
  }

  lemma LoadedExtends(w: World, b: Bounds, decided: seq<Node>, trace: seq<Trace>, node: Node, t: Trace, x: Node,
                      limit: nat)
    requires Loaded(w, b, decided, trace, x, limit) && |decided| == |trace|
    ensures Loaded(w, b, decided + [node], trace + [t], x, limit)
  {
    var i: nat, j: nat :| i < limit && LoadedAt(w, b, decided, trace, x, i, j);
    PlanExtends(b, decided, trace, node, t, i);
    assert LoadedAt(w, b, decided + [node], trace + [t], x, i, j);
  }

  ghost predicate Fresh(w: World, b: Bounds, k: nat, depth: nat, selected: seq<Candidate>, x: Node, j: nat) {
    && j < |selected| && x.path == selected[j].path && x.depth == depth < b.maxDepth
    && w.load(k, j, selected[j].path) == Some(x.candidates)
  }

  ghost predicate FreshSome(w: World, b: Bounds, k: nat, depth: nat, selected: seq<Candidate>, x: Node) {
    exists j: nat :: Fresh(w, b, k, depth, selected, x, j)
  }

  ghost predicate AllFresh(w: World, b: Bounds, k: nat, depth: nat, selected: seq<Candidate>, queue: seq<Node>,
                           from: nat) {
    forall i :: from <= i < |queue| ==> FreshSome(w, b, k, depth, selected, queue[i])
  }

  lemma Regroup(a: seq<Node>, c: seq<Node>, x: Node)
    ensures a + (c + [x]) == a + c + [x]
    ensures a + (c + []) == a + c
  {
  }

  lemma EnqueueOneKeeps(w: World, b: Bounds, k: nat, depth: nat, c: Candidate, j: nat, q: Intake, base: seq<Node>)
    requires Distinct(base + q.queue) && q.visited == PathSet(base + q.queue)
    ensures
      var r := EnqueueOne(w, b, k, depth, c, j, q);
      Distinct(base + r.queue) && r.visited == PathSet(base + r.queue)
  {
    var children := w.load(k, j, c.path);
    if children.Some? && children.value != [] && depth < b.maxDepth && c.path !in q.visited {
      var x := Node(c.path, children.value, depth);
      Regroup(base, q.queue, x);
      DistinctSnoc(base + q.queue, x);
    }
  }

  /** Queuing keeps paths distinct. */
  lemma {:induction false} EnqueueKeeps(w: World, b: Bounds, k: nat, depth: nat, selected: seq<Candidate>, n: nat,
                                        start: Intake, base: seq<Node>)
    requires n <= |selected|
    requires Distinct(base + start.queue) && start.visited == PathSet(base + start.queue)
    ensures
      var q := Enqueue(w, b, k, depth, selected, n, start);
      Distinct(base + q.queue) && q.visited == PathSet(base + q.queue)
  {
    if n > 0 {
      EnqueueKeeps(w, b, k, depth, selected, n - 1, start, base);
      EnqueueOneKeeps(w, b, k, depth, selected[n - 1], n - 1, Enqueue(w, b, k, depth, selected, n - 1, start), base);
    }
  }

  /** Queuing keeps what is queued and adds only loaded children. */
  lemma {:induction false} EnqueueAdds(w: World, b: Bounds, k: nat, depth: nat, selected: seq<Candidate>, n: nat,
                                       start: Intake)
    requires n <= |selected|
    ensures
      var q := Enqueue(w, b, k, depth, selected, n, start);
      && |start.queue| <= |q.queue| && q.queue[..|start.queue|] == start.queue
      && AllFresh(w, b, k, depth, selected, q.queue, |start.queue|)
  {
    if n > 0 {
      EnqueueAdds(w, b, k, depth, selected, n - 1, start);
      var p := Enqueue(w, b, k, depth, selected, n - 1, start);
      var q := Enqueue(w, b, k, depth, selected, n, start);
      if q.queue != p.queue {
        var x := q.queue[|p.queue|];
        assert q.queue == p.queue + [x];
        assert Fresh(w, b, k, depth, selected, x, n - 1);
        assert FreshSome(w, b, k, depth, selected, x);
      }
    }
  }

  lemma {:induction false} EnqueueTruncates(w: World, b: Bounds, k: nat, depth: nat, selected: seq<Candidate>,
                                            n: nat, start: Intake)
    requires n <= |selected|
    ensures start.truncated ==> Enqueue(w, b, k, depth, selected, n, start).truncated
  {
    if n > 0 {
      EnqueueTruncates(w, b, k, depth, selected, n - 1, start);
    }
  }

  lemma RootExplained(w: World, b: Bounds, path: string, candidates: seq<Candidate>)
    requires BoundsOk(b)
    ensures Inv(w, b, Node(path, candidates, 0), Initial(path, candidates))
  {
    var st := Initial(path, candidates);
    DistinctSnoc([], st.queue[0]);
    assert st.decided + st.queue == [] + [st.queue[0]];
  }

  /** What a step takes from its node. */
  function Chosen(b: Bounds, st: State, t: Trace): seq<Candidate>
    requires st.queue != []
  {
    Known(st.queue[0].candidates, Taken(t.decision.selectedSlugs, b, |st.plan|))
  }

  ghost function Before(b: Bounds, st: State, t: Trace): Intake
    requires st.queue != []
  {
    var slugs := Taken(t.decision.selectedSlugs, b, |st.plan|);
    Intake(st.queue[1..], st.visited,
           st.truncated || |slugs| < |t.decision.selectedSlugs| || |Chosen(b, st, t)| < |slugs|)
  }

  /** One step in terms of its parts. */
  lemma AdvanceParts(w: World, b: Bounds, st: State) returns (t: Trace, q: Intake, next: State)
    requires st.queue != [] && Advance(w, b, st).Some?
    ensures next == Advance(w, b, st).value
    ensures t.platformPath == st.queue[0].path
    ensures w.decide(|st.decided|, t.platformPath, st.queue[0].candidates) == Some(t.decision)
    ensures q == Enqueue(w, b, |st.decided|, st.queue[0].depth + 1, Chosen(b, st, t), |Chosen(b, st, t)|,
                         Before(b, st, t))
    ensures next.decided == st.decided + [st.queue[0]] && next.trace == st.trace + [t]
    ensures next.plan == st.plan + Segment(b, st.queue[0], t.decision, |st.plan|)
    ensures next.queue == q.queue && next.visited == q.visited && next.truncated == q.truncated
  {
    next := Advance(w, b, st).value;
    t := next.trace[|st.trace|];
    q := Intake(next.queue, next.visited, next.truncated);
  }

  /** An earlier decision stays accounted for. */
  lemma AskedExtends(w: World, b: Bounds, root: Node, decided: seq<Node>, trace: seq<Trace>, node: Node, t: Trace,
                     i: nat)
    requires i < |decided| == |trace| && Asked(w, b, root, decided, trace, i)
    ensures Asked(w, b, root, decided + [node], trace + [t], i)
  {
    if i > 0 {
      LoadedExtends(w, b, decided, trace, node, t, decided[i], i);
    }
  }

  /** The new decision is asked at a node that was waiting. */
  lemma AskedNow(w: World, b: Bounds, root: Node, st: State, t: Trace)
    requires |st.decided| == |st.trace| && st.queue != [] && Waits(w, b, root, st, st.queue[0])
    requires t.platformPath == st.queue[0].path
    requires w.decide(|st.decided|, t.platformPath, st.queue[0].candidates) == Some(t.decision)
    ensures Asked(w, b, root, st.decided + [st.queue[0]], st.trace + [t], |st.decided|)
  {
    if st.decided != [] {
      LoadedExtends(w, b, st.decided, st.trace, st.queue[0], t, st.queue[0], |st.decided|);
    }
  }

  /** Only the root waits at the start. */
  lemma OneRoot(w: World, b: Bounds, root: Node, st: State, i: nat)
    requires Distinct(st.decided + st.queue) && 0 < i < |st.queue|
    requires Waits(w, b, root, st, st.queue[0]) && Waits(w, b, root, st, st.queue[i])
    ensures st.decided != []
  {
    if st.decided == [] {
      assert st.decided + st.queue == st.queue;
      DistinctPair(st.queue, 0, i);
    }
  }

  lemma LoadedLater(w: World, b: Bounds, decided: seq<Node>, trace: seq<Trace>, x: Node, limit: nat, later: nat)
    requires Loaded(w, b, decided, trace, x, limit) && limit <= later
    ensures Loaded(w, b, decided, trace, x, later)
  {
    var i: nat, j: nat :| i < limit && LoadedAt(w, b, decided, trace, x, i, j);
    assert i < later;
  }

  /** A node already queued goes on waiting. */
  lemma WaitsExtends(w: World, b: Bounds, root: Node, st: State, t: Trace, next: State, x: Node)
    requires |st.decided| == |st.trace| && st.queue != [] && st.decided != [] && Waits(w, b, root, st, x)
    requires next.decided == st.decided + [st.queue[0]] && next.trace == st.trace + [t]
    ensures Waits(w, b, root, next, x)
  {
    LoadedExtends(w, b, st.decided, st.trace, st.queue[0], t, x, |st.decided|);
    assert next.decided != [];
    LoadedLater(w, b, next.decided, next.trace, x, |st.decided|, |next.decided|);
  }

  lemma FreshWaits(w: World, b: Bounds, root: Node, st: State, t: Trace, next: State, x: Node, j: nat)
    requires |st.decided| == |st.trace| && st.plan == PlanOf(b, st.decided, st.trace, |st.decided|) && st.queue != []
    requires next.decided == st.decided + [st.queue[0]] && next.trace == st.trace + [t]
    requires Fresh(w, b, |st.decided|, st.queue[0].depth + 1, Chosen(b, st, t), x, j)
    ensures Waits(w, b, root, next, x)
  {
    PlanExtends(b, st.decided, st.trace, st.queue[0], t, |st.decided|);
    assert LoadedAt(w, b, next.decided, next.trace, x, |st.decided|, j);
    assert next.decided != [];
  }

  lemma QueueStaysDistinct(w: World, b: Bounds, st: State)
    requires st.queue != [] && Advance(w, b, st).Some?
    requires Distinct(st.decided + st.queue) && st.visited == PathSet(st.decided + st.queue)
    ensures
      var next := Advance(w, b, st).value;
      && Distinct(next.decided) && Distinct(next.decided + next.queue)
      && next.visited == PathSet(next.decided + next.queue)
  {
    var t, q, next := AdvanceParts(w, b, st);
    var selected := Chosen(b, st, t);
    assert next.decided + st.queue[1..] == st.decided + st.queue;
    EnqueueKeeps(w, b, |st.decided|, st.queue[0].depth + 1, selected, |selected|, Before(b, st, t), next.decided);
    PrefixDistinct(next.decided, next.queue);
  }

  lemma QueuedNext(w: World, b: Bounds, st: State, i: nat) returns (t: Trace, x: Node)
    requires st.queue != [] && Advance(w, b, st).Some?
    requires i < |Advance(w, b, st).value.queue|
    ensures x == Advance(w, b, st).value.queue[i]
    ensures Advance(w, b, st).value.decided == st.decided + [st.queue[0]]
    ensures Advance(w, b, st).value.trace == st.trace + [t]
    ensures if i < |st.queue| - 1 then x == st.queue[i + 1]
            else FreshSome(w, b, |st.decided|, st.queue[0].depth + 1, Chosen(b, st, t), x)
  {
    var q, next;
    t, q, next := AdvanceParts(w, b, st);
    x := next.queue[i];
    EnqueueAdds(w, b, |st.decided|, st.queue[0].depth + 1, Chosen(b, st, t), |Chosen(b, st, t)|, Before(b, st, t));
    if i < |st.queue| - 1 {
      assert x == next.queue[..|st.queue| - 1][i];
    }
  }

  lemma AllWait(w: World, b: Bounds, root: Node, st: State, i: nat)
    requires Inv(w, b, root, st) && st.queue != [] && Advance(w, b, st).Some?
    requires i < |Advance(w, b, st).value.queue|
    ensures Waits(w, b, root, Advance(w, b, st).value, Advance(w, b, st).value.queue[i])
  {
    var t, x := QueuedNext(w, b, st, i);
    var next := Advance(w, b, st).value;
    if i < |st.queue| - 1 {
      OneRoot(w, b, root, st, i + 1);
      WaitsExtends(w, b, root, st, t, next, x);
    } else {
      var j: nat :| Fresh(w, b, |st.decided|, st.queue[0].depth + 1, Chosen(b, st, t), x, j);
      FreshWaits(w, b, root, st, t, next, x, j);
    }
  }

  lemma AllAsked(w: World, b: Bounds, root: Node, st: State, i: nat)
    requires Inv(w, b, root, st) && st.queue != [] && Advance(w, b, st).Some?
    requires i <= |st.decided|
    ensures
      var next := Advance(w, b, st).value;
      |next.decided| == |next.trace| == |st.decided| + 1 && Asked(w, b, root, next.decided, next.trace, i)
  {
    var t, q, next := AdvanceParts(w, b, st);
    if i < |st.decided| {
      AskedExtends(w, b, root, st.decided, st.trace, st.queue[0], t, i);
    } else {
      AskedNow(w, b, root, st, t);
    }
  }

  lemma PlanGrows(w: World, b: Bounds, st: State)
    requires BoundsOk(b) && st.queue != [] && Advance(w, b, st).Some?
    requires |st.decided| == |st.trace| && st.plan == PlanOf(b, st.decided, st.trace, |st.decided|)
    requires |st.plan| <= PROTOCOL_MAX_HOPS
    ensures
      var next := Advance(w, b, st).value;
      && |next.decided| == |next.trace| == |st.decided| + 1
      && next.plan == PlanOf(b, next.decided, next.trace, |next.decided|) && |next.plan| <= PROTOCOL_MAX_HOPS
  {
    var t, q, next := AdvanceParts(w, b, st);
    PlanExtends(b, st.decided, st.trace, st.queue[0], t, |st.decided|);
  }

  lemma ResultExplained(w: World, b: Bounds, root: Node, st: State)
    requires BoundsOk(b) && Inv(w, b, root, st) && Goes(w, b, st) && Advance(w, b, st).Some?
    ensures
      var next := Advance(w, b, st).value;
      Explains(w, b, root, next.decided, Routing(next.plan, next.trace, next.truncated))
  {
    PlanGrows(w, b, st);
    QueueStaysDistinct(w, b, st);
    var next := Advance(w, b, st).value;
    forall i | 0 <= i < |next.decided| ensures Asked(w, b, root, next.decided, next.trace, i) {
      AllAsked(w, b, root, st, i);
    }
  }

  lemma AdvanceExplained(w: World, b: Bounds, root: Node, st: State)
    requires BoundsOk(b) && Inv(w, b, root, st) && Goes(w, b, st) && Advance(w, b, st).Some?
    ensures Inv(w, b, root, Advance(w, b, st).value)
  {
    var next := Advance(w, b, st).value;
    ResultExplained(w, b, root, st);
    QueueStaysDistinct(w, b, st);
    forall i | 0 <= i < |next.queue| ensures Waits(w, b, root, next, next.queue[i]) {
      AllWait(w, b, root, st, i);
    }
  }

  lemma {:induction false} LoopExplained(w: World, b: Bounds, root: Node, st: State)
    requires BoundsOk(b) && Inv(w, b, root, st) && Loop(w, b, st).Some?
    ensures Inv(w, b, root, Loop(w, b, st).value)
    decreases b.maxSteps - |st.decided|
  {
    if Goes(w, b, st) {
      AdvanceExplained(w, b, root, st);
      LoopExplained(w, b, root, Advance(w, b, st).value);
    }
  }

  /** Every expansion that returns is explained by the nodes it decided, whatever the outside answers. */
  lemma ExpansionExplained(w: World, b: Bounds, path: string, candidates: seq<Candidate>)
    requires BoundsOk(b) && Expanded(w, b, path, candidates).Some?
    ensures exists decided :: Explains(w, b, Node(path, candidates, 0), decided, Expanded(w, b, path, candidates).value)
  {
    var root := Node(path, candidates, 0);
    RootExplained(w, b, path, candidates);
    LoopExplained(w, b, root, Initial(path, candidates));
    var end := Loop(w, b, Initial(path, candidates)).value;
    assert Explains(w, b, root, end.decided, Finish(w, end));
  }

  // ----- hops and their parents -----

  lemma {:induction false} KnownAreCandidates(candidates: seq<Candidate>, slugs: seq<string>, m: nat)
    requires m < |Known(candidates, slugs)|
    ensures Known(candidates, slugs)[m] in candidates && Known(candidates, slugs)[m].slug in slugs
  {
    var n := |slugs| - 1;
    if m < |Known(candidates, slugs[..n])| {
      KnownAreCandidates(candidates, slugs[..n], m);
    }
  }

  /** The hop is a candidate supplied for the node and selected there, placed one level below. */
  ghost predicate HopOf(b: Bounds, node: Node, t: Trace, hop: Candidate) {
    && hop.slug in t.decision.selectedSlugs
    && hop.depth == node.depth + 1 <= b.maxDepth
    && exists c :: c in node.candidates && hop == c.(depth := node.depth + 1)
  }

  lemma {:induction false} PlanFromParents(b: Bounds, decided: seq<Node>, trace: seq<Trace>, n: nat, m: nat)
    requires n <= |decided| == |trace| && m < |PlanOf(b, decided, trace, n)|
    requires forall i :: 0 <= i < n ==> decided[i].depth < b.maxDepth
    ensures exists i :: 0 <= i < n && HopOf(b, decided[i], trace[i], PlanOf(b, decided, trace, n)[m])
  {
    var before := PlanOf(b, decided, trace, n - 1);
    if m < |before| {
      PlanFromParents(b, decided, trace, n - 1, m);
    } else {
      var node, t := decided[n - 1], trace[n - 1];
      var slugs := Taken(t.decision.selectedSlugs, b, |before|);
      KnownAreCandidates(node.candidates, slugs, m - |before|);
      assert HopOf(b, node, t, PlanOf(b, decided, trace, n)[m]);
    }
  }

  /** Every hop of a plan was supplied and selected at a decided parent, each of which adds at most the fanout. */
  lemma HopsFromParents(w: World, b: Bounds, root: Node, decided: seq<Node>, r: Routing)
    requires BoundsOk(b) && Explains(w, b, root, decided, r)
    ensures forall m :: 0 <= m < |r.routePlan| ==>
            exists i :: 0 <= i < |decided| && HopOf(b, decided[i], r.trace[i], r.routePlan[m])
    ensures forall i :: 0 <= i < |decided| ==> |SegmentAt(b, decided, r.trace, i)| <= b.maxFanout
    ensures forall i, j :: 0 <= i < j < |r.trace| ==> r.trace[i].platformPath != r.trace[j].platformPath
  {
    forall i | 0 <= i < |decided| ensures decided[i].depth < b.maxDepth && r.trace[i].platformPath == decided[i].path {
      assert Asked(w, b, root, decided, r.trace, i);
    }
    forall m | 0 <= m < |r.routePlan|
      ensures exists i :: 0 <= i < |decided| && HopOf(b, decided[i], r.trace[i], r.routePlan[m])
    {
      PlanFromParents(b, decided, r.trace, |decided|, m);
    }
    forall i, j | 0 <= i < j < |r.trace| ensures r.trace[i].platformPath != r.trace[j].platformPath {
      DistinctPair(decided, i, j);
    }
  }
}
