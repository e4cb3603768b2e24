/**
 * Which hops a decision adds, exactly, and that nothing reachable is left out: an expansion stops only
 * when every hop with children to open has been decided, or the steps or the time are used up.
 */
module RouteReach {
  import opened Wrappers
  import opened RouteExpansion
  import opened RouteSafety

  // ----- the hops of one decision -----

  /** Of candidates with one slug, the last counts. */
  lemma {:induction false} FindLast(candidates: seq<Candidate>, slug: string, i: nat)
    requires i < |candidates| && candidates[i].slug == slug
    requires forall j :: i < j < |candidates| ==> candidates[j].slug != slug
    ensures Find(candidates, slug) == Some(candidates[i])
  {
    if i < |candidates| - 1 {
      FindLast(candidates[..|candidates| - 1], slug, i);
    }
  }

  /** Selected slugs are looked up one by one, in order, and unknown ones skipped. */
  lemma {:induction false} KnownInOrder(candidates: seq<Candidate>, slugs: seq<string>, more: seq<string>, slug: string)
    ensures Known(candidates, slugs + more) == Known(candidates, slugs) + Known(candidates, more)
    ensures Known(candidates, [slug]) ==
            if Find(candidates, slug).Some? then [Find(candidates, slug).value] else []
    decreases |more|
  {
    assert [slug][..0] == [];
    if more == [] {
      assert slugs + more == slugs;
    } else {
      var n := |more| - 1;
      KnownInOrder(candidates, slugs, more[..n], slug);
      assert (slugs + more)[..|slugs + more| - 1] == slugs + more[..n];
    }
  }

  /** The longest beginning of the selection that the fanout and the free hops allow. */
  lemma TakenFirst(slugs: seq<string>, b: Bounds, hops: nat)
    ensures
      var taken := Taken(slugs, b, hops);
      && |taken| <= |slugs| && taken == slugs[..|taken|]
      && |taken| <= b.maxFanout && (taken != [] ==> hops + |taken| <= 32)
      && (taken == slugs || |taken| == b.maxFanout || hops + |taken| >= 32)
  {
  }

  // ----- nothing reachable is left out -----

  /** Hop `j` of decision `i` has children and is not too deep for them to be decided on. */
  ghost predicate Opens(w: World, b: Bounds, decided: seq<Node>, trace: seq<Trace>, i: nat, j: nat) {
    && i < |decided| == |trace|
    && j < |SegmentAt(b, decided, trace, i)|
    && var hop := SegmentAt(b, decided, trace, i)[j];
       hop.depth < b.maxDepth && w.load(i, j, hop.path).Some? && w.load(i, j, hop.path).value != []
  }

  ghost predicate Seen(w: World, b: Bounds, st: State) {
    forall i: nat, j: nat :: Opens(w, b, st.decided, st.trace, i, j) ==>
      SegmentAt(b, st.decided, st.trace, i)[j].path in st.visited
  }

  lemma {:induction false} EnqueueSees(w: World, b: Bounds, k: nat, depth: nat, selected: seq<Candidate>, n: nat,
                                       start: Intake, j: nat)
    requires n <= |selected|
    ensures start.visited <= Enqueue(w, b, k, depth, selected, n, start).visited
    ensures j < n && depth < b.maxDepth && w.load(k, j, selected[j].path).Some?
            && w.load(k, j, selected[j].path).value != [] ==>
              selected[j].path in Enqueue(w, b, k, depth, selected, n, start).visited
  {
    if n > 0 {
      EnqueueSees(w, b, k, depth, selected, n - 1, start, j);
    }
  }

  lemma SeenBefore(w: World, b: Bounds, st: State, t: Trace, next: State, i: nat, j: nat)
    requires |st.decided| == |st.trace| && st.queue != [] && Seen(w, b, st)
    requires next.decided == st.decided + [st.queue[0]] && next.trace == st.trace + [t]
    requires i < |st.decided| && Opens(w, b, next.decided, next.trace, i, j)
    ensures SegmentAt(b, next.decided, next.trace, i)[j].path in st.visited
  {
    PlanExtends(b, st.decided, st.trace, st.queue[0], t, i);
    assert SegmentAt(b, next.decided, next.trace, i) == SegmentAt(b, st.decided, st.trace, i);
    assert Opens(w, b, st.decided, st.trace, i, j);
  }

  lemma SegmentNow(b: Bounds, st: State, t: Trace, next: State)
    requires |st.decided| == |st.trace| && st.queue != []
    requires st.plan == PlanOf(b, st.decided, st.trace, |st.decided|)
    requires next.decided == st.decided + [st.queue[0]] && next.trace == st.trace + [t]
    ensures SegmentAt(b, next.decided, next.trace, |st.decided|) == Placed(Chosen(b, st, t), st.queue[0].depth + 1)
  {
    PlanExtends(b, st.decided, st.trace, st.queue[0], t, |st.decided|);
  }

  lemma AdvanceSees(w: World, b: Bounds, st: State)
    requires st.queue != [] && Advance(w, b, st).Some? && Seen(w, b, st)
    requires |st.decided| == |st.trace| && st.plan == PlanOf(b, st.decided, st.trace, |st.decided|)
    ensures Seen(w, b, Advance(w, b, st).value)
  {
    var t, q, next := AdvanceParts(w, b, st);
    var k, depth, selected := |st.decided|, st.queue[0].depth + 1, Chosen(b, st, t);
    SegmentNow(b, st, t, next);
    forall i: nat, j: nat | Opens(w, b, next.decided, next.trace, i, j)
      ensures SegmentAt(b, next.decided, next.trace, i)[j].path in next.visited
    {
      EnqueueSees(w, b, k, depth, selected, |selected|, Before(b, st, t), j);
      if i < k {
        SeenBefore(w, b, st, t, next, i, j);
      }
    }
  }

  lemma {:induction false} LoopSees(w: World, b: Bounds, root: Node, st: State)
    requires BoundsOk(b) && Inv(w, b, root, st) && Seen(w, b, st) && Loop(w, b, st).Some?
    ensures Seen(w, b, Loop(w, b, st).value) && !Goes(w, b, Loop(w, b, st).value)
    decreases b.maxSteps - |st.decided|
  {
    if Goes(w, b, st) {
      AdvanceExplained(w, b, root, st);
      AdvanceSees(w, b, st);
      LoopSees(w, b, root, Advance(w, b, st).value);
    }
  }

  lemma {:induction false} PathSetFrom(nodes: seq<Node>, p: string) returns (i: nat)
    requires p in PathSet(nodes)
    ensures i < |nodes| && nodes[i].path == p
  {
    if nodes[|nodes| - 1].path == p {
      i := |nodes| - 1;
    } else {
      i := PathSetFrom(nodes[..|nodes| - 1], p);
    }
  }

  /** Every hop that opens was decided, at its path. */
  ghost predicate AllDecided(w: World, b: Bounds, decided: seq<Node>, r: Routing) {
    forall i: nat, j: nat :: Opens(w, b, decided, r.trace, i, j) ==>
      exists k :: 0 <= k < |r.trace| && r.trace[k].platformPath == SegmentAt(b, decided, r.trace, i)[j].path
  }

  lemma EmptyQueueDecides(w: World, b: Bounds, root: Node, st: State)
    requires Inv(w, b, root, st) && Seen(w, b, st) && st.queue == []
    ensures AllDecided(w, b, st.decided, Routing(st.plan, st.trace, st.truncated))
  {
    assert st.decided + st.queue == st.decided;
    forall i: nat, j: nat | Opens(w, b, st.decided, st.trace, i, j)
      ensures exists k ::
                0 <= k < |st.trace| && st.trace[k].platformPath == SegmentAt(b, st.decided, st.trace, i)[j].path
    {
      var k := PathSetFrom(st.decided, SegmentAt(b, st.decided, st.trace, i)[j].path);
      assert Asked(w, b, root, st.decided, st.trace, k);
    }
  }

  /**
   * An expansion that returns with steps and time to spare has decided every hop that opens, also when
   * parts of it were cut: nothing but the bounds and the clock ends it early.
   */
  lemma NothingLeftOut(w: World, b: Bounds, path: string, candidates: seq<Candidate>)
    requires BoundsOk(b) && Expanded(w, b, path, candidates).Some?
    ensures
      var r := Expanded(w, b, path, candidates).value;
      exists decided ::
        && Explains(w, b, Node(path, candidates, 0), decided, r)
        && (|r.trace| < b.maxSteps && w.onTime(|r.trace|) ==> AllDecided(w, b, decided, r))
  {
    var root, st := Node(path, candidates, 0), Initial(path, candidates);
    RootExplained(w, b, path, candidates);
    LoopExplained(w, b, root, st);
    LoopSees(w, b, root, st);
    var end, r := Loop(w, b, st).value, Expanded(w, b, path, candidates).value;
    assert Explains(w, b, root, end.decided, r);
    if |r.trace| < b.maxSteps && w.onTime(|r.trace|) {
      EmptyQueueDecides(w, b, root, end);
    }
  }
}
