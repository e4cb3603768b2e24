/**
 * The unbounded breadth-first expansion, with no limit on steps, hops, fanout or depth, no cycle guard
 * and no clock; and exactly when the bounded expansion is it.
 */
module RouteCompleteness {
  import opened Wrappers
  import opened RouteExpansion
  import opened RouteSafety

  datatype Wide = Wide(queue: seq<Node>, decided: seq<Node>, trace: seq<Trace>, plan: seq<Candidate>)

  /** The first `n` selected children that have children themselves. */
  function Followers(w: World, k: nat, depth: nat, selected: seq<Candidate>, n: nat): seq<Node>
    requires n <= |selected|
  {
    if n == 0 then [] else
      var children := w.load(k, n - 1, selected[n - 1].path);
      Followers(w, k, depth, selected, n - 1) +
      if children.Some? && children.value != [] then [Node(selected[n - 1].path, children.value, depth)] else []
  }

  function WideAfter(s: Wide, decision: Decision, selected: seq<Candidate>, added: seq<Node>): Wide
    requires s.queue != []
  {
    var node := s.queue[0];
    Wide(s.queue[1..] + added, s.decided + [node], s.trace + [Trace(node.path, decision)],
        s.plan + Placed(selected, node.depth + 1))
  }

  function WideStep(w: World, s: Wide): Option<Wide>
    requires s.queue != []
  {
    var node := s.queue[0];
    match w.decide(|s.decided|, node.path, node.candidates)
    case None => None
    case Some(decision) =>
      var selected := Known(node.candidates, decision.selectedSlugs);
      Some(WideAfter(s, decision, selected, Followers(w, |s.decided|, node.depth + 1, selected, |selected|)))
  }

  /** The unbounded expansion after `n` steps; `None` once a decision has thrown. */
  function WideRun(w: World, path: string, candidates: seq<Candidate>, n: nat): Option<Wide> {
    if n == 0 then Some(Wide([Node(path, candidates, 0)], [], [], [])) else
      var s := WideRun(w, path, candidates, n - 1);
      if s.None? || s.value.queue == [] then s else WideStep(w, s.value)
  }

  ghost predicate LoadsOk(w: World, k: nat, selected: seq<Candidate>, n: nat) {
    forall j :: 0 <= j < n <= |selected| ==> w.load(k, j, selected[j].path).Some?
  }

  ghost predicate AllFound(candidates: seq<Candidate>, slugs: seq<string>) {
    forall i :: 0 <= i < |slugs| ==> Find(candidates, slugs[i]).Some?
  }

  /** The next step of the unbounded expansion meets no bound, no unknown slug, no failed read and no cycle. */
  ghost predicate CleanStep(w: World, b: Bounds, s: Wide) {
    && s.queue != []
    && var node, k := s.queue[0], |s.decided|;
    && var decision := w.decide(k, node.path, node.candidates);
    && decision.Some?
    && var slugs := decision.value.selectedSlugs;
    && |slugs| <= b.maxFanout && |s.plan| + |slugs| <= PROTOCOL_MAX_HOPS
    && AllFound(node.candidates, slugs)
    && var selected := Known(node.candidates, slugs);
    && LoadsOk(w, k, selected, |selected|)
    && var added := Followers(w, k, node.depth + 1, selected, |selected|);
    && (added == [] || node.depth + 1 < b.maxDepth)
    && Distinct(s.decided + s.queue + added)
  }

  ghost const Clean: (World, Bounds, Wide) -> bool := (w, b, s) => CleanStep(w, b, s)

  ghost predicate CleanAt(w: World, b: Bounds, path: string, candidates: seq<Candidate>, k: nat) {
    && WideRun(w, path, candidates, k).Some?
    && w.onTime(k)
    && Clean(w, b, WideRun(w, path, candidates, k).value)
  }

  /** The unbounded expansion is over after `n` steps, within every bound all along. */
  ghost predicate Fits(w: World, b: Bounds, path: string, candidates: seq<Candidate>, n: nat) {
    && n <= b.maxSteps
    && (forall k :: 0 <= k < n ==> CleanAt(w, b, path, candidates, k))
    && WideRun(w, path, candidates, n).Some?
    && WideRun(w, path, candidates, n).value.queue == []
  }

  // ----- one step -----

  lemma AllFoundSnoc(candidates: seq<Candidate>, slugs: seq<string>)
    requires slugs != []
    ensures AllFound(candidates, slugs) <==>
            AllFound(candidates, slugs[..|slugs| - 1]) && Find(candidates, slugs[|slugs| - 1]).Some?
  {
    var n := |slugs| - 1;
    if AllFound(candidates, slugs[..n]) && Find(candidates, slugs[n]).Some? {
      forall i | 0 <= i < |slugs| ensures Find(candidates, slugs[i]).Some? {
        assert i < n ==> slugs[..n][i] == slugs[i];
      }
    }
  }

  lemma {:induction false} AllKnown(candidates: seq<Candidate>, slugs: seq<string>)
    ensures |Known(candidates, slugs)| == |slugs| <==> AllFound(candidates, slugs)
  {
    if slugs != [] {
      AllKnown(candidates, slugs[..|slugs| - 1]);
      AllFoundSnoc(candidates, slugs);
    }
  }

  ghost predicate Admits(w: World, b: Bounds, k: nat, depth: nat, selected: seq<Candidate>, n: nat, base: seq<Node>)
    requires n <= |selected|
  {
    && LoadsOk(w, k, selected, n)
    && (Followers(w, k, depth, selected, n) == [] || depth < b.maxDepth)
    && Distinct(base + Followers(w, k, depth, selected, n))
  }

  lemma AdmitsLess(w: World, b: Bounds, k: nat, depth: nat, selected: seq<Candidate>, n: nat, base: seq<Node>)
    requires 0 < n <= |selected|
    ensures Admits(w, b, k, depth, selected, n, base) ==> Admits(w, b, k, depth, selected, n - 1, base)
  {
    if Admits(w, b, k, depth, selected, n, base) {
      var less, more := Followers(w, k, depth, selected, n - 1), Followers(w, k, depth, selected, n);
      assert base + more == base + less + more[|less|..];
      PrefixDistinct(base + less, more[|less|..]);
    }
  }

  lemma OneMoreLoad(w: World, k: nat, selected: seq<Candidate>, n: nat)
    requires 0 < n <= |selected| && LoadsOk(w, k, selected, n - 1)
    ensures LoadsOk(w, k, selected, n) <==> w.load(k, n - 1, selected[n - 1].path).Some?
  {
    if w.load(k, n - 1, selected[n - 1].path).Some? {
      forall j | 0 <= j < n ensures w.load(k, j, selected[j].path).Some? {
        assert j < n - 1 || j == n - 1;
      }
    }
  }

  /** One more child is admitted unless its read fails, or it has children too deep or at a path already seen. */
  lemma OneAdmitted(w: World, b: Bounds, k: nat, depth: nat, selected: seq<Candidate>, n: nat, base: seq<Node>,
                    here: seq<Node>)
    requires 0 < n <= |selected| && Admits(w, b, k, depth, selected, n - 1, base)
    requires here == base + Followers(w, k, depth, selected, n - 1)
    ensures
      var children := w.load(k, n - 1, selected[n - 1].path);
      Admits(w, b, k, depth, selected, n, base) <==>
      children.Some? && (children.value == [] || (depth < b.maxDepth && selected[n - 1].path !in PathSet(here)))
  {
    var less := Followers(w, k, depth, selected, n - 1);
    var children := w.load(k, n - 1, selected[n - 1].path);
    OneMoreLoad(w, k, selected, n);
    if children.Some? && children.value != [] {
      var x := Node(selected[n - 1].path, children.value, depth);
      Regroup(base, less, x);
      DistinctSnoc(here, x);
    } else {
      assert Followers(w, k, depth, selected, n) == less;
    }
  }

  lemma EnqueueOneClean(w: World, b: Bounds, k: nat, depth: nat, selected: seq<Candidate>, n: nat,
                        queue: seq<Node>, base: seq<Node>, p: Intake)
    requires 0 < n <= |selected| && !p.truncated
    requires p.queue == queue + Followers(w, k, depth, selected, n - 1)
    requires p.visited == PathSet(base + Followers(w, k, depth, selected, n - 1))
    requires Admits(w, b, k, depth, selected, n - 1, base)
    ensures
      var q := EnqueueOne(w, b, k, depth, selected[n - 1], n - 1, p);
      && (!q.truncated <==> Admits(w, b, k, depth, selected, n, base))
      && (!q.truncated ==> q.queue == queue + Followers(w, k, depth, selected, n)
                           && q.visited == PathSet(base + Followers(w, k, depth, selected, n)))
  {
    var less := Followers(w, k, depth, selected, n - 1);
    var here := base + less;
    OneAdmitted(w, b, k, depth, selected, n, base, here);
    var children := w.load(k, n - 1, selected[n - 1].path);
    if children.Some? && children.value != [] {
      var x := Node(selected[n - 1].path, children.value, depth);
      Regroup(base, less, x);
      Regroup(queue, less, x);
      DistinctSnoc(here, x);
    } else {
      assert Followers(w, k, depth, selected, n) == less;
    }
  }

  /** Queuing truncates exactly when a child is not admitted, and otherwise queues all followers. */
  lemma {:induction false} EnqueueClean(w: World, b: Bounds, k: nat, depth: nat, selected: seq<Candidate>, n: nat,
                                        start: Intake, base: seq<Node>)
    requires n <= |selected| && !start.truncated && Distinct(base) && start.visited == PathSet(base)
    ensures
      var q := Enqueue(w, b, k, depth, selected, n, start);
      && (!q.truncated <==> Admits(w, b, k, depth, selected, n, base))
      && (!q.truncated ==> q.queue == start.queue + Followers(w, k, depth, selected, n)
                           && q.visited == PathSet(base + Followers(w, k, depth, selected, n)))
  {
    if n == 0 {
      assert base + [] == base;
      assert start.queue + [] == start.queue;
    } else {
      EnqueueClean(w, b, k, depth, selected, n - 1, start, base);
      var p := Enqueue(w, b, k, depth, selected, n - 1, start);
      if p.truncated {
        AdmitsLess(w, b, k, depth, selected, n, base);
      } else {
        EnqueueOneClean(w, b, k, depth, selected, n, start.queue, base, p);
      }
    }
  }

  // ----- whole runs -----

  ghost predicate SameAs(st: State, s: Wide) {
    && !st.truncated
    && st.queue == s.queue && st.decided == s.decided && st.trace == s.trace && st.plan == s.plan
    && Distinct(st.decided + st.queue) && st.visited == PathSet(st.decided + st.queue)
  }

  ghost const Matches: (State, Wide) -> bool := (st, s) => SameAs(st, s)

  /** Nothing is cut from a decision within the limits that names only known slugs. */
  lemma NothingCut(b: Bounds, st: State, t: Trace)
    requires BoundsOk(b) && st.queue != [] && |st.plan| <= PROTOCOL_MAX_HOPS && !st.truncated
    ensures
      var slugs := t.decision.selectedSlugs;
      && (!Before(b, st, t).truncated <==>
          && |slugs| <= b.maxFanout && |st.plan| + |slugs| <= PROTOCOL_MAX_HOPS
          && AllFound(st.queue[0].candidates, slugs))
      && (!Before(b, st, t).truncated ==> Taken(slugs, b, |st.plan|) == slugs)
  {
    var slugs := t.decision.selectedSlugs;
    var taken := Taken(slugs, b, |st.plan|);
    AllKnown(st.queue[0].candidates, taken);
    if |taken| == |slugs| {
      assert taken == slugs;
    }
  }

  /** A step's intake, when nothing was cut before it. */
  lemma IntakeClean(w: World, b: Bounds, st: State, t: Trace, selected: seq<Candidate>, q: Intake)
    requires st.queue != [] && Distinct(st.decided + st.queue) && st.visited == PathSet(st.decided + st.queue)
    requires selected == Chosen(b, st, t)
    requires q == Enqueue(w, b, |st.decided|, st.queue[0].depth + 1, selected, |selected|, Before(b, st, t))
    ensures !q.truncated <==>
            && !Before(b, st, t).truncated
            && Admits(w, b, |st.decided|, st.queue[0].depth + 1, selected, |selected|, st.decided + st.queue)
    ensures !q.truncated ==>
              q.queue == st.queue[1..] + Followers(w, |st.decided|, st.queue[0].depth + 1, selected, |selected|)
  {
    var before := Before(b, st, t);
    EnqueueTruncates(w, b, |st.decided|, st.queue[0].depth + 1, selected, |selected|, before);
    if !before.truncated {
      EnqueueClean(w, b, |st.decided|, st.queue[0].depth + 1, selected, |selected|, before, st.decided + st.queue);
    }
  }

  lemma CleanParts(w: World, b: Bounds, st: State, s: Wide, t: Trace, selected: seq<Candidate>)
    requires BoundsOk(b) && st.queue == s.queue != [] && st.decided == s.decided && st.plan == s.plan
    requires |st.plan| <= PROTOCOL_MAX_HOPS && !st.truncated
    requires w.decide(|st.decided|, st.queue[0].path, st.queue[0].candidates) == Some(t.decision)
    requires selected == Chosen(b, st, t)
    ensures Clean(w, b, s) <==>
            && !Before(b, st, t).truncated
            && Admits(w, b, |st.decided|, st.queue[0].depth + 1, selected, |selected|, st.decided + st.queue)
    ensures Clean(w, b, s) ==> selected == Known(st.queue[0].candidates, t.decision.selectedSlugs)
  {
    NothingCut(b, st, t);
  }

  /** A step that starts as the unbounded expansion's truncates exactly when that step is not clean. */
  lemma StepClean(w: World, b: Bounds, st: State, s: Wide)
    requires BoundsOk(b) && Matches(st, s) && st.queue != [] && |st.plan| <= PROTOCOL_MAX_HOPS
    ensures (Advance(w, b, st).Some? && !Advance(w, b, st).value.truncated) <==> Clean(w, b, s)
  {
    if Advance(w, b, st).Some? {
      var t, q, next := AdvanceParts(w, b, st);
      var selected := Chosen(b, st, t);
      IntakeClean(w, b, st, t, selected, q);
      CleanParts(w, b, st, s, t, selected);
    }
  }

  lemma SameAfter(st: State, s: Wide, t: Trace, selected: seq<Candidate>, q: Intake, next: State, added: seq<Node>)
    requires st.queue == s.queue != [] && st.decided == s.decided && st.trace == s.trace && st.plan == s.plan
    requires t.platformPath == st.queue[0].path && q.queue == st.queue[1..] + added
    requires next.decided == st.decided + [st.queue[0]] && next.trace == st.trace + [t]
    requires next.plan == st.plan + Placed(selected, st.queue[0].depth + 1) && next.queue == q.queue && !next.truncated
    requires Distinct(next.decided + next.queue) && next.visited == PathSet(next.decided + next.queue)
    ensures SameAs(next, WideAfter(s, t.decision, selected, added))
  {
    assert t == Trace(s.queue[0].path, t.decision);
  }

  /** A clean step is the unbounded expansion's. */
  lemma StepWide(w: World, b: Bounds, st: State, s: Wide)
    requires BoundsOk(b) && Matches(st, s) && st.queue != [] && |st.plan| <= PROTOCOL_MAX_HOPS
    requires Advance(w, b, st).Some? && !Advance(w, b, st).value.truncated
    ensures WideStep(w, s).Some? && Matches(Advance(w, b, st).value, WideStep(w, s).value)
  {
    var t, q, next := AdvanceParts(w, b, st);
    var selected := Chosen(b, st, t);
    IntakeClean(w, b, st, t, selected, q);
    CleanParts(w, b, st, s, t, selected);
    QueueStaysDistinct(w, b, st);
    SameAfter(st, s, t, selected, q, next, Followers(w, |st.decided|, st.queue[0].depth + 1, selected, |selected|));
  }

  ghost predicate Tracks(w: World, b: Bounds, path: string, candidates: seq<Candidate>, st: State) {
    && WideRun(w, path, candidates, |st.decided|).Some?
    && Matches(st, WideRun(w, path, candidates, |st.decided|).value)
    && (forall k :: 0 <= k < |st.decided| ==> CleanAt(w, b, path, candidates, k))
  }

  /** One step of both expansions, from the same point. */
  lemma StepBoth(w: World, b: Bounds, path: string, candidates: seq<Candidate>, st: State)
    returns (next: Option<State>, wide: Option<Wide>)
    requires BoundsOk(b) && Tracks(w, b, path, candidates, st) && st.queue != [] && |st.plan| <= PROTOCOL_MAX_HOPS
    ensures next == Advance(w, b, st)
    ensures (next.Some? && !next.value.truncated) <==> Clean(w, b, WideRun(w, path, candidates, |st.decided|).value)
    ensures next.Some? ==> |next.value.decided| == |st.decided| + 1
    ensures WideRun(w, path, candidates, |st.decided| + 1) == wide
    ensures next.Some? && !next.value.truncated ==> wide.Some? && Matches(next.value, wide.value)
  {
    var s := WideRun(w, path, candidates, |st.decided|).value;
    next, wide := Advance(w, b, st), WideRun(w, path, candidates, |st.decided| + 1);
    StepClean(w, b, st, s);
    if next.Some? {
      AdvanceDecides(w, b, st);
      if !next.value.truncated {
        StepWide(w, b, st, s);
      }
    }
  }

  lemma TracksOn(w: World, b: Bounds, path: string, candidates: seq<Candidate>, n: nat, next: State)
    requires |next.decided| == n + 1
    requires forall k :: 0 <= k < n ==> CleanAt(w, b, path, candidates, k)
    requires CleanAt(w, b, path, candidates, n)
    requires WideRun(w, path, candidates, n + 1).Some? && Matches(next, WideRun(w, path, candidates, n + 1).value)
    ensures Tracks(w, b, path, candidates, next)
  {
    forall k | 0 <= k < n + 1 ensures CleanAt(w, b, path, candidates, k) {
      assert k < n || k == n;
    }
  }

  lemma TracksNext(w: World, b: Bounds, path: string, candidates: seq<Candidate>, st: State)
    returns (next: Option<State>)
    requires BoundsOk(b) && Tracks(w, b, path, candidates, st) && Goes(w, b, st) && |st.plan| <= PROTOCOL_MAX_HOPS
    ensures next == Advance(w, b, st)
    ensures (next.Some? && !next.value.truncated) <==> CleanAt(w, b, path, candidates, |st.decided|)
    ensures next.Some? && !next.value.truncated ==> Tracks(w, b, path, candidates, next.value)
  {
    var wide;
    next, wide := StepBoth(w, b, path, candidates, st);
    if next.Some? && !next.value.truncated {
      TracksOn(w, b, path, candidates, |st.decided|, next.value);
    }
  }

  lemma HopsStay(w: World, b: Bounds, st: State)
    requires BoundsOk(b) && st.queue != [] && Advance(w, b, st).Some? && |st.plan| <= PROTOCOL_MAX_HOPS
    ensures |Advance(w, b, st).value.plan| <= PROTOCOL_MAX_HOPS
    ensures st.truncated ==> Advance(w, b, st).value.truncated
  {
    var t, q, next := AdvanceParts(w, b, st);
    EnqueueTruncates(w, b, |st.decided|, st.queue[0].depth + 1, Chosen(b, st, t), |Chosen(b, st, t)|, Before(b, st, t));
  }

  lemma {:induction false} LoopTruncates(w: World, b: Bounds, st: State)
    requires BoundsOk(b) && |st.plan| <= PROTOCOL_MAX_HOPS && Loop(w, b, st).Some?
    ensures st.truncated ==> Loop(w, b, st).value.truncated
    decreases b.maxSteps - |st.decided|
  {
    if Goes(w, b, st) {
      HopsStay(w, b, st);
      LoopTruncates(w, b, Advance(w, b, st).value);
    }
  }

  lemma EmptyFits(w: World, b: Bounds, path: string, candidates: seq<Candidate>, st: State)
    requires |st.decided| <= b.maxSteps && Tracks(w, b, path, candidates, st) && st.queue == []
    ensures Fits(w, b, path, candidates, |st.decided|)
  {
  }

  /** An expansion that is not cut short is the unbounded one, run to its end. */
  lemma {:induction false} LoopSound(w: World, b: Bounds, path: string, candidates: seq<Candidate>, st: State)
    requires BoundsOk(b) && |st.decided| <= b.maxSteps && |st.plan| <= PROTOCOL_MAX_HOPS
             && Tracks(w, b, path, candidates, st)
    requires Loop(w, b, st).Some? && !Loop(w, b, st).value.truncated && Loop(w, b, st).value.queue == []
    ensures
      var end := Loop(w, b, st).value;
      Tracks(w, b, path, candidates, end) && Fits(w, b, path, candidates, |end.decided|)
    decreases b.maxSteps - |st.decided|
  {
    if Goes(w, b, st) {
      var next := TracksNext(w, b, path, candidates, st);
      HopsStay(w, b, st);
      LoopTruncates(w, b, next.value);
      LoopSound(w, b, path, candidates, next.value);
    } else {
      EmptyFits(w, b, path, candidates, st);
    }
  }

  lemma OverIsNotClean(w: World, b: Bounds, path: string, candidates: seq<Candidate>, n: nat)
    requires Fits(w, b, path, candidates, n)
    ensures !CleanAt(w, b, path, candidates, n)
  {
  }

  /** The unbounded expansion cannot be over before the bounded one has caught up. */
  lemma NotPast(w: World, b: Bounds, path: string, candidates: seq<Candidate>, st: State, n: nat)
    requires Tracks(w, b, path, candidates, st) && Fits(w, b, path, candidates, n)
    ensures |st.decided| <= n
    ensures |st.decided| < n ==> CleanAt(w, b, path, candidates, |st.decided|) && Goes(w, b, st)
    ensures |st.decided| == n ==> st.queue == []
  {
    OverIsNotClean(w, b, path, candidates, n);
  }

  /** An unbounded expansion that meets no bound is not cut short. */
  lemma {:induction false} LoopComplete(w: World, b: Bounds, path: string, candidates: seq<Candidate>, st: State,
                                        n: nat)
    requires BoundsOk(b) && |st.plan| <= PROTOCOL_MAX_HOPS && Tracks(w, b, path, candidates, st)
    requires Fits(w, b, path, candidates, n)
    ensures Loop(w, b, st).Some?
    ensures
      var end := Loop(w, b, st).value;
      !end.truncated && end.queue == [] && |end.decided| == n && Tracks(w, b, path, candidates, end)
    decreases b.maxSteps - |st.decided|
  {
    NotPast(w, b, path, candidates, st, n);
    if |st.decided| < n {
      var next := TracksNext(w, b, path, candidates, st);
      HopsStay(w, b, st);
      LoopComplete(w, b, path, candidates, next.value, n);
    }
  }

  lemma StartTracks(w: World, b: Bounds, path: string, candidates: seq<Candidate>)
    requires BoundsOk(b)
    ensures Tracks(w, b, path, candidates, Initial(path, candidates))
  {
    RootExplained(w, b, path, candidates);
  }

  /**
   * The result is marked complete if and only if there is time left at the end and the unbounded
   * expansion ends within every bound; its plan and trace are then those of the unbounded expansion.
   */
  lemma CompleteIffUnboundedFits(w: World, b: Bounds, path: string, candidates: seq<Candidate>)
    requires BoundsOk(b)
    ensures
      (Expanded(w, b, path, candidates).Some? && !Expanded(w, b, path, candidates).value.truncated) <==>
      (w.onTimeAtEnd && exists n :: Fits(w, b, path, candidates, n))
    ensures
      Expanded(w, b, path, candidates).Some? && !Expanded(w, b, path, candidates).value.truncated ==>
        var r := Expanded(w, b, path, candidates).value;
        exists n :: Fits(w, b, path, candidates, n) &&
                    r.trace == WideRun(w, path, candidates, n).value.trace
                        && r.routePlan == WideRun(w, path, candidates, n).value.plan
  {
    var st := Initial(path, candidates);
    StartTracks(w, b, path, candidates);
    if Expanded(w, b, path, candidates).Some? && !Expanded(w, b, path, candidates).value.truncated {
      LoopSound(w, b, path, candidates, st);
      assert Fits(w, b, path, candidates, |Loop(w, b, st).value.decided|);
    }
    if n: nat :| w.onTimeAtEnd && Fits(w, b, path, candidates, n) {
      LoopComplete(w, b, path, candidates, st, n);
    }
  }
}
