/** Folding a list of inputs through a state machine, whatever the machine. */
module Histories {

  function Run<S, E>(step: (S, E) -> S, s: S, es: seq<E>): S
    decreases |es|
  {
    if es == [] then s else Run(step, step(s, es[0]), es[1..])
  }

  /** Every input is accepted where it arrives, and `p` holds at every state on the way. */
  ghost predicate Throughout<S, E>(step: (S, E) -> S, accepts: (S, E) -> bool, p: S -> bool, s: S, es: seq<E>)
    decreases |es|
  {
    && p(s)
    && (es != [] ==> accepts(s, es[0]) && Throughout(step, accepts, p, step(s, es[0]), es[1..]))
  }

  lemma {:induction false} RunConcat<S, E>(step: (S, E) -> S, s: S, es: seq<E>, fs: seq<E>)
    ensures Run(step, s, es + fs) == Run(step, Run(step, s, es), fs)
    decreases |es|
  {
    if es == [] {
      assert es + fs == fs;
    } else {
      assert (es + fs)[1..] == es[1..] + fs;
      RunConcat(step, step(s, es[0]), es[1..], fs);
    }
  }

  lemma {:induction false} RunSnoc<S, E>(step: (S, E) -> S, s: S, es: seq<E>, e: E)
    ensures Run(step, s, es + [e]) == step(Run(step, s, es), e)
  {
    RunConcat(step, s, es, [e]);
    var t := Run(step, s, es);
    assert [e][1..] == [];
    assert Run(step, t, [e]) == Run(step, step(t, e), []);
  }

  lemma {:induction false} ThroughoutConcat<S, E>(step: (S, E) -> S, accepts: (S, E) -> bool, p: S -> bool,
                                                  s: S, es: seq<E>, fs: seq<E>)
    ensures Throughout(step, accepts, p, s, es + fs) <==>
            Throughout(step, accepts, p, s, es) && Throughout(step, accepts, p, Run(step, s, es), fs)
    decreases |es|
  {
    if es == [] {
      assert es + fs == fs;
    } else {
      assert (es + fs)[1..] == es[1..] + fs;
      ThroughoutConcat(step, accepts, p, step(s, es[0]), es[1..], fs);
    }
  }

  lemma ThroughoutCons<S, E>(step: (S, E) -> S, accepts: (S, E) -> bool, p: S -> bool, s: S, e: E, tail: seq<E>)
    ensures Throughout(step, accepts, p, s, [e] + tail) <==>
            p(s) && accepts(s, e) && Throughout(step, accepts, p, step(s, e), tail)
    ensures Run(step, s, [e] + tail) == Run(step, step(s, e), tail)
  {
    assert ([e] + tail)[1..] == tail;
  }

  lemma {:induction false} ThroughoutLast<S, E>(step: (S, E) -> S, accepts: (S, E) -> bool, p: S -> bool, s: S,
                                                es: seq<E>)
    requires Throughout(step, accepts, p, s, es)
    ensures p(Run(step, s, es))
    decreases |es|
  {
    if es != [] {
      ThroughoutLast(step, accepts, p, step(s, es[0]), es[1..]);
    }
  }

  lemma {:induction false} ThroughoutWeaken<S(!new), E>(step: (S, E) -> S, accepts: (S, E) -> bool,
                                                  p: S -> bool, q: S -> bool, s: S, es: seq<E>)
    requires Throughout(step, accepts, p, s, es)
    requires forall t :: p(t) ==> q(t)
    ensures Throughout(step, accepts, q, s, es)
    decreases |es|
  {
    if es != [] {
      ThroughoutWeaken(step, accepts, p, q, step(s, es[0]), es[1..]);
    }
  }

  // ----- a planned list of inputs -----

  /**
   * A plan for inputs still to be made: what to send next and what is then left to do, until nothing
   * is. `size` counts what is left.
   */
  datatype Plan<!W, !E> = Plan(done: W -> bool, emit: W -> E, rest: W -> W, size: W -> nat)

  ghost predicate Shrinking<W(!new), E>(plan: Plan<W, E>) {
    forall w :: !plan.done(w) ==> plan.size(plan.rest(w)) < plan.size(w)
  }

  function Planned<W(!new), E>(plan: Plan<W, E>, w: W): seq<E>
    requires Shrinking(plan)
    decreases plan.size(w)
  {
    if plan.done(w) then [] else [plan.emit(w)] + Planned(plan, plan.rest(w))
  }

  /** The plan's next input is always accepted, and leaves a state that fits the rest of the plan. */
  ghost predicate Fitting<S(!new), W(!new), E>(
      step: (S, E) -> S, accepts: (S, E) -> bool, plan: Plan<W, E>, fits: (S, W) -> bool)
  {
    forall s, w :: fits(s, w) && !plan.done(w) ==> accepts(s, plan.emit(w)) && fits(step(s, plan.emit(w)), plan.rest(w))
  }

  /** `ends` relates a fitting state to its final state, one planned input at a time. */
  ghost predicate Ending<S(!new), W(!new), E>(
      step: (S, E) -> S, plan: Plan<W, E>, fits: (S, W) -> bool, ends: (S, W, S) -> bool)
  {
    && (forall s, w :: fits(s, w) && plan.done(w) ==> ends(s, w, s))
    && (forall s, w, t :: fits(s, w) && !plan.done(w) && ends(step(s, plan.emit(w)), plan.rest(w), t) ==> ends(s, w, t))
  }

  /** A planned list of inputs runs through: all are accepted, `p` holds throughout, and the end is as related. */
  lemma {:induction false} PlanRuns<S(!new), W(!new), E>(
      step: (S, E) -> S, accepts: (S, E) -> bool, p: S -> bool, plan: Plan<W, E>,
      fits: (S, W) -> bool, ends: (S, W, S) -> bool, s: S, w: W)
    requires Shrinking(plan) && Fitting(step, accepts, plan, fits) && Ending(step, plan, fits, ends)
    requires forall t, v :: fits(t, v) ==> p(t)
    requires fits(s, w)
    ensures Throughout(step, accepts, p, s, Planned(plan, w))
    ensures ends(s, w, Run(step, s, Planned(plan, w)))
    decreases plan.size(w)
  {
    if !plan.done(w) {
      var e := plan.emit(w);
      PlanRuns(step, accepts, p, plan, fits, ends, step(s, e), plan.rest(w));
      ThroughoutCons(step, accepts, p, s, e, Planned(plan, plan.rest(w)));
    }
  }
}
