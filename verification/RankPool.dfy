/**
 * The worker pool that sends the ranking requests: a few workers take batches in turn, replies arrive
 * in any order, and the first failure or the deadline stops everything.
 */
module RankPool {
  import opened Wrappers
  import opened RankBatches

  datatype Worker = Idle | Busy(batch: nat) | Done | Failed

  /** The validated reply to each batch; `None` for a failed request or a rejected response. */
  type Answers = seq<Option<seq<Ranked>>>

  /** `completed` lists the batches behind `ranked`, in order of arrival. */
  datatype State = State(next: nat, workers: seq<Worker>, completed: seq<nat>, ranked: seq<Ranked>, failed: bool)

  /** A reply may be cut off once something has failed. */
  datatype Step = Turn(worker: nat) | Reply(worker: nat, aborted: bool) | Timeout

  const MAX_CONCURRENCY: nat := 4

  function Initial(answers: Answers): State {
    var n := if |answers| < MAX_CONCURRENCY then |answers| else MAX_CONCURRENCY;
    State(0, seq(n, _ => Idle), [], [], false)
  }

  predicate Enabled(s: State, step: Step) {
    match step
    case Turn(w) => w < |s.workers| && s.workers[w].Idle?
    case Reply(w, aborted) => w < |s.workers| && s.workers[w].Busy? && (aborted ==> s.failed)
    case Timeout => true
  }

  function Next(answers: Answers, s: State, step: Step): State
    requires Enabled(s, step)
  {
    match step
    case Turn(w) =>
      if s.failed then s.(workers := s.workers[w := Done])
      else if s.next < |answers| then s.(workers := s.workers[w := Busy(s.next)], next := s.next + 1)
      else s.(workers := s.workers[w := Done], next := s.next + 1)
    case Reply(w, aborted) =>
      var batch := s.workers[w].batch;
      if aborted || batch >= |answers| || answers[batch].None?
      then s.(workers := s.workers[w := Failed], failed := true)
      else s.(workers := s.workers[w := Idle], completed := s.completed + [batch],
              ranked := s.ranked + answers[batch].value)
    case Timeout => s.(failed := true)
  }

  function Exec(answers: Answers, s: State, step: Step): State {
    if Enabled(s, step) then Next(answers, s, step) else s
  }

  function RunOf(answers: Answers, steps: seq<Step>): State {
    if steps == [] then Initial(answers)
    else Exec(answers, RunOf(answers, steps[..|steps| - 1]), steps[|steps| - 1])
  }

  /** The call returns the rows when every worker has run out of batches and nothing has failed. */
  predicate Succeeded(s: State) {
    !s.failed && forall w :: 0 <= w < |s.workers| ==> s.workers[w].Done?
  }

  // ----- every batch is sent exactly once -----

  function One(w: Worker, b: nat): nat {
    if w == Busy(b) then 1 else 0
  }

  /** How many workers have the batch in flight. */
  function Flying(workers: seq<Worker>, b: nat): nat {
    if workers == [] then 0 else Flying(workers[..|workers| - 1], b) + One(workers[|workers| - 1], b)
  }

  /** How often the batch has completed. */
  function Times(order: seq<nat>, b: nat): nat {
    if order == [] then 0 else Times(order[..|order| - 1], b) + if order[|order| - 1] == b then 1 else 0
  }

  lemma {:induction false} FlyingUpdate(workers: seq<Worker>, w: nat, x: Worker, b: nat)
    requires w < |workers|
    ensures Flying(workers[w := x], b) + One(workers[w], b) == Flying(workers, b) + One(x, b)
  {
    var n := |workers| - 1;
    if w == n {
      assert workers[w := x][..n] == workers[..n];
    } else {
      FlyingUpdate(workers[..n], w, x, b);
      assert workers[w := x][..n] == workers[..n][w := x];
    }
  }

  lemma {:induction false} NoneFlying(workers: seq<Worker>, b: nat)
    requires forall w :: 0 <= w < |workers| ==> !workers[w].Busy?
    ensures Flying(workers, b) == 0
  {
    if workers != [] {
      NoneFlying(workers[..|workers| - 1], b);
    }
  }

  lemma TimesSnoc(order: seq<nat>, x: nat, b: nat)
    ensures Times(order + [x], b) == Times(order, b) + if x == b then 1 else 0
  {
    assert (order + [x])[..|order|] == order;
  }

  predicate Answered(answers: Answers, order: seq<nat>) {
    forall i :: 0 <= i < |order| ==> order[i] < |answers| && answers[order[i]].Some?
  }

  /** The rows of the batches listed, in that order. */
  function Rows(answers: Answers, order: seq<nat>): seq<Ranked>
    requires Answered(answers, order)
  {
    if order == [] then [] else
      Rows(answers, order[..|order| - 1]) + answers[order[|order| - 1]].value
  }

  predicate Sent(answers: Answers, s: State, b: nat) {
    b < s.next && b < |answers|
  }

  /** A batch sent is completed or in flight, once; one not yet sent is neither. */
  ghost predicate Once(answers: Answers, s: State, b: nat) {
    Times(s.completed, b) + Flying(s.workers, b) == if Sent(answers, s, b) then 1 else 0
  }

  ghost predicate WorkersOk(answers: Answers, s: State) {
    forall w :: 0 <= w < |s.workers| ==> !s.workers[w].Failed? && (s.workers[w].Done? ==> |answers| <= s.next)
  }

  ghost predicate Inv(answers: Answers, s: State) {
    !s.failed ==>
      && Answered(answers, s.completed) && s.ranked == Rows(answers, s.completed)
      && (forall b: nat :: Once(answers, s, b))
      && WorkersOk(answers, s)
  }

  lemma TurnKeeps(answers: Answers, s: State, w: nat)
    requires Inv(answers, s) && Enabled(s, Turn(w))
    ensures Inv(answers, Next(answers, s, Turn(w)))
  {
    var t := Next(answers, s, Turn(w));
    if !s.failed {
      forall b: nat ensures Once(answers, t, b) {
        assert Once(answers, s, b);
        FlyingUpdate(s.workers, w, t.workers[w], b);
      }
    }
  }

  /** A reply moves its batch from in flight to completed. */
  lemma ReplyOnce(answers: Answers, s: State, w: nat, b: nat)
    requires Inv(answers, s) && !s.failed && Enabled(s, Reply(w, false))
    requires s.workers[w].batch < |answers| && answers[s.workers[w].batch].Some?
    ensures Once(answers, Next(answers, s, Reply(w, false)), b)
  {
    assert Once(answers, s, b);
    FlyingUpdate(s.workers, w, Idle, b);
    TimesSnoc(s.completed, s.workers[w].batch, b);
  }

  lemma ReplyKeeps(answers: Answers, s: State, w: nat, aborted: bool)
    requires Inv(answers, s) && Enabled(s, Reply(w, aborted))
    ensures Inv(answers, Next(answers, s, Reply(w, aborted)))
  {
    var t := Next(answers, s, Reply(w, aborted));
    if !t.failed {
      forall b: nat ensures Once(answers, t, b) {
        ReplyOnce(answers, s, w, b);
      }
      assert t.completed[..|t.completed| - 1] == s.completed;
      assert Answered(answers, t.completed);
      assert WorkersOk(answers, t);
    }
  }

  lemma {:induction false} RunKeeps(answers: Answers, steps: seq<Step>)
    ensures Inv(answers, RunOf(answers, steps))
  {
    if steps == [] {
      forall b: nat ensures Once(answers, Initial(answers), b) {
        NoneFlying(Initial(answers).workers, b);
      }
    } else {
      var s, step := RunOf(answers, steps[..|steps| - 1]), steps[|steps| - 1];
      RunKeeps(answers, steps[..|steps| - 1]);
      if Enabled(s, step) {
        match step
        case Turn(w) => TurnKeeps(answers, s, w);
        case Reply(w, aborted) => ReplyKeeps(answers, s, w, aborted);
        case Timeout =>
      }
    }
  }

  function Active(workers: seq<Worker>): nat {
    if workers == [] then 0 else
      Active(workers[..|workers| - 1]) +
      match workers[|workers| - 1] { case Idle => 1 case Busy(_) => 2 case Done => 0 case Failed => 0 }
  }

  /** How much is still to be done by the pool. */
  function Left(answers: Answers, s: State): nat {
    2 * (if s.next < |answers| then |answers| - s.next else 0) + Active(s.workers)
  }

  lemma {:induction false} ActiveUpdate(workers: seq<Worker>, w: nat, x: Worker)
    requires w < |workers|
    ensures Active(workers[w := x]) + Active([workers[w]]) == Active(workers) + Active([x])
  {
    var n := |workers| - 1;
    if w == n {
      assert workers[w := x][..n] == workers[..n];
    } else {
      ActiveUpdate(workers[..n], w, x);
      assert workers[w := x][..n] == workers[..n][w := x];
    }
  }

  /** Every move of a worker leaves less to do, so no schedule goes on for ever. */
  lemma PoolAdvances(answers: Answers, s: State, step: Step)
    requires Enabled(s, step) && !step.Timeout?
    ensures Left(answers, Next(answers, s, step)) < Left(answers, s)
  {
    ActiveUpdate(s.workers, step.worker, Next(answers, s, step).workers[step.worker]);
  }

  /** When no worker can move and nothing has failed, the call returns; it never hangs. */
  lemma PoolEnds(answers: Answers, steps: seq<Step>)
    requires !RunOf(answers, steps).failed
    requires forall w :: !Enabled(RunOf(answers, steps), Turn(w)) && !Enabled(RunOf(answers, steps), Reply(w, false))
    ensures Succeeded(RunOf(answers, steps))
  {
    RunKeeps(answers, steps);
    var s := RunOf(answers, steps);
    forall w | 0 <= w < |s.workers| ensures s.workers[w].Done? {
      assert !Enabled(s, Turn(w)) && !Enabled(s, Reply(w, false));
    }
  }

  lemma {:induction false} WorkersStay(answers: Answers, steps: seq<Step>)
    ensures |RunOf(answers, steps).workers| == |Initial(answers).workers|
  {
    if steps != [] {
      WorkersStay(answers, steps[..|steps| - 1]);
    }
  }

  /** A call that returns has completed every batch exactly once, all with valid answers. */
  lemma EveryBatchOnce(answers: Answers, steps: seq<Step>, b: nat)
    requires Succeeded(RunOf(answers, steps))
    ensures Times(RunOf(answers, steps).completed, b) == if b < |answers| then 1 else 0
  {
    var s := RunOf(answers, steps);
    RunKeeps(answers, steps);
    WorkersStay(answers, steps);
    NoneFlying(s.workers, b);
    assert Once(answers, s, b);
    if |answers| > 0 {
      assert s.workers[0].Done?;
    }
  }

  // ----- failing -----

  /** The step is the deadline, or the arrival of a reply that was cut off or not valid. */
  predicate Breaks(answers: Answers, s: State, step: Step) {
    || step.Timeout?
    || (&& step.Reply? && Enabled(s, step)
        && (step.aborted || s.workers[step.worker].batch >= |answers| || answers[s.workers[step.worker].batch].None?))
  }

  predicate BreaksAt(answers: Answers, steps: seq<Step>, k: nat) {
    k < |steps| && Breaks(answers, RunOf(answers, steps[..k]), steps[k])
  }

  /** The pool has failed exactly when the deadline passed or some reply was bad; after that it never returns rows. */
  lemma {:induction false} FailsExactly(answers: Answers, steps: seq<Step>)
    ensures RunOf(answers, steps).failed <==> exists k: nat :: BreaksAt(answers, steps, k)
  {
    if steps != [] {
      var n := |steps| - 1;
      var init := steps[..n];
      FailsExactly(answers, init);
      forall k: nat | k < n ensures BreaksAt(answers, init, k) <==> BreaksAt(answers, steps, k) {
        assert init[..k] == steps[..k] && init[k] == steps[k];
      }
      assert Breaks(answers, RunOf(answers, init), steps[n]) <==> BreaksAt(answers, steps, n);
    }
  }

  /** Never more than four requests are in flight, batches are sent in order, and none after a failure. */
  lemma SendsInOrder(answers: Answers, steps: seq<Step>, step: Step)
    ensures |RunOf(answers, steps).workers| <= 4
    ensures
      var s := RunOf(answers, steps);
      var t := Exec(answers, s, step);
      forall w :: 0 <= w < |s.workers| && t.workers[w].Busy? && t.workers[w] != s.workers[w] ==>
        !s.failed && t.workers[w].batch == s.next < |answers| && t.next == s.next + 1
  {
    WorkersStay(answers, steps);
  }
}
