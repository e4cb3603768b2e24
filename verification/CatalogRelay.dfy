/**
 * The leased job queue of the catalog relay. Each SQL statement is one atomic step on the job rows;
 * many workers interleave, crash and lose leases, producers supersede rows and an operator may revive
 * dead ones. A delivery changes a row only under the lease of its own claim, and the work on a row is
 * bounded.
 */
module CatalogRelay {
  import opened Wrappers
  import Histories

  type JobId = nat
  type WorkerId = nat

  datatype JobStatus = Pending | Processing | Retry | Acked | Superseded | Dead {
    predicate Terminal() {
      Acked? || Superseded? || Dead?
    }

    predicate Waiting() {
      Pending? || Retry?
    }
  }

  datatype Row = Row(
    status: JobStatus, attempts: nat, nextAttemptAt: int, leaseOwner: Option<WorkerId>, leaseExpiresAt: int)

  type Jobs = map<JobId, Row>

  /** `DEFAULT_MAX_ATTEMPTS`, also the ceiling of every worker's setting. */
  const MAX_ATTEMPTS: nat := 8

  // ----- the statements -----

  predicate Claimable(row: Row, now: int, maxAttempts: nat) {
    && row.attempts < maxAttempts
    && ((row.status.Waiting() && row.nextAttemptAt <= now) || (row.status.Processing? && row.leaseExpiresAt <= now))
  }

  function ClaimedRow(row: Row, worker: WorkerId, expires: int): Row {
    row.(status := Processing, attempts := row.attempts + 1, leaseOwner := Some(worker), leaseExpiresAt := expires)
  }

  function ClaimRows(jobs: Jobs, chosen: set<JobId>, worker: WorkerId, expires: int): Jobs {
    map id | id in jobs :: if id in chosen then ClaimedRow(jobs[id], worker, expires) else jobs[id]
  }

  /** The guard of every closing statement: the row is in process under this worker's name. */
  predicate Holds(jobs: Jobs, id: JobId, worker: WorkerId) {
    id in jobs && jobs[id].status.Processing? && jobs[id].leaseOwner == Some(worker)
  }

  function FinishRow(jobs: Jobs, id: JobId, worker: WorkerId, status: JobStatus): Jobs {
    if Holds(jobs, id, worker) then jobs[id := jobs[id].(status := status, leaseOwner := None)] else jobs
  }

  function RetryRow(jobs: Jobs, id: JobId, worker: WorkerId, nextAttemptAt: int): Jobs {
    if Holds(jobs, id, worker)
    then jobs[id := jobs[id].(status := Retry, nextAttemptAt := nextAttemptAt, leaseOwner := None)]
    else jobs
  }

  predicate Exhausted(row: Row, now: int, maxAttempts: nat) {
    row.attempts >= maxAttempts && (row.status.Waiting() || (row.status.Processing? && row.leaseExpiresAt <= now))
  }

  function CloseRows(jobs: Jobs, now: int, maxAttempts: nat): Jobs {
    map id | id in jobs ::
      if Exhausted(jobs[id], now, maxAttempts) then jobs[id].(status := Dead, leaseOwner := None) else jobs[id]
  }

  /** A claimed job as the worker remembers it. */
  datatype Claimed = Claimed(id: JobId, attempts: nat)

  datatype Outcome = Delivered | Overtaken | Problem(retryable: bool)

  /** What a delivery's outcome does to the rows. */
  function Settle(jobs: Jobs, w: WorkerId, c: Claimed, maxAttempts: nat, outcome: Outcome, nextAttemptAt: int): Jobs {
    match outcome
    case Delivered => FinishRow(jobs, c.id, w, Acked)
    case Overtaken => FinishRow(jobs, c.id, w, Superseded)
    case Problem(retryable) =>
      if retryable && c.attempts < maxAttempts then RetryRow(jobs, c.id, w, nextAttemptAt)
      else FinishRow(jobs, c.id, w, Dead)
  }

  function Remembered(jobs: Jobs, batch: seq<JobId>): seq<Claimed>
    requires forall i :: 0 <= i < |batch| ==> batch[i] in jobs
  {
    seq(|batch|, i requires 0 <= i < |batch| => Claimed(batch[i], jobs[batch[i]].attempts + 1))
  }

  /** A claim may take the row: attempts left, and it waits for a time that has come or its lease has run out. */
  predicate Due(row: Row, now: int, maxAttempts: nat) {
    && row.attempts < maxAttempts
    && match row.status
       case Pending => row.nextAttemptAt <= now
       case Retry => row.nextAttemptAt <= now
       case Processing => row.leaseExpiresAt <= now
       case Acked => false
       case Superseded => false
       case Dead => false
  }

  /** The row is out of attempts and nobody holds it. */
  predicate Spent(row: Row, now: int, maxAttempts: nat) {
    && row.attempts >= maxAttempts
    && match row.status
       case Pending => true
       case Retry => true
       case Processing => row.leaseExpiresAt <= now
       case Acked => false
       case Superseded => false
       case Dead => false
  }

  predicate NoRepeats(ids: seq<JobId>) {
    forall i, j :: 0 <= i < j < |ids| ==> ids[i] != ids[j]
  }

  /** The job table, updated in place. */
  class JobTable {
    var jobs: Jobs

    constructor ()
      ensures jobs == map[]
    {
      jobs := map[];
    }

    /** Scans due rows in the order given (rows locked by another claim are not in it) up to the limit. */
    method Claim(worker: WorkerId, scan: seq<JobId>, limit: nat, maxAttempts: nat, now: int, expires: int)
        returns (batch: seq<JobId>)
      modifies this
      ensures |batch| <= limit && NoRepeats(batch)
      ensures forall i :: 0 <= i < |batch| ==> batch[i] in old(jobs) && Due(old(jobs)[batch[i]], now, maxAttempts)
      ensures || |batch| == limit
              || forall id :: id in scan && id in old(jobs) && Due(old(jobs)[id], now, maxAttempts) ==> id in batch
      ensures jobs.Keys == old(jobs).Keys
      ensures forall id :: id in jobs && id !in batch ==> jobs[id] == old(jobs)[id]
      ensures forall i :: 0 <= i < |batch| ==>
                var before := old(jobs)[batch[i]];
                jobs[batch[i]] == Row(Processing, before.attempts + 1, before.nextAttemptAt, Some(worker), expires)
      ensures jobs == ClaimRows(old(jobs), (set i | i in batch), worker, expires)
    {
      batch := [];
      var i := 0;
      while i < |scan| && |batch| < limit
        invariant 0 <= i <= |scan| && |batch| <= limit && NoRepeats(batch)
        invariant forall k :: 0 <= k < |batch| ==> batch[k] in jobs && Claimable(jobs[batch[k]], now, maxAttempts)
        invariant forall k :: 0 <= k < i && scan[k] in jobs && Claimable(jobs[scan[k]], now, maxAttempts) ==>
                  scan[k] in batch
      {
        if scan[i] !in batch && scan[i] in jobs && Claimable(jobs[scan[i]], now, maxAttempts) {
          batch := batch + [scan[i]];
        }
        i := i + 1;
      }
      jobs := ClaimRows(jobs, (set id | id in batch), worker, expires);
    }

    method FinishJob(id: JobId, worker: WorkerId, status: JobStatus)
      modifies this
      ensures jobs == FinishRow(old(jobs), id, worker, status)
    {
      if id in jobs && jobs[id].status.Processing? && jobs[id].leaseOwner == Some(worker) {
        jobs := jobs[id := jobs[id].(status := status, leaseOwner := None)];
      }
    }

    method RetryJob(id: JobId, worker: WorkerId, nextAttemptAt: int)
      modifies this
      ensures jobs == RetryRow(old(jobs), id, worker, nextAttemptAt)
    {
      if id in jobs && jobs[id].status.Processing? && jobs[id].leaseOwner == Some(worker) {
        jobs := jobs[id := jobs[id].(status := Retry, nextAttemptAt := nextAttemptAt, leaseOwner := None)];
      }
    }

    method CloseExhausted(maxAttempts: nat, now: int)
      modifies this
      ensures jobs == CloseRows(old(jobs), now, maxAttempts)
      ensures jobs.Keys == old(jobs).Keys
      ensures forall id :: id in jobs ==>
                var before := old(jobs)[id];
                jobs[id] ==
                if Spent(before, now, maxAttempts) then before.(status := Dead, leaseOwner := None) else before
    {
      var left := jobs.Keys;
      while left != {}
        invariant jobs.Keys == old(jobs).Keys && left <= jobs.Keys
        invariant forall id :: id in left ==> jobs[id] == old(jobs)[id]
        invariant forall id :: id in jobs && id !in left ==> jobs[id] == CloseRows(old(jobs), now, maxAttempts)[id]
      {
        var id :| id in left;
        if Exhausted(jobs[id], now, maxAttempts) {
          jobs := jobs[id := jobs[id].(status := Dead, leaseOwner := None)];
        }
        left := left - {id};
      }
    }

    method Deliver(worker: WorkerId, c: Claimed, maxAttempts: nat, outcome: Outcome, nextAttemptAt: int)
      modifies this
      ensures jobs == Settle(old(jobs), worker, c, maxAttempts, outcome, nextAttemptAt)
    {
      match outcome
      case Delivered => FinishJob(c.id, worker, Acked);
      case Overtaken => FinishJob(c.id, worker, Superseded);
      case Problem(retryable) =>
        if retryable && c.attempts < maxAttempts {
          RetryJob(c.id, worker, nextAttemptAt);
        } else {
          FinishJob(c.id, worker, Dead);
        }
    }
  }

  // ----- the protocol -----

  /** A relay process: its attempt limit and the jobs of its batch still to deliver. */
  datatype Worker = Worker(maxAttempts: nat, outstanding: seq<Claimed>)

  /** Identifiers of stopped workers are never used again. */
  datatype State = State(jobs: Jobs, workers: map<WorkerId, Worker>, stopped: set<WorkerId>)

  /**
   * `Deliver` with `settled` false is a statement whose reply was lost: the worker goes on to another
   * statement for the same job. `Abort` drops the rest of a batch, `Stop` is a crash at any moment.
   */
  datatype Step =
    | Insert(id: JobId, now: int)
    | Supersede(id: JobId)
    | Revive(id: JobId, now: int)
    | Start(worker: WorkerId, maxAttempts: nat)
    | CloseExhausted(worker: WorkerId, now: int)
    | Claim(worker: WorkerId, batch: seq<JobId>, now: int, expires: int)
    | Deliver(worker: WorkerId, outcome: Outcome, nextAttemptAt: int, settled: bool)
    | Abort(worker: WorkerId)
    | Stop(worker: WorkerId)

  /** What may happen next. A worker claims only between batches; a claim takes any claimable rows. */
  predicate Enabled(s: State, step: Step) {
    match step
    case Insert(id, _) => id !in s.jobs
    case Supersede(id) => id in s.jobs && (s.jobs[id].status.Waiting() || s.jobs[id].status.Dead?)
    case Revive(id, _) => id in s.jobs && (s.jobs[id].status.Dead? || s.jobs[id].status.Superseded?)
    case Start(w, max) => w !in s.workers && w !in s.stopped && 1 <= max <= MAX_ATTEMPTS
    case CloseExhausted(w, _) => w in s.workers && s.workers[w].outstanding == []
    case Claim(w, batch, now, _) =>
      && w in s.workers && s.workers[w].outstanding == [] && NoRepeats(batch)
      && forall i :: 0 <= i < |batch| ==>
          batch[i] in s.jobs && Claimable(s.jobs[batch[i]], now, s.workers[w].maxAttempts)
    case Deliver(w, _, _, _) => w in s.workers && s.workers[w].outstanding != []
    case Abort(w) => w in s.workers
    case Stop(w) => w in s.workers
  }

  function Next(s: State, step: Step): State
    requires Enabled(s, step)
  {
    match step
    case Insert(id, now) => s.(jobs := s.jobs[id := Row(Pending, 0, now, None, 0)])
    case Supersede(id) => s.(jobs := s.jobs[id := s.jobs[id].(status := Superseded, leaseOwner := None)])
    case Revive(id, now) =>
      s.(jobs := s.jobs[id := s.jobs[id].(status := Retry, attempts := 0, nextAttemptAt := now, leaseOwner := None)])
    case Start(w, max) => s.(workers := s.workers[w := Worker(max, [])])
    case CloseExhausted(w, now) => s.(jobs := CloseRows(s.jobs, now, s.workers[w].maxAttempts))
    case Claim(w, batch, _, expires) =>
      s.(jobs := ClaimRows(s.jobs, (set id | id in batch), w, expires),
         workers := s.workers[w := s.workers[w].(outstanding := Remembered(s.jobs, batch))])
    case Deliver(w, outcome, nextAttemptAt, settled) =>
      var worker := s.workers[w];
      s.(jobs := Settle(s.jobs, w, worker.outstanding[0], worker.maxAttempts, outcome, nextAttemptAt),
         workers := s.workers[
           w := worker.(outstanding := if settled then worker.outstanding[1..] else worker.outstanding)])
    case Abort(w) => s.(workers := s.workers[w := s.workers[w].(outstanding := [])])
    case Stop(w) => s.(workers := s.workers - {w}, stopped := s.stopped + {w})
  }

  /** Steps that cannot happen are skipped, so every list of steps is a run. */
  function Exec(s: State, step: Step): State {
    if Enabled(s, step) then Next(s, step) else s
  }

  const START: State := State(map[], map[], {})

  function RunOf(steps: seq<Step>): State {
    Histories.Run(Exec, START, steps)
  }

  // ----- what holds in every state of every run -----

  /** A lease exactly while in process; a row that waits has attempts left. */
  ghost predicate RowOk(row: Row) {
    && row.attempts <= MAX_ATTEMPTS
    && (row.leaseOwner.Some? <==> row.status.Processing?)
    && (row.status.Waiting() ==> row.attempts < MAX_ATTEMPTS)
    && (row.status.Processing? ==> 0 < row.attempts)
  }

  /** A worker that still holds the lease holds it under the very claim it remembers. */
  ghost predicate Current(jobs: Jobs, w: WorkerId, c: Claimed) {
    c.id in jobs && (jobs[c.id].leaseOwner == Some(w) ==> c.attempts == jobs[c.id].attempts)
  }

  ghost predicate WorkerOk(jobs: Jobs, w: WorkerId, worker: Worker) {
    && 1 <= worker.maxAttempts <= MAX_ATTEMPTS
    && forall i :: 0 <= i < |worker.outstanding| ==> Current(jobs, w, worker.outstanding[i])
  }

  /** A lease names a worker that is or was running. */
  ghost predicate OwnerKnown(s: State, row: Row) {
    row.leaseOwner.Some? ==> row.leaseOwner.value in s.workers || row.leaseOwner.value in s.stopped
  }

  ghost predicate Inv(s: State) {
    && (forall id :: id in s.jobs ==> RowOk(s.jobs[id]) && OwnerKnown(s, s.jobs[id]))
    && (forall w :: w in s.workers ==> w !in s.stopped && WorkerOk(s.jobs, w, s.workers[w]))
  }

  /** How one step may change a row: a lease is gained only by a claim, everything else drops it. */
  ghost predicate RowStep(before: Row, after: Row, step: Step) {
    || after == before
    || (&& step.Claim? && !before.status.Terminal() && before.attempts < MAX_ATTEMPTS
        && after == ClaimedRow(before, step.worker, step.expires))
    || (&& step.Deliver? && before.status.Processing? && before.leaseOwner == Some(step.worker)
        && after.leaseOwner.None? && after.attempts == before.attempts
        && (after.status.Terminal() || (after.status.Retry? && after.attempts < MAX_ATTEMPTS)))
    || (&& step.CloseExhausted? && !before.status.Terminal()
        && after == before.(status := Dead, leaseOwner := None))
    || (&& step.Supersede? && (before.status.Waiting() || before.status.Dead?)
        && after == before.(status := Superseded, leaseOwner := None))
    || (&& step.Revive? && (before.status.Dead? || before.status.Superseded?)
        && after == before.(status := Retry, attempts := 0, nextAttemptAt := step.now, leaseOwner := None))
  }

  lemma DeliverRowStep(s: State, step: Step, id: JobId)
    requires Inv(s) && step.Deliver? && Enabled(s, step) && id in s.jobs
    ensures id in Next(s, step).jobs && RowStep(s.jobs[id], Next(s, step).jobs[id], step)
  {
    var worker := s.workers[step.worker];
    assert Current(s.jobs, step.worker, worker.outstanding[0]);
  }

  lemma RowSteps(s: State, step: Step, id: JobId)
    requires Inv(s) && id in s.jobs
    ensures id in Exec(s, step).jobs && RowStep(s.jobs[id], Exec(s, step).jobs[id], step)
  {
    if step.Deliver? && Enabled(s, step) {
      DeliverRowStep(s, step, id);
    }
  }

  lemma RowStaysOk(s: State, step: Step, id: JobId)
    requires Inv(s) && id in Exec(s, step).jobs
    ensures RowOk(Exec(s, step).jobs[id]) && OwnerKnown(Exec(s, step), Exec(s, step).jobs[id])
  {
    var t := Exec(s, step);
    if id in s.jobs {
      RowSteps(s, step, id);
      assert RowOk(s.jobs[id]) && OwnerKnown(s, s.jobs[id]);
      assert t.jobs[id] == s.jobs[id] || t.jobs[id].leaseOwner.None? || (step.Claim? && Enabled(s, step));
      assert forall w :: w in s.workers ==> w in t.workers || w in t.stopped;
    }
  }

  /** A memory that was current stays so, unless its own worker claims afresh. */
  lemma StaysCurrent(s: State, step: Step, w: WorkerId, c: Claimed)
    requires Inv(s) && Current(s.jobs, w, c)
    requires step.Claim? && Enabled(s, step) ==> step.worker != w
    ensures Current(Exec(s, step).jobs, w, c)
  {
    RowSteps(s, step, c.id);
  }

  lemma WorkerStaysOk(s: State, step: Step, w: WorkerId)
    requires Inv(s) && w in Exec(s, step).workers
    ensures w !in Exec(s, step).stopped && WorkerOk(Exec(s, step).jobs, w, Exec(s, step).workers[w])
  {
    var t := Exec(s, step);
    if Enabled(s, step) && step.Claim? && step.worker == w {
      var got := t.workers[w].outstanding;
      forall i | 0 <= i < |got| ensures Current(t.jobs, w, got[i]) {
        assert step.batch[i] in s.jobs;
      }
    } else if w in s.workers {
      var was, got := s.workers[w].outstanding, t.workers[w].outstanding;
      assert got == was || got == [] || got == was[1..];
      forall i | 0 <= i < |got| ensures Current(t.jobs, w, got[i]) {
        StaysCurrent(s, step, w, got[i]);
      }
    }
  }

  lemma StepKeepsInv(s: State, step: Step)
    ensures Inv(s) ==> Inv(Exec(s, step))
  {
    if Inv(s) {
      var t := Exec(s, step);
      forall id | id in t.jobs ensures RowOk(t.jobs[id]) && OwnerKnown(t, t.jobs[id]) {
        RowStaysOk(s, step, id);
      }
      forall w | w in t.workers ensures w !in t.stopped && WorkerOk(t.jobs, w, t.workers[w]) {
        WorkerStaysOk(s, step, w);
      }
    }
  }

  lemma {:induction false} RunKeepsInv(steps: seq<Step>)
    ensures Inv(RunOf(steps))
  {
    if steps != [] {
      var before := steps[..|steps| - 1];
      RunKeepsInv(before);
      assert steps == before + [steps[|steps| - 1]];
      Histories.RunSnoc(Exec, START, before, steps[|steps| - 1]);
      StepKeepsInv(RunOf(before), steps[|steps| - 1]);
    }
  }

  // ----- leases are respected -----

  /** A claim takes only rows that are due, and leaves each in process under a new lease with one more attempt. */
  lemma ClaimsDueRows(s: State, step: Step, id: JobId)
    requires step.Claim? && Enabled(s, step) && id in s.jobs
    ensures id in Exec(s, step).jobs
    ensures id in step.batch ==>
              && Due(s.jobs[id], step.now, s.workers[step.worker].maxAttempts)
              && Exec(s, step).jobs[id] ==
                 Row(Processing, s.jobs[id].attempts + 1, s.jobs[id].nextAttemptAt, Some(step.worker), step.expires)
    ensures id !in step.batch ==> Exec(s, step).jobs[id] == s.jobs[id]
  {
  }

  /** Closing exhausted rows closes exactly those out of attempts that nobody holds. */
  lemma ClosesSpentRows(s: State, step: Step, id: JobId)
    requires step.CloseExhausted? && Enabled(s, step) && id in s.jobs
    ensures id in Exec(s, step).jobs
    ensures Exec(s, step).jobs[id] ==
            if Spent(s.jobs[id], step.now, s.workers[step.worker].maxAttempts)
            then s.jobs[id].(status := Dead, leaseOwner := None) else s.jobs[id]
  {
  }

  /** The step comes before the lease runs out, and is no delivery of its owner. */
  predicate Foreign(step: Step, owner: WorkerId, expires: int) {
    match step
    case Claim(_, _, now, _) => now < expires
    case CloseExhausted(_, now) => now < expires
    case Deliver(w, _, _, _) => w != owner
    case _ => true
  }

  lemma {:induction false} HeldRowStays(s: State, steps: seq<Step>, id: JobId, owner: WorkerId)
    requires Inv(s) && id in s.jobs && s.jobs[id].status.Processing? && s.jobs[id].leaseOwner == Some(owner)
    requires forall i :: 0 <= i < |steps| ==> Foreign(steps[i], owner, s.jobs[id].leaseExpiresAt)
    ensures id in Histories.Run(Exec, s, steps).jobs && Histories.Run(Exec, s, steps).jobs[id] == s.jobs[id]
    decreases |steps|
  {
    if steps != [] {
      var step := steps[0];
      assert Foreign(step, owner, s.jobs[id].leaseExpiresAt);
      RowSteps(s, step, id);
      StepKeepsInv(s, step);
      if step.Claim? && Enabled(s, step) {
        ClaimsDueRows(s, step, id);
      } else if step.CloseExhausted? && Enabled(s, step) {
        ClosesSpentRows(s, step, id);
      }
      HeldRowStays(Exec(s, step), steps[1..], id, owner);
    }
  }

  /** Until a lease runs out, nothing but its owner's own delivery changes the row, whatever the others do. */
  lemma LeaseProtects(steps: seq<Step>, more: seq<Step>, id: JobId)
    requires id in RunOf(steps).jobs && RunOf(steps).jobs[id].status.Processing?
    requires
      var row := RunOf(steps).jobs[id];
      row.leaseOwner.Some? && forall i :: 0 <= i < |more| ==> Foreign(more[i], row.leaseOwner.value, row.leaseExpiresAt)
    ensures id in RunOf(steps + more).jobs && RunOf(steps + more).jobs[id] == RunOf(steps).jobs[id]
  {
    RunKeepsInv(steps);
    Histories.RunConcat(Exec, START, steps, more);
    HeldRowStays(RunOf(steps), more, id, RunOf(steps).jobs[id].leaseOwner.value);
  }

  // ----- fencing -----

  /**
   * A delivery that changes a row does so under the lease of the very claim the worker remembers: the
   * row is in process, in its name, and not claimed again since.
   */
  lemma DeliveryIsFenced(steps: seq<Step>, step: Step, id: JobId)
    requires step.Deliver? && id in RunOf(steps).jobs
    ensures id in Exec(RunOf(steps), step).jobs
    ensures
      var s := RunOf(steps);
      Exec(s, step).jobs[id] != s.jobs[id] ==>
        && step.worker in s.workers && s.workers[step.worker].outstanding != []
        && s.workers[step.worker].outstanding[0] == Claimed(id, s.jobs[id].attempts)
        && s.jobs[id].status.Processing? && s.jobs[id].leaseOwner == Some(step.worker)
  {
    RunKeepsInv(steps);
    var s := RunOf(steps);
    RowSteps(s, step, id);
    if Exec(s, step).jobs[id] != s.jobs[id] {
      assert Current(s.jobs, step.worker, s.workers[step.worker].outstanding[0]);
    }
  }

  /** How a delivery leaves a row that its worker holds, judged by the row's own attempts. */
  predicate SettledAs(before: Row, after: Row, outcome: Outcome, maxAttempts: nat, nextAttemptAt: int) {
    && after.leaseOwner.None? && after.attempts == before.attempts
    && match outcome
       case Delivered => after.status.Acked?
       case Overtaken => after.status.Superseded?
       case Problem(retryable) =>
         if retryable && before.attempts < maxAttempts then after.status.Retry? && after.nextAttemptAt == nextAttemptAt
         else after.status.Dead?
  }

  /**
   * A delivery touches at most the job at the head of its worker's batch. It settles that row by the
   * outcome and the attempts the row has now, or, when the lease is lost, changes nothing at all.
   */
  lemma DeliverySettles(steps: seq<Step>, step: Step)
    requires step.Deliver? && Enabled(RunOf(steps), step)
    ensures
      var s, worker := RunOf(steps), RunOf(steps).workers[step.worker];
      var id, after := worker.outstanding[0].id, Exec(RunOf(steps), step).jobs;
      && id in s.jobs && after.Keys == s.jobs.Keys
      && (forall other :: other in after && other != id ==> after[other] == s.jobs[other])
      && if Holds(s.jobs, id, step.worker)
         then SettledAs(s.jobs[id], after[id], step.outcome, worker.maxAttempts, step.nextAttemptAt)
         else after == s.jobs
  {
    RunKeepsInv(steps);
    var s := RunOf(steps);
    assert Current(s.jobs, step.worker, s.workers[step.worker].outstanding[0]);
  }

  predicate Claims(s: State, step: Step, id: JobId, w: WorkerId) {
    step.Claim? && Enabled(s, step) && id in step.batch && step.worker == w
  }

  ghost predicate NeverClaims(s: State, steps: seq<Step>, id: JobId, w: WorkerId)
    decreases |steps|
  {
    steps != [] ==> !Claims(s, steps[0], id, w) && NeverClaims(Exec(s, steps[0]), steps[1..], id, w)
  }

  /** Once a row is not leased to a worker, that worker's deliveries leave it alone until it claims it again. */
  lemma {:induction false} LostLeaseIsPowerless(s: State, steps: seq<Step>, step: Step, id: JobId, w: WorkerId)
    requires Inv(s) && id in s.jobs && s.jobs[id].leaseOwner != Some(w)
    requires NeverClaims(s, steps, id, w)
    requires step.Deliver? && step.worker == w
    ensures
      var t := Histories.Run(Exec, s, steps);
      && id in t.jobs && t.jobs[id].leaseOwner != Some(w)
      && id in Exec(t, step).jobs && Exec(t, step).jobs[id] == t.jobs[id]
    decreases |steps|
  {
    if steps == [] {
      RowSteps(s, step, id);
    } else {
      RowSteps(s, steps[0], id);
      StepKeepsInv(s, steps[0]);
      LostLeaseIsPowerless(Exec(s, steps[0]), steps[1..], step, id, w);
    }
  }

  // ----- terminal rows, attempts and progress -----

  predicate Revives(step: Step, id: JobId) {
    step.Revive? && step.id == id
  }

  ghost predicate NeverRevives(steps: seq<Step>, id: JobId) {
    forall i :: 0 <= i < |steps| ==> !Revives(steps[i], id)
  }

  lemma {:induction false} RowsStay(s: State, steps: seq<Step>, id: JobId)
    requires Inv(s) && id in s.jobs
    ensures Inv(Histories.Run(Exec, s, steps)) && id in Histories.Run(Exec, s, steps).jobs
    decreases |steps|
  {
    if steps != [] {
      RowSteps(s, steps[0], id);
      StepKeepsInv(s, steps[0]);
      RowsStay(Exec(s, steps[0]), steps[1..], id);
    }
  }

  lemma {:induction false} AckedLasts(s: State, steps: seq<Step>, id: JobId)
    requires Inv(s) && id in s.jobs && s.jobs[id].status.Acked?
    ensures id in Histories.Run(Exec, s, steps).jobs && Histories.Run(Exec, s, steps).jobs[id] == s.jobs[id]
    decreases |steps|
  {
    if steps != [] {
      RowSteps(s, steps[0], id);
      StepKeepsInv(s, steps[0]);
      AckedLasts(Exec(s, steps[0]), steps[1..], id);
    }
  }

  /** The row is closed, with these attempts, now and after each of the steps. */
  ghost predicate ClosedThroughout(s: State, steps: seq<Step>, id: JobId, attempts: nat)
    decreases |steps|
  {
    && id in s.jobs && s.jobs[id].status.Terminal() && s.jobs[id].attempts == attempts
    && (steps != [] ==> ClosedThroughout(Exec(s, steps[0]), steps[1..], id, attempts))
  }

  /** One step leaves a dead or superseded row dead or superseded, unless it replays the row, which reopens it. */
  lemma ClosedStep(s: State, step: Step, id: JobId)
    requires Inv(s) && id in s.jobs && (s.jobs[id].status.Dead? || s.jobs[id].status.Superseded?)
    ensures
      var t := Exec(s, step);
      && Inv(t) && id in t.jobs
      && if Revives(step, id) then t.jobs[id].status.Retry? && t.jobs[id].attempts == 0
         else (t.jobs[id].status.Dead? || t.jobs[id].status.Superseded?) && t.jobs[id].attempts == s.jobs[id].attempts
  {
    RowSteps(s, step, id);
    StepKeepsInv(s, step);
  }

  /** A dead or superseded row stays closed exactly as long as nobody replays it. */
  lemma {:induction false} ClosedUntilRevived(s: State, steps: seq<Step>, id: JobId)
    requires Inv(s) && id in s.jobs && (s.jobs[id].status.Dead? || s.jobs[id].status.Superseded?)
    ensures ClosedThroughout(s, steps, id, s.jobs[id].attempts) <==> NeverRevives(steps, id)
    decreases |steps|
  {
    if steps != [] {
      var next, rest := Exec(s, steps[0]), steps[1..];
      ClosedStep(s, steps[0], id);
      assert steps == [steps[0]] + rest;
      if !Revives(steps[0], id) {
        ClosedUntilRevived(next, rest, id);
        assert NeverRevives(steps, id) <==> NeverRevives(rest, id) by {
          assert forall i :: 0 <= i < |rest| ==> rest[i] == steps[i + 1];
          assert NeverRevives(rest, id) ==> forall i :: 0 < i < |steps| ==>
              !Revives(steps[i], id) && steps[i] == rest[i - 1];
        }
      }
    }
  }

  /**
   * From anywhere in a run, whatever happens next: an acked row never changes, and a dead or superseded
   * one stays closed if and only if no operator replays it.
   */
  lemma TerminalAbsorbs(steps: seq<Step>, more: seq<Step>, id: JobId)
    requires id in RunOf(steps).jobs && RunOf(steps).jobs[id].status.Terminal()
    ensures id in RunOf(steps + more).jobs
    ensures RunOf(steps).jobs[id].status.Acked? ==> RunOf(steps + more).jobs[id] == RunOf(steps).jobs[id]
    ensures !RunOf(steps).jobs[id].status.Acked? ==>
              (ClosedThroughout(RunOf(steps), more, id, RunOf(steps).jobs[id].attempts) <==> NeverRevives(more, id))
  {
    RunKeepsInv(steps);
    Histories.RunConcat(Exec, START, steps, more);
    RowsStay(RunOf(steps), more, id);
    if RunOf(steps).jobs[id].status.Acked? {
      AckedLasts(RunOf(steps), more, id);
    } else {
      ClosedUntilRevived(RunOf(steps), more, id);
    }
  }

  /** The step is a replay that takes effect on a row that has used attempts. */
  predicate Resets(s: State, step: Step, id: JobId) {
    && Revives(step, id) && id in s.jobs
    && (s.jobs[id].status.Dead? || s.jobs[id].status.Superseded?) && s.jobs[id].attempts > 0
  }

  ghost predicate NeverResets(s: State, steps: seq<Step>, id: JobId)
    decreases |steps|
  {
    steps != [] ==> !Resets(s, steps[0], id) && NeverResets(Exec(s, steps[0]), steps[1..], id)
  }

  /** No step lowers the row's attempts. */
  ghost predicate AttemptsRise(s: State, steps: seq<Step>, id: JobId)
    decreases |steps|
  {
    && id in s.jobs && s.jobs[id].attempts <= MAX_ATTEMPTS
    && (steps != [] ==>
          var next := Exec(s, steps[0]);
          id in next.jobs && s.jobs[id].attempts <= next.jobs[id].attempts && AttemptsRise(next, steps[1..], id))
  }

  lemma {:induction false} RiseUnlessReset(s: State, steps: seq<Step>, id: JobId)
    requires Inv(s) && id in s.jobs
    ensures AttemptsRise(s, steps, id) <==> NeverResets(s, steps, id)
    decreases |steps|
  {
    if steps != [] {
      RowSteps(s, steps[0], id);
      StepKeepsInv(s, steps[0]);
      RiseUnlessReset(Exec(s, steps[0]), steps[1..], id);
    }
  }

  lemma {:induction false} RiseEnds(s: State, steps: seq<Step>, id: JobId)
    requires AttemptsRise(s, steps, id)
    ensures id in Histories.Run(Exec, s, steps).jobs
    ensures s.jobs[id].attempts <= Histories.Run(Exec, s, steps).jobs[id].attempts
    decreases |steps|
  {
    if steps != [] {
      RiseEnds(Exec(s, steps[0]), steps[1..], id);
    }
  }

  lemma {:induction false} NoReplayNoReset(s: State, steps: seq<Step>, id: JobId)
    requires NeverRevives(steps, id)
    ensures NeverResets(s, steps, id)
    decreases |steps|
  {
    if steps != [] {
      NoReplayNoReset(Exec(s, steps[0]), steps[1..], id);
    }
  }

  /**
   * From anywhere in a run, attempts stay within the maximum, and never decrease if and only if no replay
   * resets them.
   */
  lemma AttemptsMonotone(steps: seq<Step>, more: seq<Step>, id: JobId)
    requires id in RunOf(steps).jobs
    ensures id in RunOf(steps + more).jobs && RunOf(steps + more).jobs[id].attempts <= MAX_ATTEMPTS
    ensures AttemptsRise(RunOf(steps), more, id) <==> NeverResets(RunOf(steps), more, id)
    ensures NeverRevives(more, id) ==> RunOf(steps).jobs[id].attempts <= RunOf(steps + more).jobs[id].attempts
  {
    RunKeepsInv(steps);
    Histories.RunConcat(Exec, START, steps, more);
    RowsStay(RunOf(steps), more, id);
    RiseUnlessReset(RunOf(steps), more, id);
    if NeverRevives(more, id) {
      NoReplayNoReset(RunOf(steps), more, id);
      RiseEnds(RunOf(steps), more, id);
    }
  }

  lemma FourSteps(s: State, a: Step, b: Step, c: Step, d: Step)
    ensures Histories.Run(Exec, s, [a, b, c, d]) == Exec(Exec(Exec(Exec(s, a), b), c), d)
  {
    Histories.RunSnoc(Exec, s, [a, b, c], d);
    Histories.RunSnoc(Exec, s, [a, b], c);
    Histories.RunSnoc(Exec, s, [a], b);
    Histories.RunSnoc(Exec, s, [], a);
    assert [] + [a] == [a] && [a] + [b] == [a, b] && [a, b] + [c] == [a, b, c] && [a, b, c] + [d] == [a, b, c, d];
  }

  const REFUSED: seq<Step> :=
    [Insert(1, 0), Start(2, MAX_ATTEMPTS), Claim(2, [1], 0, 45), Deliver(2, Problem(false), 0, true)]

  lemma ClaimsTheJob(s: State)
    requires s == State(map[1 := Row(Pending, 0, 0, None, 0)], map[2 := Worker(MAX_ATTEMPTS, [])], {})
    ensures Exec(s, Claim(2, [1], 0, 45)) ==
            State(map[1 := Row(Processing, 1, 0, Some(2), 45)], map[2 := Worker(MAX_ATTEMPTS, [Claimed(1, 1)])], {})
  {
    var t := Exec(s, Claim(2, [1], 0, 45));
    assert 1 in [1];
    assert t.jobs == map[1 := Row(Processing, 1, 0, Some(2), 45)];
    assert t.workers[2].outstanding == [Claimed(1, 1)];
  }

  lemma RefusesTheJob(s: State)
    requires s ==
             State(map[1 := Row(Processing, 1, 0, Some(2), 45)], map[2 := Worker(MAX_ATTEMPTS, [Claimed(1, 1)])], {})
    ensures Exec(s, Deliver(2, Problem(false), 0, true)).jobs == map[1 := Row(Dead, 1, 0, None, 45)]
  {
  }

  /** A run in which a job is refused for good, and an operator's replay opens it again with no attempts used. */
  lemma ReplayReopens()
    ensures RunOf(REFUSED).jobs == map[1 := Row(Dead, 1, 0, None, 45)]
    ensures RunOf(REFUSED + [Revive(1, 60)]).jobs == map[1 := Row(Retry, 0, 60, None, 45)]
  {
    var s := Exec(Exec(START, Insert(1, 0)), Start(2, MAX_ATTEMPTS));
    ClaimsTheJob(s);
    RefusesTheJob(Exec(s, Claim(2, [1], 0, 45)));
    FourSteps(START, REFUSED[0], REFUSED[1], REFUSED[2], REFUSED[3]);
    Histories.RunSnoc(Exec, START, REFUSED, Revive(1, 60));
  }

  /**
   * No row is ever stuck. A waiting row always has an attempt left for a worker with the full limit,
   * and a row whose lease has run out can be claimed again, or closed after the last attempt.
   */
  lemma NeverStuck(steps: seq<Step>, id: JobId, now: int)
    requires id in RunOf(steps).jobs && !RunOf(steps).jobs[id].status.Terminal()
    ensures
      var row := RunOf(steps).jobs[id];
      && (row.status.Waiting() && row.nextAttemptAt <= now ==> Claimable(row, now, MAX_ATTEMPTS))
      && (row.status.Processing? && row.leaseExpiresAt <= now ==>
            if row.attempts < MAX_ATTEMPTS then Claimable(row, now, MAX_ATTEMPTS)
            else row.attempts == MAX_ATTEMPTS && Exhausted(row, now, MAX_ATTEMPTS))
      && (row.status.Waiting() || row.status.Processing?)
    ensures
      var s, row := RunOf(steps), RunOf(steps).jobs[id];
      forall w, expires ::
        && w in s.workers && s.workers[w] == Worker(MAX_ATTEMPTS, [])
        && (if row.status.Processing? then row.leaseExpiresAt <= now else row.nextAttemptAt <= now) ==>
          || Enabled(s, Claim(w, [id], now, expires))
          || (Enabled(s, CloseExhausted(w, now)) && Spent(row, now, MAX_ATTEMPTS) && row.status.Processing?)
  {
    RunKeepsInv(steps);
    assert RowOk(RunOf(steps).jobs[id]);
  }

  // ----- the work on a row is bounded -----

  /** What can still happen to a row. */
  function Measure(row: Row): nat
    requires row.attempts <= MAX_ATTEMPTS
  {
    match row.status
    case Acked => 0
    case Superseded => 0
    case Dead => 1
    case Processing => 2 * (MAX_ATTEMPTS - row.attempts) + 2
    case Pending => 2 * (MAX_ATTEMPTS - row.attempts) + 1
    case Retry => 2 * (MAX_ATTEMPTS - row.attempts) + 1
  }

  /** Times the row changes, other than by an operator's replay. */
  ghost function Changes(steps: seq<Step>, id: JobId): nat {
    if steps == [] then 0 else
      var before, step := RunOf(steps[..|steps| - 1]), steps[|steps| - 1];
      var after := Exec(before, step);
      Changes(steps[..|steps| - 1], id) +
      if id in before.jobs && id in after.jobs && after.jobs[id] != before.jobs[id] && !Revives(step, id) then 1 else 0
  }

  /** Times the row is claimed. */
  ghost function ClaimCount(steps: seq<Step>, id: JobId): nat {
    if steps == [] then 0 else
      var before, step := RunOf(steps[..|steps| - 1]), steps[|steps| - 1];
      ClaimCount(steps[..|steps| - 1], id) + if step.Claim? && Enabled(before, step) && id in step.batch then 1 else 0
  }

  /** Times an operator asked for the row's replay. */
  ghost function Revivals(steps: seq<Step>, id: JobId): nat {
    if steps == [] then 0 else
      Revivals(steps[..|steps| - 1], id) + if Revives(steps[|steps| - 1], id) then 1 else 0
  }

  /** Every change but a replay uses up some of the measure, and every claim an attempt. */
  lemma StepSpends(s: State, step: Step, id: JobId)
    requires Inv(s) && id in s.jobs
    ensures
      var t := Exec(s, step);
      && id in t.jobs && t.jobs[id].attempts <= MAX_ATTEMPTS && s.jobs[id].attempts <= MAX_ATTEMPTS
      && (|| t.jobs[id] == s.jobs[id] || Measure(t.jobs[id]) < Measure(s.jobs[id])
          || (Revives(step, id) && Measure(t.jobs[id]) == 17))
      && (s.jobs[id].attempts <= t.jobs[id].attempts || Revives(step, id))
      && (step.Claim? && Enabled(s, step) && id in step.batch ==> t.jobs[id].attempts == s.jobs[id].attempts + 1)
  {
    RowSteps(s, step, id);
    StepKeepsInv(s, step);
    assert RowOk(s.jobs[id]) && RowOk(Exec(s, step).jobs[id]);
  }

  /** A budget of 17 changes and 8 claims at insertion and at every replay is never overdrawn. */
  lemma {:induction false} Budget(steps: seq<Step>, id: JobId)
    ensures
      var s := RunOf(steps);
      if id in s.jobs then
        && s.jobs[id].attempts <= MAX_ATTEMPTS
        && Changes(steps, id) + Measure(s.jobs[id]) <= 17 * (1 + Revivals(steps, id))
        && ClaimCount(steps, id) + MAX_ATTEMPTS - s.jobs[id].attempts <= MAX_ATTEMPTS * (1 + Revivals(steps, id))
      else Changes(steps, id) == 0 && ClaimCount(steps, id) == 0
  {
    if steps != [] {
      var earlier, step := steps[..|steps| - 1], steps[|steps| - 1];
      Budget(earlier, id);
      RunKeepsInv(earlier);
      RunKeepsInv(steps);
      assert steps == earlier + [step];
      Histories.RunSnoc(Exec, START, earlier, step);
      var s := RunOf(earlier);
      if id in s.jobs {
        StepSpends(s, step, id);
      }
    }
  }

  /** In any run, a job is claimed at most 8 times and changed at most 17 times per replay. */
  lemma WorkIsBounded(steps: seq<Step>, id: JobId)
    ensures ClaimCount(steps, id) <= MAX_ATTEMPTS * (1 + Revivals(steps, id))
    ensures Changes(steps, id) <= 17 * (1 + Revivals(steps, id))
  {
    Budget(steps, id);
    RunKeepsInv(steps);
  }
}
