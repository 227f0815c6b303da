/**
 What the outcome of an attempt does to its job (internal/service/worker.go, `processDeliveryJob`),
 on whole runs and told from the outcome, the attempts so far and the job as it was first stored.
 */
module Outcomes {
  import opened Domain
  import opened ServiceSpec
  import opened Runs
  import opened Fifo
  import opened Worker
  import StoreSpec

  /** In step `k` the worker takes up a job that was stored before step `h`. */
  predicate Handles(r: Run, h: nat, k: nat, id: string) {
    && h <= k < |r.actions| && k + 1 < |r.worlds|
    && id in r.worlds[h].store.deliveryJobs && TakesUp(r.worlds[k], r.actions[k], id)
  }

  /** The attempts that the job has behind it at step `k`. */
  function AttemptsBy(r: Run, h: nat, k: nat, id: string): nat
    requires Handles(r, h, k, id)
  {
    r.worlds[h].store.deliveryJobs[id].attemptCount + Attempts(r, h, k, id)
  }

  /** The job, if it is still stored, waits for `delay` and is attempted again. */
  predicate IsPutBack(r: Run, k: nat, id: string, delay: int)
    requires k < |r.actions| && k + 1 < |r.worlds| && r.actions[k].Process?
  {
    var a, jobs, jobs' := r.actions[k], r.worlds[k].store.deliveryJobs, r.worlds[k + 1].store.deliveryJobs;
    && (id in jobs <==> id in jobs')
    && (id in jobs ==> jobs'[id] == jobs[id].(attemptCount := jobs[id].attemptCount + 1, lastError := a.error,
          nextAttemptAt := a.rescheduledAt + delay, updatedAt := a.finishedAt))
  }

  /** The dead-letter message that the failure of this job calls for: a confirmation calls for none. */
  function DeadLetters(env: Env, job: DeliveryJob): seq<Redrive> {
    if env.hasSqs && job.kind == Notification && job.redrivePolicy.Parsed? && job.redrivePolicy.value != ""
    then [Redrive(job.redrivePolicy.value, job.payload.subscriptionArn, job.payload.messageId)]
    else []
  }

  /** The worker's copy is the job of before with its attempts, and the step settles what is stored. */
  lemma CopyAt(r: Run, h: nat, k: nat, id: string)
    requires Valid(r) && Handles(r, h, k, id)
    ensures var job, b := r.worlds[h].store.deliveryJobs[id], r.worlds[k].batch[0];
      && b.attemptCount == AttemptsBy(r, h, k, id) && Delays(b) == Delays(job)
      && b.payload == job.payload && b.kind == job.kind && b.redrivePolicy == job.redrivePolicy
    ensures id in r.worlds[k].store.deliveryJobs ==>
      SettlesJob(r.env, r.worlds[k], r.actions[k], r.worlds[k + 1], id)
    ensures id !in r.worlds[k].store.deliveryJobs ==> id !in r.worlds[k + 1].store.deliveryJobs
  {
    hide StepAt, Follows, Delays, SettlesJob, LeavesJob, BatchChange;
    var job := r.worlds[h].store.deliveryJobs[id];
    StoredIsFollowed(r, h, id);
    JobIsFollowed(r, h, k, job);
    HeadIsLater(r.worlds[k], r.actions[k], job, Attempts(r, h, k, id));
    SameDelays(job, Attempts(r, h, k, id), r.worlds[k].batch[0]);
    RunJobStep(r, k, id);
    assert r.worlds[k].batch[0] in r.worlds[k].batch;
  }

  /** An attempt that succeeds removes the job, counts it as delivered and redrives nothing. */
  lemma SuccessDelivers(r: Run, h: nat, k: nat, id: string)
    requires Valid(r) && Handles(r, h, k, id) && r.actions[k].outcome == Success
    requires r.worlds[h].store.deliveryJobs[id].payload.protocol in r.env.adapters
    ensures id !in r.worlds[k + 1].store.deliveryJobs && RedrivesAt(r, k, id) == []
    ensures id in r.worlds[k].store.deliveryJobs ==> Ends(r, k, id, WasDelivered)
  {
    hide Valid, Delays;
    CopyAt(r, h, k, id);
  }

  /**
   The worker gives a job up exactly when the attempt fails for good, or fails with all the retries
   of its schedule used up; the job is then removed and its dead letter sent.
   */
  lemma GivesUpExactly(r: Run, h: nat, k: nat, id: string)
    requires Valid(r) && Handles(r, h, k, id)
    requires r.worlds[h].store.deliveryJobs[id].payload.protocol in r.env.adapters
    ensures var job, outcome := r.worlds[h].store.deliveryJobs[id], r.actions[k].outcome;
      GivesUp(r, k, id) <==>
        outcome == Final || (outcome == Retryable && AttemptsBy(r, h, k, id) >= |Delays(job)|)
    ensures GivesUp(r, k, id) ==>
      && id !in r.worlds[k + 1].store.deliveryJobs
      && RedrivesAt(r, k, id) == DeadLetters(r.env, r.worlds[h].store.deliveryJobs[id])
      && (id in r.worlds[k].store.deliveryJobs ==> Ends(r, k, id, WasGivenUp))
  {
    hide Valid, Delays;
    CopyAt(r, h, k, id);
  }

  /** In the remaining case it is put back for the delay whose place is the number of attempts behind it. */
  lemma RetryPutsBack(r: Run, h: nat, k: nat, id: string)
    requires Valid(r) && Handles(r, h, k, id) && r.actions[k].outcome == Retryable
    requires r.worlds[h].store.deliveryJobs[id].payload.protocol in r.env.adapters
    requires AttemptsBy(r, h, k, id) < |Delays(r.worlds[h].store.deliveryJobs[id])|
    ensures IsPutBack(r, k, id, Delays(r.worlds[h].store.deliveryJobs[id])[AttemptsBy(r, h, k, id)])
    ensures RedrivesAt(r, k, id) == []
  {
    hide Valid, Delays;
    CopyAt(r, h, k, id);
  }

  /** A job whose protocol has no adapter is put back for five seconds, whatever its outcome and its attempts. */
  lemma NoAdapterPutsBack(r: Run, h: nat, k: nat, id: string)
    requires Valid(r) && Handles(r, h, k, id)
    requires r.worlds[h].store.deliveryJobs[id].payload.protocol !in r.env.adapters
    ensures IsPutBack(r, k, id, 5_000_000_000) && RedrivesAt(r, k, id) == []
  {
    hide Valid, Delays;
    CopyAt(r, h, k, id);
  }

  /** In steps `i` to `j - 1` an attempt at the stored job succeeded. */
  ghost predicate Succeeds(r: Run, i: nat, j: nat, id: string) {
    exists k: nat :: i <= k < j && Handles(r, i, k, id) && id in r.worlds[k].store.deliveryJobs
      && r.actions[k].outcome == Success
  }

  /** Over any stretch a job counts as delivered exactly when an attempt at it succeeded, and then once. */
  lemma {:induction false} DeliveredExactly(r: Run, i: nat, j: nat, id: string)
    requires Valid(r) && i <= j < |r.worlds| && id in r.worlds[i].store.deliveryJobs
    requires r.worlds[i].store.deliveryJobs[id].payload.protocol in r.env.adapters
    ensures Endings(r, i, j, id, WasDelivered) == if Succeeds(r, i, j, id) then 1 else 0
  {
    hide StepAt, Ends, Handles;
    if i < j {
      DeliveredExactly(r, i, j - 1, id);
      JobsAreConserved(r, i, j - 1, id);
      JobsAreConserved(r, i, j, id);
      DeliveredNow(r, i, j - 1, id);
    }
  }

  lemma DeliveredNow(r: Run, h: nat, k: nat, id: string)
    requires Valid(r) && h <= k < |r.actions| && id in r.worlds[h].store.deliveryJobs
    requires r.worlds[h].store.deliveryJobs[id].payload.protocol in r.env.adapters
    ensures Ends(r, k, id, WasDelivered) <==>
      Handles(r, h, k, id) && id in r.worlds[k].store.deliveryJobs && r.actions[k].outcome == Success
  {
    hide StepAt, Delays;
    if Handles(r, h, k, id) {
      CopyAt(r, h, k, id);
    }
  }

  predicate Before(a: DeliveryJob, b: DeliveryJob) {
    a.nextAttemptAt < b.nextAttemptAt || (a.nextAttemptAt == b.nextAttemptAt && a.createdAt <= b.createdAt)
  }

  /**
   The worker's listing has copies of due jobs only, those due first in front and of these the oldest; and
   of all of them, unless the limit is used up by jobs that come before.
   */
  lemma DueJobsAreListed(env: Env, w: World, a: Action, w': World, id: string)
    requires Steps(env, w, a, w') && a.ListReady? && id in w.store.deliveryJobs
    ensures var job := w.store.deliveryJobs[id];
      && (job in w'.batch ==> job.nextAttemptAt <= a.listedAt)
      && (job.nextAttemptAt <= a.listedAt && job !in w'.batch ==>
            0 < a.limit == |w'.batch| && forall b :: b in w'.batch ==> Before(b, job))
    ensures a.limit > 0 ==> |w'.batch| <= a.limit
    ensures forall i, j :: 0 <= i < j < |w'.batch| ==> Before(w'.batch[i], w'.batch[j])
  {
    if id in a.jobKeys {
      var i :| 0 <= i < |a.jobKeys| && a.jobKeys[i] == id;
      assert w'.batch[i] == w.store.deliveryJobs[id];
    }
    forall i | 0 <= i < |a.jobKeys|
      ensures a.jobKeys[i] in w.store.deliveryJobs && w'.batch[i] == w.store.deliveryJobs[a.jobKeys[i]]
      ensures w'.batch[i].nextAttemptAt <= a.listedAt
    {
      assert a.jobKeys[i] in a.jobKeys;
    }
  }
}
