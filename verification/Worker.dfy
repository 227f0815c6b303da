/**
 Delivery jobs over whole runs (internal/service/worker.go): how often and when a job is
 attempted, how it ends, and when it is redriven. The worker works on copies of the jobs it listed
 while other calls go on.
 */
module Worker {
  import opened Common
  import opened Domain
  import opened Attributes
  import opened ServiceSpec
  import opened Runs
  import opened Integrity
  import opened Preservation
  import opened Fifo
  import opened FanOut
  import Delivery
  import StoreSpec

  // ---- One step -------------------------------------------------------------------------------------------

  /** The worker takes up its copy of job `id`. */
  predicate TakesUp(w: World, a: Action, id: string) {
    a.Process? && w.batch != [] && w.batch[0].id == id
  }

  function VerdictOf(env: Env, w: World, a: Action): Verdict
    requires a.Process? && w.batch != []
  {
    Judge(env, w.batch[0], a.outcome)
  }

  /** A job that the worker does not take up stays as it is, unless its topic is deleted. */
  ghost predicate LeavesJob(s: StoreState, a: Action, s': StoreState, id: string)
    requires id in s.deliveryJobs
  {
    if Deletes(a, s.deliveryJobs[id].payload.topicArn) then id !in s'.deliveryJobs
    else id in s'.deliveryJobs && s'.deliveryJobs[id] == s.deliveryJobs[id]
  }

  /** A job that it does take up is put back for later or removed. */
  ghost predicate SettlesJob(env: Env, w: World, a: Action, w': World, id: string)
    requires TakesUp(w, a, id) && id in w.store.deliveryJobs
  {
    match VerdictOf(env, w, a)
    case RetryIn(delay) =>
      && id in w'.store.deliveryJobs
      && w'.store.deliveryJobs[id] ==
           Rescheduled(w.store.deliveryJobs[id], delay, a.error, a.rescheduledAt, a.finishedAt)
    case _ => id !in w'.store.deliveryJobs
  }

  ghost predicate JobChange(env: Env, w: World, a: Action, w': World, id: string) {
    && (id in w.used ==> id in w'.used)
    && (id in w.used && id !in w.store.deliveryJobs ==> id !in w'.store.deliveryJobs)
    && (id in w.store.deliveryJobs ==>
          if TakesUp(w, a, id) then SettlesJob(env, w, a, w', id) else LeavesJob(w.store, a, w'.store, id))
  }

  /** The jobs after a step that only adds jobs under new identifiers. */
  ghost predicate OnlyAdds(used: set<string>, jobs: Jobs, jobs': Jobs) {
    && (forall j :: j in jobs ==> j in jobs' && jobs'[j] == jobs[j])
    && (forall j :: j in jobs' && j !in jobs ==> j !in used)
  }

  lemma SubscribeAdds(env: Env, s: StoreState, topicArn: string, auth: Auth, protocol: Protocol, endpoint: string,
    attrs: SubscriptionEntries, returnArn: bool, existing: seq<Subscription>, queue: Option<Queue>, ticket: Ticket,
    used: set<string>)
    requires s.deliveryJobs.Keys <= used && ticket.jobId !in used
    ensures OnlyAdds(used, s.deliveryJobs,
      ServiceSpec.Subscribe(env, s, topicArn, auth, protocol, endpoint, attrs, returnArn, existing, queue,
        ticket).store.deliveryJobs)
  {
    hide FindExisting, MadeSubscription, AcceptsSubscription, Delivery.EffectivePolicy, SubscribeTokenFor;
  }

  lemma UnsubscribeAdds(s: StoreState, arn: string, byOwner: bool, ticket: Ticket, used: set<string>)
    requires s.deliveryJobs.Keys <= used && ticket.jobId !in used
    ensures OnlyAdds(used, s.deliveryJobs, ServiceSpec.Unsubscribe(s, arn, byOwner, ticket).store.deliveryJobs)
  {
    hide Delivery.EffectivePolicy, UnsubscribeTokenFor;
  }

  lemma TicketAdds(env: Env, w: World, a: Action, w': World)
    requires Steps(env, w, a, w') && w.store.deliveryJobs.Keys <= w.used && (a.Subscribe? || a.Unsubscribe?)
    ensures OnlyAdds(w.used, w.store.deliveryJobs, w'.store.deliveryJobs)
  {
    hide Listing, Filtered, ServiceSpec.Subscribe, ServiceSpec.Unsubscribe, OnlyAdds;
    if a.Subscribe? {
      SubscribeAdds(env, w.store, a.topicArn, a.auth, a.protocol, a.endpoint, a.entries, a.returnArn, a.subs, a.queue,
        a.ticket, w.used);
    } else {
      UnsubscribeAdds(w.store, a.arn, a.byOwner, a.ticket, w.used);
    }
  }

  lemma PublishAdds(env: Env, w: World, a: Action, w': World)
    requires GoodWorld(env, w) && Steps(env, w, a, w') && a.Publish?
    ensures OnlyAdds(w.used, w.store.deliveryJobs, w'.store.deliveryJobs)
  {
    hide Good, Steps, ServiceSpec.Publish, Enqueued, Deliveries, ResolveMessages, Selected, Listing, Filtered;
    if Sends(env, w, a) {
      ListedSubscriptions(env, w, a, w');
      var o := WhatIsSent(env, w, a);
      AfterPublish(env, w, a, w');
      hide ReplyTo, Sends, ToJob;
      EnqueuedAddsJobs(o, w.store.deliveryJobs, w.used, a.subs, a.fate);
    } else {
      NothingOtherwise(env, w, a, w');
    }
  }

  lemma OtherJobs(env: Env, w: World, a: Action, w': World)
    requires Steps(env, w, a, w')
    requires !a.DeleteTopic? && !a.Subscribe? && !a.Unsubscribe? && !a.Publish? && !a.Process?
    ensures w'.store.deliveryJobs == w.store.deliveryJobs
  {
    hide StoreSpec.ReadyKeys, AcceptsSubscriptionAttribute, WithEffective, WithSubscriptionAttributes, ValidTopicName,
      NewTopic, WithTopicAttributes, AcceptsTopicAttribute, AcceptsTopicAttributes, WantsFifo;
  }

  lemma ProcessChange(env: Env, w: World, a: Action, w': World, id: string)
    requires Steps(env, w, a, w') && a.Process?
    ensures JobChange(env, w, a, w', id)
  {
    hide Judge;
  }

  lemma JobStep(env: Env, w: World, a: Action, w': World, id: string)
    requires GoodWorld(env, w) && Steps(env, w, a, w')
    ensures JobChange(env, w, a, w', id)
  {
    hide GoodWorld, Listing, StoreSpec.ReadyKeys, FreshJobs, Filtered, FreshTicket, ConfirmSubscription,
      ServiceSpec.Unsubscribe, ServiceSpec.Subscribe, ServiceSpec.Publish, ServiceSpec.CreateTopic,
      ServiceSpec.SetTopicAttribute, ServiceSpec.SetSubscriptionAttribute, ProcessJob, Judge;
    JobsAreUsed(env, w);
    match a
    case DeleteTopic(_) =>
    case Subscribe(_, _, _, _, _, _, _, _, _, _) => TicketAdds(env, w, a, w');
    case Unsubscribe(_, _, _) => TicketAdds(env, w, a, w');
    case Publish(_, _, _, _, _, _) => PublishAdds(env, w, a, w');
    case Process(_, _, _, _) => ProcessChange(env, w, a, w', id);
    case _ => OtherJobs(env, w, a, w');
  }

  lemma JobsAreUsed(env: Env, w: World)
    requires GoodWorld(env, w)
    ensures w.store.deliveryJobs.Keys <= w.used
    ensures forall j :: j in w.store.deliveryJobs ==>
      w.store.deliveryJobs[j].id == j && w.store.deliveryJobs[j].payload.topicArn in w.store.topics
  {
    hide Base;
    JobsFacts(env, w.used, w.store);
  }

  // ---- The batch ------------------------------------------------------------------------------------------

  /** Copies of different jobs, each due, and equal to the stored job for as long as that is there. */
  ghost predicate BatchFits(w: World) {
    && (forall i, j :: 0 <= i < j < |w.batch| ==> w.batch[i].id != w.batch[j].id)
    && (forall b :: b in w.batch ==>
          && b.id in w.used && b.nextAttemptAt <= w.now
          && (b.id in w.store.deliveryJobs ==> w.store.deliveryJobs[b.id] == b))
  }

  lemma ListedBatch(env: Env, w: World, a: Action, w': World)
    requires Steps(env, w, a, w') && a.ListReady? && w.store.deliveryJobs.Keys <= w.used
    requires forall j :: j in w.store.deliveryJobs ==> w.store.deliveryJobs[j].id == j
    ensures BatchFits(w')
  {
    hide StoreSpec.Sooner;
    forall i | 0 <= i < |a.jobKeys|
      ensures w'.batch[i] == w.store.deliveryJobs[a.jobKeys[i]] && a.jobKeys[i] in w.store.deliveryJobs
    {
      assert a.jobKeys[i] in a.jobKeys;
    }
  }

  lemma RestOfBatch(env: Env, w: World, a: Action, w': World)
    requires Steps(env, w, a, w') && !a.ListReady?
    ensures w.now <= w'.now && (a.Process? ==> w.batch != [])
    ensures w'.batch == if a.Process? then w.batch[1..] else w.batch
  {
    hide After, Listing, StoreSpec.ReadyKeys, FreshJobs, Filtered, FreshTicket;
  }

  lemma CopyStillFits(env: Env, w: World, a: Action, w': World, b: DeliveryJob)
    requires JobChange(env, w, a, w', b.id) && !TakesUp(w, a, b.id) && b.id in w.used
    requires b.id in w.store.deliveryJobs ==> w.store.deliveryJobs[b.id] == b
    ensures b.id in w'.used && (b.id in w'.store.deliveryJobs ==> w'.store.deliveryJobs[b.id] == b)
  {
  }

  lemma BatchStep(env: Env, w: World, a: Action, w': World)
    requires GoodWorld(env, w) && Steps(env, w, a, w') && BatchFits(w)
    ensures BatchFits(w')
  {
    hide GoodWorld, Steps, JobChange;
    JobsAreUsed(env, w);
    if a.ListReady? {
      ListedBatch(env, w, a, w');
    } else {
      RestOfBatch(env, w, a, w');
      forall b | b in w'.batch
        ensures b.id in w'.used && b.nextAttemptAt <= w'.now
        ensures b.id in w'.store.deliveryJobs ==> w'.store.deliveryJobs[b.id] == b
      {
        JobStep(env, w, a, w', b.id);
        CopyStillFits(env, w, a, w', b);
      }
    }
  }

  // ---- Runs -----------------------------------------------------------------------------------------------

  ghost predicate BatchChange(w: World, a: Action, w': World) {
    if a.ListReady? then
      w.batch == [] && forall b :: b in w'.batch ==> b.id in w.store.deliveryJobs && w.store.deliveryJobs[b.id] == b
    else if a.Process? then w.batch != [] && w'.batch == w.batch[1..]
    else w'.batch == w.batch
  }

  lemma ListedFromStore(env: Env, w: World, a: Action, w': World)
    requires GoodWorld(env, w) && Steps(env, w, a, w') && a.ListReady?
    ensures BatchChange(w, a, w')
  {
    hide StoreSpec.Sooner, GoodWorld;
    JobsAreUsed(env, w);
    forall i | 0 <= i < |a.jobKeys|
      ensures w'.batch[i] == w.store.deliveryJobs[a.jobKeys[i]] && a.jobKeys[i] in w.store.deliveryJobs
    {
      assert a.jobKeys[i] in a.jobKeys;
    }
  }

  lemma {:induction false} ReachableBatch(r: Run, j: nat)
    requires Valid(r) && j < |r.worlds|
    ensures BatchFits(r.worlds[j])
  {
    hide GoodWorld, Steps;
    if j > 0 {
      ReachableBatch(r, j - 1);
      ReachableIsGood(r.env, r.worlds, r.actions, j - 1);
      assert StepAt(r.env, r.worlds, r.actions, j - 1);
      BatchStep(r.env, r.worlds[j - 1], r.actions[j - 1], r.worlds[j]);
    }
  }

  lemma RunJobStep(r: Run, j: nat, id: string)
    requires Valid(r) && j < |r.actions|
    ensures JobChange(r.env, r.worlds[j], r.actions[j], r.worlds[j + 1], id)
    ensures BatchChange(r.worlds[j], r.actions[j], r.worlds[j + 1]) && BatchFits(r.worlds[j])
    ensures r.worlds[j].store.deliveryJobs.Keys <= r.worlds[j].used && r.worlds[j].now <= r.worlds[j + 1].now
  {
    hide GoodWorld, Steps, JobChange, BatchFits;
    var env, w, a, w' := r.env, r.worlds[j], r.actions[j], r.worlds[j + 1];
    ReachableIsGood(env, r.worlds, r.actions, j);
    ReachableBatch(r, j);
    assert StepAt(env, r.worlds, r.actions, j);
    JobStep(env, w, a, w', id);
    JobsAreUsed(env, w);
    ClockStep(env, w, a, w');
    if a.ListReady? {
      ListedFromStore(env, w, a, w');
    } else {
      RestOfBatch(env, w, a, w');
    }
  }

  // ---- Following one job ----------------------------------------------------------------------------------

  /** Stored, or in the worker's hands. */
  ghost predicate InPlay(w: World, id: string) {
    id in w.store.deliveryJobs || exists b :: b in w.batch && b.id == id
  }

  /** The job after `n` more attempts: only its count, its times and its last error have changed. */
  predicate Later(job: DeliveryJob, n: nat, x: DeliveryJob) {
    && x == job.(attemptCount := job.attemptCount + n, lastError := x.lastError, nextAttemptAt := x.nextAttemptAt,
         updatedAt := x.updatedAt)
    && (n == 0 ==> x == job)
  }

  ghost predicate Follows(job: DeliveryJob, n: nat, w: World) {
    && job.id in w.used
    && (job.id in w.store.deliveryJobs ==> Later(job, n, w.store.deliveryJobs[job.id]))
    && (forall b :: b in w.batch && b.id == job.id ==> Later(job, n, b))
  }

  lemma FollowsStep(env: Env, w: World, a: Action, w': World, job: DeliveryJob, n: nat)
    requires JobChange(env, w, a, w', job.id) && BatchChange(w, a, w') && BatchFits(w) && Follows(job, n, w)
    ensures Follows(job, if TakesUp(w, a, job.id) then n + 1 else n, w')
    ensures InPlay(w', job.id) ==> InPlay(w, job.id)
    ensures InPlay(w', job.id) && TakesUp(w, a, job.id) ==> VerdictOf(env, w, a).RetryIn?
  {
    hide Judge;
  }

  /** The number of times the worker takes up the job in steps `i` to `j - 1`. */
  function Attempts(r: Run, i: nat, j: nat, id: string): nat
    requires i <= j <= |r.actions| && j <= |r.worlds|
  {
    if i == j then 0 else Attempts(r, i, j - 1, id) + if TakesUp(r.worlds[j - 1], r.actions[j - 1], id) then 1 else 0
  }

  lemma {:induction false} JobIsFollowed(r: Run, i: nat, j: nat, job: DeliveryJob)
    requires Valid(r) && i <= j < |r.worlds| && Follows(job, 0, r.worlds[i])
    ensures Follows(job, Attempts(r, i, j, job.id), r.worlds[j])
    ensures InPlay(r.worlds[j], job.id) ==> InPlay(r.worlds[i], job.id)
  {
    hide StepAt, JobChange, BatchChange, BatchFits, InPlay, TakesUp;
    if i < j {
      JobIsFollowed(r, i, j - 1, job);
      RunJobStep(r, j - 1, job.id);
      FollowsStep(r.env, r.worlds[j - 1], r.actions[j - 1], r.worlds[j], job, Attempts(r, i, j - 1, job.id));
    }
  }

  lemma StoredIsFollowed(r: Run, i: nat, id: string)
    requires Valid(r) && i < |r.worlds| && id in r.worlds[i].store.deliveryJobs
    ensures r.worlds[i].store.deliveryJobs[id].id == id && Follows(r.worlds[i].store.deliveryJobs[id], 0, r.worlds[i])
  {
    hide GoodWorld;
    ReachableIsGood(r.env, r.worlds, r.actions, i);
    JobsAreUsed(r.env, r.worlds[i]);
    ReachableBatch(r, i);
  }

  // ---- How often ------------------------------------------------------------------------------------------

  /** Attempts left to a job, the one after the last retry included. */
  function AttemptsLeft(job: DeliveryJob): nat {
    if job.attemptCount < |Delays(job)| then |Delays(job)| - job.attemptCount + 1 else 1
  }

  /** A job whose protocol has an adapter is attempted at most once more than its schedule has entries. */
  lemma {:induction false} AttemptsAreBounded(r: Run, i: nat, j: nat, id: string)
    requires Valid(r) && i <= j < |r.worlds| && id in r.worlds[i].store.deliveryJobs
    requires r.worlds[i].store.deliveryJobs[id].payload.protocol in r.env.adapters
    ensures Attempts(r, i, j, id) <= AttemptsLeft(r.worlds[i].store.deliveryJobs[id])
    ensures InPlay(r.worlds[j], id) ==> Attempts(r, i, j, id) < AttemptsLeft(r.worlds[i].store.deliveryJobs[id])
  {
    hide StepAt, GoodWorld, Steps, JobChange, InPlay, Delays;
    if i < j {
      var job := r.worlds[i].store.deliveryJobs[id];
      AttemptsAreBounded(r, i, j - 1, id);
      StoredIsFollowed(r, i, id);
      JobIsFollowed(r, i, j - 1, job);
      RunJobStep(r, j - 1, id);
      FollowsStep(r.env, r.worlds[j - 1], r.actions[j - 1], r.worlds[j], job, Attempts(r, i, j - 1, id));
      if TakesUp(r.worlds[j - 1], r.actions[j - 1], id) {
        TakenUpIsInPlay(r.worlds[j - 1], r.actions[j - 1], id);
        SameDelays(job, Attempts(r, i, j - 1, id), r.worlds[j - 1].batch[0]);
      }
    }
  }

  lemma TakenUpIsInPlay(w: World, a: Action, id: string)
    requires TakesUp(w, a, id)
    ensures InPlay(w, id)
  {
    assert w.batch[0] in w.batch;
  }

  lemma SameDelays(job: DeliveryJob, n: nat, x: DeliveryJob)
    requires Later(job, n, x)
    ensures Delays(x) == Delays(job) && x.attemptCount == job.attemptCount + n && x.payload == job.payload
    ensures x.kind == job.kind && x.redrivePolicy == job.redrivePolicy
  {
  }

  /** The schedule of a policy. */
  function ScheduleOf(policy: Delivery.SubscriptionPolicy): seq<int> {
    var delays := Delivery.RetryDelaysSpec(policy.retry);
    if delays.Ok? then delays.value else []
  }

  /** The policy in force for a subscription that a publish sends to. */
  function InForce(w: World, a: Action, sub: Subscription): Option<Delivery.SubscriptionPolicy>
    requires a.Publish? && a.input.topicArn in w.store.topics
  {
    Delivery.EffectivePolicy(w.store.topics[a.input.topicArn].attributes.deliveryPolicy, sub.attributes.deliveryPolicy)
  }

  /** The job, stored or held, is retried on the schedule of this policy. */
  ghost predicate OnSchedule(w: World, id: string, policy: Delivery.SubscriptionPolicy) {
    && (id in w.store.deliveryJobs ==> Delays(w.store.deliveryJobs[id]) == ScheduleOf(policy))
    && (forall b :: b in w.batch && b.id == id ==> Delays(b) == ScheduleOf(policy))
  }

  lemma EnqueuedOnSchedule(env: Env, w: World, a: Action, job: DeliveryJob)
    requires Sends(env, w, a) && a.input.topicArn in w.store.topics
      && job.payload.subscriptionArn in w.store.subscriptions
    requires JobCarries(env, w, a, job)
    ensures var policy := InForce(w, a, w.store.subscriptions[job.payload.subscriptionArn]);
      policy.Some? && Delays(job) == ScheduleOf(policy.value)
  {
    hide ResolveMessages, MessageFor, ReplyTo, Delivery.EffectivePolicy, Delivery.ParseSubscriptionPolicy,
      Delivery.RetryDelaysSpec;
    Delivery.EffectivePolicyIsFixedPoint(w.store.topics[a.input.topicArn].attributes.deliveryPolicy,
      w.store.subscriptions[job.payload.subscriptionArn].attributes.deliveryPolicy);
  }

  lemma FollowedOnSchedule(job: DeliveryJob, n: nat, w: World, policy: Delivery.SubscriptionPolicy)
    requires Follows(job, n, w) && Delays(job) == ScheduleOf(policy)
    ensures OnSchedule(w, job.id, policy)
  {
    hide Delays, ScheduleOf, Later;
    if job.id in w.store.deliveryJobs {
      SameDelays(job, n, w.store.deliveryJobs[job.id]);
    }
    forall b | b in w.batch && b.id == job.id ensures Delays(b) == ScheduleOf(policy) {
      SameDelays(job, n, b);
    }
  }

  /**
   In every run a job is retried, for as long as it is played, on the schedule of the delivery policy
   that was in force for its subscription when the message was published, whatever is set later.
   */
  lemma JobKeepsItsSchedule(r: Run, k: nat, j: nat, id: string)
    requires Valid(r) && SendsAt(r, k) && k < j < |r.worlds|
    requires id in r.worlds[k + 1].store.deliveryJobs && id !in r.worlds[k].store.deliveryJobs
    ensures r.actions[k].input.topicArn in r.worlds[k].store.topics
    ensures var arn, s := r.worlds[k + 1].store.deliveryJobs[id].payload.subscriptionArn, r.worlds[k].store;
      && arn in s.subscriptions && InForce(r.worlds[k], r.actions[k], s.subscriptions[arn]).Some?
      && OnSchedule(r.worlds[j], id, InForce(r.worlds[k], r.actions[k], s.subscriptions[arn]).value)
  {
    hide StepAt, ReplyTo, JobCarries, DeliveryCarries, InForce, Follows, OnSchedule, Delays;
    var job := r.worlds[k + 1].store.deliveryJobs[id];
    FanOutContents(r, k);
    EnqueuedOnSchedule(r.env, r.worlds[k], r.actions[k], job);
    StoredIsFollowed(r, k + 1, id);
    JobIsFollowed(r, k + 1, j, job);
    FollowedOnSchedule(job, Attempts(r, k + 1, j, id), r.worlds[j],
      InForce(r.worlds[k], r.actions[k], r.worlds[k].store.subscriptions[job.payload.subscriptionArn]).value);
  }

  // ---- When -----------------------------------------------------------------------------------------------

  /** A verdict that is not to retry is the last: the job is never taken up again. */
  lemma LastVerdict(r: Run, i: nat, j: nat, id: string)
    requires Valid(r) && i < j < |r.worlds| && i < |r.actions|
    requires TakesUp(r.worlds[i], r.actions[i], id) && !VerdictOf(r.env, r.worlds[i], r.actions[i]).RetryIn?
    ensures !InPlay(r.worlds[j], id)
  {
    hide GoodWorld, Steps, JobChange, BatchChange, InPlay, Judge;
    var job := r.worlds[i].batch[0];
    ReachableBatch(r, i);
    assert Follows(job, 0, r.worlds[i]);
    RunJobStep(r, i, id);
    FollowsStep(r.env, r.worlds[i], r.actions[i], r.worlds[i + 1], job, 0);
    StaysOut(r, i + 1, j, id);
  }

  lemma {:induction false} StaysOut(r: Run, i: nat, j: nat, id: string)
    requires Valid(r) && i <= j < |r.worlds| && id in r.worlds[i].used && !InPlay(r.worlds[i], id)
    ensures id in r.worlds[j].used && !InPlay(r.worlds[j], id)
  {
    if i < j {
      hide GoodWorld, Steps, JobChange, BatchChange, BatchFits;
      StaysOut(r, i, j - 1, id);
      RunJobStep(r, j - 1, id);
      StaysOutOneStep(r.env, r.worlds[j - 1], r.actions[j - 1], r.worlds[j], id);
    }
  }

  lemma StaysOutOneStep(env: Env, w: World, a: Action, w': World, id: string)
    requires JobChange(env, w, a, w', id) && BatchChange(w, a, w') && id in w.used && !InPlay(w, id)
    ensures id in w'.used && !InPlay(w', id)
  {
    hide Judge;
  }

  /** After a retry verdict the job is not taken up again before the delay it was given has passed. */
  lemma {:induction false} RetryWaits(r: Run, i: nat, j: nat, id: string)
    requires Valid(r) && i < j < |r.actions|
    requires TakesUp(r.worlds[i], r.actions[i], id) && TakesUp(r.worlds[j], r.actions[j], id)
    ensures VerdictOf(r.env, r.worlds[i], r.actions[i]).RetryIn?
    ensures r.actions[i].rescheduledAt + VerdictOf(r.env, r.worlds[i], r.actions[i]).delay <= r.worlds[j].now
  {
    hide GoodWorld, Steps, JobChange, BatchChange, BatchFits, InPlay, Judge, Follows;
    TakenUpIsInPlay(r.worlds[j], r.actions[j], id);
    if !VerdictOf(r.env, r.worlds[i], r.actions[i]).RetryIn? {
      LastVerdict(r, i, j, id);
    }
    if k :| i < k < j && TakesUp(r.worlds[k], r.actions[k], id) {
      RetryWaits(r, i, k, id);
      ClockGrows(r, k, j);
    } else {
      var job := PutBack(r, i, j, id);
      JobIsFollowed(r, i + 1, j, job);
      NoAttempts(r, i + 1, j, id);
      ReachableBatch(r, j);
      DueWhenTakenUp(r.worlds[j], r.actions[j], job);
    }
  }

  lemma {:induction false} ClockGrows(r: Run, i: nat, j: nat)
    requires Valid(r) && i <= j < |r.worlds|
    ensures r.worlds[i].now <= r.worlds[j].now
  {
    if i < j {
      ClockGrows(r, i, j - 1);
      RunJobStep(r, j - 1, "");
    }
  }

  lemma {:induction false} NoAttempts(r: Run, i: nat, j: nat, id: string)
    requires i <= j <= |r.actions| && j <= |r.worlds|
    requires forall k :: i <= k < j ==> !TakesUp(r.worlds[k], r.actions[k], id)
    ensures Attempts(r, i, j, id) == 0
  {
    if i < j {
      NoAttempts(r, i, j - 1, id);
    }
  }

  lemma DueWhenTakenUp(w: World, a: Action, job: DeliveryJob)
    requires BatchFits(w) && Follows(job, 0, w) && TakesUp(w, a, job.id)
    ensures job.nextAttemptAt <= w.now
  {
    assert w.batch[0] in w.batch;
  }

  /** The job that a retry verdict puts back; it is there, since it is taken up again later. */
  lemma PutBack(r: Run, i: nat, j: nat, id: string) returns (job: DeliveryJob)
    requires Valid(r) && i < j < |r.worlds| && i < |r.actions| && InPlay(r.worlds[j], id)
    requires TakesUp(r.worlds[i], r.actions[i], id) && VerdictOf(r.env, r.worlds[i], r.actions[i]).RetryIn?
    ensures job.id == id && Follows(job, 0, r.worlds[i + 1])
    ensures job.nextAttemptAt == r.actions[i].rescheduledAt + VerdictOf(r.env, r.worlds[i], r.actions[i]).delay
  {
    hide GoodWorld, Steps, Judge;
    RunJobStep(r, i, id);
    ReachableBatch(r, i + 1);
    if id !in r.worlds[i + 1].store.deliveryJobs {
      assert !InPlay(r.worlds[i + 1], id);
      StaysOut(r, i + 1, j, id);
    }
    StoredIsFollowed(r, i + 1, id);
    job := r.worlds[i + 1].store.deliveryJobs[id];
  }

  /**
   The retry that follows an attempt waits for the delay whose place in the schedule is the number of
   attempts before it.
   */
  lemma RetryHasItsPlace(r: Run, h: nat, i: nat, j: nat, id: string)
    requires Valid(r) && h <= i < j < |r.actions| && id in r.worlds[h].store.deliveryJobs
    requires r.worlds[h].store.deliveryJobs[id].payload.protocol in r.env.adapters
    requires TakesUp(r.worlds[i], r.actions[i], id) && TakesUp(r.worlds[j], r.actions[j], id)
    ensures var job := r.worlds[h].store.deliveryJobs[id];
      var n := job.attemptCount + Attempts(r, h, i, id);
      n < |Delays(job)| && r.actions[i].rescheduledAt + Delays(job)[n] <= r.worlds[j].now
  {
    hide StepAt, Delays, Follows, Later;
    var job := r.worlds[h].store.deliveryJobs[id];
    StoredIsFollowed(r, h, id);
    JobIsFollowed(r, h, i, job);
    HeadIsLater(r.worlds[i], r.actions[i], job, Attempts(r, h, i, id));
    SameDelays(job, Attempts(r, h, i, id), r.worlds[i].batch[0]);
    RetryWaits(r, i, j, id);
  }

  /** For a message's job: the n-th retry waits for the n-th delay of the policy in force at the publish. */
  lemma RetryOnSchedule(r: Run, k: nat, i: nat, j: nat, id: string)
    requires Valid(r) && SendsAt(r, k) && k < i < j < |r.actions|
    requires id in r.worlds[k + 1].store.deliveryJobs && id !in r.worlds[k].store.deliveryJobs
    requires r.worlds[k + 1].store.deliveryJobs[id].payload.protocol in r.env.adapters
    requires TakesUp(r.worlds[i], r.actions[i], id) && TakesUp(r.worlds[j], r.actions[j], id)
    ensures r.actions[k].input.topicArn in r.worlds[k].store.topics
    ensures var arn, s := r.worlds[k + 1].store.deliveryJobs[id].payload.subscriptionArn, r.worlds[k].store;
      && arn in s.subscriptions && InForce(r.worlds[k], r.actions[k], s.subscriptions[arn]).Some?
      && var delays := ScheduleOf(InForce(r.worlds[k], r.actions[k], s.subscriptions[arn]).value);
         var n := Attempts(r, k + 1, i, id);
         n < |delays| && r.actions[i].rescheduledAt + delays[n] <= r.worlds[j].now
  {
    hide StepAt, ReplyTo, JobCarries, DeliveryCarries, InForce, Delays, ScheduleOf;
    var job := r.worlds[k + 1].store.deliveryJobs[id];
    FanOutContents(r, k);
    EnqueuedOnSchedule(r.env, r.worlds[k], r.actions[k], job);
    FreshlyEnqueued(r.env, r.worlds[k], r.actions[k], job);
    RetryHasItsPlace(r, k + 1, i, j, id);
  }

  lemma FreshlyEnqueued(env: Env, w: World, a: Action, job: DeliveryJob)
    requires Sends(env, w, a) && a.input.topicArn in w.store.topics
      && job.payload.subscriptionArn in w.store.subscriptions
    requires JobCarries(env, w, a, job)
    ensures job.attemptCount == 0
  {
    hide ReplyTo, ResolveMessages, MessageFor, Delivery.EffectivePolicy;
  }

  // ---- How it ends ----------------------------------------------------------------------------------------

  datatype Ending = WasDelivered | WasGivenUp | WasCancelled

  /** Step `k` removes the job from the store, in the given way. */
  predicate Ends(r: Run, k: nat, id: string, how: Ending)
    requires k < |r.actions| && k + 1 < |r.worlds|
  {
    && id in r.worlds[k].store.deliveryJobs && id !in r.worlds[k + 1].store.deliveryJobs
    && match how
       case WasDelivered =>
         TakesUp(r.worlds[k], r.actions[k], id) && VerdictOf(r.env, r.worlds[k], r.actions[k]).Delivered?
       case WasGivenUp => TakesUp(r.worlds[k], r.actions[k], id) && VerdictOf(r.env, r.worlds[k], r.actions[k]).GivenUp?
       case WasCancelled => Deletes(r.actions[k], r.worlds[k].store.deliveryJobs[id].payload.topicArn)
  }

  function Endings(r: Run, i: nat, j: nat, id: string, how: Ending): nat
    requires i <= j <= |r.actions| && j < |r.worlds|
  {
    if i == j then 0 else Endings(r, i, j - 1, id, how) + if Ends(r, j - 1, id, how) then 1 else 0
  }

  /** Every job is, at any later time, in exactly one of four states: queued, delivered, given up or cancelled. */
  lemma {:induction false} JobsAreConserved(r: Run, i: nat, j: nat, id: string)
    requires Valid(r) && i <= j < |r.worlds| && id in r.worlds[i].store.deliveryJobs
    ensures (if id in r.worlds[j].store.deliveryJobs then 1 else 0)
      + Endings(r, i, j, id, WasDelivered) + Endings(r, i, j, id, WasGivenUp) + Endings(r, i, j, id, WasCancelled) == 1
    ensures id in r.worlds[j].used
  {
    hide GoodWorld, Steps, JobChange, BatchFits, Ends;
    RunLengths(r);
    if i < j {
      JobsAreConserved(r, i, j - 1, id);
      OneEnding(r, j - 1, id);
    } else if i < |r.actions| {
      RunJobStep(r, i, id);
    } else {
      ReachableIsGood(r.env, r.worlds, r.actions, i);
      JobsAreUsed(r.env, r.worlds[i]);
    }
  }

  lemma RunLengths(r: Run)
    requires Valid(r)
    ensures |r.worlds| == |r.actions| + 1
  {
    hide StepAt;
  }

  lemma OneEnding(r: Run, k: nat, id: string)
    requires Valid(r) && k < |r.actions| && id in r.worlds[k].used
    ensures id in r.worlds[k + 1].used
    ensures (if id in r.worlds[k + 1].store.deliveryJobs then 1 else 0)
      + (if Ends(r, k, id, WasDelivered) then 1 else 0) + (if Ends(r, k, id, WasGivenUp) then 1 else 0)
      + (if Ends(r, k, id, WasCancelled) then 1 else 0)
      == if id in r.worlds[k].store.deliveryJobs then 1 else 0
  {
    hide GoodWorld, Steps, Judge, BatchFits;
    RunJobStep(r, k, id);
  }

  // ---- Redrives -------------------------------------------------------------------------------------------

  /** The dead-letter sends for the job at step `k`. */
  function RedrivesAt(r: Run, k: nat, id: string): seq<Redrive>
    requires k < |r.actions| && k < |r.worlds|
  {
    if TakesUp(r.worlds[k], r.actions[k], id) && VerdictOf(r.env, r.worlds[k], r.actions[k]).GivenUp?
    then VerdictOf(r.env, r.worlds[k], r.actions[k]).redrives else []
  }

  function RedrivesIn(r: Run, i: nat, j: nat, id: string): seq<Redrive>
    requires i <= j <= |r.actions| && j <= |r.worlds|
  {
    if i == j then [] else RedrivesIn(r, i, j - 1, id) + RedrivesAt(r, j - 1, id)
  }

  predicate GivesUp(r: Run, k: nat, id: string) {
    && k < |r.actions| && k < |r.worlds|
    && TakesUp(r.worlds[k], r.actions[k], id) && VerdictOf(r.env, r.worlds[k], r.actions[k]).GivenUp?
  }

  function RedriveOfJob(env: Env, job: DeliveryJob): seq<Redrive> {
    if job.kind.Notification? then RedriveOf(env, job.redrivePolicy, job.payload.subscriptionArn, job.payload.messageId)
      else []
  }

  /** The worker gives the job up in one of the steps `i` to `j - 1`. */
  ghost predicate GivenUpIn(r: Run, i: nat, j: nat, id: string) {
    exists k :: i <= k < j && GivesUp(r, k, id)
  }

  lemma GivenUpLater(r: Run, i: nat, j: nat, id: string)
    requires i < j
    ensures GivenUpIn(r, i, j, id) <==> GivenUpIn(r, i, j - 1, id) || GivesUp(r, j - 1, id)
    ensures !GivenUpIn(r, i, i, id)
  {
    hide GivesUp;
  }

  /** The redrives of a job that is stored or held, over any stretch: those of one failure, or none. */
  lemma {:induction false} FollowedRedrives(r: Run, i: nat, j: nat, job: DeliveryJob)
    requires Valid(r) && i <= j < |r.worlds| && Follows(job, 0, r.worlds[i])
    ensures RedrivesIn(r, i, j, job.id) == if GivenUpIn(r, i, j, job.id) then RedriveOfJob(r.env, job) else []
  {
    hide GoodWorld, Steps, JobChange, BatchChange, BatchFits, Follows, InPlay, TakesUp, RedrivesAt, RedriveOfJob,
      GivesUp, GivenUpIn;
    if i < j {
      FollowedRedrives(r, i, j - 1, job);
      WhatIsRedriven(r, j - 1, job.id);
      GivenUpLater(r, i, j, job.id);
      if GivesUp(r, j - 1, job.id) {
        NotBefore(r, i, j - 1, job.id);
        JobIsFollowed(r, i, j - 1, job);
        SameRedrive(r, j - 1, job, Attempts(r, i, j - 1, job.id));
      }
    } else {
      GivenUpLater(r, i, i + 1, job.id);
    }
  }

  /**
   Over any stretch of a run the redrives of a job are those of one failure if the worker gave it
   up, and none otherwise: a notification is redriven at most once, a confirmation never.
   */
  lemma RedrivenOnce(r: Run, i: nat, j: nat, id: string)
    requires Valid(r) && i <= j < |r.worlds| && id in r.worlds[i].store.deliveryJobs
    ensures RedrivesIn(r, i, j, id) ==
      if GivenUpIn(r, i, j, id) then RedriveOfJob(r.env, r.worlds[i].store.deliveryJobs[id]) else []
  {
    hide Valid, GoodWorld, Follows, RedriveOfJob, GivenUpIn;
    StoredIsFollowed(r, i, id);
    FollowedRedrives(r, i, j, r.worlds[i].store.deliveryJobs[id]);
  }

  lemma NotBefore(r: Run, i: nat, j: nat, id: string)
    requires Valid(r) && GivesUp(r, j, id)
    ensures !GivenUpIn(r, i, j, id)
  {
    hide Valid, GivesUp;
    forall k | i <= k < j ensures !GivesUp(r, k, id) {
      NotTwice(r, k, j, id);
    }
  }

  lemma WhatIsRedriven(r: Run, k: nat, id: string)
    requires k < |r.actions| && k < |r.worlds|
    ensures GivesUp(r, k, id) ==>
      r.worlds[k].batch != [] && RedrivesAt(r, k, id) == RedriveOfJob(r.env, r.worlds[k].batch[0])
    ensures !GivesUp(r, k, id) ==> RedrivesAt(r, k, id) == []
  {
    hide RedriveOf, Delays;
  }

  lemma NotTwice(r: Run, k: nat, j: nat, id: string)
    requires Valid(r) && k < j && GivesUp(r, j, id)
    ensures !GivesUp(r, k, id)
  {
    hide GoodWorld, Judge, InPlay;
    TakenUpIsInPlay(r.worlds[j], r.actions[j], id);
    if GivesUp(r, k, id) {
      LastVerdict(r, k, j, id);
    }
  }

  lemma SameRedrive(r: Run, k: nat, job: DeliveryJob, n: nat)
    requires GivesUp(r, k, job.id) && Follows(job, n, r.worlds[k])
    ensures RedriveOfJob(r.env, r.worlds[k].batch[0]) == RedriveOfJob(r.env, job)
  {
    hide Judge, Delays, RedriveOf;
    HeadIsLater(r.worlds[k], r.actions[k], job, n);
    SameDelays(job, n, r.worlds[k].batch[0]);
  }

  lemma HeadIsLater(w: World, a: Action, job: DeliveryJob, n: nat)
    requires Follows(job, n, w) && TakesUp(w, a, job.id)
    ensures Later(job, n, w.batch[0])
  {
    assert w.batch[0] in w.batch;
  }

  // ---- Cancelled while in the worker's hands ---------------------------------------------------------------

  /** The worker holds a copy of the job. */
  ghost predicate Held(w: World, id: string) { exists b :: b in w.batch && b.id == id }

  lemma CancelledStep(env: Env, w: World, a: Action, w': World, id: string)
    requires JobChange(env, w, a, w', id) && BatchChange(w, a, w') && BatchFits(w)
    requires id in w.used && id !in w.store.deliveryJobs
    ensures id in w'.used && id !in w'.store.deliveryJobs
    ensures (if TakesUp(w, a, id) then 1 else 0) + (if Held(w', id) then 1 else 0) == if Held(w, id) then 1 else 0
  {
    hide Judge;
    if a.Process? {
      assert w.batch == [w.batch[0]] + w'.batch;
    }
  }

  /**
   A job that is no longer stored, cancelled by the deletion of its topic or settled, is taken up
   at most once more: only if the worker holds a copy, and exactly once when that copy has left its hands.
   */
  lemma {:induction false} CancelledAttempts(r: Run, i: nat, j: nat, id: string)
    requires Valid(r) && i <= j < |r.worlds| && id in r.worlds[i].used && id !in r.worlds[i].store.deliveryJobs
    ensures Attempts(r, i, j, id) + (if Held(r.worlds[j], id) then 1 else 0) == if Held(r.worlds[i], id) then 1 else 0
    ensures id in r.worlds[j].used && id !in r.worlds[j].store.deliveryJobs
  {
    if i < j {
      hide JobChange, BatchChange, BatchFits, Held, TakesUp;
      CancelledAttempts(r, i, j - 1, id);
      RunJobStep(r, j - 1, id);
      CancelledStep(r.env, r.worlds[j - 1], r.actions[j - 1], r.worlds[j], id);
    }
  }

  /** The redrives of a held copy whose job is gone: those of one failure if the worker gives the copy up. */
  lemma CancelledRedrives(r: Run, i: nat, j: nat, b: DeliveryJob)
    requires Valid(r) && i <= j < |r.worlds| && b in r.worlds[i].batch && b.id !in r.worlds[i].store.deliveryJobs
    ensures RedrivesIn(r, i, j, b.id) == if GivenUpIn(r, i, j, b.id) then RedriveOfJob(r.env, b) else []
  {
    hide Valid, RedriveOfJob, GivenUpIn;
    ReachableBatch(r, i);
    FollowedRedrives(r, i, j, b);
  }
}
