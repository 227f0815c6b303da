/**
 How `dispatchPublish` accumulates its work (internal/service/service.go): jobs go into the
 transaction and queue subscriptions onto a list while the subscriptions are walked; the list is
 served after the commit.
 */
module Dispatching {
  import opened Common
  import opened Domain
  import opened ServiceSpec

  /** What a publish reads from outside for one subscription. */
  datatype Call = Call(jobId: string, at: Time, accepted: bool)

  /** The fates of the subscriptions, those in `hits` having matched. */
  function FateOf(calls: string -> Call, hits: set<string>): string -> Fate {
    (arn: string) => Fate(arn in hits, calls(arn).jobId, calls(arn).at, calls(arn).accepted)
  }

  function DeliverAll(o: Outgoing, queue: seq<Subscription>): seq<SqsDelivery>
    requires "default" in o.messages
  {
    if queue == [] then [] else DeliverAll(o, queue[..|queue| - 1]) + [QueueDelivery(o, queue[|queue| - 1])]
  }

  function RedriveAll(env: Env, o: Outgoing, queue: seq<Subscription>, calls: string -> Call): seq<Redrive> {
    if queue == [] then []
    else
      var last := queue[|queue| - 1];
      RedriveAll(env, o, queue[..|queue| - 1], calls) +
      if Taken(env, o.input, last, calls(last.arn).accepted) then []
      else RedriveOf(env, last.attributes.redrivePolicy, last.arn, o.messageId)
  }

  /** The transaction's jobs and the list of queues are those of the subscriptions walked so far. */
  ghost predicate Progress(env: Env, o: Outgoing, before: map<string, DeliveryJob>, subs: seq<Subscription>,
    calls: string -> Call, hits: set<string>, jobs: map<string, DeliveryJob>, queue: seq<Subscription>)
    requires "default" in o.messages
  {
    && Enqueued(o, before, subs, FateOf(calls, hits)) == Some(jobs)
    && Deliveries(o, subs, FateOf(calls, hits)) == DeliverAll(o, queue)
    && Redrives(env, o, subs, FateOf(calls, hits)) == RedriveAll(env, o, queue, calls)
  }

  predicate SameFates(subs: seq<Subscription>, f: string -> Fate, g: string -> Fate) {
    forall i :: 0 <= i < |subs| ==> f(subs[i].arn) == g(subs[i].arn)
  }

  lemma {:induction false} OnlyListedFates(env: Env, o: Outgoing, before: map<string, DeliveryJob>,
    subs: seq<Subscription>, f: string -> Fate, g: string -> Fate)
    requires "default" in o.messages && SameFates(subs, f, g)
    ensures Enqueued(o, before, subs, f) == Enqueued(o, before, subs, g)
    ensures Deliveries(o, subs, f) == Deliveries(o, subs, g)
    ensures Redrives(env, o, subs, f) == Redrives(env, o, subs, g)
  {
    hide EffectiveFor, Selected, JobFor, QueueDelivery, RedriveOf, Taken;
    if subs != [] {
      OnlyListedFates(env, o, before, subs[..|subs| - 1], f, g);
    }
  }

  lemma Skip(env: Env, o: Outgoing, before: map<string, DeliveryJob>, subs: seq<Subscription>, last: Subscription,
    calls: string -> Call, hits: set<string>, jobs: map<string, DeliveryJob>, queue: seq<Subscription>)
    requires "default" in o.messages && Progress(env, o, before, subs, calls, hits, jobs, queue)
    requires !Selected(last, FateOf(calls, hits)(last.arn))
    ensures Progress(env, o, before, subs + [last], calls, hits, jobs, queue)
  {
    hide EffectiveFor, Selected, JobFor, QueueDelivery, RedriveOf, Taken, DeliverAll, RedriveAll;
    assert (subs + [last])[..|subs|] == subs;
  }

  lemma MoreHits(env: Env, o: Outgoing, before: map<string, DeliveryJob>, subs: seq<Subscription>,
    calls: string -> Call, hits: set<string>, jobs: map<string, DeliveryJob>, queue: seq<Subscription>, hit: string)
    requires "default" in o.messages && Progress(env, o, before, subs, calls, hits, jobs, queue)
    requires forall i :: 0 <= i < |subs| ==> subs[i].arn != hit
    ensures Progress(env, o, before, subs, calls, hits + {hit}, jobs, queue)
  {
    OnlyListedFates(env, o, before, subs, FateOf(calls, hits), FateOf(calls, hits + {hit}));
  }

  lemma AddQueue(env: Env, o: Outgoing, before: map<string, DeliveryJob>, subs: seq<Subscription>, last: Subscription,
    calls: string -> Call, hits: set<string>, jobs: map<string, DeliveryJob>, queue: seq<Subscription>)
    requires "default" in o.messages && Progress(env, o, before, subs, calls, hits, jobs, queue)
    requires ToQueue(last, FateOf(calls, hits)(last.arn))
    ensures Progress(env, o, before, subs + [last], calls, hits, jobs, queue + [last])
  {
    hide EffectiveFor, Selected, JobFor, QueueDelivery, RedriveOf, Taken;
    assert (subs + [last])[..|subs|] == subs;
    assert (queue + [last])[..|queue|] == queue;
  }

  lemma AddJob(env: Env, o: Outgoing, before: map<string, DeliveryJob>, subs: seq<Subscription>, last: Subscription,
    calls: string -> Call, hits: set<string>, jobs: map<string, DeliveryJob>, queue: seq<Subscription>)
    requires "default" in o.messages && Progress(env, o, before, subs, calls, hits, jobs, queue)
    requires var f := FateOf(calls, hits)(last.arn); ToJob(last, f) && EffectiveFor(o, last).Some?
    ensures var f := FateOf(calls, hits)(last.arn);
      Progress(env, o, before, subs + [last], calls, hits, jobs[f.jobId := JobFor(o, last, f)], queue)
  {
    hide EffectiveFor, Selected, JobFor, QueueDelivery, RedriveOf, Taken, DeliverAll, RedriveAll;
    assert (subs + [last])[..|subs|] == subs;
  }

  /** A subscription whose policy cannot be resolved makes the whole body fail. */
  lemma {:induction false} FailsAt(o: Outgoing, before: map<string, DeliveryJob>, subs: seq<Subscription>, i: nat,
    fate: string -> Fate)
    requires "default" in o.messages && i < |subs| && ToJob(subs[i], fate(subs[i].arn))
    requires EffectiveFor(o, subs[i]).None?
    ensures Enqueued(o, before, subs, fate).None?
  {
    hide EffectiveFor, Selected, JobFor;
    if i < |subs| - 1 {
      FailsAt(o, before, subs[..|subs| - 1], i, fate);
    }
  }
}
