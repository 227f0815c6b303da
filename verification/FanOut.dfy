/**
 What a publish sends (internal/service/service.go, `dispatchPublish`): one job or one queue
 delivery for every selected subscription and nothing else, and on a FIFO topic in the order of
 the sequence numbers.
 */
module FanOut {
  import opened Common
  import opened Json
  import opened Domain
  import opened ServiceSpec
  import opened Runs
  import opened Integrity
  import opened Preservation
  import opened Fifo
  import opened Queues
  import Delivery
  import Filter
  import Paging
  import StoreSpec

  // ---- Jobs ------------------------------------------------------------------------------------------------------

  type Jobs = map<string, DeliveryJob>

  predicate IsJobFor(o: Outgoing, sub: Subscription, f: Fate, job: DeliveryJob)
    requires "default" in o.messages
  {
    EffectiveFor(o, sub).Some? && job == JobFor(o, sub, f)
  }

  /** The jobs of before are kept, and every listed subscription that is selected for pushing adds its own. */
  ghost predicate AddsJobs(o: Outgoing, jobs: Jobs, subs: seq<Subscription>, fate: string -> Fate, jobs': Jobs)
    requires "default" in o.messages
  {
    && (forall j :: j in jobs ==> j in jobs' && jobs'[j] == jobs[j])
    && (forall i :: 0 <= i < |subs| && ToJob(subs[i], fate(subs[i].arn)) ==>
          var f := fate(subs[i].arn); f.jobId in jobs' && IsJobFor(o, subs[i], f, jobs'[f.jobId]))
    && (forall j :: j in jobs' && j !in jobs ==>
          exists i :: 0 <= i < |subs| && ToJob(subs[i], fate(subs[i].arn)) && fate(subs[i].arn).jobId == j)
  }

  lemma {:induction false} EnqueuedAddsJobs(o: Outgoing, jobs: Jobs, used: set<string>, subs: seq<Subscription>,
    fate: string -> Fate)
    requires "default" in o.messages && Enqueued(o, jobs, subs, fate).Some?
    requires jobs.Keys <= used && FreshJobs(used, subs, fate)
    ensures AddsJobs(o, jobs, subs, fate, Enqueued(o, jobs, subs, fate).value)
  {
    hide EffectiveFor, ToJob, JobFor, AddsJobs;
    if subs == [] {
      AddsNothing(o, jobs, fate);
    } else {
      var n := |subs| - 1;
      EnqueuedAddsJobs(o, jobs, used, subs[..n], fate);
      var jobs1 := Enqueued(o, jobs, subs[..n], fate).value;
      assert subs == subs[..n] + [subs[n]];
      if ToJob(subs[n], fate(subs[n].arn)) {
        AddsOneMore(o, jobs, used, subs[..n], subs[n], fate, jobs1, JobFor(o, subs[n], fate(subs[n].arn)));
      } else {
        AddsNoMore(o, jobs, subs[..n], subs[n], fate, jobs1);
      }
    }
  }

  lemma AddsNothing(o: Outgoing, jobs: Jobs, fate: string -> Fate)
    requires "default" in o.messages
    ensures AddsJobs(o, jobs, [], fate, jobs)
  {
  }

  lemma AddsOneMore(o: Outgoing, jobs: Jobs, used: set<string>, subs: seq<Subscription>, last: Subscription,
    fate: string -> Fate, jobs1: Jobs, job: DeliveryJob)
    requires "default" in o.messages && AddsJobs(o, jobs, subs, fate, jobs1)
    requires jobs.Keys <= used && FreshJobs(used, subs + [last], fate)
    requires ToJob(last, fate(last.arn)) && IsJobFor(o, last, fate(last.arn), job)
    ensures AddsJobs(o, jobs, subs + [last], fate, jobs1[fate(last.arn).jobId := job])
  {
    hide IsJobFor, ToJob;
    var all, n := subs + [last], |subs|;
    var jobs2 := jobs1[fate(last.arn).jobId := job];
    assert all[n] == last && fate(all[n].arn).jobId !in used;
    forall i | 0 <= i < |all| && ToJob(all[i], fate(all[i].arn))
      ensures fate(all[i].arn).jobId in jobs2 && IsJobFor(o, all[i], fate(all[i].arn), jobs2[fate(all[i].arn).jobId])
    {
      if i < n {
        assert all[i] == subs[i] && fate(all[i].arn).jobId != fate(all[n].arn).jobId;
      }
    }
    forall j | j in jobs2 && j !in jobs
      ensures exists i :: 0 <= i < |all| && ToJob(all[i], fate(all[i].arn)) && fate(all[i].arn).jobId == j
    {
      if j in jobs1 {
        var i :| 0 <= i < n && ToJob(subs[i], fate(subs[i].arn)) && fate(subs[i].arn).jobId == j;
        assert all[i] == subs[i];
      }
    }
  }

  lemma AddsNoMore(o: Outgoing, jobs: Jobs, subs: seq<Subscription>, last: Subscription, fate: string -> Fate,
    jobs1: Jobs)
    requires "default" in o.messages && AddsJobs(o, jobs, subs, fate, jobs1) && !ToJob(last, fate(last.arn))
    ensures AddsJobs(o, jobs, subs + [last], fate, jobs1)
  {
    hide IsJobFor, ToJob;
    var all := subs + [last];
    forall j | j in jobs1 && j !in jobs
      ensures exists i :: 0 <= i < |all| && ToJob(all[i], fate(all[i].arn)) && fate(all[i].arn).jobId == j
    {
      var i :| 0 <= i < |subs| && ToJob(subs[i], fate(subs[i].arn)) && fate(subs[i].arn).jobId == j;
      assert all[i] == subs[i];
    }
  }

  // ---- Queue deliveries --------------------------------------------------------------------------------------------

  function CountSends(sends: seq<SqsDelivery>, subscriptionArn: string): nat {
    if sends == [] then 0
    else
      CountSends(sends[..|sends| - 1], subscriptionArn)
      + if sends[|sends| - 1].subscriptionArn == subscriptionArn then 1 else 0
  }

  predicate ArnsDiffer(subs: seq<Subscription>) {
    forall i, j :: 0 <= i < j < |subs| ==> subs[i].arn != subs[j].arn
  }

  /** Every delivery takes the right message to the queue of a selected subscription. */
  lemma {:induction false} DeliveriesAreForQueues(o: Outgoing, subs: seq<Subscription>, fate: string -> Fate)
    requires "default" in o.messages
    ensures forall d :: d in Deliveries(o, subs, fate) ==>
      exists i :: 0 <= i < |subs| && ToQueue(subs[i], fate(subs[i].arn)) && d == QueueDelivery(o, subs[i])
  {
    hide ToQueue, QueueDelivery;
    if subs != [] {
      var n := |subs| - 1;
      var before := subs[..n];
      DeliveriesAreForQueues(o, before, fate);
      forall d | d in Deliveries(o, before, fate)
        ensures exists i :: 0 <= i < |subs| && ToQueue(subs[i], fate(subs[i].arn)) && d == QueueDelivery(o, subs[i])
      {
        var i :| 0 <= i < n && ToQueue(before[i], fate(before[i].arn)) && d == QueueDelivery(o, before[i]);
        assert subs[i] == before[i];
      }
    }
  }

  lemma CountOneMore(sends: seq<SqsDelivery>, d: SqsDelivery, subscriptionArn: string)
    ensures CountSends(sends + [d], subscriptionArn) ==
      CountSends(sends, subscriptionArn) + if d.subscriptionArn == subscriptionArn then 1 else 0
  {
    assert (sends + [d])[..|sends|] == sends;
  }

  /** One delivery for every selected queue subscription, and none for any other. */
  lemma {:induction false} DeliveriesAreExact(o: Outgoing, subs: seq<Subscription>, fate: string -> Fate,
    subscriptionArn: string)
    requires "default" in o.messages && ArnsDiffer(subs)
    ensures forall i :: 0 <= i < |subs| && subs[i].arn == subscriptionArn ==>
      CountSends(Deliveries(o, subs, fate), subscriptionArn) == if ToQueue(subs[i], fate(subscriptionArn)) then 1 else 0
    ensures (forall i :: 0 <= i < |subs| ==> subs[i].arn != subscriptionArn) ==>
      CountSends(Deliveries(o, subs, fate), subscriptionArn) == 0
  {
    hide ToQueue, MessageFor, CountSends;
    if subs == [] {
      CountNone(subscriptionArn);
    } else {
      var n := |subs| - 1;
      var before := subs[..n];
      DeliveriesAreExact(o, before, fate, subscriptionArn);
      assert forall i :: 0 <= i < n ==> subs[i] == before[i];
      if ToQueue(subs[n], fate(subs[n].arn)) {
        CountOneMore(Deliveries(o, before, fate), QueueDelivery(o, subs[n]), subscriptionArn);
      } else {
        assert Deliveries(o, subs, fate) == Deliveries(o, before, fate);
      }
    }
  }

  lemma CountNone(subscriptionArn: string)
    ensures CountSends([], subscriptionArn) == 0
  {
  }

  // ---- Redrives --------------------------------------------------------------------------------------------------

  function CountRedrives(redrives: seq<Redrive>, subscriptionArn: string): nat {
    if redrives == [] then 0
    else
      CountRedrives(redrives[..|redrives| - 1], subscriptionArn)
      + if redrives[|redrives| - 1].subscriptionArn == subscriptionArn then 1 else 0
  }

  /** The queue that failed deliveries for the subscription go to. */
  function DeadLetterQueue(env: Env, sub: Subscription): Option<string> {
    var policy := sub.attributes.redrivePolicy;
    if env.hasSqs && policy.Parsed? && policy.value != "" then Some(policy.value) else None
  }

  /** A queue delivery for this subscription failed, and there is a queue for such. */
  predicate IsRedriven(env: Env, input: PublishInput, sub: Subscription, f: Fate) {
    ToQueue(sub, f) && !Taken(env, input, sub, f.accepted) && DeadLetterQueue(env, sub).Some?
  }

  lemma CountRedrivesMore(redrives: seq<Redrive>, more: seq<Redrive>, subscriptionArn: string)
    requires |more| <= 1
    ensures CountRedrives(redrives + more, subscriptionArn) ==
      CountRedrives(redrives, subscriptionArn)
      + if more != [] && more[0].subscriptionArn == subscriptionArn then 1 else 0
  {
    if more == [] {
      assert redrives + more == redrives;
    } else {
      assert (redrives + more)[..|redrives|] == redrives;
    }
  }

  /** One redrive for every failed delivery, and none for any other. */
  lemma {:induction false} RedrivesAreExact(env: Env, o: Outgoing, subs: seq<Subscription>, fate: string -> Fate,
    subscriptionArn: string)
    requires ArnsDiffer(subs)
    ensures forall i :: 0 <= i < |subs| && subs[i].arn == subscriptionArn ==>
      CountRedrives(Redrives(env, o, subs, fate), subscriptionArn) ==
        if IsRedriven(env, o.input, subs[i], fate(subscriptionArn)) then 1 else 0
    ensures (forall i :: 0 <= i < |subs| ==> subs[i].arn != subscriptionArn) ==>
      CountRedrives(Redrives(env, o, subs, fate), subscriptionArn) == 0
    ensures forall d :: d in Redrives(env, o, subs, fate) ==>
      exists i :: 0 <= i < |subs| && IsRedriven(env, o.input, subs[i], fate(subs[i].arn))
        && d == Redrive(DeadLetterQueue(env, subs[i]).value, subs[i].arn, o.messageId)
  {
    hide ToQueue, Taken, CountRedrives;
    if subs == [] {
      NoRedrives(subscriptionArn);
    } else {
      var n := |subs| - 1;
      var before, last := subs[..n], subs[n];
      RedrivesAreExact(env, o, before, fate, subscriptionArn);
      assert forall i :: 0 <= i < n ==> subs[i] == before[i];
      var f := fate(last.arn);
      var more := if ToQueue(last, f) && !Taken(env, o.input, last, f.accepted)
        then RedriveOf(env, last.attributes.redrivePolicy, last.arn, o.messageId) else [];
      CountRedrivesMore(Redrives(env, o, before, fate), more, subscriptionArn);
    }
  }

  lemma NoRedrives(subscriptionArn: string)
    ensures CountRedrives([], subscriptionArn) == 0
  {
  }

  // ---- One publish ----------------------------------------------------------------------------------------

  function ReplyTo(env: Env, w: World, a: Action): Reply<PublishOutput>
    requires a.Publish?
  {
    ServiceSpec.Publish(env, w.store, a.auth, a.input, a.arrival, a.subs, a.fate)
  }

  /** The publish succeeds and is not a duplicate. */
  predicate Sends(env: Env, w: World, a: Action) {
    a.Publish? && ReplyTo(env, w, a).result.Ok? && !ReplyTo(env, w, a).result.value.deduplicated
  }

  /** A dispatch enqueues its jobs and hands out its deliveries, all with the message and identifiers it was given. */
  ghost predicate Carries(env: Env, topic: Topic, o: Outgoing, input: PublishInput, jobs: Jobs,
    subs: seq<Subscription>, fate: string -> Fate, out: PublishOutput, jobs': Jobs)
  {
    && o.topic.attributes == topic.attributes && o.input == input && o.topic.arn == input.topicArn
    && o.messageId == out.messageId && o.sequenceNumber == out.sequenceNumber
    && o.dedupId == DedupId(env.p, topic, input)
    && ResolveMessages(env.p, input.message, input.messageStructure) == Some(o.messages)
    && Enqueued(o, jobs, subs, fate) == Some(jobs')
    && out.sent.deliveries == Deliveries(o, subs, fate) && out.sent.redrives == Redrives(env, o, subs, fate)
  }

  lemma FinishCarries(env: Env, s: StoreState, topic: Topic, input: PublishInput, messageId: string,
    sequenceNumber: Option<nat>, subs: seq<Subscription>, fate: string -> Fate) returns (o: Outgoing)
    requires topic.arn == input.topicArn
    requires Finish(env, s, topic, input, messageId, sequenceNumber, subs, fate).result.Ok?
    ensures var r := Finish(env, s, topic, input, messageId, sequenceNumber, subs, fate);
      Carries(env, topic, o, input, s.deliveryJobs, subs, fate, r.result.value, r.store.deliveryJobs)
  {
    hide Enqueued, Deliveries, Redrives, ResolveMessages, DedupId;
    o := Outgoing(topic, input, ResolveMessages(env.p, input.message, input.messageStructure).value, messageId,
      DedupId(env.p, topic, input), sequenceNumber);
  }

  lemma SameDedupId(p: Platform, topic: Topic, topic': Topic, input: PublishInput)
    requires topic'.attributes == topic.attributes
    ensures DedupId(p, topic', input) == DedupId(p, topic, input)
  {
  }

  lemma WhatIsSent(env: Env, w: World, a: Action) returns (o: Outgoing)
    requires GoodWorld(env, w) && Sends(env, w, a)
    ensures a.input.topicArn in w.store.topics
    ensures Carries(env, w.store.topics[a.input.topicArn], o, a.input, w.store.deliveryJobs, a.subs, a.fate,
      ReplyTo(env, w, a).result.value, ReplyTo(env, w, a).store.deliveryJobs)
  {
    hide Good;
    var s, topic := w.store, w.store.topics[a.input.topicArn];
    TopicFacts(env, w.used, s, a.input.topicArn);
    hide Finish, Carries, ValidPublishInput, Admit, DedupId, IsFifoName, ReadableTopic;
    if topic.attributes.fifoTopic {
      var admission, admitted := AdmissionAt(env, w, a), AdmittedAt(env, w, a);
      AdmittedTopic(topic, a.input.groupId, DedupIdAt(env, w, a), a.arrival);
      SameDedupId(env.p, topic, admitted, a.input);
      hide Admitted;
      o := FinishCarries(env, s.(topics := s.topics[a.input.topicArn := admitted]), admitted, a.input,
        admission.messageId,
        Some(admission.sequenceNumber), a.subs, a.fate);
    } else {
      o := FinishCarries(env, s, topic, a.input, a.arrival.messageId, None, a.subs, a.fate);
    }
  }

  /** The jobs that a step adds for a subscription. */
  function NewJobs(w: World, w': World, subscriptionArn: string): set<string> {
    set j | j in w'.store.deliveryJobs && j !in w.store.deliveryJobs
            && w'.store.deliveryJobs[j].payload.subscriptionArn == subscriptionArn
  }

  /** A subscription of the published topic that is confirmed and whose filter matched. */
  predicate Gets(w: World, a: Action, subscriptionArn: string)
    requires a.Publish?
  {
    && subscriptionArn in w.store.subscriptions
    && w.store.subscriptions[subscriptionArn].topicArn == a.input.topicArn
    && Selected(w.store.subscriptions[subscriptionArn], a.fate(subscriptionArn))
  }

  lemma ListedSubscriptions(env: Env, w: World, a: Action, w': World)
    requires GoodWorld(env, w) && Steps(env, w, a, w') && a.Publish?
    ensures ArnsDiffer(a.subs) && FreshJobs(w.used, a.subs, a.fate) && w.store.deliveryJobs.Keys <= w.used
    ensures forall i :: 0 <= i < |a.subs| ==>
      var sub := a.subs[i];
      sub.topicArn == a.input.topicArn && sub.arn in w.store.subscriptions && w.store.subscriptions[sub.arn] == sub
    ensures |a.keys| <= LIST_LIMIT ==> forall x ::
      x in w.store.subscriptions && w.store.subscriptions[x].topicArn == a.input.topicArn ==>
      exists i :: 0 <= i < |a.subs| && a.subs[i].arn == x
  {
    hide Linked, FifoByName, Readable, TokensMatch, StoreSpec.TopicsIndexed, StoreSpec.RecordsKeyed, UuidOf, Next,
      TopicOf, Paging.Ascending;
    forall i | 0 <= i < |a.subs|
      ensures a.subs[i].arn == a.keys[i] && a.keys[i] in StoreSpec.SubsOf(w.store, a.input.topicArn)
    {
      assert a.keys[i] in a.keys;
    }
    if |a.keys| <= LIST_LIMIT {
      forall x | x in w.store.subscriptions && w.store.subscriptions[x].topicArn == a.input.topicArn
        ensures exists i :: 0 <= i < |a.subs| && a.subs[i].arn == x
      {
        assert x in StoreSpec.SubsOf(w.store, a.input.topicArn);
        var i :| 0 <= i < |a.keys| && a.keys[i] == x;
        assert a.subs[i].arn == x;
      }
    }
  }

  /**
   A subscription that gets the message gets one job if it is pushed to, or one delivery if it is a
   queue; one that does not gets nothing. Jobs that were there stay as they were.
   */
  ghost predicate SentExactly(env: Env, w: World, a: Action, w': World, subscriptionArn: string)
    requires Sends(env, w, a)
  {
    var queue := subscriptionArn in w.store.subscriptions && w.store.subscriptions[subscriptionArn].protocol.Sqs?;
    && NewJobs(w, w', subscriptionArn) ==
       (if Gets(w, a, subscriptionArn) && !queue then {a.fate(subscriptionArn).jobId} else {})
    && CountSends(ReplyTo(env, w, a).result.value.sent.deliveries, subscriptionArn) ==
       (if Gets(w, a, subscriptionArn) && queue then 1 else 0)
    && forall j :: j in w.store.deliveryJobs ==>
         j in w'.store.deliveryJobs && w'.store.deliveryJobs[j] == w.store.deliveryJobs[j]
  }

  lemma FanOutStep(env: Env, w: World, a: Action, w': World, subscriptionArn: string)
    requires GoodWorld(env, w) && Steps(env, w, a, w') && Sends(env, w, a) && |a.keys| <= LIST_LIMIT
    ensures SentExactly(env, w, a, w', subscriptionArn)
  {
    hide Good, Steps, ServiceSpec.Publish, Enqueued, Deliveries, ResolveMessages, AddsJobs, Selected, Listing, Filtered;
    ListedSubscriptions(env, w, a, w');
    var o := WhatIsSent(env, w, a);
    AfterPublish(env, w, a, w');
    hide ReplyTo, Sends;
    EnqueuedAddsJobs(o, w.store.deliveryJobs, w.used, a.subs, a.fate);
    DeliveriesAreExact(o, a.subs, a.fate, subscriptionArn);
    NewJobsExactly(o, w, w', a.subs, a.fate, subscriptionArn);
    if subscriptionArn in w.store.subscriptions && w.store.subscriptions[subscriptionArn].topicArn == a.input.topicArn {
      var i :| 0 <= i < |a.subs| && a.subs[i].arn == subscriptionArn;
    }
  }

  lemma AfterPublish(env: Env, w: World, a: Action, w': World)
    requires Steps(env, w, a, w') && a.Publish?
    ensures w'.store == ReplyTo(env, w, a).store
  {
    hide Steps, ServiceSpec.Publish;
    StoreAfterPublish(env, w, a, w');
  }

  lemma NewJobsExactly(o: Outgoing, w: World, w': World, subs: seq<Subscription>, fate: string -> Fate, arn: string)
    requires "default" in o.messages && AddsJobs(o, w.store.deliveryJobs, subs, fate, w'.store.deliveryJobs)
    requires w.store.deliveryJobs.Keys <= w.used && FreshJobs(w.used, subs, fate)
    ensures forall i :: 0 <= i < |subs| && subs[i].arn == arn ==>
      NewJobs(w, w', arn) == if ToJob(subs[i], fate(arn)) then {fate(arn).jobId} else {}
    ensures (forall i :: 0 <= i < |subs| ==> subs[i].arn != arn) ==> NewJobs(w, w', arn) == {}
    ensures forall j :: j in w.store.deliveryJobs ==>
      j in w'.store.deliveryJobs && w'.store.deliveryJobs[j] == w.store.deliveryJobs[j]
  {
    hide EffectiveFor, ToJob, MessageFor;
    var before, after := w.store.deliveryJobs, w'.store.deliveryJobs;
    forall j | j in NewJobs(w, w', arn)
      ensures exists i :: 0 <= i < |subs| && subs[i].arn == arn && ToJob(subs[i], fate(arn)) && fate(arn).jobId == j
    {
      var i :| 0 <= i < |subs| && ToJob(subs[i], fate(subs[i].arn)) && fate(subs[i].arn).jobId == j;
      assert IsJobFor(o, subs[i], fate(subs[i].arn), after[j]);
    }
    forall i | 0 <= i < |subs| && subs[i].arn == arn
      ensures NewJobs(w, w', arn) == if ToJob(subs[i], fate(arn)) then {fate(arn).jobId} else {}
    {
      assert forall k :: 0 <= k < |subs| && subs[k].arn == arn ==> k == i;
      if ToJob(subs[i], fate(arn)) {
        assert fate(subs[i].arn).jobId !in w.used;
        assert IsJobFor(o, subs[i], fate(arn), after[fate(arn).jobId]);
        assert fate(arn).jobId in NewJobs(w, w', arn);
      }
    }
  }

  /** A publish that fails, or is a duplicate, enqueues nothing and sends nothing. */
  lemma NothingOtherwise(env: Env, w: World, a: Action, w': World)
    requires Steps(env, w, a, w') && a.Publish? && !Sends(env, w, a)
    ensures w'.store.deliveryJobs == w.store.deliveryJobs
    ensures ReplyTo(env, w, a).result.Ok? ==> ReplyTo(env, w, a).result.value.sent == NOTHING
  {
    hide Steps, ValidPublishInput, Admit, Admitted, DedupId, Enqueued, Deliveries, Redrives, ResolveMessages;
    AfterPublish(env, w, a, w');
  }

  /** A new job carries the reply's message to its subscription, under the policies in force. */
  predicate JobCarries(env: Env, w: World, a: Action, job: DeliveryJob)
    requires Sends(env, w, a) && a.input.topicArn in w.store.topics
    requires job.payload.subscriptionArn in w.store.subscriptions
  {
    var out, sub := ReplyTo(env, w, a).result.value, w.store.subscriptions[job.payload.subscriptionArn];
    var messages := ResolveMessages(env.p, a.input.message, a.input.messageStructure);
    var effective :=
      Delivery.EffectivePolicy(w.store.topics[a.input.topicArn].attributes.deliveryPolicy,
        sub.attributes.deliveryPolicy);
    && messages.Some? && effective.Some?
    && job.kind.Notification? && job.attemptCount == 0 && job.lastError == ""
    && job.payload.topicArn == a.input.topicArn && job.payload.protocol == sub.protocol
    && job.payload.endpoint == sub.endpoint
    && job.payload.messageId == out.messageId && job.payload.sequenceNumber == out.sequenceNumber
    && job.payload.protocolMessage == MessageFor(messages.value, sub.protocol) && job.payload.groupId == a.input.groupId
    && job.effectivePolicy == Parsed(effective.value) && job.raw == sub.attributes.rawMessageDelivery
    && job.payload.dedupId == DedupId(env.p, w.store.topics[a.input.topicArn], a.input)
    && job.redrivePolicy == sub.attributes.redrivePolicy && job.nextAttemptAt == a.fate(sub.arn).at
  }

  predicate DeliveryCarries(env: Env, w: World, a: Action, d: SqsDelivery)
    requires Sends(env, w, a) && a.input.topicArn in w.store.topics && d.subscriptionArn in w.store.subscriptions
  {
    var out, sub := ReplyTo(env, w, a).result.value, w.store.subscriptions[d.subscriptionArn];
    var messages := ResolveMessages(env.p, a.input.message, a.input.messageStructure);
    && messages.Some? && sub.protocol.Sqs? && d.queue == sub.endpoint
    && d.message == MessageFor(messages.value, sub.protocol)
    && d.messageId == out.messageId && d.sequenceNumber == out.sequenceNumber && d.groupId == a.input.groupId
    && d.dedupId == DedupId(env.p, w.store.topics[a.input.topicArn], a.input)
  }

  /** All new jobs and all deliveries are of this kind. */
  ghost predicate SentRightly(env: Env, w: World, a: Action, w': World)
    requires Sends(env, w, a)
  {
    && a.input.topicArn in w.store.topics
    && (forall j :: j in w'.store.deliveryJobs && j !in w.store.deliveryJobs ==>
          && w'.store.deliveryJobs[j].payload.subscriptionArn in w.store.subscriptions
          && JobCarries(env, w, a, w'.store.deliveryJobs[j]))
    && (forall d :: d in ReplyTo(env, w, a).result.value.sent.deliveries ==>
          d.subscriptionArn in w.store.subscriptions && DeliveryCarries(env, w, a, d))
  }

  lemma ContentsStep(env: Env, w: World, a: Action, w': World)
    requires GoodWorld(env, w) && Steps(env, w, a, w') && Sends(env, w, a)
    ensures SentRightly(env, w, a, w')
  {
    hide Good, Steps, ServiceSpec.Publish, Enqueued, Deliveries, ResolveMessages, Selected, Listing, MessageFor,
      Delivery.EffectivePolicy, JobCarries, DeliveryCarries, FreshJobs, Filtered;
    ListedSubscriptions(env, w, a, w');
    var o := WhatIsSent(env, w, a);
    hide ReplyTo, Sends, ToQueue;
    AfterPublish(env, w, a, w');
    EnqueuedAddsJobs(o, w.store.deliveryJobs, w.used, a.subs, a.fate);
    DeliveriesAreForQueues(o, a.subs, a.fate);
    forall j | j in w'.store.deliveryJobs && j !in w.store.deliveryJobs
      ensures w'.store.deliveryJobs[j].payload.subscriptionArn in w.store.subscriptions
      ensures JobCarries(env, w, a, w'.store.deliveryJobs[j])
    {
      var i :| 0 <= i < |a.subs| && ToJob(a.subs[i], a.fate(a.subs[i].arn)) && a.fate(a.subs[i].arn).jobId == j;
      JobForCarries(env, w, a, o, a.subs[i], w'.store.deliveryJobs[j]);
    }
    forall d | d in ReplyTo(env, w, a).result.value.sent.deliveries
      ensures d.subscriptionArn in w.store.subscriptions && DeliveryCarries(env, w, a, d)
    {
      var i :| 0 <= i < |a.subs| && ToQueue(a.subs[i], a.fate(a.subs[i].arn)) && d == QueueDelivery(o, a.subs[i]);
      DeliveryForCarries(env, w, a, o, a.subs[i], d);
    }
  }

  lemma JobForCarries(env: Env, w: World, a: Action, o: Outgoing, sub: Subscription, job: DeliveryJob)
    requires Sends(env, w, a) && a.input.topicArn in w.store.topics
    requires Carries(env, w.store.topics[a.input.topicArn], o, a.input, w.store.deliveryJobs, a.subs, a.fate,
      ReplyTo(env, w, a).result.value, ReplyTo(env, w, a).store.deliveryJobs)
    requires "default" in o.messages && sub.arn in w.store.subscriptions && w.store.subscriptions[sub.arn] == sub
    requires IsJobFor(o, sub, a.fate(sub.arn), job)
    ensures job.payload.subscriptionArn in w.store.subscriptions && JobCarries(env, w, a, job)
  {
    hide ReplyTo, Sends, Enqueued, Deliveries, ResolveMessages, MessageFor, Delivery.EffectivePolicy;
  }

  lemma DeliveryForCarries(env: Env, w: World, a: Action, o: Outgoing, sub: Subscription, d: SqsDelivery)
    requires Sends(env, w, a) && a.input.topicArn in w.store.topics
    requires Carries(env, w.store.topics[a.input.topicArn], o, a.input, w.store.deliveryJobs, a.subs, a.fate,
      ReplyTo(env, w, a).result.value, ReplyTo(env, w, a).store.deliveryJobs)
    requires "default" in o.messages && sub.arn in w.store.subscriptions && w.store.subscriptions[sub.arn] == sub
    requires ToQueue(sub, a.fate(sub.arn)) && d == QueueDelivery(o, sub)
    ensures d.subscriptionArn in w.store.subscriptions && DeliveryCarries(env, w, a, d)
  {
    hide ReplyTo, Sends, Enqueued, Deliveries, ResolveMessages, MessageFor;
  }

  /** A delivery to the subscription failed; a dead-letter queue is to take it. */
  predicate FailsToDeadLetter(env: Env, w: World, a: Action, subscriptionArn: string)
    requires Sends(env, w, a)
  {
    && CountSends(ReplyTo(env, w, a).result.value.sent.deliveries, subscriptionArn) > 0
    && subscriptionArn in w.store.subscriptions
    && var sub := w.store.subscriptions[subscriptionArn];
       !Taken(env, a.input, sub, a.fate(subscriptionArn).accepted) && DeadLetterQueue(env, sub).Some?
  }

  /** Each failed queue delivery is redriven once, to its dead-letter queue, and nothing else is. */
  ghost predicate RedrivenExactly(env: Env, w: World, a: Action, subscriptionArn: string)
    requires Sends(env, w, a)
  {
    var out := ReplyTo(env, w, a).result.value;
    && CountRedrives(out.sent.redrives, subscriptionArn) ==
       (if FailsToDeadLetter(env, w, a, subscriptionArn) then 1 else 0)
    && forall d :: d in out.sent.redrives ==>
         && d.subscriptionArn in w.store.subscriptions && d.messageId == out.messageId
         && DeadLetterQueue(env, w.store.subscriptions[d.subscriptionArn]) == Some(d.target)
  }

  lemma RedriveStep(env: Env, w: World, a: Action, w': World, subscriptionArn: string)
    requires GoodWorld(env, w) && Steps(env, w, a, w') && Sends(env, w, a)
    ensures RedrivenExactly(env, w, a, subscriptionArn)
  {
    hide Good, Steps, ServiceSpec.Publish, Enqueued, Deliveries, Redrives, ResolveMessages, Selected, Listing,
      FreshJobs, Filtered, CountSends, CountRedrives, Taken, DeadLetterQueue;
    ListedSubscriptions(env, w, a, w');
    var o := WhatIsSent(env, w, a);
    DeliveriesAreExact(o, a.subs, a.fate, subscriptionArn);
    RedrivesAreExact(env, o, a.subs, a.fate, subscriptionArn);
    if i :| 0 <= i < |a.subs| && a.subs[i].arn == subscriptionArn {
      assert w.store.subscriptions[subscriptionArn] == a.subs[i];
    }
  }

  /** The confirmed subscriptions of the topic whose filter policy selects the message. */
  ghost predicate IsSelected(env: Env, w: World, a: Action, subscriptionArn: string)
    requires a.Publish? && subscriptionArn in w.store.subscriptions
  {
    var sub := w.store.subscriptions[subscriptionArn];
    var messages := ResolveMessages(env.p, a.input.message, a.input.messageStructure);
    && sub.topicArn == a.input.topicArn && sub.confirmed && messages.Some?
    && FilterSelects(env.p, sub, messages.value["default"], a.input.attributes)
  }

  /** The filter of the subscription can fail on the message, in some order of its keys. */
  ghost predicate CanMiss(env: Env, w: World, a: Action, subscriptionArn: string)
    requires a.Publish? && subscriptionArn in w.store.subscriptions
  {
    var messages := ResolveMessages(env.p, a.input.message, a.input.messageStructure);
    && messages.Some?
    && FilterMayFail(env.p, w.store.subscriptions[subscriptionArn], messages.value["default"], a.input.attributes)
  }

  /** It fails in every order. */
  ghost predicate MustMiss(env: Env, w: World, a: Action, subscriptionArn: string)
    requires a.Publish? && subscriptionArn in w.store.subscriptions
  {
    var messages := ResolveMessages(env.p, a.input.message, a.input.messageStructure);
    && messages.Some?
    && FilterMustFail(env.p, w.store.subscriptions[subscriptionArn], messages.value["default"], a.input.attributes)
  }

  ghost predicate ReadableOperands(p: Platform, sub: Subscription) {
    sub.attributes.filterPolicy.Parsed? ==> Filter.AllOperandsParse(p, sub.attributes.filterPolicy.value)
  }

  lemma PublishIsFiltered(env: Env, w: World, a: Action, w': World)
    requires Steps(env, w, a, w') && a.Publish?
    ensures Filtered(env.p, a.input, a.subs, a.fate)
  {
    hide Filtered, Listing, FreshJobs, Next;
  }

  /** Who gets the message, given what its filter may answer. */
  ghost predicate GetsRightly(env: Env, w: World, a: Action, subscriptionArn: string)
    requires a.Publish? && subscriptionArn in w.store.subscriptions
  {
    && (Gets(w, a, subscriptionArn) ==>
          IsSelected(env, w, a, subscriptionArn) && !MustMiss(env, w, a, subscriptionArn))
    && (IsSelected(env, w, a, subscriptionArn) && !CanMiss(env, w, a, subscriptionArn) ==> Gets(w, a, subscriptionArn))
    && (ReadableOperands(env.p, w.store.subscriptions[subscriptionArn]) ==> !CanMiss(env, w, a, subscriptionArn))
  }

  lemma SelectedStep(env: Env, w: World, a: Action, w': World, subscriptionArn: string)
    requires GoodWorld(env, w) && Steps(env, w, a, w') && Sends(env, w, a) && |a.keys| <= LIST_LIMIT
    requires subscriptionArn in w.store.subscriptions
    ensures GetsRightly(env, w, a, subscriptionArn)
  {
    hide Good, Steps, ServiceSpec.Publish, Listing, ResolveMessages, FilterSelects, FilterMayFail, FilterMustFail,
      Decides, ReadableOperands, ReadableSubscription, Enqueued, Deliveries;
    ListedSubscriptions(env, w, a, w');
    PublishIsFiltered(env, w, a, w');
    var o := WhatIsSent(env, w, a);
    GoodSubscription(env, w.used, w.store, subscriptionArn);
    var sub := w.store.subscriptions[subscriptionArn];
    DecidesExactly(env.p, sub, o.messages["default"], a.input.attributes, a.fate(sub.arn).matched);
    ReadableNeverFails(env.p, sub, o.messages["default"], a.input.attributes);
    if sub.topicArn == a.input.topicArn {
      var i :| 0 <= i < |a.subs| && a.subs[i].arn == subscriptionArn;
      assert a.subs[i] == sub;
    }
  }

  lemma ReadableNeverFails(p: Platform, sub: Subscription, message: string, attrs: MessageAttributes)
    requires ReadableSubscription(sub)
    ensures ReadableOperands(p, sub) ==> !FilterMayFail(p, sub, message, attrs)
  {
    hide Filter.ValidObject, Filter.AllOperandsParse, Filter.SelectionMayFail;
    if ReadableOperands(p, sub) {
      Filter.WellFormedNeverFails(p, sub.attributes.filterPolicy, sub.attributes.filterPolicyScope, message, attrs);
    }
  }

  // ---- Runs -------------------------------------------------------------------------------------------------

  /** Step `k` of the run is a publish that sends. */
  predicate SendsAt(r: Run, k: nat) {
    k < |r.actions| && k + 1 < |r.worlds| && Sends(r.env, r.worlds[k], r.actions[k])
  }

  /**
   In every run a publish succeeds exactly when the topic exists, the caller is allowed, the input
   is valid, and the message resolves or is a duplicate: fan-out never fails halfway.
   */
  lemma PublishSucceeds(r: Run, k: nat)
    requires Valid(r) && k < |r.actions| && r.actions[k].Publish?
    ensures ReplyTo(r.env, r.worlds[k], r.actions[k]).result.Ok? <==>
      CanPublish(r.env, r.worlds[k].store, r.actions[k].auth, r.actions[k].input, r.actions[k].arrival)
  {
    hide Good, After, BatchAfter, Listing, FreshJobs, Filtered, ServiceSpec.Publish, CanPublish;
    ReachableIsGood(r.env, r.worlds, r.actions, k);
    assert StepAt(r.env, r.worlds, r.actions, k);
    var w, a := r.worlds[k], r.actions[k];
    CanPublishSucceeds(r.env, w.used, w.store, a.auth, a.input, a.arrival, a.keys, a.subs, a.fate);
  }

  predicate Resolves(r: Run, k: nat)
    requires k < |r.actions| && r.actions[k].Publish?
  {
    ResolveMessages(r.env.p, r.actions[k].input.message, r.actions[k].input.messageStructure).Some?
  }

  lemma AcceptedReply(env: Env, w: World, a: Action, arn: string)
    requires Accepts(env, w, a, arn)
    ensures ReplyTo(env, w, a).result.Ok? ==> !ReplyTo(env, w, a).result.value.deduplicated
    ensures CanPublish(env, w.store, a.auth, a.input, a.arrival) <==>
      ResolveMessages(env.p, a.input.message, a.input.messageStructure).Some?
  {
    hide ResolveMessages, Dispatch, ValidPublishInput, Admit, Admitted, DedupId;
  }

  /** A message that a FIFO topic accepts is sent exactly when its text resolves; it is remembered either way. */
  lemma AcceptedIsSentIfItResolves(r: Run, k: nat, arn: string)
    requires Valid(r) && Accepted(r, k, arn)
    ensures r.actions[k].Publish? && (SendsAt(r, k) <==> Resolves(r, k))
  {
    hide StepAt, Accepts, ReplyTo, CanPublish, ResolveMessages;
    AcceptsPublish(r.env, r.worlds[k], r.actions[k], arn);
    PublishSucceeds(r, k);
    AcceptedReply(r.env, r.worlds[k], r.actions[k], arn);
  }

  /**
   What a duplicate stands for: the latest acceptance of its key, whose identifiers it is told, and
   which was sent if and only if its own text resolved.
   */
  lemma DuplicateOfWhat(r: Run, j: nat, arn: string) returns (k: nat)
    requires Valid(r) && j < |r.actions| && Admits(r.env, r.worlds[j], r.actions[j], arn)
    requires AdmissionAt(r.env, r.worlds[j], r.actions[j]).deduplicated
    ensures Latest(r, k, j, arn, KeyAt(r.env, r.worlds[j], r.actions[j])) && r.actions[k].Publish?
    ensures AdmissionAt(r.env, r.worlds[j], r.actions[j]).messageId == r.actions[k].arrival.messageId
    ensures SendsAt(r, k) <==> Resolves(r, k)
  {
    hide StepAt, AdmissionAt, KeyAt, Accepted, SendsAt, Resolves;
    k := DuplicateIsToldTheLatest(r, j, arn);
    AcceptedIsSentIfItResolves(r, k, arn);
  }

  /** Exact fan-out, in every run, for a topic of at most 10,000 subscriptions. */
  lemma ExactFanOut(r: Run, k: nat, subscriptionArn: string)
    requires Valid(r) && SendsAt(r, k) && |r.actions[k].keys| <= LIST_LIMIT
    ensures SentExactly(r.env, r.worlds[k], r.actions[k], r.worlds[k + 1], subscriptionArn)
  {
    hide GoodWorld, Steps, Sends, SentExactly;
    ReachableIsGood(r.env, r.worlds, r.actions, k);
    assert StepAt(r.env, r.worlds, r.actions, k);
    FanOutStep(r.env, r.worlds[k], r.actions[k], r.worlds[k + 1], subscriptionArn);
  }

  /** What a publish redrives, in every run. */
  lemma RedrivesExactly(r: Run, k: nat, subscriptionArn: string)
    requires Valid(r) && SendsAt(r, k)
    ensures RedrivenExactly(r.env, r.worlds[k], r.actions[k], subscriptionArn)
  {
    hide GoodWorld, Steps, Sends, RedrivenExactly;
    ReachableIsGood(r.env, r.worlds, r.actions, k);
    assert StepAt(r.env, r.worlds, r.actions, k);
    RedriveStep(r.env, r.worlds[k], r.actions[k], r.worlds[k + 1], subscriptionArn);
  }

  /** What is sent is right, in every run. */
  lemma FanOutContents(r: Run, k: nat)
    requires Valid(r) && SendsAt(r, k)
    ensures SentRightly(r.env, r.worlds[k], r.actions[k], r.worlds[k + 1])
  {
    hide GoodWorld, Steps, Sends, SentRightly;
    ReachableIsGood(r.env, r.worlds, r.actions, k);
    assert StepAt(r.env, r.worlds, r.actions, k);
    ContentsStep(r.env, r.worlds[k], r.actions[k], r.worlds[k + 1]);
  }

  /**
   Who gets a message, in every run: only selected subscriptions, none whose filter fails in every
   order of its keys, and each selected one whose filter fails in no order, as readable operands ensure.
   */
  lemma GetsIfSelected(r: Run, k: nat, subscriptionArn: string)
    requires Valid(r) && SendsAt(r, k) && |r.actions[k].keys| <= LIST_LIMIT
    requires subscriptionArn in r.worlds[k].store.subscriptions
    ensures GetsRightly(r.env, r.worlds[k], r.actions[k], subscriptionArn)
  {
    hide GoodWorld, Steps, ServiceSpec.Publish, GetsRightly;
    ReachableIsGood(r.env, r.worlds, r.actions, k);
    assert StepAt(r.env, r.worlds, r.actions, k);
    SelectedStep(r.env, r.worlds[k], r.actions[k], r.worlds[k + 1], subscriptionArn);
  }

  predicate SendAt(r: Run, i: nat, x: nat) {
    && i < |r.actions| && i < |r.worlds| && Sends(r.env, r.worlds[i], r.actions[i])
    && x < |ReplyTo(r.env, r.worlds[i], r.actions[i]).result.value.sent.deliveries|
  }

  function DeliveryAt(r: Run, i: nat, x: nat): SqsDelivery
    requires SendAt(r, i, x)
  {
    ReplyTo(r.env, r.worlds[i], r.actions[i]).result.value.sent.deliveries[x]
  }

  /** On a FIFO topic everything sent belongs to an accepted message and bears its number and group. */
  lemma SendsAreNumbered(r: Run, i: nat, x: nat, arn: string)
    requires Valid(r) && SendAt(r, i, x) && r.actions[i].input.topicArn == arn && FifoTopicAt(r.worlds[i].store, arn)
    ensures AcceptedGroup(r, i, arn, DeliveryAt(r, i, x).groupId)
    ensures DeliveryAt(r, i, x).sequenceNumber == Some(NumberAt(r, i))
  {
    hide GoodWorld, Steps, ResolveMessages, MessageFor, Enqueued, Deliveries, Redrives, ValidPublishInput, Admit,
      Admitted, DedupId;
    FanOutContents(r, i);
    assert DeliveryCarries(r.env, r.worlds[i], r.actions[i], DeliveryAt(r, i, x));
    FifoReply(r.env, r.worlds[i], r.actions[i]);
  }

  lemma FifoReply(env: Env, w: World, a: Action)
    requires Sends(env, w, a) && FifoTopicAt(w.store, a.input.topicArn)
    ensures Accepts(env, w, a, a.input.topicArn)
    ensures ReplyTo(env, w, a).result.value.sequenceNumber == Some(AdmissionAt(env, w, a).sequenceNumber)
  {
    hide ResolveMessages, Enqueued, Deliveries, Redrives, ValidPublishInput, Admit, Admitted, DedupId;
  }

  lemma {:induction false} CountTwo(sends: seq<SqsDelivery>, x: nat, y: nat)
    requires x < y < |sends| && sends[x].subscriptionArn == sends[y].subscriptionArn
    ensures CountSends(sends, sends[x].subscriptionArn) >= 2
  {
    var n := |sends| - 1;
    if y < n {
      CountTwo(sends[..n], x, y);
    } else {
      CountOne(sends[..n], x);
    }
  }

  lemma {:induction false} CountOne(sends: seq<SqsDelivery>, x: nat)
    requires x < |sends|
    ensures CountSends(sends, sends[x].subscriptionArn) >= 1
  {
    var n := |sends| - 1;
    if x < n {
      CountOne(sends[..n], x);
    }
  }

  lemma OneSendStep(env: Env, w: World, a: Action, w': World, x: nat, y: nat)
    requires GoodWorld(env, w) && Steps(env, w, a, w') && Sends(env, w, a)
    requires x < y < |ReplyTo(env, w, a).result.value.sent.deliveries|
    ensures var sends := ReplyTo(env, w, a).result.value.sent.deliveries;
      sends[x].subscriptionArn != sends[y].subscriptionArn
  {
    hide Good, Steps, ServiceSpec.Publish, Enqueued, Deliveries, ResolveMessages, Selected, Listing, FreshJobs,
      Filtered, CountSends;
    var sends := ReplyTo(env, w, a).result.value.sent.deliveries;
    ListedSubscriptions(env, w, a, w');
    var o := WhatIsSent(env, w, a);
    DeliveriesAreForQueues(o, a.subs, a.fate);
    DeliveriesAreExact(o, a.subs, a.fate, sends[x].subscriptionArn);
    assert sends[x] in Deliveries(o, a.subs, a.fate);
    var i :| 0 <= i < |a.subs| && ToQueue(a.subs[i], a.fate(a.subs[i].arn)) && sends[x] == QueueDelivery(o, a.subs[i]);
    assert CountSends(sends, sends[x].subscriptionArn) <= 1;
    if sends[x].subscriptionArn == sends[y].subscriptionArn {
      CountTwo(sends, x, y);
    }
  }

  /** No subscription gets two deliveries of one publish. */
  lemma OneSendEach(r: Run, i: nat, x: nat, y: nat)
    requires Valid(r) && SendAt(r, i, x) && SendAt(r, i, y) && x < y
    ensures DeliveryAt(r, i, x).subscriptionArn != DeliveryAt(r, i, y).subscriptionArn
  {
    hide GoodWorld, Steps, ServiceSpec.Publish;
    ReachableIsGood(r.env, r.worlds, r.actions, i);
    assert StepAt(r.env, r.worlds, r.actions, i);
    OneSendStep(r.env, r.worlds[i], r.actions[i], r.worlds[i + 1], x, y);
  }

  lemma OneSendPerQueueStep(env: Env, w: World, a: Action, w': World, x: nat, y: nat)
    requires GoodWorld(env, w) && Steps(env, w, a, w') && Sends(env, w, a) && QueuesDiffer(w.store.subscriptions)
    requires x < y < |ReplyTo(env, w, a).result.value.sent.deliveries|
    ensures var sends := ReplyTo(env, w, a).result.value.sent.deliveries; sends[x].queue != sends[y].queue
  {
    hide Good, Steps, ServiceSpec.Publish, Enqueued, Deliveries, ResolveMessages, Selected, Listing, FreshJobs,
      Filtered, MessageFor;
    var sends := ReplyTo(env, w, a).result.value.sent.deliveries;
    OneSendStep(env, w, a, w', x, y);
    ListedSubscriptions(env, w, a, w');
    var o := WhatIsSent(env, w, a);
    DeliveriesAreForQueues(o, a.subs, a.fate);
    assert sends[x] in Deliveries(o, a.subs, a.fate) && sends[y] in Deliveries(o, a.subs, a.fate);
    var i :| 0 <= i < |a.subs| && ToQueue(a.subs[i], a.fate(a.subs[i].arn)) && sends[x] == QueueDelivery(o, a.subs[i]);
    var j :| 0 <= j < |a.subs| && ToQueue(a.subs[j], a.fate(a.subs[j].arn)) && sends[y] == QueueDelivery(o, a.subs[j]);
    assert !Takes(w.store.subscriptions[a.subs[j].arn], a.subs[i].topicArn, a.subs[i].endpoint);
  }

  /** No queue gets two deliveries of one publish, unless a subscription of it was overlooked before. */
  lemma OneSendPerQueue(r: Run, i: nat, x: nat, y: nat)
    requires Valid(r) && SendAt(r, i, x) && SendAt(r, i, y) && x < y && NoneOverlooked(r, i)
    ensures DeliveryAt(r, i, x).queue != DeliveryAt(r, i, y).queue
  {
    hide GoodWorld, Steps, ServiceSpec.Publish, QueuesDiffer, Overlooks;
    ReachableIsGood(r.env, r.worlds, r.actions, i);
    QueuesAlwaysDiffer(r, i);
    assert StepAt(r.env, r.worlds, r.actions, i);
    OneSendPerQueueStep(r.env, r.worlds[i], r.actions[i], r.worlds[i + 1], x, y);
  }

  /**
   To each queue the messages of one group are sent in strictly increasing order of their sequence
   numbers, whatever calls come in between. Within one publish this needs that no subscription of
   the queue was overlooked before.
   */
  lemma SendsAreInOrder(r: Run, arn: string, i: nat, x: nat, j: nat, y: nat)
    requires Valid(r) && |r.actions| < TWO64
    requires SendAt(r, i, x) && SendAt(r, j, y) && (i < j || (i == j && x < y && NoneOverlooked(r, i)))
    requires r.actions[i].input.topicArn == arn == r.actions[j].input.topicArn
    requires FifoTopicAt(r.worlds[i].store, arn) && Lives(r, arn, i, j)
    requires DeliveryAt(r, i, x).groupId == DeliveryAt(r, j, y).groupId
    requires DeliveryAt(r, i, x).queue == DeliveryAt(r, j, y).queue
    ensures DeliveryAt(r, i, x).sequenceNumber.Some? && DeliveryAt(r, j, y).sequenceNumber.Some?
    ensures DeliveryAt(r, i, x).sequenceNumber.value < DeliveryAt(r, j, y).sequenceNumber.value
  {
    hide GoodWorld, Steps, ServiceSpec.Publish, Accepted, Lives, NoneOverlooked;
    SendsAreNumbered(r, i, x, arn);
    if i == j {
      OneSendPerQueue(r, i, x, y);
    } else {
      ReachableIsGood(r.env, r.worlds, r.actions, j);
      SentTopic(r.env, r.worlds[j], r.actions[j]);
      FifoForever(r, i, j, arn);
      SendsAreNumbered(r, j, y, arn);
      NumbersIncrease(r, i, j, arn, DeliveryAt(r, i, x).groupId);
    }
  }

  lemma SentTopic(env: Env, w: World, a: Action)
    requires Sends(env, w, a)
    ensures a.input.topicArn in w.store.topics
  {
    hide ResolveMessages, Enqueued, Deliveries, Redrives, ValidPublishInput, Admit, Admitted, DedupId;
  }
}
