/**
 Every call of the service and every step of the worker keeps the invariant of `Integrity`. Each kind of
 call has a lemma of its own, made of the lemmas on single store operations; `StepKeepsGood` puts them
 together, and `ReachableIsGood` carries the invariant through whole runs. It follows that publishing,
 confirming and unsubscribing never run into an internal error.
 */
module Preservation {
  import opened Common
  import opened Json
  import opened Domain
  import opened Attributes
  import opened ServiceSpec
  import opened Runs
  import opened Integrity
  import AccessPolicy
  import Delivery
  import Filter
  import Paging
  import StoreSpec

  lemma MoreUsed(env: Env, used: set<string>, more: set<string>, s: StoreState)
    requires Good(env, used, s)
    ensures Good(env, used + more, s)
  {
    hide StoreSpec.Indexed, Linked, FifoByName, Readable, TokensMatch, UuidOf;
  }

  /** Any new set of jobs, each with an identifier handed out before and an existing topic. */
  lemma ReplaceJobs(env: Env, used: set<string>, s: StoreState, jobs: map<string, DeliveryJob>)
    requires Base(env, used, s)
    requires forall j :: j in jobs ==> jobs[j].id == j && jobs[j].payload.topicArn in s.topics && j in used
    ensures Base(env, used, s.(deliveryJobs := jobs))
  {
    hide Readable, FifoByName, StoreSpec.Indexed;
    var s' := s.(deliveryJobs := jobs);
    JobsAside(env.cfg, s, s');
  }

  lemma JobsAside(cfg: Config, s: StoreState, s': StoreState)
    requires StoreSpec.Indexed(cfg, s) && FifoByName(s) && Readable(s)
    requires s' == s.(deliveryJobs := s'.deliveryJobs) && forall j :: j in s'.deliveryJobs ==>
      s'.deliveryJobs[j].id == j
    ensures StoreSpec.Indexed(cfg, s') && FifoByName(s') && Readable(s')
  {
    hide StoreSpec.TopicsIndexed, ReadableTopic, ReadableSubscription, FifoTopicAt, IsFifoName;
    StoreSpec.SameTopics(cfg, s, s');
    FifoNeedsTopic(s, s');
    assert forall t :: StoreSpec.SubsOf(s', t) == StoreSpec.SubsOf(s, t);
  }

  // ---- Topics ------------------------------------------------------------------------------------------------

  lemma PutTopicGood(env: Env, used: set<string>, s: StoreState, arn: string, topic: Topic)
    requires Good(env, used, s) && arn in s.topics && topic.arn == arn && topic.name == s.topics[arn].name
    requires topic.attributes.fifoTopic == s.topics[arn].attributes.fifoTopic
    requires !topic.attributes.throughputScope.OtherScope?
    requires ReadableTopic(topic)
    ensures Good(env, used, s.(topics := s.topics[arn := topic]))
  {
    hide StoreSpec.SubscriptionsIndexed, StoreSpec.RecordsKeyed, Linked, FifoByName, IdsUsed, Readable, TokensMatch,
      ReadableTopic;
    ApplyKeepsBase(env, used, s, StoreSpec.OpPutTopic(arn, Ok(topic)));
    KeepsTokens(s, s.(topics := s.topics[arn := topic]));
  }

  lemma KeepsTokens(s: StoreState, s': StoreState)
    requires TokensMatch(s) && s'.subscriptions == s.subscriptions && s'.confirmation == s.confirmation
    ensures TokensMatch(s')
  {
  }

  lemma CreateTopicGood(env: Env, used: set<string>, s: StoreState, name: string, attrs: TopicEntries,
    tags: map<string, string>, now: Time, later: Time)
    requires Good(env, used, s)
    ensures Good(env, used, ServiceSpec.CreateTopic(env, s, name, attrs, tags, now, later).store)
  {
    var fifo := WantsFifo(env.p, attrs);
    var topic := NewTopic(env, name, fifo, tags, now);
    var made := topic.(attributes := WithTopicAttributes(env.p, topic.attributes, attrs), updatedAt := later);
    if ValidTopicName(name, fifo) && name !in s.topicsByName
      && AcceptsTopicAttributes(env.p, topic.attributes, true, attrs) && |tags| <= 50 {
      MadeTopic(env, name, attrs, tags, now, later);
      AddTopicGood(env, used, s, made);
    }
  }

  lemma MadeTopic(env: Env, name: string, attrs: TopicEntries, tags: map<string, string>, now: Time, later: Time)
    requires ValidTopicName(name, WantsFifo(env.p, attrs))
    requires AcceptsTopicAttributes(env.p, NewTopic(env, name, WantsFifo(env.p, attrs), tags, now).attributes, true,
      attrs)
    ensures var topic := NewTopic(env, name, WantsFifo(env.p, attrs), tags, now);
      var made := WithTopicAttributes(env.p, topic.attributes, attrs);
      && made.fifoTopic == IsFifoName(name) && !made.throughputScope.OtherScope?
      && !made.policy.Malformed? && !made.deliveryPolicy.Malformed?
  {
    var a := NewTopic(env, name, WantsFifo(env.p, attrs), tags, now).attributes;
    assert Policy in attrs ==> AcceptsTopicAttribute(env.p, a, true, Policy, attrs[Policy]);
    assert DeliveryPolicy in attrs ==> AcceptsTopicAttribute(env.p, a, true, DeliveryPolicy, attrs[DeliveryPolicy]);
    assert FifoThroughputScope in attrs ==>
      AcceptsTopicAttribute(env.p, a, true, FifoThroughputScope, attrs[FifoThroughputScope]);
  }

  lemma AddTopicGood(env: Env, used: set<string>, s: StoreState, topic: Topic)
    requires Good(env, used, s) && topic.name !in s.topicsByName && topic.arn == TopicArn(env.cfg, topic.name)
    requires topic.attributes.fifoTopic == IsFifoName(topic.name) && !topic.attributes.throughputScope.OtherScope?
    requires ReadableTopic(topic)
    ensures Good(env, used, StoreSpec.CreateTopic(s, topic).value)
  {
    hide StoreSpec.TopicsIndexed, StoreSpec.SubscriptionsIndexed, StoreSpec.RecordsKeyed, Linked, FifoByName, IdsUsed,
      Readable, TokensMatch, ReadableTopic, IsFifoName, TopicArn;
    NewTopicIsNew(env.cfg, s, topic);
    ApplyKeepsBase(env, used, s, StoreSpec.OpCreateTopic(topic));
    KeepsTokens(s, StoreSpec.CreateTopic(s, topic).value);
  }

  lemma NewTopicFields(env: Env, name: string, fifo: bool, tags: map<string, string>, now: Time)
    ensures var topic := NewTopic(env, name, fifo, tags, now);
      && topic.name == name && topic.arn == TopicArn(env.cfg, name) && topic.attributes.fifoTopic == fifo
      && topic.groupSequences == map[] && topic.dedupRecords == map[]
  {
  }

  lemma NewTopicIsNew(cfg: Config, s: StoreState, topic: Topic)
    requires StoreSpec.TopicsIndexed(cfg, s) && topic.name !in s.topicsByName && topic.arn == TopicArn(cfg, topic.name)
    ensures topic.arn !in s.topics
  {
    if topic.arn in s.topics {
      TopicArnInjective(cfg, topic.name, s.topics[topic.arn].name);
    }
  }

  lemma SetTopicAttributeGood(env: Env, used: set<string>, s: StoreState, arn: string, auth: Auth,
    name: TopicAttributeName, value: TopicAttribute, now: Time)
    requires Good(env, used, s)
    ensures Good(env, used, ServiceSpec.SetTopicAttribute(env, s, arn, auth, name, value, now).store)
  {
    if arn in s.topics && auth.None? && AcceptsTopicAttribute(env.p, s.topics[arn].attributes, false, name, value) {
      var topic := s.topics[arn];
      var made :=
        topic.(attributes := WithTopicAttributes(env.p, topic.attributes, map[name := value]), updatedAt := now);
      TopicFacts(env, used, s, arn);
      OneTopicAttribute(env.p, topic.attributes, name, value);
      hide Good, WithTopicAttributes, AcceptsTopicAttribute, IsFifoName;
      PutTopicGood(env, used, s, arn, made);
    }
  }

  lemma OneTopicAttribute(p: Platform, a: TopicAttributes, name: TopicAttributeName, value: TopicAttribute)
    requires AcceptsTopicAttribute(p, a, false, name, value)
    requires !a.policy.Malformed? && !a.deliveryPolicy.Malformed? && !a.throughputScope.OtherScope?
    ensures var made := WithTopicAttributes(p, a, map[name := value]);
      && made.fifoTopic == a.fifoTopic && !made.throughputScope.OtherScope?
      && !made.policy.Malformed? && !made.deliveryPolicy.Malformed?
      && (a.throughputScope.GroupScope? ==> made.throughputScope.GroupScope?)
  {
  }

  lemma TopicFacts(env: Env, used: set<string>, s: StoreState, arn: string)
    requires Good(env, used, s) && arn in s.topics
    ensures s.topics[arn].arn == arn && arn == TopicArn(env.cfg, s.topics[arn].name) && ReadableTopic(s.topics[arn])
    ensures s.topics[arn].attributes.fifoTopic == IsFifoName(s.topics[arn].name)
    ensures !s.topics[arn].attributes.throughputScope.OtherScope?
  {
    hide StoreSpec.SubscriptionsIndexed, StoreSpec.RecordsKeyed, Linked, IdsUsed, TokensMatch, FifoSubscribers,
      IsFifoName;
  }

  lemma DeleteTopicGood(env: Env, used: set<string>, s: StoreState, arn: string)
    requires Good(env, used, s)
    ensures Good(env, used, StoreSpec.DeleteTopic(s, arn))
  {
    hide StoreSpec.TopicsIndexed, StoreSpec.RecordsKeyed, Linked, FifoByName, IdsUsed, Readable, Match;
    ApplyKeepsBase(env, used, s, StoreSpec.OpDeleteTopic(arn));
    if arn in s.topics {
      SubsOfTopic(s, arn);
      MatchRemoveTopic(s.subscriptions, s.confirmation, StoreSpec.SubsOf(s, arn), StoreSpec.TokensOfTopic(s, arn), arn);
    }
  }

  lemma SubsOfTopic(s: StoreState, arn: string)
    requires StoreSpec.SubscriptionsIndexed(s)
    ensures forall a :: a in s.subscriptions ==> (a in StoreSpec.SubsOf(s, arn) <==> TopicOf(a) == arn)
  {
  }

  /** An edit changes tags or the policy, and leaves the policy readable. */
  lemma EditedTopic(p: Platform, arn: string, topic: Topic, edit: TopicEdit)
    requires Edited(p, arn, topic, edit).Ok?
    ensures var edited := Edited(p, arn, topic, edit).value;
      && edited == topic.(tags := edited.tags, attributes := topic.attributes.(policy := edited.attributes.policy))
      && (ReadableTopic(topic) ==> ReadableTopic(edited))
  {
    hide AccessPolicy.RemarshalAll, AccessPolicy.NewStatement, AccessPolicy.Without, AccessPolicy.HasLabel;
  }

  lemma EditTopicGood(env: Env, used: set<string>, s: StoreState, arn: string, auth: Auth, edit: TopicEdit)
    requires Good(env, used, s)
    ensures Good(env, used, ServiceSpec.EditTopic(env.p, s, arn, auth, edit).store)
  {
    hide Good, IsFifoName, ReadableTopic, Edited;
    if arn in s.topics && auth.None? && Edited(env.p, arn, s.topics[arn], edit).Ok? {
      TopicFacts(env, used, s, arn);
      EditedTopic(env.p, arn, s.topics[arn], edit);
      PutTopicGood(env, used, s, arn, Edited(env.p, arn, s.topics[arn], edit).value);
    }
  }

  // ---- Subscriptions ---------------------------------------------------------------------------------------

  /** A subscription whose ARN was never used before has no token. */
  lemma NewSubscriptionIsNew(used: set<string>, s: StoreState, arn: string)
    requires IdsUsed(used, s) && UuidOf(arn) !in used
    ensures arn !in s.subscriptions && forall t :: !Names(s.confirmation, t, arn)
  {
  }

  lemma AddSubscriptionBase(env: Env, used: set<string>, s: StoreState, sub: Subscription)
    requires Base(env, used, s) && sub.topicArn in s.topics && sub.topicArn == TopicOf(sub.arn)
    requires UuidOf(sub.arn) in used
    requires !sub.protocol.OtherProtocol? && (FifoTopicAt(s, sub.topicArn) ==> sub.protocol.Sqs?)
    requires ReadableSubscription(sub)
    ensures Base(env, used, StoreSpec.CreateSubscription(s, sub))
  {
    hide Base, TopicOf, UuidOf, FifoTopicAt, ReadableSubscription, StoreSpec.CreateSubscription;
    ApplyKeepsBase(env, used, s, StoreSpec.OpCreateSubscription(sub));
  }

  lemma PutTokenBase(env: Env, used: set<string>, s: StoreState, token: ConfirmationToken)
    requires Base(env, used, s) && token.topicArn in s.topics && !FifoTopicAt(s, token.topicArn)
    requires token.token in used && UuidOf(token.subscriptionArn) in used
    requires token.restore.Some? ==> ReadableSubscription(token.restore.value)
    ensures Base(env, used, StoreSpec.PutToken(s, token))
  {
    hide Base, UuidOf, FifoTopicAt, ReadableSubscription, StoreSpec.PutToken;
    ApplyKeepsBase(env, used, s, StoreSpec.OpPutToken(token));
  }

  lemma EnqueueBase(env: Env, used: set<string>, s: StoreState, job: DeliveryJob)
    requires Base(env, used, s) && job.payload.topicArn in s.topics && job.id in used
    ensures Base(env, used, StoreSpec.EnqueueJob(s, job))
  {
    hide Base, StoreSpec.EnqueueJob;
    ApplyKeepsBase(env, used, s, StoreSpec.OpEnqueueJob(job));
  }

  /** A new queue subscription. */
  lemma AddConfirmedGood(env: Env, used: set<string>, s: StoreState, sub: Subscription)
    requires Good(env, used, s) && sub.topicArn in s.topics && sub.topicArn == TopicOf(sub.arn)
    requires UuidOf(sub.arn) in used
    requires sub.protocol.Sqs? && ReadableSubscription(sub) && Settled(sub) && sub.confirmed
    requires sub.arn !in s.subscriptions && forall t :: !Names(s.confirmation, t, sub.arn)
    ensures Good(env, used, StoreSpec.CreateSubscription(s, sub))
  {
    hide Base, Match, TopicOf, UuidOf, ReadableSubscription;
    AddSubscriptionBase(env, used, s, sub);
    MatchAddConfirmed(s.subscriptions, s.confirmation, sub);
  }

  /** A new pending subscription, with its token and its confirmation job. */
  lemma AddPendingGood(env: Env, used: set<string>, s: StoreState, sub: Subscription, token: ConfirmationToken,
    job: DeliveryJob)
    requires Good(env, used, s) && sub.topicArn in s.topics && sub.topicArn == TopicOf(sub.arn)
    requires UuidOf(sub.arn) in used
    requires !sub.protocol.OtherProtocol? && !FifoTopicAt(s, sub.topicArn) && ReadableSubscription(sub)
    requires Settled(sub) && sub.pendingConfirmation
    requires sub.arn !in s.subscriptions && forall t :: !Names(s.confirmation, t, sub.arn)
    requires token.kind.SubscribeToken? && token.restore.None? && token.token !in s.confirmation && token.token in used
    requires token.subscriptionArn == sub.arn && token.topicArn == sub.topicArn
    requires job.payload.topicArn in s.topics && job.id in used
    ensures Good(env, used, StoreSpec.EnqueueJob(StoreSpec.PutToken(StoreSpec.CreateSubscription(s, sub), token), job))
  {
    hide Base, Match, TopicOf, UuidOf, ReadableSubscription;
    AddSubscriptionBase(env, used, s, sub);
    var s1 := StoreSpec.CreateSubscription(s, sub);
    FifoNeedsTopic(s, s1);
    PutTokenBase(env, used, s1, token);
    EnqueueBase(env, used, StoreSpec.PutToken(s1, token), job);
    MatchAddPending(s.subscriptions, s.confirmation, sub, token);
  }

  lemma MadeSubscriptionFacts(p: Platform, topicArn: string, topicPolicy: Text<Delivery.TopicPolicy>, uuid: string,
    protocol: Protocol, endpoint: string, attrs: SubscriptionEntries, now: Time)
    requires |uuid| == UUID_LENGTH && AcceptsSubscriptionAttributes(protocol, attrs)
    ensures var sub := MadeSubscription(p, topicArn, topicPolicy, uuid, protocol, endpoint, attrs, now);
      && sub.topicArn == topicArn && TopicOf(sub.arn) == topicArn && UuidOf(sub.arn) == uuid
      && sub.protocol == protocol && sub.endpoint == endpoint
      && Settled(sub) && sub.confirmed == protocol.Sqs? && ReadableSubscription(sub)
  {
    hide Filter.ValidObject, Delivery.EffectivePolicy;
    TopicOfSubscription(topicArn, uuid);
    assert SubscriptionArn(topicArn, uuid)[|topicArn| + 1..] == uuid;
    MadeAttributes(p, NewSubscription(topicArn, uuid, protocol, endpoint, now).attributes, protocol, attrs);
  }

  lemma MadeAttributes(p: Platform, a: SubscriptionAttributes, protocol: Protocol, attrs: SubscriptionEntries)
    requires AcceptsSubscriptionAttributes(protocol, attrs) && ReadableAttributes(a)
    ensures ReadableAttributes(WithSubscriptionAttributes(p, a, attrs))
  {
    hide Filter.ValidObject;
    assert FilterPolicy in attrs ==> AcceptsSubscriptionAttribute(protocol, FilterPolicy, attrs[FilterPolicy]);
    assert SubDeliveryPolicy in attrs ==>
      AcceptsSubscriptionAttribute(protocol, SubDeliveryPolicy, attrs[SubDeliveryPolicy]);
    assert FilterPolicyScope in attrs ==>
      AcceptsSubscriptionAttribute(protocol, FilterPolicyScope, attrs[FilterPolicyScope]);
  }

  lemma SubscribeGood(env: Env, used: set<string>, s: StoreState, topicArn: string, auth: Auth, protocol: Protocol,
    endpoint: string, attrs: SubscriptionEntries, returnArn: bool, existing: seq<Subscription>, queue: Option<Queue>,
    t: Ticket)
    requires Good(env, used, s) && FreshTicket(used, t)
    ensures Good(env, used + {t.uuid, t.token, t.jobId},
      ServiceSpec.Subscribe(env, s, topicArn, auth, protocol, endpoint, attrs, returnArn, existing, queue, t).store)
  {
    hide Good, TopicOf, UuidOf, ReadableSubscription, MadeSubscription, AcceptsSubscriptionAttributes, ValidQueue,
      ValidUrl, FindExisting, Delivery.EffectivePolicy;
    var r :=
      ServiceSpec.Subscribe(env, s, topicArn, auth, protocol, endpoint, attrs, returnArn, existing, queue, t).store;
    var used' := used + {t.uuid, t.token, t.jobId};
    MoreUsed(env, used, {t.uuid, t.token, t.jobId}, s);
    if r != s {
      var topic, policy := s.topics[topicArn], s.topics[topicArn].attributes.deliveryPolicy;
      var sub := MadeSubscription(env.p, topicArn, policy, t.uuid, protocol, endpoint, attrs, t.tokenAt);
      MadeSubscriptionFacts(env.p, topicArn, policy, t.uuid, protocol, endpoint, attrs, t.tokenAt);
      Unused(env, used, s, sub.arn, t);
      TopicFacts(env, used, s, topicArn);
      if protocol.Sqs? {
        AddConfirmedGood(env, used', s, sub);
      } else {
        var effective := Delivery.EffectivePolicy(topic.attributes.deliveryPolicy, sub.attributes.deliveryPolicy);
        AddPendingGood(env, used', s, sub, SubscribeTokenFor(sub, t),
          ConfirmationJob(topic, sub, SubscriptionConfirmation, effective.value, t));
      }
    }
  }

  lemma Unused(env: Env, used: set<string>, s: StoreState, arn: string, t: Ticket)
    requires Good(env, used, s) && FreshTicket(used, t)
    ensures t.token !in s.confirmation
    ensures UuidOf(arn) == t.uuid ==> arn !in s.subscriptions && forall u :: !Names(s.confirmation, u, arn)
  {
    hide StoreSpec.Indexed, Linked, FifoByName, Readable, TokensMatch, UuidOf;
    if UuidOf(arn) == t.uuid {
      NewSubscriptionIsNew(used, s, arn);
    }
  }

  // ---- Confirming and unsubscribing -------------------------------------------------------------------------

  lemma DeleteTokenBase(env: Env, used: set<string>, s: StoreState, token: string)
    requires Base(env, used, s)
    ensures Base(env, used, StoreSpec.DeleteToken(s, token))
  {
    hide Base, StoreSpec.DeleteToken;
    ApplyKeepsBase(env, used, s, StoreSpec.OpDeleteToken(token));
  }

  lemma PutSubscriptionBase(env: Env, used: set<string>, s: StoreState, arn: string, sub: Subscription)
    requires Base(env, used, s) && arn in s.subscriptions && sub.arn == arn
    requires sub.topicArn == s.subscriptions[arn].topicArn && sub.protocol == s.subscriptions[arn].protocol
    requires ReadableSubscription(sub)
    ensures Base(env, used, s.(subscriptions := s.subscriptions[arn := sub]))
  {
    hide Base, ReadableSubscription, TopicOf, UuidOf, FifoTopicAt;
    SubscriptionFacts(env, used, s, arn);
    var op := StoreSpec.OpPutSubscription(arn, Ok(sub));
    assert Fits(env, used, s, op);
    hide Fits;
    ApplyKeepsBase(env, used, s, op);
  }

  lemma SubscriptionFacts(env: Env, used: set<string>, s: StoreState, arn: string)
    requires Base(env, used, s) && arn in s.subscriptions
    ensures var sub := s.subscriptions[arn];
      && sub.arn == arn && sub.topicArn == TopicOf(arn) && sub.topicArn in s.topics && UuidOf(arn) in used
      && !sub.protocol.OtherProtocol? && (FifoTopicAt(s, sub.topicArn) ==> sub.protocol.Sqs?)
      && ReadableSubscription(sub)
  {
    hide StoreSpec.TopicsIndexed, StoreSpec.RecordsKeyed, FifoNames, FifoTopicAt, TopicOf, UuidOf, ReadableSubscription;
  }

  lemma TokenFacts(env: Env, used: set<string>, s: StoreState, t: string)
    requires Good(env, used, s) && t in s.confirmation
    ensures var token := s.confirmation[t];
      && token.token == t && TokenFits(s.subscriptions, token) && token.topicArn in s.topics
      && t in used && UuidOf(token.subscriptionArn) in used
      && !FifoTopicAt(s, token.topicArn)
      && (token.restore.Some? ==> ReadableSubscription(token.restore.value))
  {
    hide StoreSpec.TopicsIndexed, StoreSpec.SubscriptionsIndexed, FifoNames, FifoTopicAt, TokenFits, UuidOf,
      ReadableSubscription;
  }

  lemma ConfirmGood(env: Env, used: set<string>, s: StoreState, topicArn: string, token: string, authenticated: bool,
    now: Time)
    requires Good(env, used, s)
    ensures Good(env, used, ConfirmSubscription(s, topicArn, token, authenticated, now).store)
  {
    hide Good, ReadableAttributes, FifoTopicAt, TopicOf, UuidOf, StoreSpec.DeleteToken, StoreSpec.CreateSubscription;
    if token in s.confirmation && ConfirmSubscription(s, topicArn, token, authenticated, now).result.Ok? {
      TokenFacts(env, used, s, token);
      var record := s.confirmation[token];
      if record.kind.SubscribeToken? {
        UseSubscribeToken(env, used, s, token, Confirmed(s.subscriptions[record.subscriptionArn], authenticated));
      } else {
        UseUnsubscribeToken(env, used, s, token, Restored(record.restore.value, record.authenticateOnUnsubscribe));
      }
    }
  }

  lemma UseSubscribeToken(env: Env, used: set<string>, s: StoreState, t: string, sub: Subscription)
    requires Good(env, used, s) && t in s.confirmation && s.confirmation[t].kind.SubscribeToken?
    requires var arn := s.confirmation[t].subscriptionArn;
      && arn in s.subscriptions && sub.arn == s.subscriptions[arn].arn && sub.topicArn == s.subscriptions[arn].topicArn
      && sub.protocol == s.subscriptions[arn].protocol && sub.attributes == s.subscriptions[arn].attributes
    requires Settled(sub) && sub.confirmed
    ensures Good(env, used,
      StoreSpec.DeleteToken(s.(subscriptions := s.subscriptions[s.confirmation[t].subscriptionArn := sub]), t))
  {
    hide Base, Match, ReadableAttributes, FifoTopicAt, TopicOf, UuidOf;
    var arn := s.confirmation[t].subscriptionArn;
    SubscriptionFacts(env, used, s, arn);
    PutSubscriptionBase(env, used, s, arn, sub);
    DeleteTokenBase(env, used, s.(subscriptions := s.subscriptions[arn := sub]), t);
    MatchConfirm(s.subscriptions, s.confirmation, t, sub);
  }

  lemma UseUnsubscribeToken(env: Env, used: set<string>, s: StoreState, t: string, sub: Subscription)
    requires Good(env, used, s) && t in s.confirmation && s.confirmation[t].kind.UnsubscribeToken?
    requires sub.arn == s.confirmation[t].subscriptionArn && sub.topicArn == s.confirmation[t].topicArn
    requires Pushed(sub.protocol) && Settled(sub) && sub.confirmed && ReadableSubscription(sub)
    ensures Good(env, used, StoreSpec.DeleteToken(StoreSpec.CreateSubscription(s, sub), t))
  {
    TokenFacts(env, used, s, t);
    hide Base, Match, UuidOf, TopicOf, ReadableSubscription;
    AddSubscriptionBase(env, used, s, sub);
    DeleteTokenBase(env, used, StoreSpec.CreateSubscription(s, sub), t);
    MatchRestore(s.subscriptions, s.confirmation, t, sub);
  }

  lemma DeleteSubscriptionGood(env: Env, used: set<string>, s: StoreState, arn: string)
    requires Good(env, used, s) && arn in s.subscriptions
    ensures StoreSpec.DeleteSubscription(s, arn).Ok?
    ensures var removed := StoreSpec.DeleteSubscription(s, arn).value;
      && Good(env, used, removed) && arn !in removed.subscriptions && forall t :: !Names(removed.confirmation, t, arn)
  {
    hide Base, Match;
    ApplyKeepsBase(env, used, s, StoreSpec.OpDeleteSubscription(arn));
    assert StoreSpec.TokensOfSubscription(s, arn) == TokensNaming(s.confirmation, arn);
    MatchRemove(s.subscriptions, s.confirmation, arn);
  }

  /** The token that can undo the removal, and the job that announces it. */
  lemma LeaveTokenGood(env: Env, used: set<string>, s: StoreState, sub: Subscription, token: ConfirmationToken,
    job: DeliveryJob)
    requires Good(env, used, s) && sub.arn !in s.subscriptions && forall t :: !Names(s.confirmation, t, sub.arn)
    requires sub.topicArn in s.topics && sub.topicArn == TopicOf(sub.arn) && UuidOf(sub.arn) in used
    requires !FifoTopicAt(s, sub.topicArn)
    requires Pushed(sub.protocol) && Settled(sub) && ReadableSubscription(sub)
    requires token.token !in s.confirmation && token.token in used
    requires token.kind.UnsubscribeToken? && token.restore == Some(sub)
    requires token.subscriptionArn == sub.arn && token.topicArn == sub.topicArn
    requires job.payload.topicArn in s.topics && job.id in used
    ensures Good(env, used, StoreSpec.EnqueueJob(StoreSpec.PutToken(s, token), job))
  {
    hide Base, Match, TopicOf, UuidOf, ReadableSubscription;
    PutTokenBase(env, used, s, token);
    EnqueueBase(env, used, StoreSpec.PutToken(s, token), job);
    MatchUnsubscribe(s.subscriptions, s.confirmation, token);
  }

  lemma UnsubscribeGood(env: Env, used: set<string>, s: StoreState, arn: string, byOwner: bool, t: Ticket)
    requires Good(env, used, s) && FreshTicket(used, t)
    ensures Good(env, used + {t.uuid, t.token, t.jobId}, ServiceSpec.Unsubscribe(s, arn, byOwner, t).store)
  {
    hide Good, TopicOf, UuidOf, ReadableSubscription, Delivery.EffectivePolicy, StoreSpec.DeleteSubscription;
    var r := ServiceSpec.Unsubscribe(s, arn, byOwner, t).store;
    var used' := used + {t.uuid, t.token, t.jobId};
    MoreUsed(env, used, {t.uuid, t.token, t.jobId}, s);
    if r != s {
      var sub := s.subscriptions[arn];
      GoodSubscription(env, used', s, arn);
      Unused(env, used, s, arn, t);
      DeleteSubscriptionGood(env, used', s, arn);
      Removed(s, arn);
      TopicFacts(env, used, s, sub.topicArn);
      if Pushed(sub.protocol) {
        var topic := s.topics[sub.topicArn];
        var effective := Delivery.EffectivePolicy(topic.attributes.deliveryPolicy, sub.attributes.deliveryPolicy);
        LeaveTokenGood(env, used', StoreSpec.DeleteSubscription(s, arn).value, sub, UnsubscribeTokenFor(sub, t),
          ConfirmationJob(topic, sub, UnsubscribeConfirmation, effective.value, t));
      }
    }
  }

  lemma Removed(s: StoreState, arn: string)
    requires arn in s.subscriptions
    ensures StoreSpec.DeleteSubscription(s, arn).Ok?
    ensures var removed := StoreSpec.DeleteSubscription(s, arn).value;
      && removed.topics == s.topics && removed.confirmation.Keys <= s.confirmation.Keys
  {
  }

  lemma GoodSubscription(env: Env, used: set<string>, s: StoreState, arn: string)
    requires Good(env, used, s) && arn in s.subscriptions
    ensures var sub := s.subscriptions[arn];
      && sub.arn == arn && sub.topicArn == TopicOf(arn) && sub.topicArn in s.topics && UuidOf(arn) in used
      && !sub.protocol.OtherProtocol? && (FifoTopicAt(s, sub.topicArn) ==> sub.protocol.Sqs?)
      && ReadableSubscription(sub) && Settled(sub)
  {
    hide Base;
    SubscriptionFacts(env, used, s, arn);
  }

  lemma SetSubscriptionAttributeGood(env: Env, used: set<string>, s: StoreState, arn: string,
    name: SubscriptionAttributeName, value: SubscriptionAttribute)
    requires Good(env, used, s)
    ensures Good(env, used, ServiceSpec.SetSubscriptionAttribute(env, s, arn, name, value).store)
  {
    hide Base, Match, ReadableAttributes, WithSubscriptionAttributes, AcceptsSubscriptionAttribute;
    if ServiceSpec.SetSubscriptionAttribute(env, s, arn, name, value).result.Ok? {
      var sub := s.subscriptions[arn];
      var topic := s.topics[sub.topicArn];
      SubscriptionFacts(env, used, s, arn);
      MadeAttributes(env.p, sub.attributes, sub.protocol, map[name := value]);
      KeepsReading(WithSubscriptionAttributes(env.p, sub.attributes, map[name := value]),
        topic.attributes.deliveryPolicy);
      var made :=
        WithEffective(WithSubscriptionAttributes(env.p, sub.attributes, map[name := value]),
          topic.attributes.deliveryPolicy);
      PutSubscriptionBase(env, used, s, arn, sub.(attributes := made));
      MatchReplace(s.subscriptions, s.confirmation, arn, sub.(attributes := made));
    }
  }

  lemma KeepsReading(a: SubscriptionAttributes, topicPolicy: Text<Delivery.TopicPolicy>)
    requires ReadableAttributes(a)
    ensures ReadableAttributes(WithEffective(a, topicPolicy))
  {
    hide Filter.ValidObject, Delivery.EffectivePolicy;
  }

  // ---- Publishing and delivering -----------------------------------------------------------------------------

  /** The jobs after a dispatch: those of before, and one under its own identifier for each job made. */
  lemma {:induction false} EnqueuedJobs(o: Outgoing, jobs: map<string, DeliveryJob>, subs: seq<Subscription>,
    fate: string -> Fate)
    requires "default" in o.messages && Enqueued(o, jobs, subs, fate).Some?
    ensures forall j :: j in Enqueued(o, jobs, subs, fate).value ==>
      || (j in jobs && Enqueued(o, jobs, subs, fate).value[j] == jobs[j])
      || (Enqueued(o, jobs, subs, fate).value[j].id == j
           && Enqueued(o, jobs, subs, fate).value[j].payload.topicArn == o.topic.arn
          && exists i :: 0 <= i < |subs| && fate(subs[i].arn).jobId == j)
  {
    hide EffectiveFor, MessageFor, Selected;
    if subs != [] {
      var n := |subs| - 1;
      EnqueuedJobs(o, jobs, subs[..n], fate);
      var before := Enqueued(o, jobs, subs[..n], fate).value;
      forall j | j in before && !(j in jobs && before[j] == jobs[j])
        ensures exists i :: 0 <= i < |subs| && fate(subs[i].arn).jobId == j
      {
        var i :| 0 <= i < n && fate(subs[..n][i].arn).jobId == j;
        assert subs[i] == subs[..n][i];
      }
      assert subs[n] == subs[|subs| - 1];
    }
  }

  lemma DispatchGood(env: Env, used: set<string>, s: StoreState, topic: Topic, input: PublishInput, messageId: string,
    dedupId: string, sequenceNumber: Option<nat>, subs: seq<Subscription>, fate: string -> Fate)
    requires Good(env, used, s) && topic.arn in s.topics
    requires forall i :: 0 <= i < |subs| ==> fate(subs[i].arn).jobId in used
    ensures Good(env, used, Dispatch(env, s, topic, input, messageId, dedupId, sequenceNumber, subs, fate).store)
  {
    hide Base, Match, Enqueued, ResolveMessages;
    var r := Dispatch(env, s, topic, input, messageId, dedupId, sequenceNumber, subs, fate).store;
    if r != s {
      var o :=
        Outgoing(topic, input, ResolveMessages(env.p, input.message, input.messageStructure).value, messageId, dedupId,
        sequenceNumber);
      EnqueuedJobs(o, s.deliveryJobs, subs, fate);
      JobsFacts(env, used, s);
      var jobs := Enqueued(o, s.deliveryJobs, subs, fate).value;
      assert r == s.(deliveryJobs := jobs);
      forall j | j in jobs ensures jobs[j].id == j && jobs[j].payload.topicArn in s.topics && j in used {
      }
      ReplaceJobs(env, used, s, jobs);
    }
  }

  lemma JobsFacts(env: Env, used: set<string>, s: StoreState)
    requires Base(env, used, s)
    ensures forall j :: j in s.deliveryJobs ==>
      s.deliveryJobs[j].id == j && s.deliveryJobs[j].payload.topicArn in s.topics && j in used
  {
    hide StoreSpec.TopicsIndexed, StoreSpec.SubscriptionsIndexed, FifoByName, Readable;
  }

  lemma PublishGood(env: Env, used: set<string>, s: StoreState, auth: Auth, input: PublishInput, a: Arrival,
    subs: seq<Subscription>, fate: string -> Fate)
    requires Good(env, used, s) && forall i :: 0 <= i < |subs| ==> fate(subs[i].arn).jobId in used
    ensures Good(env, used, ServiceSpec.Publish(env, s, auth, input, a, subs, fate).store)
  {
    hide Good, Dispatch, ValidPublishInput, Admitted, Admit, DedupId, IsFifoName, ReadableTopic;
    if input.topicArn in s.topics {
      var topic := s.topics[input.topicArn];
      TopicFacts(env, used, s, input.topicArn);
      DispatchGood(env, used, s, topic, input, a.messageId, DedupId(env.p, topic, input), None, subs, fate);
      var dedupId := DedupId(env.p, topic, input);
      var admitted := Admitted(topic, input.groupId, dedupId, a);
      AdmittedTopic(topic, input.groupId, dedupId, a);
      PutTopicGood(env, used, s, input.topicArn, admitted);
      var admission := Admit(topic, input.groupId, dedupId, a);
      DispatchGood(env, used, s.(topics := s.topics[input.topicArn := admitted]), admitted, input, admission.messageId,
        DedupId(env.p, admitted, input), Some(admission.sequenceNumber), subs, fate);
    }
  }

  /** Accepting a message touches only the sequence and deduplication records. */
  lemma AdmittedTopic(topic: Topic, groupId: string, dedupId: string, a: Arrival)
    ensures var admitted := Admitted(topic, groupId, dedupId, a);
      && admitted == topic.(groupSequences := admitted.groupSequences, dedupRecords := admitted.dedupRecords)
      && (ReadableTopic(topic) ==> ReadableTopic(admitted))
  {
  }

  lemma ProcessGood(env: Env, used: set<string>, s: StoreState, job: DeliveryJob, outcome: Outcome, error: string,
    at: Time, later: Time)
    requires Good(env, used, s)
    ensures Good(env, used, ProcessJob(env, s, job, outcome, error, at, later))
  {
    hide Base, Match, Judge;
    var jobs := ProcessJob(env, s, job, outcome, error, at, later).deliveryJobs;
    JobsFacts(env, used, s);
    assert ProcessJob(env, s, job, outcome, error, at, later) == s.(deliveryJobs := jobs);
    ReplaceJobs(env, used, s, jobs);
  }

  // ---- Stored policies never fail ------------------------------------------------------------------------------

  lemma EffectiveExists(topic: Topic, sub: Subscription)
    requires ReadableTopic(topic) && ReadableSubscription(sub)
    ensures Delivery.EffectivePolicy(topic.attributes.deliveryPolicy, sub.attributes.deliveryPolicy).Some?
  {
    hide Filter.ValidObject, Delivery.Merge;
  }

  lemma {:induction false} EnqueuedSucceeds(o: Outgoing, jobs: map<string, DeliveryJob>, subs: seq<Subscription>,
    fate: string -> Fate)
    requires "default" in o.messages && ReadableTopic(o.topic) && forall i :: 0 <= i < |subs| ==>
      ReadableSubscription(subs[i])
    ensures Enqueued(o, jobs, subs, fate).Some?
  {
    hide ReadableTopic, ReadableSubscription, Delivery.EffectivePolicy, JobFor, ToJob;
    if subs != [] {
      EnqueuedSucceeds(o, jobs, subs[..|subs| - 1], fate);
      EffectiveExists(o.topic, subs[|subs| - 1]);
    }
  }

  lemma DispatchSucceeds(env: Env, s: StoreState, topic: Topic, input: PublishInput, messageId: string,
    dedupId: string, sequenceNumber: Option<nat>, subs: seq<Subscription>, fate: string -> Fate)
    requires ReadableTopic(topic) && forall i :: 0 <= i < |subs| ==> ReadableSubscription(subs[i])
    ensures Dispatch(env, s, topic, input, messageId, dedupId, sequenceNumber, subs, fate).result.Ok?
      <==> ResolveMessages(env.p, input.message, input.messageStructure).Some?
  {
    hide ReadableTopic, ReadableSubscription, ResolveMessages, Enqueued, Deliveries, Redrives;
    var messages := ResolveMessages(env.p, input.message, input.messageStructure);
    if messages.Some? {
      EnqueuedSucceeds(Outgoing(topic, input, messages.value, messageId, dedupId, sequenceNumber), s.deliveryJobs, subs,
        fate);
    }
  }

  /** The conditions under which a publish succeeds. */
  predicate CanPublish(env: Env, s: StoreState, auth: Auth, input: PublishInput, a: Arrival) {
    && input.topicArn in s.topics && auth.None?
    && var topic := s.topics[input.topicArn];
       && ValidPublishInput(env.p, topic, input)
       && (ResolveMessages(env.p, input.message, input.messageStructure).Some?
           || (topic.attributes.fifoTopic && Admit(topic, input.groupId, DedupId(env.p, topic, input), a).deduplicated))
  }

  lemma CanPublishSucceeds(env: Env, used: set<string>, s: StoreState, auth: Auth, input: PublishInput, a: Arrival,
    keys: seq<string>, subs: seq<Subscription>, fate: string -> Fate)
    requires Good(env, used, s) && Listing(s, input.topicArn, keys, subs)
    ensures ServiceSpec.Publish(env, s, auth, input, a, subs, fate).result.Ok? <==> CanPublish(env, s, auth, input, a)
  {
    hide Good, Dispatch, ResolveMessages, ValidPublishInput, Admitted, Admit, DedupId, IsFifoName, ReadableTopic,
      ReadableSubscription, FifoTopicAt, TopicOf, UuidOf, Paging.Lists;
    if input.topicArn in s.topics {
      var topic := s.topics[input.topicArn];
      TopicFacts(env, used, s, input.topicArn);
      forall i | 0 <= i < |subs| ensures ReadableSubscription(subs[i]) {
        GoodSubscription(env, used, s, keys[i]);
      }
      var dedupId := DedupId(env.p, topic, input);
      var admission := Admit(topic, input.groupId, dedupId, a);
      var admitted := Admitted(topic, input.groupId, dedupId, a);
      AdmittedTopic(topic, input.groupId, dedupId, a);
      DispatchSucceeds(env, s, topic, input, a.messageId, dedupId, None, subs, fate);
      DispatchSucceeds(env, s.(topics := s.topics[input.topicArn := admitted]), admitted, input, admission.messageId,
        DedupId(env.p, admitted, input), Some(admission.sequenceNumber), subs, fate);
    }
  }

  lemma UnsubscribeNoInternal(env: Env, used: set<string>, s: StoreState, arn: string, byOwner: bool, t: Ticket)
    requires Good(env, used, s)
    ensures ServiceSpec.Unsubscribe(s, arn, byOwner, t).result != Err(Internal)
  {
    hide Good, Delivery.EffectivePolicy, ReadableTopic, ReadableSubscription, IsFifoName, TopicOf, UuidOf,
      FifoTopicAt, StoreSpec.DeleteSubscription, ConfirmationJob;
    if arn in s.subscriptions {
      GoodSubscription(env, used, s, arn);
      TopicFacts(env, used, s, s.subscriptions[arn].topicArn);
      EffectiveExists(s.topics[s.subscriptions[arn].topicArn], s.subscriptions[arn]);
    }
  }

  lemma ConfirmNoInternal(env: Env, used: set<string>, s: StoreState, topicArn: string, token: string,
    authenticated: bool, now: Time)
    requires Good(env, used, s)
    ensures ConfirmSubscription(s, topicArn, token, authenticated, now).result != Err(Internal)
  {
    hide Good, TopicOf, UuidOf, FifoTopicAt, ReadableSubscription;
    if token in s.confirmation {
      TokenFacts(env, used, s, token);
    }
  }

  // ---- Steps and runs --------------------------------------------------------------------------------------------

  ghost predicate GoodWorld(env: Env, w: World) { Good(env, w.used, w.store) }

  lemma StepKeepsGood(env: Env, w: World, a: Action, w': World)
    requires GoodWorld(env, w) && Steps(env, w, a, w')
    ensures GoodWorld(env, w')
  {
    hide Good, ServiceSpec.CreateTopic, ServiceSpec.SetTopicAttribute, ServiceSpec.EditTopic, ServiceSpec.Subscribe,
      ConfirmSubscription, ServiceSpec.Unsubscribe, ServiceSpec.SetSubscriptionAttribute, ServiceSpec.Publish,
      ProcessJob, StoreSpec.DeleteTopic, Listing, Filtered, StoreSpec.ReadyKeys, FreshTicket;
    var s := w.store;
    assert w.used + {} == w.used;
    match a
    case CreateTopic(name, attrs, tags, createdAt, updatedAt) =>
      CreateTopicGood(env, w.used, s, name, attrs, tags, createdAt, updatedAt);
    case DeleteTopic(arn) => DeleteTopicGood(env, w.used, s, arn);
    case SetTopicAttribute(arn, auth, name, value, updatedAt) =>
      SetTopicAttributeGood(env, w.used, s, arn, auth, name, value, updatedAt);
    case EditTopic(arn, auth, edit) => EditTopicGood(env, w.used, s, arn, auth, edit);
    case Subscribe(topicArn, auth, protocol, endpoint, entries, returnArn, _, subs, queue, t) =>
      SubscribeGood(env, w.used, s, topicArn, auth, protocol, endpoint, entries, returnArn, subs, queue, t);
    case Confirm(topicArn, token, authenticated, confirmedAt) =>
      ConfirmGood(env, w.used, s, topicArn, token, authenticated, confirmedAt);
    case Unsubscribe(arn, byOwner, t) => UnsubscribeGood(env, w.used, s, arn, byOwner, t);
    case SetSubscriptionAttribute(arn, entry, entryValue) =>
      SetSubscriptionAttributeGood(env, w.used, s, arn, entry, entryValue);
    case Publish(auth, input, arrival, _, subs, fate) =>
      MoreUsed(env, w.used, Issued(a), s);
      PublishGood(env, w.used + Issued(a), s, auth, input, arrival, subs, fate);
    case ListReady(_, _, _) =>
    case Process(outcome, error, rescheduledAt, finishedAt) =>
      ProcessGood(env, w.used, s, w.batch[0], outcome, error, rescheduledAt, finishedAt);
  }

  /** Every world of every run satisfies the invariant. */
  lemma {:induction false} ReachableIsGood(env: Env, worlds: seq<World>, actions: seq<Action>, i: nat)
    requires IsRun(env, worlds, actions) && i < |worlds|
    ensures GoodWorld(env, worlds[i])
  {
    hide Steps;
    if i == 0 {
      StartIsGood(env);
    } else {
      ReachableIsGood(env, worlds, actions, i - 1);
      assert StepAt(env, worlds, actions, i - 1);
      StepKeepsGood(env, worlds[i - 1], actions[i - 1], worlds[i]);
    }
  }

  lemma StartIsGood(env: Env)
    ensures GoodWorld(env, START)
  {
  }
}
