/**
 The life of one subscription over whole runs (internal/service/service.go, `Subscribe`,
 `ConfirmSubscription` and `Unsubscribe`): how it is made, confirmed, and protected from being
 removed by strangers.
 */
module SubscriptionLife {
  import opened Common
  import opened Json
  import opened Domain
  import opened Attributes
  import opened ServiceSpec
  import opened Runs
  import opened Integrity
  import opened Preservation
  import opened Fifo
  import opened Tokens
  import Delivery
  import Filter
  import StoreSpec

  // ---- Subscribing ---------------------------------------------------------------------------------------------

  ghost function SubscribeReply(env: Env, w: World, a: Action): Reply<Subscribed>
    requires a.Subscribe?
  {
    ServiceSpec.Subscribe(env, w.store, a.topicArn, a.auth, a.protocol, a.endpoint, a.entries, a.returnArn, a.subs,
      a.queue, a.ticket)
  }

  /** The attributes that a subscription may be given. */
  ghost predicate FineEntries(protocol: Protocol, entries: SubscriptionEntries) {
    forall name :: name in entries ==>
      var v := entries[name];
      match name
      case SubDeliveryPolicy => protocol in {Http, Https} && v.asDelivery != Malformed
      case FilterPolicy => v.asFilter == Blank || (v.asFilter.Parsed? && Filter.ValidObject(v.asFilter.value))
      case FilterPolicyScope => v.text == "MessageAttributes" || v.text == "MessageBody"
      case RedrivePolicy => v.asRedrive != Malformed
      case RawMessageDelivery => true
      case UnknownSubscriptionAttribute(_) => false
  }

  /** A queue has to exist, in the topic's region, and be a FIFO queue only if the topic is; a URL needs its scheme. */
  predicate FineEndpoint(env: Env, topic: Topic, a: Action)
    requires a.Subscribe?
  {
    match a.protocol
    case Sqs =>
      env.hasSqs && a.queue.Some? && a.queue.value.region == env.cfg.region
      && (a.queue.value.fifo ==> topic.attributes.fifoTopic)
    case _ => a.protocol in env.adapters ==> "http://" <= a.endpoint || "https://" <= a.endpoint
  }

  predicate Has(sub: Subscription, protocol: Protocol, endpoint: string) {
    sub.protocol == protocol && sub.endpoint == endpoint
  }

  predicate NoneHas(subs: seq<Subscription>, protocol: Protocol, endpoint: string) {
    forall i :: 0 <= i < |subs| ==> !Has(subs[i], protocol, endpoint)
  }

  predicate IsFirst(subs: seq<Subscription>, protocol: Protocol, endpoint: string, i: nat) {
    i < |subs| && Has(subs[i], protocol, endpoint) && NoneHas(subs[..i], protocol, endpoint)
  }

  lemma {:induction false} FoundIsFirst(subs: seq<Subscription>, protocol: Protocol, endpoint: string)
    ensures FindExisting(subs, protocol, endpoint).None? <==> NoneHas(subs, protocol, endpoint)
    ensures forall i: nat :: IsFirst(subs, protocol, endpoint, i) ==>
      FindExisting(subs, protocol, endpoint) == Some(subs[i])
  {
    if subs != [] {
      var rest := subs[1..];
      FoundIsFirst(rest, protocol, endpoint);
      assert forall i :: 0 < i < |subs| ==> subs[i] == rest[i - 1];
      forall i: nat | i > 0 && IsFirst(subs, protocol, endpoint, i) ensures IsFirst(rest, protocol, endpoint, i - 1) {
        assert subs[..i][0] == subs[0];
        assert rest[..i - 1] == subs[..i][1..];
      }
    }
  }

  lemma FineIsAccepted(env: Env, topic: Topic, a: Action)
    requires a.Subscribe?
    ensures AcceptsSubscription(env, topic, a.protocol, a.endpoint, a.entries, a.queue) <==>
      FineEntries(a.protocol, a.entries) && FineEndpoint(env, topic, a)
  {
    hide Filter.ValidObject;
    assert Filter.MESSAGE_ATTRIBUTES == "MessageAttributes" && Filter.MESSAGE_BODY == "MessageBody";
    assert AcceptsSubscriptionAttributes(a.protocol, a.entries) <==> FineEntries(a.protocol, a.entries);
  }

  /** When a call of `Subscribe` is refused, and with what; a refused call changes nothing. */
  lemma SubscribeRefuses(env: Env, w: World, a: Action)
    requires GoodWorld(env, w) && Enabled(env, w, a) && a.Subscribe?
    ensures var r := SubscribeReply(env, w, a);
      if a.topicArn !in w.store.topics then r == Fail(w.store, NotFound)
      else if a.auth != None then r == Fail(w.store, a.auth.value)
      else
        var topic := w.store.topics[a.topicArn];
        if a.protocol.OtherProtocol? || (topic.attributes.fifoTopic && a.protocol != Sqs)
          || (!(FineEntries(a.protocol, a.entries) && FineEndpoint(env, topic, a))
              && NoneHas(a.subs, a.protocol, a.endpoint))
        then r == Fail(w.store, InvalidParameter)
        else r.result.Ok?
  {
    hide Good, Stored, FindExisting, AcceptsSubscription, FineEntries, FineEndpoint, MadeSubscription, Listing, NoneHas,
      FreshTicket;
    FoundIsFirst(a.subs, a.protocol, a.endpoint);
    if a.topicArn in w.store.topics {
      var topic := w.store.topics[a.topicArn];
      FineIsAccepted(env, topic, a);
      if AcceptsSubscription(env, topic, a.protocol, a.endpoint, a.entries, a.queue) {
        StoringSucceeds(env, w, a);
      }
    }
  }

  lemma StoringSucceeds(env: Env, w: World, a: Action)
    requires GoodWorld(env, w) && Enabled(env, w, a) && a.Subscribe? && a.topicArn in w.store.topics
    requires AcceptsSubscription(env, w.store.topics[a.topicArn], a.protocol, a.endpoint, a.entries, a.queue)
    ensures var topic := w.store.topics[a.topicArn];
      Stored(w.store, topic, MadeSubscription(env.p, a.topicArn, topic.attributes.deliveryPolicy, a.ticket.uuid,
        a.protocol, a.endpoint, a.entries, a.ticket.tokenAt), a.returnArn, a.ticket).result.Ok?
    ensures var topic := w.store.topics[a.topicArn];
      Delivery.EffectivePolicy(topic.attributes.deliveryPolicy, MadeSubscription(env.p, a.topicArn,
        topic.attributes.deliveryPolicy, a.ticket.uuid, a.protocol, a.endpoint, a.entries,
        a.ticket.tokenAt).attributes.deliveryPolicy).Some?
  {
    hide Good, MadeSubscription, Delivery.EffectivePolicy, Listing, UuidOf, TopicOf, Filter.ValidObject, ValidQueue,
      AcceptsSubscriptionAttributes;
    var topic := w.store.topics[a.topicArn];
    MadeSubscriptionFacts(env.p, a.topicArn, topic.attributes.deliveryPolicy, a.ticket.uuid, a.protocol, a.endpoint,
      a.entries, a.ticket.tokenAt);
    TopicFacts(env, w.used, w.store, a.topicArn);
    EffectiveExists(topic, MadeSubscription(env.p, a.topicArn, topic.attributes.deliveryPolicy, a.ticket.uuid,
      a.protocol, a.endpoint, a.entries, a.ticket.tokenAt));
  }

  /** The call looks for a subscription that is there already. */
  predicate Looks(w: World, a: Action)
    requires a.Subscribe?
  {
    && a.topicArn in w.store.topics && a.auth == None && !a.protocol.OtherProtocol?
    && (w.store.topics[a.topicArn].attributes.fifoTopic ==> a.protocol == Sqs)
  }

  /** One that is there is the answer, whatever else is asked for, and nothing is changed. */
  lemma SubscribeAgain(env: Env, w: World, a: Action, i: nat)
    requires a.Subscribe? && Looks(w, a) && IsFirst(a.subs, a.protocol, a.endpoint, i)
    ensures SubscribeReply(env, w, a) == Reply(w.store,
      Ok(if a.subs[i].pendingConfirmation && !a.returnArn then PendingConfirmation else Arn(a.subs[i].arn)))
  {
    hide FindExisting, AcceptsSubscription, MadeSubscription, Stored;
    FoundIsFirst(a.subs, a.protocol, a.endpoint);
  }

  /** The new record: a queue is subscribed at once, anything else waits for its confirmation. */
  predicate IsNew(env: Env, a: Action, sub: Subscription)
    requires a.Subscribe?
  {
    && sub.arn == a.topicArn + ":" + a.ticket.uuid && sub.topicArn == a.topicArn
    && sub.protocol == a.protocol && sub.endpoint == a.endpoint
    && sub.createdAt == sub.updatedAt == a.ticket.tokenAt
    && sub.confirmed == (a.protocol == Sqs) && sub.pendingConfirmation == (a.protocol != Sqs)
    && !sub.confirmationWasAuthenticated && !sub.authenticateOnUnsubscribe
    && HasEntries(env.p, a.entries, sub.attributes)
  }

  /** Each attribute is the one that was asked for, or is blank, off, or the scope of the message attributes. */
  predicate HasEntries(p: Platform, entries: SubscriptionEntries, b: SubscriptionAttributes) {
    && b.deliveryPolicy == (if SubDeliveryPolicy in entries then entries[SubDeliveryPolicy].asDelivery else Blank)
    && b.filterPolicy == (if FilterPolicy in entries then entries[FilterPolicy].asFilter else Blank)
    && b.filterPolicyScope ==
       (if FilterPolicyScope in entries then entries[FilterPolicyScope].text else "MessageAttributes")
    && b.rawMessageDelivery ==
       (RawMessageDelivery in entries && p.fold(entries[RawMessageDelivery].text) == p.fold("true"))
    && b.redrivePolicy == (if RedrivePolicy in entries then entries[RedrivePolicy].asRedrive else Blank)
  }

  /** The token confirms this subscription within 48 hours; the job takes it to the endpoint. */
  predicate IsAnnounced(a: Action, sub: Subscription, token: ConfirmationToken, job: DeliveryJob)
    requires a.Subscribe?
  {
    && token == ConfirmationToken(a.ticket.token, sub.arn, a.topicArn, a.endpoint, a.protocol,
                  a.ticket.tokenAt + 172_800_000_000_000, false, SubscribeToken, None)
    && job.id == a.ticket.jobId && job.kind == SubscriptionConfirmation && job.payload.token == a.ticket.token
    && job.payload.subscriptionArn == sub.arn && job.payload.topicArn == a.topicArn
    && job.payload.protocol == a.protocol && job.payload.endpoint == a.endpoint
    && job.attemptCount == 0 && job.nextAttemptAt == a.ticket.jobAt && job.redrivePolicy == Blank
  }

  /** The policy is the one in force for the subscription. */
  predicate IsInForce(topic: Topic, sub: Subscription, policy: Text<Delivery.SubscriptionPolicy>) {
    policy.Parsed?
    && Delivery.EffectivePolicy(topic.attributes.deliveryPolicy, sub.attributes.deliveryPolicy) == Some(policy.value)
  }

  /** The store with one more subscription, which unless it is one of a queue is announced. */
  ghost predicate Adds(env: Env, w: World, a: Action, s': StoreState)
    requires a.Subscribe?
  {
    var arn := a.topicArn + ":" + a.ticket.uuid;
    && a.topicArn in w.store.topics
    && s'.subscriptions.Keys == w.store.subscriptions.Keys + {arn} && arn !in w.store.subscriptions
    && IsNew(env, a, s'.subscriptions[arn])
    && IsInForce(w.store.topics[a.topicArn], s'.subscriptions[arn],
         s'.subscriptions[arn].attributes.effectiveDeliveryPolicy)
    && (forall x :: x in w.store.subscriptions ==> s'.subscriptions[x] == w.store.subscriptions[x])
    && s'.topics == w.store.topics
    && if a.protocol == Sqs then s'.confirmation == w.store.confirmation && s'.deliveryJobs == w.store.deliveryJobs
       else
         && a.ticket.token in s'.confirmation && a.ticket.jobId in s'.deliveryJobs
         && IsAnnounced(a, s'.subscriptions[arn], s'.confirmation[a.ticket.token], s'.deliveryJobs[a.ticket.jobId])
         && IsInForce(w.store.topics[a.topicArn], s'.subscriptions[arn],
              s'.deliveryJobs[a.ticket.jobId].effectivePolicy)
         && s'.confirmation == w.store.confirmation[a.ticket.token := s'.confirmation[a.ticket.token]]
         && s'.deliveryJobs == w.store.deliveryJobs[a.ticket.jobId := s'.deliveryJobs[a.ticket.jobId]]
  }

  /** A new one is made as it was asked for, and answered with its ARN or as pending. */
  lemma SubscribeMakes(env: Env, w: World, a: Action)
    requires GoodWorld(env, w) && Enabled(env, w, a) && a.Subscribe? && Looks(w, a)
    requires NoneHas(a.subs, a.protocol, a.endpoint) && FineEntries(a.protocol, a.entries)
    requires FineEndpoint(env, w.store.topics[a.topicArn], a)
    ensures var r := SubscribeReply(env, w, a);
      && r.result == Ok(if a.protocol == Sqs || a.returnArn then Arn(a.topicArn + ":" + a.ticket.uuid)
                        else PendingConfirmation)
      && Adds(env, w, a, r.store)
  {
    hide Good, FineEntries, FineEndpoint, FindExisting, AcceptsSubscription, Listing, NoneHas, MadeSubscription,
      UuidOf, Stored, Adds, Delivery.EffectivePolicy, IsInForce;
    var topic := w.store.topics[a.topicArn];
    FoundIsFirst(a.subs, a.protocol, a.endpoint);
    FineIsAccepted(env, topic, a);
    StoringSucceeds(env, w, a);
    var sub := MadeSubscription(env.p, a.topicArn, topic.attributes.deliveryPolicy, a.ticket.uuid, a.protocol,
      a.endpoint, a.entries, a.ticket.tokenAt);
    MadeAsAsked(env, topic, a);
    TopicFacts(env, w.used, w.store, a.topicArn);
    SubscriptionUuid(a.topicArn, a.ticket.uuid);
    Unused(env, w.used, w.store, sub.arn, a.ticket);
    StoredAdds(env, w, a, sub);
  }

  lemma SubscriptionUuid(topicArn: string, uuid: string)
    requires |uuid| == UUID_LENGTH
    ensures UuidOf(topicArn + ":" + uuid) == uuid
  {
    assert (topicArn + ":" + uuid)[|topicArn| + 1..] == uuid;
  }

  lemma MadeAsAsked(env: Env, topic: Topic, a: Action)
    requires a.Subscribe?
    ensures var sub := MadeSubscription(env.p, a.topicArn, topic.attributes.deliveryPolicy, a.ticket.uuid, a.protocol,
        a.endpoint, a.entries, a.ticket.tokenAt);
      && IsNew(env, a, sub)
      && (Delivery.EffectivePolicy(topic.attributes.deliveryPolicy, sub.attributes.deliveryPolicy).Some? ==>
            IsInForce(topic, sub, sub.attributes.effectiveDeliveryPolicy))
  {
    hide Delivery.EffectivePolicy;
    assert a.topicArn + ":" + a.ticket.uuid == a.topicArn + (":" + a.ticket.uuid);
  }

  lemma StoredAdds(env: Env, w: World, a: Action, sub: Subscription)
    requires a.Subscribe? && a.topicArn in w.store.topics && w.store.topics[a.topicArn].arn == a.topicArn
    requires IsNew(env, a, sub) && sub.arn !in w.store.subscriptions
    requires IsInForce(w.store.topics[a.topicArn], sub, sub.attributes.effectiveDeliveryPolicy)
    requires Stored(w.store, w.store.topics[a.topicArn], sub, a.returnArn, a.ticket).result.Ok?
    ensures var r := Stored(w.store, w.store.topics[a.topicArn], sub, a.returnArn, a.ticket);
      && Adds(env, w, a, r.store)
      && r.result == Ok(if a.protocol == Sqs || a.returnArn then Arn(sub.arn) else PendingConfirmation)
  {
    hide Delivery.EffectivePolicy, HasEntries;
  }

  /** One attribute is set, if its value is fine, and the policy in force computed again. */
  lemma SetAttributeAnswers(env: Env, w: World, a: Action)
    requires GoodWorld(env, w) && a.SetSubscriptionAttribute?
    ensures var r := ServiceSpec.SetSubscriptionAttribute(env, w.store, a.arn, a.entry, a.entryValue);
      if a.arn !in w.store.subscriptions then r == Fail(w.store, NotFound)
      else
        var sub := w.store.subscriptions[a.arn];
        if !FineEntries(sub.protocol, map[a.entry := a.entryValue]) then r == Fail(w.store, InvalidParameter)
        else
          && r.result == Ok(()) && a.arn in r.store.subscriptions && sub.topicArn in w.store.topics
          && var sub' := r.store.subscriptions[a.arn];
             && r.store == w.store.(subscriptions := w.store.subscriptions[a.arn := sub'])
             && sub' == sub.(attributes := AfterSetting(env.p, sub.attributes, a.entry, a.entryValue,
                  sub'.attributes.effectiveDeliveryPolicy))
             && IsInForce(w.store.topics[sub.topicArn], sub', sub'.attributes.effectiveDeliveryPolicy)
  {
    hide Good, Delivery.EffectivePolicy, ReadableTopic, ReadableSubscription, IsFifoName, TopicOf, UuidOf, FifoTopicAt,
      Filter.ValidObject;
    if a.arn in w.store.subscriptions {
      var sub := w.store.subscriptions[a.arn];
      GoodSubscription(env, w.used, w.store, a.arn);
      TopicFacts(env, w.used, w.store, sub.topicArn);
      SettingIsReadable(env.p, w.store.topics[sub.topicArn], sub, a.entry, a.entryValue);
    }
  }

  /** The attributes after one of them was set. */
  function AfterSetting(p: Platform, b: SubscriptionAttributes, name: SubscriptionAttributeName,
    v: SubscriptionAttribute, effective: Text<Delivery.SubscriptionPolicy>): SubscriptionAttributes
  {
    match name
    case SubDeliveryPolicy => b.(deliveryPolicy := v.asDelivery, effectiveDeliveryPolicy := effective)
    case FilterPolicy => b.(filterPolicy := v.asFilter, effectiveDeliveryPolicy := effective)
    case FilterPolicyScope => b.(filterPolicyScope := v.text, effectiveDeliveryPolicy := effective)
    case RawMessageDelivery =>
      b.(rawMessageDelivery := p.fold(v.text) == p.fold("true"), effectiveDeliveryPolicy := effective)
    case RedrivePolicy => b.(redrivePolicy := v.asRedrive, effectiveDeliveryPolicy := effective)
    case UnknownSubscriptionAttribute(_) => b
  }

  lemma SettingIsReadable(p: Platform, topic: Topic, sub: Subscription, name: SubscriptionAttributeName,
    v: SubscriptionAttribute)
    requires ReadableTopic(topic) && ReadableSubscription(sub)
    ensures AcceptsSubscriptionAttribute(sub.protocol, name, v) <==> FineEntries(sub.protocol, map[name := v])
    ensures AcceptsSubscriptionAttribute(sub.protocol, name, v) ==>
      Delivery.EffectivePolicy(topic.attributes.deliveryPolicy,
        WithSubscriptionAttributes(p, sub.attributes, map[name := v]).deliveryPolicy).Some?
  {
    hide Filter.ValidObject, Delivery.EffectivePolicy;
    assert Filter.MESSAGE_ATTRIBUTES == "MessageAttributes" && Filter.MESSAGE_BODY == "MessageBody";
    var entries := map[name := v];
    assert name in entries && entries[name] == v;
    if AcceptsSubscriptionAttribute(sub.protocol, name, v) {
      var b := WithSubscriptionAttributes(p, sub.attributes, map[name := v]);
      EffectiveExists(topic, sub.(attributes := b.(filterPolicy := Blank, filterPolicyScope := "MessageBody")));
    }
  }

  // ---- One step of its life ------------------------------------------------------------------------------------

  /** The step uses the token that confirms the subscription. */
  predicate Confirms(w: World, a: Action, arn: string) {
    && a.Confirm? && Uses(w, a, a.token) && a.token in w.store.confirmation
    && w.store.confirmation[a.token].kind == SubscribeToken && w.store.confirmation[a.token].subscriptionArn == arn
  }

  function AfterConfirming(sub: Subscription, authenticated: bool): Subscription {
    sub.(pendingConfirmation := false, confirmed := true, authenticateOnUnsubscribe := authenticated,
         confirmationWasAuthenticated := authenticated)
  }

  /**
   A subscription ends with its topic or by being unsubscribed, is confirmed by its token, and has its
   attributes set; nothing else happens to it.
   */
  ghost predicate LifeStep(w: World, a: Action, s': StoreState, arn: string)
    requires arn in w.store.subscriptions
  {
    var sub := w.store.subscriptions[arn];
    if Deletes(a, sub.topicArn) || Unsubscribes(w, a, arn) then arn !in s'.subscriptions
    else
      && arn in s'.subscriptions
      && if Confirms(w, a, arn) then s'.subscriptions[arn] == AfterConfirming(sub, a.authenticated)
         else if a.SetSubscriptionAttribute? && a.arn == arn then
           s'.subscriptions[arn] == sub.(attributes := s'.subscriptions[arn].attributes)
         else s'.subscriptions[arn] == sub
  }

  lemma SubscriptionStep(env: Env, w: World, a: Action, w': World, arn: string)
    requires GoodWorld(env, w) && Steps(env, w, a, w') && arn in w.store.subscriptions
    ensures LifeStep(w, a, w'.store, arn)
  {
    hide GoodWorld, Steps, LifeStep, Confirms, ConfirmSubscription, ServiceSpec.Unsubscribe;
    if a.Subscribe? {
      SubscribingKeeps(env, w, a, w', arn);
    } else if a.Confirm? {
      AfterConfirm(env, w, a, w');
      ConfirmingKeeps(env, w, a, arn);
    } else if a.Unsubscribe? {
      UnsubscribingKeeps(w, a, arn);
      AfterUnsubscribing(env, w, a, w');
    } else if a.DeleteTopic? {
      DeletingKeeps(env, w, a, arn);
      AfterDeleting(env, w, a, w');
    } else {
      OthersKeep(env, w, a, w', arn);
    }
  }

  lemma AfterUnsubscribing(env: Env, w: World, a: Action, w': World)
    requires Steps(env, w, a, w') && a.Unsubscribe?
    ensures w'.store == ServiceSpec.Unsubscribe(w.store, a.arn, a.byOwner, a.ticket).store
  {
    hide ServiceSpec.Unsubscribe;
  }

  lemma AfterDeleting(env: Env, w: World, a: Action, w': World)
    requires Steps(env, w, a, w') && a.DeleteTopic?
    ensures w'.store == StoreSpec.DeleteTopic(w.store, a.arn)
  {
    hide StoreSpec.DeleteTopic;
  }

  lemma SubscribingKeeps(env: Env, w: World, a: Action, w': World, arn: string)
    requires GoodWorld(env, w) && Steps(env, w, a, w') && a.Subscribe? && arn in w.store.subscriptions
    ensures LifeStep(w, a, w'.store, arn)
  {
    hide Good, FineEntries, FineEndpoint, NoneHas, UuidOf, Listing, FreshTicket, ServiceSpec.Subscribe, IsAnnounced,
      IsNew;
    SubscribeRefuses(env, w, a);
    if Looks(w, a) && SubscribeReply(env, w, a).result.Ok? {
      if NoneHas(a.subs, a.protocol, a.endpoint) {
        SubscribeMakes(env, w, a);
      } else {
        var i := FirstOne(a.subs, a.protocol, a.endpoint);
        SubscribeAgain(env, w, a, i);
      }
    }
  }

  lemma {:induction false} FirstOne(subs: seq<Subscription>, protocol: Protocol, endpoint: string) returns (i: nat)
    requires !NoneHas(subs, protocol, endpoint)
    ensures IsFirst(subs, protocol, endpoint, i)
  {
    i := 0;
    while !Has(subs[i], protocol, endpoint)
      invariant i < |subs| && NoneHas(subs[..i], protocol, endpoint)
      decreases |subs| - i
    {
      i := i + 1;
    }
  }

  lemma ConfirmingKeeps(env: Env, w: World, a: Action, arn: string)
    requires GoodWorld(env, w) && a.Confirm? && arn in w.store.subscriptions
    ensures LifeStep(w, a, ConfirmReply(w, a).store, arn)
  {
    hide Good, UuidOf, TopicOf, FifoTopicAt, ReadableSubscription;
    if a.token in w.store.confirmation {
      TokenFacts(env, w.used, w.store, a.token);
    }
  }

  lemma UnsubscribingKeeps(w: World, a: Action, arn: string)
    requires a.Unsubscribe? && arn in w.store.subscriptions
    ensures LifeStep(w, a, ServiceSpec.Unsubscribe(w.store, a.arn, a.byOwner, a.ticket).store, arn)
  {
    hide Delivery.EffectivePolicy, ConfirmationJob, UnsubscribeTokenFor;
  }

  lemma DeletingKeeps(env: Env, w: World, a: Action, arn: string)
    requires GoodWorld(env, w) && a.DeleteTopic? && arn in w.store.subscriptions
    ensures LifeStep(w, a, StoreSpec.DeleteTopic(w.store, a.arn), arn)
  {
    hide FifoByName, Readable, TokensMatch, StoreSpec.TopicsIndexed, StoreSpec.RecordsKeyed, UuidOf, TopicOf,
      StoreSpec.TokensOfTopic, StoreSpec.JobsOfTopic;
    assert arn in StoreSpec.SubsOf(w.store, w.store.subscriptions[arn].topicArn);
  }

  lemma OthersKeep(env: Env, w: World, a: Action, w': World, arn: string)
    requires GoodWorld(env, w) && Steps(env, w, a, w') && arn in w.store.subscriptions
    requires !a.Subscribe? && !a.Confirm? && !a.Unsubscribe? && !a.DeleteTopic?
    ensures LifeStep(w, a, w'.store, arn)
  {
    hide Good, Listing, StoreSpec.ReadyKeys, FreshJobs, Filtered, Judge, ServiceSpec.Publish, ValidTopicName, NewTopic,
      AcceptsSubscriptionAttribute, WithEffective, WithSubscriptionAttributes, WithTopicAttributes,
      AcceptsTopicAttribute, AcceptsTopicAttributes, WantsFifo;
    if a.Publish? {
      PublishTokens(env, w.store, a.auth, a.input, a.arrival, a.subs, a.fate);
    }
  }

  // ---- Confirming and unsubscribing ------------------------------------------------------------------------------

  /** A token is used exactly if it is there, for its own topic, and until it expires. */
  lemma ConfirmAnswers(env: Env, w: World, a: Action)
    requires GoodWorld(env, w) && a.Confirm?
    ensures var r, tokens := ConfirmReply(w, a), w.store.confirmation;
      if a.token !in tokens then r == Fail(w.store, NotFound)
      else if a.topicArn != tokens[a.token].topicArn || a.confirmedAt > tokens[a.token].expiresAt then
        r == Fail(w.store, InvalidParameter)
      else r.result == Ok(tokens[a.token].subscriptionArn) && r.store.confirmation == tokens - {a.token}
  {
    hide Good, UuidOf, TopicOf, FifoTopicAt, ReadableSubscription;
    if a.token in w.store.confirmation {
      TokenFacts(env, w.used, w.store, a.token);
      var arn := w.store.confirmation[a.token].subscriptionArn;
      if arn in w.store.subscriptions {
        GoodSubscription(env, w.used, w.store, arn);
      }
    }
  }

  /** The token that can undo an unsubscription within 48 hours, and the job that takes it to the endpoint. */
  predicate IsFarewell(a: Action, sub: Subscription, token: ConfirmationToken, job: DeliveryJob)
    requires a.Unsubscribe?
  {
    && token == ConfirmationToken(a.ticket.token, sub.arn, sub.topicArn, sub.endpoint, sub.protocol,
                  a.ticket.tokenAt + 172_800_000_000_000, sub.authenticateOnUnsubscribe, UnsubscribeToken, Some(sub))
    && job.id == a.ticket.jobId && job.kind == UnsubscribeConfirmation && job.payload.token == a.ticket.token
    && job.payload.subscriptionArn == sub.arn && job.payload.protocol == sub.protocol
    && job.payload.endpoint == sub.endpoint && job.attemptCount == 0 && job.nextAttemptAt == a.ticket.jobAt
  }

  /**
   Only the owner may remove a subscription that was confirmed with authentication. A pushed one leaves
   a token behind, one of a queue nothing.
   */
  lemma UnsubscribeAnswers(env: Env, w: World, a: Action)
    requires GoodWorld(env, w) && Enabled(env, w, a) && a.Unsubscribe?
    ensures var r := ServiceSpec.Unsubscribe(w.store, a.arn, a.byOwner, a.ticket);
      if a.arn !in w.store.subscriptions then r == Fail(w.store, NotFound)
      else
        var sub := w.store.subscriptions[a.arn];
        if sub.authenticateOnUnsubscribe && !a.byOwner then r == Fail(w.store, Authorization)
        else
          && r.result == Ok(()) && r.store.subscriptions == w.store.subscriptions - {a.arn}
          && if sub.protocol == Sqs then r.store.deliveryJobs == w.store.deliveryJobs
             else
               && a.ticket.token in r.store.confirmation && a.ticket.jobId in r.store.deliveryJobs
               && IsFarewell(a, sub, r.store.confirmation[a.ticket.token], r.store.deliveryJobs[a.ticket.jobId])
  {
    hide Good, Delivery.EffectivePolicy, ReadableTopic, ReadableSubscription, IsFifoName, TopicOf, UuidOf, FifoTopicAt,
      FreshTicket;
    if a.arn in w.store.subscriptions {
      GoodSubscription(env, w.used, w.store, a.arn);
      TopicFacts(env, w.used, w.store, w.store.subscriptions[a.arn].topicArn);
      EffectiveExists(w.store.topics[w.store.subscriptions[a.arn].topicArn], w.store.subscriptions[a.arn]);
    }
  }

  // ---- Runs ----------------------------------------------------------------------------------------------------

  lemma RunLifeStep(r: Run, j: nat, arn: string)
    requires Valid(r) && j < |r.actions| && arn in r.worlds[j].store.subscriptions
    ensures LifeStep(r.worlds[j], r.actions[j], r.worlds[j + 1].store, arn)
    ensures GoodWorld(r.env, r.worlds[j]) && Enabled(r.env, r.worlds[j], r.actions[j])
  {
    hide GoodWorld, Enabled, Next, LifeStep;
    ReachableIsGood(r.env, r.worlds, r.actions, j);
    assert StepAt(r.env, r.worlds, r.actions, j);
    SubscriptionStep(r.env, r.worlds[j], r.actions[j], r.worlds[j + 1], arn);
  }

  /** Confirmed with authentication. */
  predicate Protected(w: World, arn: string) {
    && arn in w.store.subscriptions && w.store.subscriptions[arn].confirmed
    && w.store.subscriptions[arn].authenticateOnUnsubscribe
  }

  /** Neither is the topic deleted nor does the owner unsubscribe in steps `i` to `j - 1`. */
  predicate OwnerStays(r: Run, i: nat, j: nat, arn: string, topicArn: string) {
    forall m :: i <= m < j && m < |r.actions| ==>
      !Deletes(r.actions[m], topicArn)
      && !(r.actions[m].Unsubscribe? && r.actions[m].arn == arn && r.actions[m].byOwner)
  }

  lemma ProtectedStep(env: Env, w: World, a: Action, s': StoreState, arn: string)
    requires GoodWorld(env, w) && Protected(w, arn) && LifeStep(w, a, s', arn)
    requires !Deletes(a, w.store.subscriptions[arn].topicArn) && !(a.Unsubscribe? && a.arn == arn && a.byOwner)
    ensures arn in s'.subscriptions && s'.subscriptions[arn].confirmed
    ensures s'.subscriptions[arn].authenticateOnUnsubscribe
    ensures s'.subscriptions[arn].topicArn == w.store.subscriptions[arn].topicArn
  {
    hide Good, UuidOf, TopicOf, FifoTopicAt, ReadableSubscription, ConfirmSubscription;
    if a.Confirm? && a.token in w.store.confirmation {
      TokenFacts(env, w.used, w.store, a.token);
      GoodSubscription(env, w.used, w.store, arn);
    }
  }

  /** A subscription confirmed with authentication stays so until its owner, or the end of its topic, removes it. */
  lemma {:induction false} ProtectedStays(r: Run, i: nat, j: nat, arn: string)
    requires Valid(r) && i <= j < |r.worlds| && Protected(r.worlds[i], arn)
    requires OwnerStays(r, i, j, arn, r.worlds[i].store.subscriptions[arn].topicArn)
    ensures Protected(r.worlds[j], arn)
    ensures r.worlds[j].store.subscriptions[arn].topicArn == r.worlds[i].store.subscriptions[arn].topicArn
  {
    hide StepAt, GoodWorld, LifeStep, Enabled;
    if i < j {
      ProtectedStays(r, i, j - 1, arn);
      RunLifeStep(r, j - 1, arn);
      ProtectedStep(r.env, r.worlds[j - 1], r.actions[j - 1], r.worlds[j].store, arn);
    }
  }

  /** And no stranger can remove it: the call is refused and changes nothing. */
  lemma StrangersAreRefused(r: Run, i: nat, j: nat, arn: string)
    requires Valid(r) && i <= j < |r.actions| && Protected(r.worlds[i], arn)
    requires OwnerStays(r, i, j, arn, r.worlds[i].store.subscriptions[arn].topicArn)
    requires r.actions[j].Unsubscribe? && r.actions[j].arn == arn && !r.actions[j].byOwner
    ensures ServiceSpec.Unsubscribe(r.worlds[j].store, arn, false, r.actions[j].ticket) ==
      Fail(r.worlds[j].store, Authorization)
  {
    hide StepAt, GoodWorld, ServiceSpec.Unsubscribe, Enabled;
    ProtectedStays(r, i, j, arn);
    RunLifeStep(r, j, arn);
    UnsubscribeAnswers(r.env, r.worlds[j], r.actions[j]);
  }

  /** The token is not used, the subscription not removed and the topic not deleted in steps `i` to `j - 1`. */
  predicate NothingEnds(r: Run, i: nat, j: nat, t: string, arn: string, topicArn: string) {
    forall m :: i <= m < j && m < |r.actions| && m < |r.worlds| ==>
      !Uses(r.worlds[m], r.actions[m], t) && !Deletes(r.actions[m], topicArn)
      && !Unsubscribes(r.worlds[m], r.actions[m], arn)
  }

  /** Pending, with this token. */
  predicate Awaits(w: World, t: string, token: ConfirmationToken, sub: Subscription) {
    && t in w.store.confirmation && w.store.confirmation[t] == token
    && token.kind == SubscribeToken && token.subscriptionArn in w.store.subscriptions
    && w.store.subscriptions[token.subscriptionArn] ==
         sub.(attributes := w.store.subscriptions[token.subscriptionArn].attributes)
  }

  lemma AwaitsStep(env: Env, w: World, a: Action, w': World, t: string, token: ConfirmationToken, sub: Subscription)
    requires GoodWorld(env, w) && Awaits(w, t, token, sub) && sub.topicArn == token.topicArn
    requires LifeStep(w, a, w'.store, token.subscriptionArn) && TokenChange(w, a, w', t)
    requires !Uses(w, a, t) && !Deletes(a, token.topicArn) && !Unsubscribes(w, a, token.subscriptionArn)
    ensures Awaits(w', t, token, sub)
  {
    hide Base, Uses, Unsubscribes;
    assert Names(w.store.confirmation, t, token.subscriptionArn);
    assert Confirms(w, a, token.subscriptionArn) ==> Names(w.store.confirmation, a.token, token.subscriptionArn);
  }

  lemma {:induction false} PendingStays(r: Run, i: nat, j: nat, t: string, token: ConfirmationToken, sub: Subscription)
    requires Valid(r) && i <= j < |r.worlds| && Awaits(r.worlds[i], t, token, sub) && sub.topicArn == token.topicArn
    requires NothingEnds(r, i, j, t, token.subscriptionArn, token.topicArn)
    ensures Awaits(r.worlds[j], t, token, sub)
  {
    hide StepAt, GoodWorld, LifeStep, TokenChange, Enabled, Uses, Unsubscribes;
    if i < j {
      PendingStays(r, i, j - 1, t, token, sub);
      RunLifeStep(r, j - 1, token.subscriptionArn);
      RunTokenStep(r, j - 1, t);
      AwaitsStep(r.env, r.worlds[j - 1], r.actions[j - 1], r.worlds[j], t, token, sub);
    }
  }

  /** A call of `Subscribe` made a pending subscription: its token is there. */
  predicate MakesPending(r: Run, i: nat) {
    && i < |r.actions| && i + 1 < |r.worlds| && r.actions[i].Subscribe?
    && r.actions[i].ticket.token in r.worlds[i + 1].store.confirmation
  }

  lemma AfterSubscribe(r: Run, i: nat)
    requires Valid(r) && MakesPending(r, i)
    ensures var a, s' := r.actions[i], r.worlds[i + 1].store;
      && Adds(r.env, r.worlds[i], a, s') && a.protocol in {Http, Https}
  {
    hide Good, FineEntries, FineEndpoint, NoneHas, UuidOf, Listing, ServiceSpec.Subscribe, IsAnnounced, IsNew, Adds;
    var env, w, a := r.env, r.worlds[i], r.actions[i];
    ReachableIsGood(env, r.worlds, r.actions, i);
    assert StepAt(env, r.worlds, r.actions, i);
    Unused(env, w.used, w.store, "", a.ticket);
    SubscribeRefuses(env, w, a);
    if NoneHas(a.subs, a.protocol, a.endpoint) {
      SubscribeMakes(env, w, a);
      TokenMeansPushed(env, w, a, r.worlds[i + 1].store);
    } else {
      var k := FirstOne(a.subs, a.protocol, a.endpoint);
      SubscribeAgain(env, w, a, k);
    }
  }

  lemma TokenMeansPushed(env: Env, w: World, a: Action, s': StoreState)
    requires a.Subscribe? && Adds(env, w, a, s') && !a.protocol.OtherProtocol?
    requires a.ticket.token !in w.store.confirmation && a.ticket.token in s'.confirmation
    ensures a.protocol in {Http, Https}
  {
  }

  /**
   A subscription that has to be confirmed stays pending until its token is used, it is removed, or its
   topic deleted. Confirming is accepted exactly until 48 hours after the call that made it, and records
   whether it was done with authentication.
   */
  lemma SubscribeThenConfirm(r: Run, i: nat, j: nat)
    requires Valid(r) && MakesPending(r, i) && i < j < |r.actions|
    requires r.actions[j].Confirm? && r.actions[j].token == r.actions[i].ticket.token
    requires r.actions[j].topicArn == r.actions[i].topicArn
    requires NothingEnds(r, i + 1, j, r.actions[i].ticket.token,
      r.actions[i].topicArn + ":" + r.actions[i].ticket.uuid, r.actions[i].topicArn)
    ensures var a, b, arn := r.actions[i], r.actions[j], r.actions[i].topicArn + ":" + r.actions[i].ticket.uuid;
      var before, after := r.worlds[j].store, r.worlds[j + 1].store;
      && arn in before.subscriptions && before.subscriptions[arn].pendingConfirmation
      && before.subscriptions[arn].protocol == a.protocol && before.subscriptions[arn].endpoint == a.endpoint
      && (ConfirmReply(r.worlds[j], b).result == Ok(arn) <==>
            b.confirmedAt <= a.ticket.tokenAt + 172_800_000_000_000)
      && (ConfirmReply(r.worlds[j], b).result == Ok(arn) ==>
            && arn in after.subscriptions && a.ticket.token !in after.confirmation
            && after.subscriptions[arn] == AfterConfirming(before.subscriptions[arn], b.authenticated))
  {
    hide GoodWorld, StepAt, LifeStep, Enabled, Uses, Unsubscribes, ConfirmSubscription, HasEntries, TokenChange;
    var t := r.actions[i].ticket.token;
    AfterSubscribe(r, i);
    var s1 := r.worlds[i + 1].store;
    var token, arn := s1.confirmation[t], r.actions[i].topicArn + ":" + r.actions[i].ticket.uuid;
    PendingStays(r, i + 1, j, t, token, s1.subscriptions[arn]);
    ConfirmingAt(r, j, t, arn);
  }

  lemma ConfirmingAt(r: Run, j: nat, t: string, arn: string)
    requires Valid(r) && j < |r.actions| && r.actions[j].Confirm? && r.actions[j].token == t
    requires t in r.worlds[j].store.confirmation && arn in r.worlds[j].store.subscriptions
    requires var token := r.worlds[j].store.confirmation[t];
      token.kind == SubscribeToken && token.subscriptionArn == arn && token.topicArn == r.actions[j].topicArn
    ensures ConfirmReply(r.worlds[j], r.actions[j]).result == Ok(arn) <==>
      r.actions[j].confirmedAt <= r.worlds[j].store.confirmation[t].expiresAt
    ensures ConfirmReply(r.worlds[j], r.actions[j]).result == Ok(arn) ==>
      && arn in r.worlds[j + 1].store.subscriptions && t !in r.worlds[j + 1].store.confirmation
      && r.worlds[j + 1].store.subscriptions[arn] ==
           AfterConfirming(r.worlds[j].store.subscriptions[arn], r.actions[j].authenticated)
  {
    hide GoodWorld, StepAt, ServiceSpec.Unsubscribe, ConfirmSubscription;
    RunLifeStep(r, j, arn);
    RunTokenStep(r, j, t);
    ConfirmAnswers(r.env, r.worlds[j], r.actions[j]);
  }
}
