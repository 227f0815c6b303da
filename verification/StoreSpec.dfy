/**
 The in-memory store as a value (internal/store/memory/store.go): what each mutator of `txStore`
 does to the state, and the agreement between the primary maps and the two derived indexes.
 */
module StoreSpec {
  import opened Common
  import opened Domain

  datatype StoreState = StoreState(
    topics: map<string, Topic>,
    topicsByName: map<string, string>,
    subscriptions: map<string, Subscription>,
    subsByTopic: map<string, set<string>>,
    confirmation: map<string, ConfirmationToken>,
    deliveryJobs: map<string, DeliveryJob>,
    signingMaterial: string)

  const EMPTY := StoreState(map[], map[], map[], map[], map[], map[], "")

  datatype Error = NotFound | Conflict | Rejected(message: string)

  function SubsOf(s: StoreState, topicArn: string): set<string> {
    if topicArn in s.subsByTopic then s.subsByTopic[topicArn] else {}
  }

  function Drop<V>(m: map<string, V>, gone: set<string>): map<string, V> {
    map k | k in m && k !in gone :: m[k]
  }

  // ---- The mutators ---------------------------------------------------------------------------------

  function CreateTopic(s: StoreState, topic: Topic): Result<StoreState, Error> {
    if topic.name in s.topicsByName then Err(Conflict)
    else Ok(s.(topics := s.topics[topic.arn := topic], topicsByName := s.topicsByName[topic.name := topic.arn]))
  }

  /** Replaces an existing record with what the update function made of a copy of it. */
  function PutTopic(s: StoreState, arn: string, updated: Result<Topic, Error>): Result<StoreState, Error> {
    if arn !in s.topics then Err(NotFound)
    else if updated.Err? then Err(updated.error)
    else Ok(s.(topics := s.topics[arn := updated.value]))
  }

  function UpdateTopic(s: StoreState, arn: string, update: Topic -> Result<Topic, Error>): Result<StoreState, Error> {
    PutTopic(s, arn, if arn in s.topics then update(s.topics[arn]) else Err(NotFound))
  }

  function UpdateSubscription(s: StoreState, arn: string, update: Subscription -> Result<Subscription, Error>):
    Result<StoreState, Error>
  {
    PutSubscription(s, arn, if arn in s.subscriptions then update(s.subscriptions[arn]) else Err(NotFound))
  }

  /** Removes the topic, both index entries, and every subscription, token and job that names it. */
  function DeleteTopic(s: StoreState, arn: string): StoreState {
    if arn !in s.topics then s
    else s.(
      topics := Drop(s.topics, {arn}),
      topicsByName := Drop(s.topicsByName, {s.topics[arn].name}),
      subscriptions := Drop(s.subscriptions, SubsOf(s, arn)),
      subsByTopic := Drop(s.subsByTopic, {arn}),
      confirmation := Drop(s.confirmation, TokensOfTopic(s, arn)),
      deliveryJobs := Drop(s.deliveryJobs, JobsOfTopic(s, arn)))
  }

  function TokensOfTopic(s: StoreState, arn: string): set<string> {
    set t | t in s.confirmation && s.confirmation[t].topicArn == arn
  }

  function JobsOfTopic(s: StoreState, arn: string): set<string> {
    set j | j in s.deliveryJobs && s.deliveryJobs[j].payload.topicArn == arn
  }

  function TokensOfSubscription(s: StoreState, arn: string): set<string> {
    set t | t in s.confirmation && s.confirmation[t].subscriptionArn == arn
  }

  function CreateSubscription(s: StoreState, sub: Subscription): StoreState {
    s.(subscriptions := s.subscriptions[sub.arn := sub],
       subsByTopic := s.subsByTopic[sub.topicArn := SubsOf(s, sub.topicArn) + {sub.arn}])
  }

  function PutSubscription(s: StoreState, arn: string, updated: Result<Subscription, Error>):
    Result<StoreState, Error>
  {
    if arn !in s.subscriptions then Err(NotFound)
    else if updated.Err? then Err(updated.error)
    else Ok(s.(subscriptions := s.subscriptions[arn := updated.value]))
  }

  /** Removes the subscription, its index entry, and the tokens that name it. */
  function DeleteSubscription(s: StoreState, arn: string): Result<StoreState, Error> {
    if arn !in s.subscriptions then Err(NotFound)
    else
      var topicArn := s.subscriptions[arn].topicArn;
      Ok(s.(
        subscriptions := Drop(s.subscriptions, {arn}),
        subsByTopic := if topicArn in s.subsByTopic then s.subsByTopic[topicArn := s.subsByTopic[topicArn] - {arn}]
                       else s.subsByTopic,
        confirmation := Drop(s.confirmation, TokensOfSubscription(s, arn))))
  }

  function PutToken(s: StoreState, token: ConfirmationToken): StoreState {
    s.(confirmation := s.confirmation[token.token := token])
  }

  function DeleteToken(s: StoreState, token: string): StoreState {
    s.(confirmation := Drop(s.confirmation, {token}))
  }

  function EnqueueJob(s: StoreState, job: DeliveryJob): StoreState {
    s.(deliveryJobs := s.deliveryJobs[job.id := job])
  }

  function PutJob(s: StoreState, id: string, updated: DeliveryJob): Result<StoreState, Error> {
    if id !in s.deliveryJobs then Err(NotFound) else Ok(s.(deliveryJobs := s.deliveryJobs[id := updated]))
  }

  function UpdateJob(s: StoreState, id: string, update: DeliveryJob -> DeliveryJob): Result<StoreState, Error> {
    if id !in s.deliveryJobs then Err(NotFound) else PutJob(s, id, update(s.deliveryJobs[id]))
  }

  function DeleteJob(s: StoreState, id: string): StoreState {
    s.(deliveryJobs := Drop(s.deliveryJobs, {id}))
  }

  // ---- Due jobs -----------------------------------------------------------------------------------------

  predicate Due(job: DeliveryJob, now: Time) { job.nextAttemptAt <= now }

  predicate Sooner(a: DeliveryJob, b: DeliveryJob) {
    a.nextAttemptAt < b.nextAttemptAt || (a.nextAttemptAt == b.nextAttemptAt && a.createdAt < b.createdAt)
  }

  /** Different keys, none of them of a job that is due sooner than one before it. */
  ghost predicate SoonestFirst(jobs: map<string, DeliveryJob>, keys: seq<string>) {
    && (forall k :: k in keys ==> k in jobs)
    && (forall i, j :: 0 <= i < j < |keys| ==> keys[i] != keys[j] && !Sooner(jobs[keys[j]], jobs[keys[i]]))
  }

  /**
   What the worker's listing returns: due jobs only, earliest first; if one is left out, the limit
   is used up by jobs none of which is due later than it.
   */
  ghost predicate ReadyKeys(jobs: map<string, DeliveryJob>, now: Time, limit: int, keys: seq<string>) {
    && SoonestFirst(jobs, keys)
    && (forall k :: k in keys ==> Due(jobs[k], now))
    && (limit > 0 ==> |keys| <= limit)
    && (forall k :: k in jobs && Due(jobs[k], now) && k !in keys ==>
          limit > 0 && |keys| == limit && forall i :: 0 <= i < |keys| ==> !Sooner(jobs[k], jobs[keys[i]]))
  }

  lemma InsertSoonest(jobs: map<string, DeliveryJob>, keys: seq<string>, k: string, i: nat)
    requires SoonestFirst(jobs, keys) && k in jobs && k !in keys && i <= |keys|
    requires forall j :: 0 <= j < i ==> !Sooner(jobs[k], jobs[keys[j]])
    requires i < |keys| ==> Sooner(jobs[k], jobs[keys[i]])
    ensures SoonestFirst(jobs, keys[..i] + [k] + keys[i..])
    ensures forall x :: x in keys[..i] + [k] + keys[i..] <==> x == k || x in keys
  {
    hide Sooner;
    var out := keys[..i] + [k] + keys[i..];
    OneMoreKey(keys, k, i);
    forall a, b | 0 <= a < b < |out| ensures out[a] != out[b] && !Sooner(jobs[out[b]], jobs[out[a]]) {
      if a == i {
        LaterStill(jobs[k], jobs[keys[i]], jobs[keys[b - 1]]);
      }
    }
  }

  lemma OneMoreKey(keys: seq<string>, k: string, i: nat)
    requires i <= |keys|
    ensures var out := keys[..i] + [k] + keys[i..];
      && out[i] == k && (forall a :: 0 <= a < i ==> out[a] == keys[a])
      && (forall a :: i < a < |out| ==> out[a] == keys[a - 1])
      && forall x :: x in out <==> x == k || x in keys
  {
    assert keys == keys[..i] + keys[i..];
  }

  lemma LaterStill(k: DeliveryJob, x: DeliveryJob, y: DeliveryJob)
    requires Sooner(k, x) && (y == x || !Sooner(y, x))
    ensures !Sooner(y, k)
  {
  }

  lemma TakeSoonest(jobs: map<string, DeliveryJob>, keys: seq<string>, limit: nat)
    requires SoonestFirst(jobs, keys) && limit <= |keys|
    ensures SoonestFirst(jobs, keys[..limit])
    ensures forall k :: k in keys && k !in keys[..limit] ==>
      k in jobs && forall i :: 0 <= i < limit ==> !Sooner(jobs[k], jobs[keys[i]])
  {
    forall k | k in keys && k !in keys[..limit]
      ensures forall i :: 0 <= i < limit ==> !Sooner(jobs[k], jobs[keys[i]])
    {
      var j :| 0 <= j < |keys| && keys[j] == k;
      assert j >= limit;
    }
  }

  // ---- The indexes ------------------------------------------------------------------------------------

  /** `topicsByName` is the exact inverse of the topics' names. */
  ghost predicate TopicsIndexed(cfg: Config, s: StoreState) {
    && (forall a :: a in s.topics ==>
         s.topics[a].arn == a && a == TopicArn(cfg, s.topics[a].name) && s.topics[a].name in s.topicsByName)
    && (forall n :: n in s.topicsByName ==>
         s.topicsByName[n] == TopicArn(cfg, n) && s.topicsByName[n] in s.topics
           && s.topics[s.topicsByName[n]].name == n)
  }

  /** `subsByTopic[t]` is exactly the ARNs of the subscriptions whose topic is `t`. */
  ghost predicate SubscriptionsIndexed(s: StoreState) {
    && (forall a :: a in s.subscriptions ==> s.subscriptions[a].arn == a && s.subscriptions[a].topicArn == TopicOf(a))
    && (forall t, a :: a in SubsOf(s, t) <==> a in s.subscriptions && s.subscriptions[a].topicArn == t)
  }

  ghost predicate RecordsKeyed(s: StoreState) {
    && (forall t :: t in s.confirmation ==> s.confirmation[t].token == t)
    && (forall j :: j in s.deliveryJobs ==> s.deliveryJobs[j].id == j)
  }

  ghost predicate Indexed(cfg: Config, s: StoreState) {
    TopicsIndexed(cfg, s) && SubscriptionsIndexed(s) && RecordsKeyed(s)
  }

  // ---- One step of a transaction body --------------------------------------------------------------------

  datatype Op =
    | OpCreateTopic(topic: Topic)
    | OpPutTopic(arn: string, updatedTopic: Result<Topic, Error>)
    | OpDeleteTopic(arn: string)
    | OpCreateSubscription(sub: Subscription)
    | OpPutSubscription(arn: string, updatedSub: Result<Subscription, Error>)
    | OpDeleteSubscription(arn: string)
    | OpPutToken(token: ConfirmationToken)
    | OpDeleteToken(id: string)
    | OpEnqueueJob(job: DeliveryJob)
    | OpPutJob(id: string, updatedJob: DeliveryJob)

  function Apply(s: StoreState, op: Op): Result<StoreState, Error> {
    match op
    case OpCreateTopic(topic) => CreateTopic(s, topic)
    case OpPutTopic(arn, updated) => PutTopic(s, arn, updated)
    case OpDeleteTopic(arn) => Ok(DeleteTopic(s, arn))
    case OpCreateSubscription(sub) => Ok(CreateSubscription(s, sub))
    case OpPutSubscription(arn, updated) => PutSubscription(s, arn, updated)
    case OpDeleteSubscription(arn) => DeleteSubscription(s, arn)
    case OpPutToken(token) => Ok(PutToken(s, token))
    case OpDeleteToken(id) => Ok(DeleteToken(s, id))
    case OpEnqueueJob(job) => Ok(EnqueueJob(s, job))
    case OpPutJob(id, updated) => PutJob(s, id, updated)
  }

  /**
   What the service guarantees of the records it hands to the store: a topic's ARN is made from
   its name, a subscription's from its topic's, and updates keep names and ARNs.
   */
  ghost predicate Admissible(cfg: Config, op: Op) {
    match op
    case OpCreateTopic(topic) => topic.arn == TopicArn(cfg, topic.name)
    case OpPutTopic(arn, updated) =>
      updated.Ok? ==> updated.value.arn == arn && arn == TopicArn(cfg, updated.value.name)
    case OpCreateSubscription(sub) => sub.topicArn == TopicOf(sub.arn)
    case OpPutSubscription(arn, updated) =>
      updated.Ok? ==> updated.value.arn == arn && updated.value.topicArn == TopicOf(arn)
    case OpPutJob(id, updated) => updated.id == id
    case _ => true
  }

  lemma CreateTopicKeepsIndex(cfg: Config, s: StoreState, topic: Topic)
    requires TopicsIndexed(cfg, s) && topic.arn == TopicArn(cfg, topic.name) && topic.name !in s.topicsByName
    ensures TopicsIndexed(cfg, CreateTopic(s, topic).value)
  {
    forall n | n in s.topicsByName ensures TopicArn(cfg, n) != topic.arn {
      if TopicArn(cfg, n) == topic.arn {
        TopicArnInjective(cfg, n, topic.name);
      }
    }
  }

  lemma PutTopicKeepsIndex(cfg: Config, s: StoreState, arn: string, topic: Topic)
    requires TopicsIndexed(cfg, s) && arn in s.topics && topic.arn == arn && arn == TopicArn(cfg, topic.name)
    ensures TopicsIndexed(cfg, PutTopic(s, arn, Ok(topic)).value)
    ensures topic.name == s.topics[arn].name
  {
    TopicArnInjective(cfg, topic.name, s.topics[arn].name);
  }

  lemma DeleteTopicKeepsIndex(cfg: Config, s: StoreState, arn: string)
    requires TopicsIndexed(cfg, s)
    ensures TopicsIndexed(cfg, DeleteTopic(s, arn))
  {
    if arn in s.topics {
      var name := s.topics[arn].name;
      assert forall a :: a in s.topics && s.topics[a].name == name ==> a == arn;
      assert forall n :: n in s.topicsByName && s.topicsByName[n] == arn ==> n == name;
    }
  }

  lemma ApplyKeepsTopicIndex(cfg: Config, s: StoreState, op: Op)
    requires TopicsIndexed(cfg, s) && Admissible(cfg, op) && Apply(s, op).Ok?
    ensures TopicsIndexed(cfg, Apply(s, op).value)
  {
    match op
    case OpCreateTopic(topic) => CreateTopicKeepsIndex(cfg, s, topic);
    case OpPutTopic(arn, updated) => PutTopicKeepsIndex(cfg, s, arn, updated.value);
    case OpDeleteTopic(arn) => DeleteTopicKeepsIndex(cfg, s, arn);
    case _ => SameTopics(cfg, s, Apply(s, op).value);
  }

  lemma SameTopics(cfg: Config, s: StoreState, s': StoreState)
    requires TopicsIndexed(cfg, s) && s'.topics == s.topics && s'.topicsByName == s.topicsByName
    ensures TopicsIndexed(cfg, s')
  {
  }

  lemma CreateSubscriptionKeepsIndex(s: StoreState, sub: Subscription)
    requires SubscriptionsIndexed(s) && sub.topicArn == TopicOf(sub.arn)
    ensures SubscriptionsIndexed(CreateSubscription(s, sub))
  {
    hide TopicOf;
    var s' := CreateSubscription(s, sub);
    assert forall t :: SubsOf(s', t) == if t == sub.topicArn then SubsOf(s, t) + {sub.arn} else SubsOf(s, t);
  }

  lemma PutSubscriptionKeepsIndex(s: StoreState, arn: string, sub: Subscription)
    requires SubscriptionsIndexed(s) && arn in s.subscriptions && sub.arn == arn && sub.topicArn == TopicOf(arn)
    ensures SubscriptionsIndexed(s.(subscriptions := s.subscriptions[arn := sub]))
  {
    hide TopicOf;
    var s' := s.(subscriptions := s.subscriptions[arn := sub]);
    assert forall t :: SubsOf(s', t) == SubsOf(s, t);
  }

  lemma DeleteSubscriptionKeepsIndex(s: StoreState, arn: string)
    requires SubscriptionsIndexed(s) && arn in s.subscriptions
    ensures SubscriptionsIndexed(DeleteSubscription(s, arn).value)
  {
    hide TopicOf;
    var s', topicArn := DeleteSubscription(s, arn).value, s.subscriptions[arn].topicArn;
    assert forall t :: SubsOf(s', t) == if t == topicArn then SubsOf(s, t) - {arn} else SubsOf(s, t);
  }

  lemma DeleteTopicKeepsSubscriptionIndex(s: StoreState, arn: string)
    requires SubscriptionsIndexed(s)
    ensures SubscriptionsIndexed(DeleteTopic(s, arn))
  {
    hide TopicOf;
    var s' := DeleteTopic(s, arn);
    if arn in s.topics {
      assert forall t :: SubsOf(s', t) == if t == arn then {} else SubsOf(s, t);
      assert forall a :: a in SubsOf(s, arn) <==> a in s.subscriptions && s.subscriptions[a].topicArn == arn;
    }
  }

  lemma SameSubscriptions(s: StoreState, s': StoreState)
    requires SubscriptionsIndexed(s) && s'.subscriptions == s.subscriptions && s'.subsByTopic == s.subsByTopic
    ensures SubscriptionsIndexed(s')
  {
    hide TopicOf;
    assert forall t :: SubsOf(s', t) == SubsOf(s, t);
  }

  lemma ApplyKeepsSubscriptionIndex(cfg: Config, s: StoreState, op: Op)
    requires SubscriptionsIndexed(s) && Admissible(cfg, op) && Apply(s, op).Ok?
    ensures SubscriptionsIndexed(Apply(s, op).value)
  {
    hide SubscriptionsIndexed, TopicOf, TopicArn;
    match op
    case OpCreateSubscription(sub) => CreateSubscriptionKeepsIndex(s, sub);
    case OpPutSubscription(arn, updated) => PutSubscriptionKeepsIndex(s, arn, updated.value);
    case OpDeleteSubscription(arn) => DeleteSubscriptionKeepsIndex(s, arn);
    case OpDeleteTopic(arn) => DeleteTopicKeepsSubscriptionIndex(s, arn);
    case _ => SameSubscriptions(s, Apply(s, op).value);
  }

  lemma ApplyKeepsIndexes(cfg: Config, s: StoreState, op: Op)
    requires Indexed(cfg, s) && Admissible(cfg, op) && Apply(s, op).Ok?
    ensures Indexed(cfg, Apply(s, op).value)
  {
    ApplyKeepsTopicIndex(cfg, s, op);
    ApplyKeepsSubscriptionIndex(cfg, s, op);
  }

  lemma DeleteJobKeepsIndexes(cfg: Config, s: StoreState, id: string)
    requires Indexed(cfg, s)
    ensures Indexed(cfg, DeleteJob(s, id))
  {
    SameTopics(cfg, s, DeleteJob(s, id));
    assert forall t :: SubsOf(DeleteJob(s, id), t) == SubsOf(s, t);
  }
}
