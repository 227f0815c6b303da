/**
 The service calls as functions on the store's value (internal/service/service.go). What a call
 reads from outside, that is clocks, fresh identifiers, queue look-ups and delivery results, is
 an argument; what it sends to queues is part of the reply.
 */
module ServiceSpec {
  import opened Common
  import opened Json
  import opened Domain
  import opened Attributes
  import AccessPolicy
  import Delivery
  import Filter
  import Paging
  import StoreSpec

  type StoreState = StoreSpec.StoreState

  /** What stays the same while the service runs. */
  datatype Env = Env(cfg: Config, p: Platform, adapters: set<Protocol>, hasSqs: bool)

  datatype ApiError = NotFound | InvalidParameter | Authorization | TagLimitExceeded | EmptyBatch | TooManyEntries
    | EntryIdsNotDistinct | BatchTooLong | Internal

  /** The store after a call, and the reply. */
  datatype Reply<+T> = Reply(store: StoreState, result: Result<T, ApiError>)

  /** The outcome of `authorizeTopic`: nothing, or the error it answers with. */
  type Auth = Option<ApiError>

  function Fail<T>(s: StoreState, e: ApiError): Reply<T> { Reply(s, Err(e)) }

  // ---- Topics -------------------------------------------------------------------------------------------

  predicate IsFifoName(name: string) { HasSuffix(name, ".fifo") }

  predicate NameChar(c: char) {
    'A' <= c <= 'Z' || 'a' <= c <= 'z' || '0' <= c <= '9' || c == '_' || c == '-'
  }

  predicate NameChars(base: string) {
    1 <= |base| <= 256 && forall i :: 0 <= i < |base| ==> NameChar(base[i])
  }

  /** The topic name pattern, and the suffix that FIFO topics and no others have. */
  predicate ValidTopicName(name: string, fifo: bool) {
    NameChars(if IsFifoName(name) then name[..|name| - 5] else name) && fifo == IsFifoName(name)
  }

  function WantsFifo(p: Platform, attrs: TopicEntries): bool {
    IsTrue(p, if FifoTopic in attrs then attrs[FifoTopic].text else "")
  }

  function NewTopic(env: Env, name: string, fifo: bool, tags: map<string, string>, now: Time): Topic {
    var arn := TopicArn(env.cfg, name);
    Topic(arn, name, now, now,
      TopicAttributes(AccessPolicy.DefaultTopicPolicy(arn, env.cfg.account), Blank, fifo, false, TopicScope,
        map[SignatureVersion := "1", TracingConfig := "PassThrough"]),
      tags, map[], map[], map[])
  }

  ghost function CreateTopic(env: Env, s: StoreState, name: string, attrs: TopicEntries, tags: map<string, string>,
    now: Time, later: Time): Reply<string>
  {
    var fifo := WantsFifo(env.p, attrs);
    if !ValidTopicName(name, fifo) then Fail(s, InvalidParameter)
    else if name in s.topicsByName then Reply(s, Ok(s.topicsByName[name]))
    else
      var topic := NewTopic(env, name, fifo, tags, now);
      if !AcceptsTopicAttributes(env.p, topic.attributes, true, attrs) then Fail(s, InvalidParameter)
      else if |tags| > 50 then Fail(s, TagLimitExceeded)
      else
        var made := topic.(attributes := WithTopicAttributes(env.p, topic.attributes, attrs), updatedAt := later);
        Reply(s.(topics := s.topics[made.arn := made], topicsByName := s.topicsByName[name := made.arn]), Ok(made.arn))
  }

  ghost function SetTopicAttribute(env: Env, s: StoreState, arn: string, auth: Auth, name: TopicAttributeName,
    value: TopicAttribute, now: Time): Reply<()>
  {
    if arn !in s.topics then Fail(s, NotFound)
    else if auth.Some? then Fail(s, auth.value)
    else
      var topic := s.topics[arn];
      if !AcceptsTopicAttribute(env.p, topic.attributes, false, name, value) then Fail(s, InvalidParameter)
      else
        var made :=
          topic.(attributes := WithTopicAttributes(env.p, topic.attributes, map[name := value]), updatedAt := now);
        Reply(s.(topics := s.topics[arn := made]), Ok(()))
  }

  /** What the tag and permission calls do to a topic, once they are allowed. */
  datatype TopicEdit =
    | Tag(tags: map<string, string>)
    | Untag(keys: seq<string>)
    | Permit(sid: string, accounts: seq<string>, actions: seq<string>)
    | Revoke(sid: string)

  function ActionOf(edit: TopicEdit): string {
    match edit
    case Tag(_) => "SNS:TagResource"
    case Untag(_) => "SNS:UntagResource"
    case Permit(_, _, _) => "SNS:AddPermission"
    case Revoke(_) => "SNS:RemovePermission"
  }

  function WithoutTags(tags: map<string, string>, keys: seq<string>): map<string, string> {
    map k | k in tags && k !in keys :: tags[k]
  }

  function WithPolicy(topic: Topic, policy: Text<AccessPolicy.Document>): Topic {
    topic.(attributes := topic.attributes.(policy := policy))
  }

  /** The edited topic; the number of tags is checked without looking which of them are new. */
  function Edited(p: Platform, arn: string, topic: Topic, edit: TopicEdit): Result<Topic, ApiError> {
    match edit
    case Tag(tags) =>
      if |topic.tags| + |tags| > 50 then Err(TagLimitExceeded) else Ok(topic.(tags := topic.tags + tags))
    case Untag(keys) => Ok(topic.(tags := WithoutTags(topic.tags, keys)))
    case Permit(sid, accounts, actions) =>
      var policy := AccessPolicy.AddSpec(p, topic.attributes.policy, sid, accounts, actions, arn);
      if policy.None? then Err(InvalidParameter) else Ok(WithPolicy(topic, policy.value))
    case Revoke(sid) =>
      var policy := AccessPolicy.RemoveSpec(topic.attributes.policy, sid);
      if policy.None? then Err(NotFound) else Ok(WithPolicy(topic, policy.value))
  }

  function EditTopic(p: Platform, s: StoreState, arn: string, auth: Auth, edit: TopicEdit): Reply<()> {
    if arn !in s.topics then Fail(s, NotFound)
    else if auth.Some? then Fail(s, auth.value)
    else
      var edited := Edited(p, arn, s.topics[arn], edit);
      if edited.Err? then Fail(s, edited.error)
      else Reply(s.(topics := s.topics[arn := edited.value]), Ok(()))
  }

  // ---- Subscribing -----------------------------------------------------------------------------------------

  datatype Queue = Queue(region: string, fifo: bool)

  predicate ValidQueue(env: Env, topic: Topic, queue: Option<Queue>) {
    && env.hasSqs && queue.Some? && queue.value.region == env.cfg.region
    && (topic.attributes.fifoTopic || !queue.value.fifo)
  }

  predicate ValidUrl(endpoint: string) {
    HasPrefix(endpoint, "http://") || HasPrefix(endpoint, "https://")
  }

  /** The attributes, and then the queue or the URL, are acceptable. */
  ghost predicate AcceptsSubscription(env: Env, topic: Topic, protocol: Protocol, endpoint: string,
    attrs: SubscriptionEntries, queue: Option<Queue>)
  {
    && AcceptsSubscriptionAttributes(protocol, attrs)
    && (protocol.Sqs? ==> ValidQueue(env, topic, queue))
    && (!protocol.Sqs? && protocol in env.adapters ==> ValidUrl(endpoint))
  }

  const LIST_LIMIT := 10_000

  predicate SameEndpoint(sub: Subscription, protocol: Protocol, endpoint: string) {
    sub.protocol == protocol && sub.endpoint == endpoint
  }

  /**
   The first of the topic's subscriptions, in key order, with this protocol and endpoint; only
   10,000 are looked at.
   */
  function FindExisting(subs: seq<Subscription>, protocol: Protocol, endpoint: string): Option<Subscription> {
    if subs == [] then None
    else if SameEndpoint(subs[0], protocol, endpoint) then Some(subs[0])
    else FindExisting(subs[1..], protocol, endpoint)
  }

  /** `subs` are the records of the first 10,000 of the topic's subscriptions, in the order of their ARNs. */
  ghost predicate Listing(s: StoreState, topicArn: string, keys: seq<string>, subs: seq<Subscription>) {
    && Paging.Lists(keys, StoreSpec.SubsOf(s, topicArn))
    && |subs| == Delivery.Min(|keys|, LIST_LIMIT)
    && forall i :: 0 <= i < |subs| ==> keys[i] in s.subscriptions && subs[i] == s.subscriptions[keys[i]]
  }

  function NewSubscription(topicArn: string, uuid: string, protocol: Protocol, endpoint: string, now: Time):
    Subscription
  {
    Subscription(SubscriptionArn(topicArn, uuid), topicArn, protocol, endpoint, now, now,
      protocol.Sqs?, !protocol.Sqs?, false, false,
      SubscriptionAttributes(Blank, Blank, Filter.MESSAGE_ATTRIBUTES, false, Blank, Blank))
  }

  /** A new subscription with the attributes it was asked for. */
  function MadeSubscription(p: Platform, topicArn: string, topicPolicy: Text<Delivery.TopicPolicy>, uuid: string,
    protocol: Protocol, endpoint: string, attrs: SubscriptionEntries, now: Time): Subscription
  {
    var plain := NewSubscription(topicArn, uuid, protocol, endpoint, now);
    plain.(attributes := WithEffective(WithSubscriptionAttributes(p, plain.attributes, attrs), topicPolicy))
  }

  /** The identifiers and clock readings of one call that issues a token and a job. */
  datatype Ticket = Ticket(uuid: string, token: string, jobId: string, messageId: string, tokenAt: Time, jobAt: Time)

  function ConfirmationJob(topic: Topic, sub: Subscription, kind: JobKind, effective: Delivery.SubscriptionPolicy,
    t: Ticket):
    DeliveryJob
  {
    DeliveryJob(t.jobId, kind,
      Payload(topic.arn, sub.arn, sub.protocol, sub.endpoint, t.messageId, "", t.token, "", "", None),
      Parsed(effective), false, Blank, 0, t.jobAt, "", t.jobAt, t.jobAt)
  }

  function SubscribeTokenFor(sub: Subscription, t: Ticket): ConfirmationToken {
    ConfirmationToken(t.token, sub.arn, sub.topicArn, sub.endpoint, sub.protocol, t.tokenAt + TOKEN_LIFETIME, false,
      SubscribeToken, None)
  }

  datatype Subscribed = PendingConfirmation | Arn(arn: string)

  function ReplyFor(sub: Subscription, returnArn: bool): Subscribed {
    if sub.pendingConfirmation && !returnArn then PendingConfirmation else Arn(sub.arn)
  }

  /** A new subscription is stored; one that has to be confirmed, together with its token and its job. */
  function Stored(s: StoreState, topic: Topic, sub: Subscription, returnArn: bool, t: Ticket): Reply<Subscribed> {
    var added := StoreSpec.CreateSubscription(s, sub);
    if sub.protocol.Sqs? then Reply(added, Ok(ReplyFor(sub, returnArn)))
    else
      var effective := Delivery.EffectivePolicy(topic.attributes.deliveryPolicy, sub.attributes.deliveryPolicy);
      if effective.None? then Fail(s, Internal)
      else
        Reply(StoreSpec.EnqueueJob(StoreSpec.PutToken(added, SubscribeTokenFor(sub, t)),
                ConfirmationJob(topic, sub, SubscriptionConfirmation, effective.value, t)),
              Ok(ReplyFor(sub, returnArn)))
  }

  /** A call of `Subscribe` gets as far as looking for a subscription that is already there. */
  predicate LooksForExisting(s: StoreState, topicArn: string, auth: Auth, protocol: Protocol) {
    && topicArn in s.topics && auth.None? && !protocol.OtherProtocol?
    && (s.topics[topicArn].attributes.fifoTopic ==> protocol.Sqs?)
  }

  ghost function Subscribe(env: Env, s: StoreState, topicArn: string, auth: Auth, protocol: Protocol,
    endpoint: string, attrs: SubscriptionEntries, returnArn: bool, existing: seq<Subscription>, queue: Option<Queue>,
    t: Ticket): Reply<Subscribed>
  {
    if topicArn !in s.topics then Fail(s, NotFound)
    else if auth.Some? then Fail(s, auth.value)
    else if protocol.OtherProtocol? then Fail(s, InvalidParameter)
    else
      var topic := s.topics[topicArn];
      if topic.attributes.fifoTopic && !protocol.Sqs? then Fail(s, InvalidParameter)
      else
        var found := FindExisting(existing, protocol, endpoint);
        if found.Some? then Reply(s, Ok(ReplyFor(found.value, returnArn)))
        else
          if !AcceptsSubscription(env, topic, protocol, endpoint, attrs, queue) then Fail(s, InvalidParameter)
          else
            var topicPolicy := topic.attributes.deliveryPolicy;
            var made := MadeSubscription(env.p, topicArn, topicPolicy, t.uuid, protocol, endpoint, attrs, t.tokenAt);
            Stored(s, topic, made, returnArn, t)
  }

  // ---- Confirming and unsubscribing --------------------------------------------------------------------------

  function Confirmed(sub: Subscription, authenticated: bool): Subscription {
    sub.(pendingConfirmation := false, confirmed := true,
         authenticateOnUnsubscribe := authenticated, confirmationWasAuthenticated := authenticated)
  }

  function Restored(sub: Subscription, authenticate: bool): Subscription {
    sub.(pendingConfirmation := false, confirmed := true, authenticateOnUnsubscribe := authenticate)
  }

  function ConfirmSubscription(s: StoreState, topicArn: string, token: string, authenticated: bool, now: Time):
    Reply<string>
  {
    if token !in s.confirmation then Fail(s, NotFound)
    else
      var record := s.confirmation[token];
      if record.topicArn != topicArn || now > record.expiresAt then Fail(s, InvalidParameter)
      else match record.kind
        case SubscribeToken =>
          if record.subscriptionArn !in s.subscriptions then Fail(s, NotFound)
          else
            var arn := record.subscriptionArn;
            var updated := Confirmed(s.subscriptions[arn], authenticated);
            Reply(StoreSpec.DeleteToken(s.(subscriptions := s.subscriptions[arn := updated]), token), Ok(updated.arn))
        case UnsubscribeToken =>
          if record.restore.None? then Fail(s, Internal)
          else
            var restored := Restored(record.restore.value, record.authenticateOnUnsubscribe);
            Reply(StoreSpec.DeleteToken(StoreSpec.CreateSubscription(s, restored), token), Ok(restored.arn))
        case OtherToken(_) => Fail(s, InvalidParameter)
  }

  function UnsubscribeTokenFor(sub: Subscription, t: Ticket): ConfirmationToken {
    ConfirmationToken(t.token, sub.arn, sub.topicArn, sub.endpoint, sub.protocol, t.tokenAt + TOKEN_LIFETIME,
      sub.authenticateOnUnsubscribe, UnsubscribeToken, Some(sub))
  }

  function Unsubscribe(s: StoreState, arn: string, byOwner: bool, t: Ticket): Reply<()> {
    if arn !in s.subscriptions then Fail(s, NotFound)
    else
      var sub := s.subscriptions[arn];
      if sub.authenticateOnUnsubscribe && !byOwner then Fail(s, Authorization)
      else if sub.topicArn !in s.topics then Fail(s, NotFound)
      else
        var removed := StoreSpec.DeleteSubscription(s, arn).value;
        if !Pushed(sub.protocol) then Reply(removed, Ok(()))
        else
          var topic := s.topics[sub.topicArn];
          var effective := Delivery.EffectivePolicy(topic.attributes.deliveryPolicy, sub.attributes.deliveryPolicy);
          if effective.None? then Fail(s, Internal)
          else
            Reply(StoreSpec.EnqueueJob(StoreSpec.PutToken(removed, UnsubscribeTokenFor(sub, t)),
                    ConfirmationJob(topic, sub, UnsubscribeConfirmation, effective.value, t)), Ok(()))
  }

  ghost function SetSubscriptionAttribute(env: Env, s: StoreState, arn: string, name: SubscriptionAttributeName,
    value: SubscriptionAttribute): Reply<()>
  {
    if arn !in s.subscriptions || s.subscriptions[arn].topicArn !in s.topics then Fail(s, NotFound)
    else
      var sub := s.subscriptions[arn];
      var topic := s.topics[sub.topicArn];
      if !AcceptsSubscriptionAttribute(sub.protocol, name, value) then Fail(s, InvalidParameter)
      else
        var made :=
          WithEffective(WithSubscriptionAttributes(env.p, sub.attributes, map[name := value]),
            topic.attributes.deliveryPolicy);
        Reply(s.(subscriptions := s.subscriptions[arn := sub.(attributes := made)]), Ok(()))
  }

  // ---- Publishing: validation ---------------------------------------------------------------------------------

  predicate ValidFifoIdentifier(v: string) { v != "" && |v| <= 128 }

  predicate ValidAttributes(p: Platform, attrs: map<string, Filter.MessageAttribute>) {
    forall k :: k in attrs ==>
      && !HasPrefix(p.lower(k), "aws.") && !HasPrefix(p.lower(k), "amazon.")
      && attrs[k].dataType in {"String", "String.Array", "Number", "Binary"}
  }

  predicate ValidPublishInput(p: Platform, topic: Topic, input: PublishInput) {
    && 0 < |input.message| <= 262144
    && input.messageStructure in {"", "json"}
    && (input.messageStructure == "json" ==> input.attributes == map[])
    && (topic.attributes.fifoTopic || input.groupId != "" ==> ValidFifoIdentifier(input.groupId))
    && (topic.attributes.fifoTopic && !topic.attributes.contentBasedDeduplication ==>
         ValidFifoIdentifier(input.dedupId))
    && (input.subject != "" ==> |input.subject| < 100 && '\r' !in input.subject && '\n' !in input.subject)
    && ValidAttributes(p, input.attributes)
  }

  /** One message for every protocol, or the string entries of a JSON object that has a default. */
  function ResolveMessages(p: Platform, message: string, structure: string): (r: Option<map<string, string>>)
    ensures r.Some? ==> "default" in r.value
  {
    if structure == "" then Some(map["default" := message])
    else
      match p.decode(message)
      case Some(JObj(m)) =>
        var strings := map k | k in m && m[k].JStr? :: m[k].s;
        if "default" in strings && strings["default"] != "" then Some(strings) else None
      case _ => None
  }

  function ProtocolName(protocol: Protocol): string {
    match protocol
    case Sqs => "sqs"
    case Http => "http"
    case Https => "https"
    case OtherProtocol(text) => text
  }

  function MessageFor(messages: map<string, string>, protocol: Protocol): string
    requires "default" in messages
  {
    var name := ProtocolName(protocol);
    if name in messages && messages[name] != "" then messages[name] else messages["default"]
  }

  // ---- Publishing: deduplication and sequence numbers ---------------------------------------------------------

  /** What one publish reads from outside, before it is dispatched. */
  datatype Arrival = Arrival(messageId: string, checkedAt: Time, recordedAt: Time, nanos: nat)

  function DedupId(p: Platform, topic: Topic, input: PublishInput): string {
    if topic.attributes.fifoTopic && input.dedupId == "" && topic.attributes.contentBasedDeduplication
    then p.sha256(input.message) else input.dedupId
  }

  function DedupKey(topic: Topic, groupId: string, dedupId: string): string {
    (if topic.attributes.throughputScope.GroupScope? then topic.arn + ":" + groupId else topic.arn) + ":" + dedupId
  }

  datatype Admission = Admission(messageId: string, sequenceNumber: nat, deduplicated: bool)

  /** A record that has not expired: a message with this key is a duplicate. */
  predicate Live(topic: Topic, key: string, at: Time) {
    key in topic.dedupRecords && topic.dedupRecords[key].expiresAt > at
  }

  function SequenceOf(topic: Topic, groupId: string): SequenceState {
    if groupId in topic.groupSequences then topic.groupSequences[groupId] else NO_SEQUENCE
  }

  function Admit(topic: Topic, groupId: string, dedupId: string, a: Arrival): Admission {
    var key := DedupKey(topic, groupId, dedupId);
    if Live(topic, key, a.checkedAt) then
      Admission(topic.dedupRecords[key].messageId, topic.dedupRecords[key].sequenceNumber, true)
    else
      Admission(a.messageId, NextSequence(SequenceOf(topic, groupId), a.nanos).1, false)
  }

  /** The topic's record after the message: unchanged by a duplicate. */
  function Admitted(topic: Topic, groupId: string, dedupId: string, a: Arrival): Topic {
    var key := DedupKey(topic, groupId, dedupId);
    if Live(topic, key, a.checkedAt) then topic
    else
      var (next, number) := NextSequence(SequenceOf(topic, groupId), a.nanos);
      topic.(groupSequences := topic.groupSequences[groupId := next],
             dedupRecords := topic.dedupRecords[key := DedupRecord(a.messageId, number, a.recordedAt + DEDUP_WINDOW)])
  }

  type MessageAttributes = map<string, Filter.MessageAttribute>

  /** The subscription's filter lets the message through. */
  ghost predicate FilterSelects(p: Platform, sub: Subscription, message: string, attrs: MessageAttributes) {
    Filter.Selects(p, sub.attributes.filterPolicy, sub.attributes.filterPolicyScope, message, attrs)
  }

  ghost predicate FilterMayFail(p: Platform, sub: Subscription, message: string, attrs: MessageAttributes) {
    Filter.SelectionMayFail(p, sub.attributes.filterPolicy, sub.attributes.filterPolicyScope, message, attrs)
  }

  ghost predicate FilterMustFail(p: Platform, sub: Subscription, message: string, attrs: MessageAttributes) {
    Filter.SelectionMustFail(p, sub.attributes.filterPolicy, sub.attributes.filterPolicyScope, message, attrs)
  }

  ghost predicate CanAnswer(p: Platform, sub: Subscription, message: string, attrs: MessageAttributes,
    x: Filter.Answer)
  {
    Filter.CanAnswer(p, sub.attributes.filterPolicy, sub.attributes.filterPolicyScope, message, attrs, x)
  }

  /** Some order of the filter's keys ends in a match, or not: an evaluation that fails counts as no match. */
  ghost predicate Decides(p: Platform, sub: Subscription, message: string, attrs: MessageAttributes, matched: bool) {
    if matched then CanAnswer(p, sub, message, attrs, Filter.Yes)
    else CanAnswer(p, sub, message, attrs, Filter.No) || CanAnswer(p, sub, message, attrs, Filter.Fails)
  }

  /** When a match, and when none, is a possible answer. */
  lemma DecidesExactly(p: Platform, sub: Subscription, message: string, attrs: MessageAttributes, matched: bool)
    ensures Decides(p, sub, message, attrs, matched) <==>
      if matched then FilterSelects(p, sub, message, attrs) && !FilterMustFail(p, sub, message, attrs)
      else !FilterSelects(p, sub, message, attrs) || FilterMayFail(p, sub, message, attrs)
  {
    hide Filter.Selects, Filter.SelectionMayFail, Filter.SelectionMustFail, Filter.CanAnswer;
    Filter.SelectionDecides(p, sub.attributes.filterPolicy, sub.attributes.filterPolicyScope, message, attrs);
  }

  // ---- Publishing: fan-out --------------------------------------------------------------------------------------

  /**
   Per subscription: whether its filter matched, its job's identifier and time, whether its queue
   accepts the message.
   */
  datatype Fate = Fate(matched: bool, jobId: string, at: Time, accepted: bool)

  /** One message on its way to subscribers. */
  datatype Outgoing = Outgoing(
    topic: Topic, input: PublishInput, messages: map<string, string>, messageId: string, dedupId: string,
    sequenceNumber: Option<nat>)

  datatype SqsDelivery = SqsDelivery(subscriptionArn: string, queue: string, message: string, groupId: string,
    dedupId: string,
    messageId: string, sequenceNumber: Option<nat>)

  datatype Redrive = Redrive(target: string, subscriptionArn: string, messageId: string)

  predicate Selected(sub: Subscription, f: Fate) {
    sub.confirmed && !sub.pendingConfirmation && f.matched
  }

  predicate ToQueue(sub: Subscription, f: Fate) { Selected(sub, f) && sub.protocol.Sqs? }

  predicate ToJob(sub: Subscription, f: Fate) { Selected(sub, f) && !sub.protocol.Sqs? }

  function EffectiveFor(o: Outgoing, sub: Subscription): Option<Delivery.SubscriptionPolicy> {
    Delivery.EffectivePolicy(o.topic.attributes.deliveryPolicy, sub.attributes.deliveryPolicy)
  }

  function JobFor(o: Outgoing, sub: Subscription, f: Fate): DeliveryJob
    requires "default" in o.messages && EffectiveFor(o, sub).Some?
  {
    DeliveryJob(f.jobId, Notification,
      Payload(o.topic.arn, sub.arn, sub.protocol, sub.endpoint, o.messageId, MessageFor(o.messages, sub.protocol), "",
        o.input.groupId, o.dedupId, o.sequenceNumber),
      Parsed(EffectiveFor(o, sub).value), sub.attributes.rawMessageDelivery, sub.attributes.redrivePolicy, 0, f.at, "",
        f.at, f.at)
  }

  function QueueDelivery(o: Outgoing, sub: Subscription): SqsDelivery
    requires "default" in o.messages
  {
    SqsDelivery(sub.arn, sub.endpoint, MessageFor(o.messages, sub.protocol), o.input.groupId, o.dedupId, o.messageId,
      o.sequenceNumber)
  }

  /** The transaction body of a dispatch: the job map after the subscriptions seen so far, or an error. */
  function Enqueued(o: Outgoing, jobs: map<string, DeliveryJob>, subs: seq<Subscription>, fate: string -> Fate):
    Option<map<string, DeliveryJob>>
    requires "default" in o.messages
  {
    if subs == [] then Some(jobs)
    else
      var last := subs[|subs| - 1];
      var before := Enqueued(o, jobs, subs[..|subs| - 1], fate);
      if before.None? || !ToJob(last, fate(last.arn)) then before
      else if EffectiveFor(o, last).None? then None
      else Some(before.value[fate(last.arn).jobId := JobFor(o, last, fate(last.arn))])
  }

  /** The queue deliveries, made after the transaction, in the order of the subscriptions. */
  function Deliveries(o: Outgoing, subs: seq<Subscription>, fate: string -> Fate): seq<SqsDelivery>
    requires "default" in o.messages
  {
    if subs == [] then []
    else
      var last := subs[|subs| - 1];
      Deliveries(o, subs[..|subs| - 1], fate) + if ToQueue(last, fate(last.arn)) then [QueueDelivery(o, last)] else []
  }

  function RedriveOf(env: Env, redrivePolicy: Text<string>, subscriptionArn: string, messageId: string): seq<Redrive> {
    if env.hasSqs && redrivePolicy.Parsed? && redrivePolicy.value != ""
      then [Redrive(redrivePolicy.value, subscriptionArn, messageId)]
    else []
  }

  /** Whether a queue takes the message: raw delivery carries at most ten attributes. */
  predicate Taken(env: Env, input: PublishInput, sub: Subscription, accepted: bool) {
    env.hasSqs && accepted && (sub.attributes.rawMessageDelivery ==> |input.attributes| <= 10)
  }

  /** The dead-letter sends for the queue deliveries that failed. */
  function Redrives(env: Env, o: Outgoing, subs: seq<Subscription>, fate: string -> Fate): seq<Redrive> {
    if subs == [] then []
    else
      var last := subs[|subs| - 1];
      Redrives(env, o, subs[..|subs| - 1], fate) +
      if ToQueue(last, fate(last.arn)) && !Taken(env, o.input, last, fate(last.arn).accepted)
      then RedriveOf(env, last.attributes.redrivePolicy, last.arn, o.messageId) else []
  }

  datatype Dispatched = Dispatched(deliveries: seq<SqsDelivery>, redrives: seq<Redrive>)

  const NOTHING := Dispatched([], [])

  function Dispatch(env: Env, s: StoreState, topic: Topic, input: PublishInput, messageId: string, dedupId: string,
    sequenceNumber: Option<nat>, subs: seq<Subscription>, fate: string -> Fate): Reply<Dispatched>
  {
    var messages := ResolveMessages(env.p, input.message, input.messageStructure);
    if messages.None? then Fail(s, InvalidParameter)
    else
      var o := Outgoing(topic, input, messages.value, messageId, dedupId, sequenceNumber);
      var jobs := Enqueued(o, s.deliveryJobs, subs, fate);
      if jobs.None? then Fail(s, Internal)
      else Reply(s.(deliveryJobs := jobs.value),
        Ok(Dispatched(Deliveries(o, subs, fate), Redrives(env, o, subs, fate))))
  }

  datatype PublishOutput = PublishOutput(
    messageId: string, sequenceNumber: Option<nat>, deduplicated: bool, sent: Dispatched)

  /** The last part of `Publish`: dispatch unless it is a duplicate. */
  function Finish(env: Env, s: StoreState, topic: Topic, input: PublishInput, messageId: string,
    sequenceNumber: Option<nat>, subs: seq<Subscription>, fate: string -> Fate): Reply<PublishOutput>
  {
    var d := Dispatch(env, s, topic, input, messageId, DedupId(env.p, topic, input), sequenceNumber, subs, fate);
    if d.result.Err? then Fail(d.store, d.result.error)
    else Reply(d.store, Ok(PublishOutput(messageId, sequenceNumber, false, d.result.value)))
  }

  function Publish(env: Env, s: StoreState, auth: Auth, input: PublishInput, a: Arrival, subs: seq<Subscription>,
    fate: string -> Fate): Reply<PublishOutput>
  {
    if input.topicArn !in s.topics then Fail(s, NotFound)
    else if auth.Some? then Fail(s, auth.value)
    else
      var topic := s.topics[input.topicArn];
      if !ValidPublishInput(env.p, topic, input) then Fail(s, InvalidParameter)
      else if !topic.attributes.fifoTopic then Finish(env, s, topic, input, a.messageId, None, subs, fate)
      else
        var dedupId := DedupId(env.p, topic, input);
        var admission := Admit(topic, input.groupId, dedupId, a);
        var admitted := Admitted(topic, input.groupId, dedupId, a);
        var s' := s.(topics := s.topics[input.topicArn := admitted]);
        if admission.deduplicated then
          Reply(s', Ok(PublishOutput(admission.messageId, Some(admission.sequenceNumber), true, NOTHING)))
        else Finish(env, s', admitted, input, admission.messageId, Some(admission.sequenceNumber), subs, fate)
  }

  /** Every listed subscription got a possible answer of the filter evaluator for the published message. */
  ghost predicate Filtered(p: Platform, input: PublishInput, subs: seq<Subscription>, fate: string -> Fate) {
    var messages := ResolveMessages(p, input.message, input.messageStructure);
    messages.Some? ==> forall i :: 0 <= i < |subs| && subs[i].confirmed && !subs[i].pendingConfirmation ==>
      Decides(p, subs[i], messages.value["default"], input.attributes, fate(subs[i].arn).matched)
  }

  /** No listed subscription is taken for one that the filter selects when it is not. */
  ghost predicate OnlySelected(p: Platform, input: PublishInput, subs: seq<Subscription>, fate: string -> Fate) {
    var messages := ResolveMessages(p, input.message, input.messageStructure);
    messages.Some? ==> forall i :: 0 <= i < |subs| && fate(subs[i].arn).matched ==>
      && subs[i].confirmed && !subs[i].pendingConfirmation
      && FilterSelects(p, subs[i], messages.value["default"], input.attributes)
  }

  /** A publish gets as far as dispatching its message. */
  predicate Dispatches(env: Env, s: StoreState, auth: Auth, input: PublishInput, a: Arrival) {
    && input.topicArn in s.topics && auth.None?
    && var topic := s.topics[input.topicArn];
       && ValidPublishInput(env.p, topic, input)
       && !(topic.attributes.fifoTopic && Admit(topic, input.groupId, DedupId(env.p, topic, input), a).deduplicated)
       && ResolveMessages(env.p, input.message, input.messageStructure).Some?
  }

  // ---- The delivery worker ------------------------------------------------------------------------------------------

  datatype Outcome = Success | Retryable | Final

  const RETRY_WITHOUT_ADAPTER := 5 * SECOND

  /** The schedule the worker follows for a job; an unreadable policy counts as the default one. */
  function Delays(job: DeliveryJob): seq<int> {
    var policy := Delivery.ParseSubscriptionPolicy(job.effectivePolicy);
    var delays := Delivery.RetryDelaysSpec((if policy.Some? then policy.value else Delivery.DEFAULT_POLICY).retry);
    if delays.Ok? then delays.value else []
  }

  function Rescheduled(job: DeliveryJob, delay: int, error: string, at: Time, later: Time): DeliveryJob {
    job.(attemptCount := job.attemptCount + 1, lastError := error, nextAttemptAt := at + delay, updatedAt := later)
  }

  /** What happens to a job that the worker takes up, and the dead-letter sends. */
  datatype Verdict = Delivered | GivenUp(redrives: seq<Redrive>) | RetryIn(delay: int)

  function Judge(env: Env, job: DeliveryJob, outcome: Outcome): Verdict {
    if job.payload.protocol !in env.adapters then RetryIn(RETRY_WITHOUT_ADAPTER)
    else if outcome.Success? then Delivered
    else if outcome.Final? || job.attemptCount >= |Delays(job)| then
      GivenUp(if job.kind.Notification? then
                RedriveOf(env, job.redrivePolicy, job.payload.subscriptionArn, job.payload.messageId)
              else [])
    else RetryIn(Delays(job)[job.attemptCount])
  }

  /** `processDeliveryJob` on the worker's copy `job` of a listed job. */
  function ProcessJob(env: Env, s: StoreState, job: DeliveryJob, outcome: Outcome, error: string, at: Time,
    later: Time): StoreState {
    match Judge(env, job, outcome)
    case Delivered => StoreSpec.DeleteJob(s, job.id)
    case GivenUp(_) => StoreSpec.DeleteJob(s, job.id)
    case RetryIn(delay) =>
      if job.id !in s.deliveryJobs then s
      else s.(deliveryJobs := s.deliveryJobs[job.id := Rescheduled(s.deliveryJobs[job.id], delay, error, at, later)])
  }

  /** What the worker reads from outside while it handles one job. */
  datatype Handling = Handling(outcome: Outcome, error: string, at: Time, later: Time)

  /** `processReadyDeliveryJobs` on the jobs it listed, one after another. */
  function ProcessAll(env: Env, s: StoreState, jobs: seq<DeliveryJob>, handle: string -> Handling): StoreState {
    if jobs == [] then s
    else
      var last := jobs[|jobs| - 1];
      var h := handle(last.id);
      ProcessJob(env, ProcessAll(env, s, jobs[..|jobs| - 1], handle), last, h.outcome, h.error, h.at, h.later)
  }

  /** The dead-letter sends of `processReadyDeliveryJobs`. */
  function RedrivesOfAll(env: Env, jobs: seq<DeliveryJob>, handle: string -> Handling): seq<Redrive> {
    if jobs == [] then []
    else
      var last := jobs[|jobs| - 1];
      RedrivesOfAll(env, jobs[..|jobs| - 1], handle) + VerdictRedrives(Judge(env, last, handle(last.id).outcome))
  }

  function VerdictRedrives(v: Verdict): seq<Redrive> {
    match v
    case GivenUp(redrives) => redrives
    case _ => []
  }

  // ---- Batches --------------------------------------------------------------------------------------------

  datatype BatchEntry = BatchEntry(id: string, input: PublishInput)

  function TotalLength(entries: seq<BatchEntry>): nat {
    if entries == [] then 0 else TotalLength(entries[..|entries| - 1]) + |entries[|entries| - 1].input.message|
  }

  predicate DistinctIds(entries: seq<BatchEntry>) {
    forall i, j :: 0 <= i < j < |entries| ==> entries[i].id != entries[j].id
  }

  /** Why a batch is refused as a whole. */
  ghost function BatchError(entries: seq<BatchEntry>): Option<ApiError> {
    if entries == [] then Some(EmptyBatch)
    else if |entries| > 10 then Some(TooManyEntries)
    else if !DistinctIds(entries) then Some(EntryIdsNotDistinct)
    else if TotalLength(entries) > 262144 then Some(BatchTooLong)
    else None
  }

  /** One entry's publish: its outcome of authorization, its readings, its subscriptions and their fates. */
  datatype Publication = Publication(
    auth: Auth, input: PublishInput, arrival: Arrival, keys: seq<string>, subs: seq<Subscription>, fate: string -> Fate)

  function Published(env: Env, s: StoreState, p: Publication): Reply<PublishOutput> {
    Publish(env, s, p.auth, p.input, p.arrival, p.subs, p.fate)
  }

  /** The store after publishing one entry after another. */
  function PublishedAll(env: Env, s: StoreState, ps: seq<Publication>): StoreState {
    if ps == [] then s else Published(env, PublishedAll(env, s, ps[..|ps| - 1]), ps[|ps| - 1]).store
  }

  datatype BatchResults = BatchResults(successes: seq<(string, PublishOutput)>, failures: seq<(string, ApiError)>)

  /** The replies of the entries in order, sorted into successes and failures. */
  ghost function ResultsOf(env: Env, s: StoreState, entries: seq<BatchEntry>, ps: seq<Publication>): BatchResults
    requires |entries| == |ps|
  {
    if ps == [] then BatchResults([], [])
    else
      var n := |ps| - 1;
      var before := ResultsOf(env, s, entries[..n], ps[..n]);
      match Published(env, PublishedAll(env, s, ps[..n]), ps[n]).result
      case Ok(out) => before.(successes := before.successes + [(entries[n].id, out)])
      case Err(e) => before.(failures := before.failures + [(entries[n].id, e)])
  }
}
