/** The entities of the emulator (internal/domain/types.go), as values. */
module Domain {
  import opened Common
  import opened Json
  import AccessPolicy
  import Delivery
  import Filter

  /** Instants and durations, in nanoseconds. */
  type Time = int

  const SECOND := 1_000_000_000
  const DEDUP_WINDOW := 300 * SECOND
  const TOKEN_LIFETIME := 172_800 * SECOND

  // The fixed vocabularies of the API, each with a case for any other text.

  datatype Protocol = Sqs | Http | Https | OtherProtocol(text: string)

  /** The protocols whose messages are pushed by the delivery worker. */
  predicate Pushed(protocol: Protocol) { protocol.Http? || protocol.Https? }

  datatype Scope = TopicScope | GroupScope | OtherScope(text: string)

  datatype TokenKind = SubscribeToken | UnsubscribeToken | OtherToken(text: string)

  datatype JobKind = Notification | SubscriptionConfirmation | UnsubscribeConfirmation

  datatype TopicAttributeName =
    | Policy | DeliveryPolicy | FifoTopic | ContentBasedDeduplication | FifoThroughputScope
    | ArchivePolicy | SignatureVersion | TracingConfig | DisplayName
    | Unsupported(name: string)       // the KMS key and the feedback settings, stored and read back
    | UnknownTopicAttribute(name: string)

  datatype SubscriptionAttributeName =
    | SubDeliveryPolicy | FilterPolicy | FilterPolicyScope | RawMessageDelivery | RedrivePolicy
    | UnknownSubscriptionAttribute(name: string)

  datatype Config = Config(region: string, account: string)

  function TopicArn(cfg: Config, name: string): string {
    "arn:aws:sns:" + cfg.region + ":" + cfg.account + ":" + name
  }

  lemma TopicArnInjective(cfg: Config, a: string, b: string)
    requires TopicArn(cfg, a) == TopicArn(cfg, b)
    ensures a == b
  {
    var prefix := "arn:aws:sns:" + cfg.region + ":" + cfg.account + ":";
    assert TopicArn(cfg, a) == prefix + a && TopicArn(cfg, b) == prefix + b;
    assert a == (prefix + a)[|prefix|..] && b == (prefix + b)[|prefix|..];
  }

  /** `util.UUID` always returns this many characters. */
  const UUID_LENGTH := 36

  function SubscriptionArn(topicArn: string, uuid: string): string {
    topicArn + ":" + uuid
  }

  /** The topic a subscription ARN belongs to: all but the colon and the UUID. */
  function TopicOf(subscriptionArn: string): string {
    if |subscriptionArn| <= UUID_LENGTH then "" else subscriptionArn[..|subscriptionArn| - UUID_LENGTH - 1]
  }

  lemma TopicOfSubscription(topicArn: string, uuid: string)
    requires |uuid| == UUID_LENGTH
    ensures TopicOf(SubscriptionArn(topicArn, uuid)) == topicArn
  {
  }

  // ---- Topics ---------------------------------------------------------------------------------------

  const TWO64 := 0x1_0000_0000_0000_0000

  /** The prefix is unset until the group's first message; the counter is a 64-bit unsigned integer. */
  datatype SequenceState = SequenceState(prefix: Option<nat>, counter: nat)

  const NO_SEQUENCE := SequenceState(None, 0)

  /** `NextSequence`; `nanos` is what the wall clock would give for a new prefix. */
  function NextSequence(state: SequenceState, nanos: nat): (SequenceState, nat) {
    var prefix := if state.prefix.Some? then state.prefix.value else nanos;
    var counter := (state.counter + 1) % TWO64;
    (SequenceState(Some(prefix), counter), prefix * TWO64 + counter)
  }

  datatype DedupRecord = DedupRecord(messageId: string, sequenceNumber: nat, expiresAt: Time)

  datatype TopicAttributes = TopicAttributes(
    policy: Text<AccessPolicy.Document>,
    deliveryPolicy: Text<Delivery.TopicPolicy>,
    fifoTopic: bool,
    contentBasedDeduplication: bool,
    throughputScope: Scope,
    plain: map<TopicAttributeName, string>)

  datatype Topic = Topic(
    arn: string, name: string, createdAt: Time, updatedAt: Time, attributes: TopicAttributes,
    tags: map<string, string>,
    groupSequences: map<string, SequenceState>,
    dedupRecords: map<string, DedupRecord>,
    subscriptions: map<string, ()>)          // copied with the record, and never filled

  // ---- Subscriptions and tokens ------------------------------------------------------------------------

  datatype SubscriptionAttributes = SubscriptionAttributes(
    deliveryPolicy: Text<Delivery.SubscriptionPolicy>,
    filterPolicy: Text<map<string, JSON>>,
    filterPolicyScope: string,
    rawMessageDelivery: bool,
    redrivePolicy: Text<string>,
    effectiveDeliveryPolicy: Text<Delivery.SubscriptionPolicy>)

  datatype Subscription = Subscription(
    arn: string, topicArn: string, protocol: Protocol, endpoint: string, createdAt: Time, updatedAt: Time,
    confirmed: bool, pendingConfirmation: bool,
    confirmationWasAuthenticated: bool, authenticateOnUnsubscribe: bool,
    attributes: SubscriptionAttributes)

  datatype ConfirmationToken = ConfirmationToken(
    token: string, subscriptionArn: string, topicArn: string, endpoint: string, protocol: Protocol,
    expiresAt: Time, authenticateOnUnsubscribe: bool, kind: TokenKind, restore: Option<Subscription>)

  // ---- Delivery jobs --------------------------------------------------------------------------------------

  datatype Payload = Payload(
    topicArn: string, subscriptionArn: string, protocol: Protocol, endpoint: string,
    messageId: string, protocolMessage: string, token: string, groupId: string, dedupId: string,
    sequenceNumber: Option<nat>)

  datatype DeliveryJob = DeliveryJob(
    id: string, kind: JobKind, payload: Payload, effectivePolicy: Text<Delivery.SubscriptionPolicy>, raw: bool,
    redrivePolicy: Text<string>, attemptCount: nat, nextAttemptAt: Time, lastError: string,
    createdAt: Time, updatedAt: Time)

  // ---- Publishing -------------------------------------------------------------------------------------------

  datatype PublishInput = PublishInput(
    topicArn: string, message: string, subject: string, messageStructure: string,
    attributes: map<string, Filter.MessageAttribute>, groupId: string, dedupId: string)

  /**
   The number is the prefix of the topic's group and its counter side by side; both can be read back. The
   first message sets the prefix for good, and each message counts one up, modulo 2^64.
   */
  lemma SequenceNumberParts(state: SequenceState, nanos: nat)
    ensures var (next, number) := NextSequence(state, nanos);
      && next.prefix == Some(if state.prefix == None then nanos else state.prefix.value)
      && number / 0x1_0000_0000_0000_0000 == next.prefix.value
      && number % 0x1_0000_0000_0000_0000 == next.counter
      && (state.counter < 0xFFFF_FFFF_FFFF_FFFF ==> next.counter == state.counter + 1)
      && (state.counter == 0xFFFF_FFFF_FFFF_FFFF ==> next.counter == 0)
  {
    var (next, number) := NextSequence(state, nanos);
    SplitNumber(next.prefix.value, next.counter);
  }

  lemma SplitNumber(prefix: nat, counter: nat)
    requires counter < TWO64
    ensures (prefix * TWO64 + counter) / TWO64 == prefix
    ensures (prefix * TWO64 + counter) % TWO64 == counter
  {
  }
}
