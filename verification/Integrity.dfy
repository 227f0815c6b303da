/**
 What every reachable store has in common: exact indexes, no dangling references, tokens in step
 with subscriptions, FIFO topics that stay FIFO, and policies that can be read back.
 */
module Integrity {
  import opened Domain
  import opened ServiceSpec
  import Filter
  import StoreSpec

  // ---- The invariant -------------------------------------------------------------------------------------

  /** Every subscription, token and job refers to an existing topic. */
  ghost predicate Linked(s: StoreState) {
    && (forall a :: a in s.subscriptions ==> s.subscriptions[a].topicArn in s.topics)
    && (forall t :: t in s.confirmation ==> s.confirmation[t].topicArn in s.topics)
    && (forall j :: j in s.deliveryJobs ==> s.deliveryJobs[j].payload.topicArn in s.topics)
  }

  /** A subscription is confirmed or pending, never both. */
  predicate Settled(sub: Subscription) { sub.confirmed != sub.pendingConfirmation }

  type Subscriptions = map<string, Subscription>
  type Tokens = map<string, ConfirmationToken>

  /** A "subscribe" token names a pending subscription, an "unsubscribe" token one that is gone and can be restored. */
  predicate TokenFits(subs: Subscriptions, token: ConfirmationToken) {
    && token.topicArn == TopicOf(token.subscriptionArn)
    && match token.kind
       case SubscribeToken => token.subscriptionArn in subs && subs[token.subscriptionArn].pendingConfirmation
       case UnsubscribeToken =>
         && token.subscriptionArn !in subs
         && token.restore.Some? && token.restore.value.arn == token.subscriptionArn
         && token.restore.value.topicArn == token.topicArn
         && Pushed(token.restore.value.protocol) && Settled(token.restore.value)
       case OtherToken(_) => false
  }

  predicate Names(tokens: Tokens, t: string, subscriptionArn: string) {
    t in tokens && tokens[t].subscriptionArn == subscriptionArn
  }

  /** "subscribe" tokens and pending subscriptions are in one-to-one correspondence; no subscription has two tokens. */
  ghost predicate Match(subs: Subscriptions, tokens: Tokens) {
    && (forall a :: a in subs ==> Settled(subs[a]))
    && (forall t :: t in tokens ==> TokenFits(subs, tokens[t]))
    && (forall a :: a in subs && subs[a].pendingConfirmation ==> exists t :: Names(tokens, t, a))
    && (forall t, u, a :: Names(tokens, t, a) && Names(tokens, u, a) ==> t == u)
  }

  ghost predicate TokensMatch(s: StoreState) { Match(s.subscriptions, s.confirmation) }

  predicate FifoTopicAt(s: StoreState, arn: string) { arn in s.topics && s.topics[arn].attributes.fifoTopic }

  ghost predicate FifoNames(s: StoreState) {
    forall a :: a in s.topics ==>
      && s.topics[a].attributes.fifoTopic == IsFifoName(s.topics[a].name)
      && !s.topics[a].attributes.throughputScope.OtherScope?
  }

  ghost predicate FifoSubscribers(s: StoreState) {
    && (forall a :: a in s.subscriptions ==>
          && !s.subscriptions[a].protocol.OtherProtocol?
          && (FifoTopicAt(s, s.subscriptions[a].topicArn) ==> s.subscriptions[a].protocol.Sqs?))
    && (forall t :: t in s.confirmation ==> !FifoTopicAt(s, s.confirmation[t].topicArn))
  }

  /** A topic is FIFO exactly when its name says so, and then only queues subscribe to it, now or after a restore. */
  ghost predicate FifoByName(s: StoreState) { FifoNames(s) && FifoSubscribers(s) }

  function UuidOf(subscriptionArn: string): string {
    if |subscriptionArn| < UUID_LENGTH then "" else subscriptionArn[|subscriptionArn| - UUID_LENGTH..]
  }

  /** Everything that lives in the store was given an identifier that will not be given again. */
  ghost predicate IdsUsed(used: set<string>, s: StoreState) {
    && (forall a :: a in s.subscriptions ==> UuidOf(a) in used)
    && (forall t :: t in s.confirmation ==> t in used && UuidOf(s.confirmation[t].subscriptionArn) in used)
    && (forall j :: j in s.deliveryJobs ==> j in used)
  }

  ghost predicate ReadableTopic(topic: Topic) {
    !topic.attributes.policy.Malformed? && !topic.attributes.deliveryPolicy.Malformed?
  }

  ghost predicate ReadableAttributes(a: SubscriptionAttributes) {
    && !a.deliveryPolicy.Malformed?
    && !a.filterPolicy.Malformed?
    && (a.filterPolicy.Parsed? ==> Filter.ValidObject(a.filterPolicy.value))
    && a.filterPolicyScope in {Filter.MESSAGE_ATTRIBUTES, Filter.MESSAGE_BODY}
  }

  ghost predicate ReadableSubscription(sub: Subscription) { ReadableAttributes(sub.attributes) }

  /** Stored policies were validated, so none of them fails to parse later. */
  ghost predicate Readable(s: StoreState) {
    && (forall a :: a in s.topics ==> ReadableTopic(s.topics[a]))
    && (forall a :: a in s.subscriptions ==> ReadableSubscription(s.subscriptions[a]))
    && (forall t :: t in s.confirmation && s.confirmation[t].restore.Some? ==>
          ReadableSubscription(s.confirmation[t].restore.value))
  }

  /** All of the invariant but the correspondence of tokens and subscriptions. */
  ghost predicate Base(env: Env, used: set<string>, s: StoreState) {
    StoreSpec.Indexed(env.cfg, s) && Linked(s) && FifoByName(s) && IdsUsed(used, s) && Readable(s)
  }

  ghost predicate Good(env: Env, used: set<string>, s: StoreState) {
    Base(env, used, s) && TokensMatch(s)
  }

  // ---- One store operation at a time -------------------------------------------------------------------------

  ghost predicate FitsLinks(s: StoreState, op: StoreSpec.Op) {
    match op
    case OpCreateSubscription(sub) => sub.topicArn in s.topics
    case OpPutSubscription(_, updated) => updated.Ok? ==> updated.value.topicArn in s.topics
    case OpPutToken(token) => token.topicArn in s.topics
    case OpEnqueueJob(job) => job.payload.topicArn in s.topics
    case OpPutJob(_, updated) => updated.payload.topicArn in s.topics
    case _ => true
  }

  lemma ApplyKeepsLinks(s: StoreState, op: StoreSpec.Op)
    requires Linked(s) && FitsLinks(s, op) && StoreSpec.Apply(s, op).Ok? && StoreSpec.SubscriptionsIndexed(s)
    ensures Linked(StoreSpec.Apply(s, op).value)
  {
    match op
    case OpDeleteTopic(arn) =>
      assert forall a :: a in StoreSpec.SubsOf(s, arn) <==> a in s.subscriptions && s.subscriptions[a].topicArn == arn;
    case _ =>
  }

  ghost predicate FitsFifo(s: StoreState, op: StoreSpec.Op) {
    match op
    case OpCreateTopic(topic) =>
      && topic.attributes.fifoTopic == IsFifoName(topic.name) && !topic.attributes.throughputScope.OtherScope?
      && topic.arn !in s.topics
    case OpPutTopic(arn, updated) => updated.Ok? && arn in s.topics ==>
      && updated.value.name == s.topics[arn].name
      && updated.value.attributes.fifoTopic == s.topics[arn].attributes.fifoTopic
      && !updated.value.attributes.throughputScope.OtherScope?
    case OpCreateSubscription(sub) =>
      !sub.protocol.OtherProtocol? && (FifoTopicAt(s, sub.topicArn) ==> sub.protocol.Sqs?)
    case OpPutSubscription(arn, updated) => updated.Ok? && arn in s.subscriptions ==>
      updated.value.topicArn == s.subscriptions[arn].topicArn && updated.value.protocol == s.subscriptions[arn].protocol
    case OpPutToken(token) => !FifoTopicAt(s, token.topicArn)
    case _ => true
  }

  lemma ApplyKeepsFifoNames(s: StoreState, op: StoreSpec.Op)
    requires FifoNames(s) && FitsFifo(s, op) && StoreSpec.Apply(s, op).Ok?
    ensures FifoNames(StoreSpec.Apply(s, op).value)
    ensures forall a :: a in s.topics && FifoTopicAt(StoreSpec.Apply(s, op).value, a) ==> FifoTopicAt(s, a)
  {
    hide IsFifoName;
  }

  lemma ApplyKeepsFifo(s: StoreState, op: StoreSpec.Op)
    requires FifoByName(s) && Linked(s) && FitsFifo(s, op) && StoreSpec.Apply(s, op).Ok?
    ensures FifoByName(StoreSpec.Apply(s, op).value)
  {
    hide FifoNames, FifoTopicAt;
    ApplyKeepsFifoNames(s, op);
    var s' := StoreSpec.Apply(s, op).value;
    FifoNeedsTopic(s, s');
  }

  lemma FifoNeedsTopic(s: StoreState, s': StoreState)
    ensures forall a :: FifoTopicAt(s', a) ==> a in s'.topics
    ensures s'.topics == s.topics ==> forall a :: FifoTopicAt(s', a) <==> FifoTopicAt(s, a)
  {
  }

  ghost predicate FitsIds(used: set<string>, op: StoreSpec.Op) {
    match op
    case OpCreateSubscription(sub) => UuidOf(sub.arn) in used
    case OpPutToken(token) => token.token in used && UuidOf(token.subscriptionArn) in used
    case OpEnqueueJob(job) => job.id in used
    case _ => true
  }

  lemma ApplyKeepsIds(used: set<string>, s: StoreState, op: StoreSpec.Op)
    requires IdsUsed(used, s) && FitsIds(used, op) && StoreSpec.Apply(s, op).Ok?
    ensures IdsUsed(used, StoreSpec.Apply(s, op).value)
  {
    hide UuidOf;
  }

  ghost predicate FitsReading(op: StoreSpec.Op) {
    match op
    case OpCreateTopic(topic) => ReadableTopic(topic)
    case OpPutTopic(_, updated) => updated.Ok? ==> ReadableTopic(updated.value)
    case OpCreateSubscription(sub) => ReadableSubscription(sub)
    case OpPutSubscription(_, updated) => updated.Ok? ==> ReadableSubscription(updated.value)
    case OpPutToken(token) => token.restore.Some? ==> ReadableSubscription(token.restore.value)
    case _ => true
  }

  lemma ApplyKeepsReading(s: StoreState, op: StoreSpec.Op)
    requires Readable(s) && FitsReading(op) && StoreSpec.Apply(s, op).Ok?
    ensures Readable(StoreSpec.Apply(s, op).value)
  {
    hide ReadableTopic, ReadableSubscription;
  }

  ghost predicate Fits(env: Env, used: set<string>, s: StoreState, op: StoreSpec.Op) {
    && StoreSpec.Apply(s, op).Ok?
    && StoreSpec.Admissible(env.cfg, op) && FitsLinks(s, op) && FitsFifo(s, op) && FitsIds(used, op) && FitsReading(op)
  }

  lemma ApplyKeepsBase(env: Env, used: set<string>, s: StoreState, op: StoreSpec.Op)
    requires Base(env, used, s) && Fits(env, used, s, op)
    ensures Base(env, used, StoreSpec.Apply(s, op).value)
  {
    hide StoreSpec.Apply, StoreSpec.Admissible, Linked, FifoByName, IdsUsed, Readable, FitsLinks, FitsFifo, FitsIds,
      FitsReading, StoreSpec.TopicsIndexed, StoreSpec.SubscriptionsIndexed, StoreSpec.RecordsKeyed;
    StoreSpec.ApplyKeepsIndexes(env.cfg, s, op);
    ApplyKeepsLinks(s, op);
    ApplyKeepsFifo(s, op);
    ApplyKeepsIds(used, s, op);
    ApplyKeepsReading(s, op);
  }

  // ---- Tokens and subscriptions, one call at a time ------------------------------------------------------------

  lemma MatchAddConfirmed(subs: Subscriptions, tokens: Tokens, sub: Subscription)
    requires Match(subs, tokens) && sub.arn !in subs && Settled(sub) && sub.confirmed
    requires forall t :: !Names(tokens, t, sub.arn)
    ensures Match(subs[sub.arn := sub], tokens)
  {
    hide TopicOf;
    assert forall t :: t in tokens ==> Names(tokens, t, tokens[t].subscriptionArn);
  }

  lemma MatchAddPending(subs: Subscriptions, tokens: Tokens, sub: Subscription, token: ConfirmationToken)
    requires Match(subs, tokens) && sub.arn !in subs && Settled(sub) && sub.pendingConfirmation
    requires forall t :: !Names(tokens, t, sub.arn)
    requires token.token !in tokens && token.subscriptionArn == sub.arn
    requires token.kind.SubscribeToken? && token.topicArn == TopicOf(sub.arn)
    ensures Match(subs[sub.arn := sub], tokens[token.token := token])
  {
    hide TopicOf;
    var subs', tokens' := subs[sub.arn := sub], tokens[token.token := token];
    assert forall t :: t in tokens ==> Names(tokens, t, tokens[t].subscriptionArn);
    assert Names(tokens', token.token, sub.arn);
    assert forall t, a :: Names(tokens', t, a) <==> Names(tokens, t, a) || (t == token.token && a == sub.arn);
  }

  function DropToken(tokens: Tokens, t: string): Tokens { StoreSpec.Drop(tokens, {t}) }

  /** Using a "subscribe" token. */
  lemma MatchConfirm(subs: Subscriptions, tokens: Tokens, t: string, sub: Subscription)
    requires Match(subs, tokens) && t in tokens && tokens[t].kind.SubscribeToken?
    requires Settled(sub) && sub.confirmed
    ensures Match(subs[tokens[t].subscriptionArn := sub], DropToken(tokens, t))
  {
    hide TopicOf;
    var arn := tokens[t].subscriptionArn;
    assert Names(tokens, t, arn);
    assert forall u :: u in tokens ==> Names(tokens, u, tokens[u].subscriptionArn);
    assert forall u, a :: Names(DropToken(tokens, t), u, a) <==> Names(tokens, u, a) && u != t;
  }

  /** Using an "unsubscribe" token. */
  lemma MatchRestore(subs: Subscriptions, tokens: Tokens, t: string, sub: Subscription)
    requires Match(subs, tokens) && t in tokens && tokens[t].kind.UnsubscribeToken?
    requires Settled(sub) && sub.confirmed && sub.arn == tokens[t].subscriptionArn
    ensures Match(subs[sub.arn := sub], DropToken(tokens, t))
  {
    hide TopicOf;
    assert Names(tokens, t, sub.arn);
    assert forall u :: u in tokens ==> Names(tokens, u, tokens[u].subscriptionArn);
    assert forall u, a :: Names(DropToken(tokens, t), u, a) <==> Names(tokens, u, a) && u != t;
  }

  function TokensNaming(tokens: Tokens, arn: string): set<string> {
    set t | t in tokens && tokens[t].subscriptionArn == arn
  }

  lemma MatchRemove(subs: Subscriptions, tokens: Tokens, arn: string)
    requires Match(subs, tokens)
    ensures Match(StoreSpec.Drop(subs, {arn}), StoreSpec.Drop(tokens, TokensNaming(tokens, arn)))
    ensures forall t :: !Names(StoreSpec.Drop(tokens, TokensNaming(tokens, arn)), t, arn)
  {
    hide TopicOf;
    var tokens' := StoreSpec.Drop(tokens, TokensNaming(tokens, arn));
    assert forall t, a :: Names(tokens', t, a) <==> Names(tokens, t, a) && a != arn;
  }

  /** Removing a pushed subscription leaves a token to restore it. */
  lemma MatchUnsubscribe(subs: Subscriptions, tokens: Tokens, token: ConfirmationToken)
    requires Match(subs, tokens) && token.token !in tokens
    requires TokenFits(subs, token) && token.kind.UnsubscribeToken?
    requires forall t :: !Names(tokens, t, token.subscriptionArn)
    ensures Match(subs, tokens[token.token := token])
  {
    hide TopicOf;
    var tokens' := tokens[token.token := token];
    assert forall t, a :: Names(tokens', t, a) <==>
      Names(tokens, t, a) || (t == token.token && a == token.subscriptionArn);
  }

  /** An update that keeps the flags. */
  lemma MatchReplace(subs: Subscriptions, tokens: Tokens, arn: string, sub: Subscription)
    requires Match(subs, tokens) && arn in subs
    requires sub.confirmed == subs[arn].confirmed && sub.pendingConfirmation == subs[arn].pendingConfirmation
    ensures Match(subs[arn := sub], tokens)
  {
    hide TopicOf;
  }

  /** Deleting a topic takes its subscriptions and its tokens away together. */
  lemma MatchRemoveTopic(subs: Subscriptions, tokens: Tokens, goneSubs: set<string>, goneTokens: set<string>,
    arn: string)
    requires Match(subs, tokens)
    requires forall a :: a in subs ==> (a in goneSubs <==> TopicOf(a) == arn)
    requires forall t :: t in tokens ==> (t in goneTokens <==> tokens[t].topicArn == arn)
    ensures Match(StoreSpec.Drop(subs, goneSubs), StoreSpec.Drop(tokens, goneTokens))
  {
    hide TopicOf;
    var tokens' := StoreSpec.Drop(tokens, goneTokens);
    assert forall t, a :: Names(tokens', t, a) <==> Names(tokens, t, a) && t !in goneTokens;
    forall a | a in StoreSpec.Drop(subs, goneSubs) && subs[a].pendingConfirmation
      ensures exists t :: Names(tokens', t, a)
    {
      var t :| Names(tokens, t, a);
      assert Names(tokens', t, a);
    }
  }
}
