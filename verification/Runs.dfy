/**
 Runs of the service with atomic calls: one call, or one step of the delivery worker, after
 another. The worker lists a batch of ready jobs and then takes its copies up one by one, with
 calls in between; there is one worker.
 */
module Runs {
  import opened Common
  import opened Domain
  import opened Attributes
  import opened ServiceSpec
  import StoreSpec

  /** The store, the latest clock reading, every identifier handed out so far, and the worker's batch. */
  datatype World = World(store: StoreState, now: Time, used: set<string>, batch: seq<DeliveryJob>)

  const START := World(StoreSpec.EMPTY, 0, {}, [])

  datatype Action =
    | CreateTopic(name: string, attrs: TopicEntries, tags: map<string, string>, createdAt: Time, updatedAt: Time)
    | DeleteTopic(arn: string)
    | SetTopicAttribute(arn: string, auth: Auth, attribute: TopicAttributeName, value: TopicAttribute, updatedAt: Time)
    | EditTopic(arn: string, auth: Auth, edit: TopicEdit)
    | Subscribe(topicArn: string, auth: Auth, protocol: Protocol, endpoint: string, entries: SubscriptionEntries,
        returnArn: bool, keys: seq<string>, subs: seq<Subscription>, queue: Option<Queue>, ticket: Ticket)
    | Confirm(topicArn: string, token: string, authenticated: bool, confirmedAt: Time)
    | Unsubscribe(arn: string, byOwner: bool, ticket: Ticket)
    | SetSubscriptionAttribute(arn: string, entry: SubscriptionAttributeName, entryValue: SubscriptionAttribute)
    | Publish(auth: Auth, input: PublishInput, arrival: Arrival, keys: seq<string>, subs: seq<Subscription>,
      fate: string -> Fate)
    | ListReady(listedAt: Time, limit: int, jobKeys: seq<string>)
    | Process(outcome: Outcome, error: string, rescheduledAt: Time, finishedAt: Time)

  predicate FreshTicket(used: set<string>, t: Ticket) {
    && |t.uuid| == UUID_LENGTH && t.uuid !in used && t.token !in used && t.jobId !in used
  }

  /** Each subscription of a listing gets a job identifier of its own. */
  predicate FreshJobs(used: set<string>, subs: seq<Subscription>, fate: string -> Fate) {
    && (forall i :: 0 <= i < |subs| ==> fate(subs[i].arn).jobId !in used)
    && (forall i, j :: 0 <= i < j < |subs| ==> fate(subs[i].arn).jobId != fate(subs[j].arn).jobId)
  }

  /**
   What holds of the outside world at each step: clocks do not go back, identifiers are new. A
   publish lists the topic's subscriptions and matches those that the filter evaluator may match.
   */
  ghost predicate Enabled(env: Env, w: World, a: Action) {
    match a
    case CreateTopic(_, _, _, createdAt, updatedAt) => w.now <= createdAt <= updatedAt
    case DeleteTopic(_) => true
    case SetTopicAttribute(_, _, _, _, updatedAt) => w.now <= updatedAt
    case EditTopic(_, _, _) => true
    case Subscribe(topicArn, _, _, _, _, _, keys, subs, _, t) =>
      w.now <= t.tokenAt && FreshTicket(w.used, t) && Listing(w.store, topicArn, keys, subs)
    case Confirm(_, _, _, confirmedAt) => w.now <= confirmedAt
    case Unsubscribe(_, _, t) => w.now <= t.tokenAt && FreshTicket(w.used, t)
    case SetSubscriptionAttribute(_, _, _) => true
    case Publish(_, input, arrival, keys, subs, fate) =>
      w.now <= arrival.checkedAt <= arrival.recordedAt && Listing(w.store, input.topicArn, keys, subs)
      && FreshJobs(w.used, subs, fate) && Filtered(env.p, input, subs, fate)
    case ListReady(listedAt, limit, jobKeys) =>
      w.now <= listedAt && w.batch == [] && StoreSpec.ReadyKeys(w.store.deliveryJobs, listedAt, limit, jobKeys)
    case Process(_, _, rescheduledAt, finishedAt) => w.now <= rescheduledAt <= finishedAt && w.batch != []
  }

  ghost function After(env: Env, w: World, a: Action): StoreState
    requires a.Process? ==> w.batch != []
  {
    match a
    case CreateTopic(name, attrs, tags, createdAt, updatedAt) =>
      ServiceSpec.CreateTopic(env, w.store, name, attrs, tags, createdAt, updatedAt).store
    case DeleteTopic(arn) => StoreSpec.DeleteTopic(w.store, arn)
    case SetTopicAttribute(arn, auth, name, value, updatedAt) =>
      ServiceSpec.SetTopicAttribute(env, w.store, arn, auth, name, value, updatedAt).store
    case EditTopic(arn, auth, edit) => ServiceSpec.EditTopic(env.p, w.store, arn, auth, edit).store
    case Subscribe(topicArn, auth, protocol, endpoint, entries, returnArn, _, subs, queue, t) =>
      ServiceSpec.Subscribe(env, w.store, topicArn, auth, protocol, endpoint, entries, returnArn, subs, queue, t).store
    case Confirm(topicArn, token, authenticated, confirmedAt) =>
      ConfirmSubscription(w.store, topicArn, token, authenticated, confirmedAt).store
    case Unsubscribe(arn, byOwner, t) => ServiceSpec.Unsubscribe(w.store, arn, byOwner, t).store
    case SetSubscriptionAttribute(arn, entry, entryValue) =>
      ServiceSpec.SetSubscriptionAttribute(env, w.store, arn, entry, entryValue).store
    case Publish(auth, input, arrival, _, subs, fate) =>
      ServiceSpec.Publish(env, w.store, auth, input, arrival, subs, fate).store
    case ListReady(_, _, _) => w.store
    case Process(outcome, error, rescheduledAt, finishedAt) =>
      ProcessJob(env, w.store, w.batch[0], outcome, error, rescheduledAt, finishedAt)
  }

  function ClockAfter(now: Time, a: Action): Time {
    match a
    case CreateTopic(_, _, _, _, updatedAt) => updatedAt
    case SetTopicAttribute(_, _, _, _, updatedAt) => updatedAt
    case Subscribe(_, _, _, _, _, _, _, _, _, t) => t.tokenAt
    case Confirm(_, _, _, confirmedAt) => confirmedAt
    case Unsubscribe(_, _, t) => t.tokenAt
    case Publish(_, _, arrival, _, _, _) => arrival.recordedAt
    case ListReady(listedAt, _, _) => listedAt
    case Process(_, _, _, finishedAt) => finishedAt
    case _ => now
  }

  function Issued(a: Action): set<string> {
    match a
    case Subscribe(_, _, _, _, _, _, _, _, _, t) => {t.uuid, t.token, t.jobId}
    case Unsubscribe(_, _, t) => {t.uuid, t.token, t.jobId}
    case Publish(_, _, _, _, subs, fate) => set i | 0 <= i < |subs| :: fate(subs[i].arn).jobId
    case _ => {}
  }

  ghost function BatchAfter(w: World, a: Action): seq<DeliveryJob>
    requires a.Process? ==> w.batch != []
    requires a.ListReady? ==> forall k :: k in a.jobKeys ==> k in w.store.deliveryJobs
  {
    match a
    case ListReady(_, _, jobKeys) =>
      seq(|jobKeys|, i requires 0 <= i < |jobKeys| => assert jobKeys[i] in jobKeys; w.store.deliveryJobs[jobKeys[i]])
    case Process(_, _, _, _) => w.batch[1..]
    case _ => w.batch
  }

  ghost function Next(env: Env, w: World, a: Action): World
    requires Enabled(env, w, a)
  {
    World(After(env, w, a), ClockAfter(w.now, a), w.used + Issued(a), BatchAfter(w, a))
  }

  ghost predicate Steps(env: Env, w: World, a: Action, w': World) {
    Enabled(env, w, a) && w' == Next(env, w, a)
  }

  /** A run from the empty store: the worlds it goes through and the actions between them. */
  ghost predicate IsRun(env: Env, worlds: seq<World>, actions: seq<Action>) {
    && |worlds| == |actions| + 1
    && worlds[0] == START
    && forall i :: 0 <= i < |actions| ==> StepAt(env, worlds, actions, i)
  }

  ghost predicate StepAt(env: Env, worlds: seq<World>, actions: seq<Action>, i: nat)
    requires i < |actions| && i + 1 < |worlds|
  {
    Steps(env, worlds[i], actions[i], worlds[i + 1])
  }
}
