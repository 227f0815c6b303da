/**
 FIFO topics over whole runs (internal/service/service.go, `Publish` and `PublishBatch`, whose
 entries are published one after another): the deduplication window, what a duplicate is told,
 and the order of the sequence numbers.
 */
module Fifo {
  import opened Common
  import opened Domain
  import opened Attributes
  import opened ServiceSpec
  import opened Runs
  import opened Integrity
  import opened Preservation
  import StoreSpec

  /** A publish that passes all checks on the FIFO topic `arn`. */
  predicate Admits(env: Env, w: World, a: Action, arn: string) {
    && a.Publish? && a.auth.None? && a.input.topicArn == arn && arn in w.store.topics
    && ValidPublishInput(env.p, w.store.topics[arn], a.input) && w.store.topics[arn].attributes.fifoTopic
  }

  function DedupIdAt(env: Env, w: World, a: Action): string
    requires a.Publish? && a.input.topicArn in w.store.topics
  {
    DedupId(env.p, w.store.topics[a.input.topicArn], a.input)
  }

  function AdmissionAt(env: Env, w: World, a: Action): Admission
    requires a.Publish? && a.input.topicArn in w.store.topics
  {
    Admit(w.store.topics[a.input.topicArn], a.input.groupId, DedupIdAt(env, w, a), a.arrival)
  }

  function KeyAt(env: Env, w: World, a: Action): string
    requires a.Publish? && a.input.topicArn in w.store.topics
  {
    DedupKey(w.store.topics[a.input.topicArn], a.input.groupId, DedupIdAt(env, w, a))
  }

  /** Admitted and not a duplicate: the message gets a sequence number and is remembered under its key. */
  predicate Accepts(env: Env, w: World, a: Action, arn: string) {
    Admits(env, w, a, arn) && !AdmissionAt(env, w, a).deduplicated
  }

  function AdmittedAt(env: Env, w: World, a: Action): Topic
    requires a.Publish? && a.input.topicArn in w.store.topics
  {
    Admitted(w.store.topics[a.input.topicArn], a.input.groupId, DedupIdAt(env, w, a), a.arrival)
  }

  // ---- One step ----------------------------------------------------------------------------------------------

  /** What no call but an accepted publish changes, and what no call ever undoes. */
  predicate SameTopic(t: Topic, t': Topic) {
    && t'.arn == t.arn && t'.name == t.name && t'.attributes.fifoTopic == t.attributes.fifoTopic
    && (t.attributes.throughputScope.GroupScope? ==> t'.attributes.throughputScope.GroupScope?)
    && t'.groupSequences == t.groupSequences && t'.dedupRecords == t.dedupRecords
  }

  predicate Deletes(a: Action, arn: string) { a.DeleteTopic? && a.arn == arn }

  /** An accepted publish updates the records of its topic; every other call but a deletion leaves them alone. */
  ghost predicate TopicChange(env: Env, w: World, a: Action, w': World, arn: string) {
    && arn in w.store.topics && arn in w'.store.topics
    && if Accepts(env, w, a, arn) then w'.store.topics[arn] == AdmittedAt(env, w, a)
       else SameTopic(w.store.topics[arn], w'.store.topics[arn])
  }

  /** A topic that was there is still there; one that is new has no records. */
  ghost predicate KeepsTopic(s: StoreState, s': StoreState, arn: string) {
    && (arn in s.topics ==> arn in s'.topics && SameTopic(s.topics[arn], s'.topics[arn]))
    && (arn in s'.topics && arn !in s.topics ==>
          s'.topics[arn].groupSequences == map[] && s'.topics[arn].dedupRecords == map[])
  }

  lemma TopicStep(env: Env, w: World, a: Action, w': World, arn: string)
    requires GoodWorld(env, w) && Steps(env, w, a, w') && arn in w.store.topics && !Deletes(a, arn)
    ensures TopicChange(env, w, a, w', arn)
  {
    hide Good, ServiceSpec.CreateTopic, ServiceSpec.SetTopicAttribute, ServiceSpec.EditTopic, ServiceSpec.Publish,
      Listing, StoreSpec.ReadyKeys, FreshTicket, FreshJobs, Filtered;
    match a
    case CreateTopic(name, attrs, tags, createdAt, updatedAt) =>
      CreateTopicStep(env, w, name, attrs, tags, createdAt, updatedAt, arn);
    case DeleteTopic(_) =>
    case SetTopicAttribute(other, auth, name, value, now) => SetTopicStep(env, w, other, auth, name, value, now, arn);
    case EditTopic(other, auth, edit) => EditStep(env, w.store, other, auth, edit, arn);
    case Publish(_, _, _, _, _, _) => PublishChange(env, w, a, w', arn);
    case _ => OtherStep(env, w, a);
  }

  lemma PublishChange(env: Env, w: World, a: Action, w': World, arn: string)
    requires Steps(env, w, a, w') && a.Publish? && arn in w.store.topics
    ensures TopicChange(env, w, a, w', arn)
  {
    hide Steps, ServiceSpec.Publish, Admitted, DedupId, DedupKey, ValidPublishInput, NextSequence;
    PublishStep(env, w.store, a.auth, a.input, a.arrival, a.subs, a.fate);
    StoreAfterPublish(env, w, a, w');
    if Admits(env, w, a, arn) && AdmissionAt(env, w, a).deduplicated {
      DuplicateChangesNothing(w.store.topics[arn], a.input.groupId, DedupIdAt(env, w, a), a.arrival);
    }
  }

  lemma StoreAfterPublish(env: Env, w: World, a: Action, w': World)
    requires Steps(env, w, a, w') && a.Publish?
    ensures w'.store == ServiceSpec.Publish(env, w.store, a.auth, a.input, a.arrival, a.subs, a.fate).store
  {
    hide Enabled, ServiceSpec.Publish;
  }

  lemma DuplicateChangesNothing(topic: Topic, groupId: string, dedupId: string, a: Arrival)
    requires Admit(topic, groupId, dedupId, a).deduplicated
    ensures Admitted(topic, groupId, dedupId, a) == topic
  {
  }

  lemma SetTopicStep(env: Env, w: World, other: string, auth: Auth, name: TopicAttributeName, value: TopicAttribute,
    now: Time, arn: string)
    requires GoodWorld(env, w)
    ensures KeepsTopic(w.store, ServiceSpec.SetTopicAttribute(env, w.store, other, auth, name, value, now).store, arn)
  {
    hide Good, SameTopic;
    if other in w.store.topics {
      SameAfterSet(env, w, other, name, value, now);
    }
    hide WithTopicAttributes, AcceptsTopicAttribute;
    forall topic ensures SameTopic(topic, topic) {
      SameTopicItself(topic);
    }
  }

  lemma EditStep(env: Env, s: StoreState, other: string, auth: Auth, edit: TopicEdit, arn: string)
    ensures KeepsTopic(s, ServiceSpec.EditTopic(env.p, s, other, auth, edit).store, arn)
  {
    hide Edited, ReadableTopic;
    if other in s.topics && Edited(env.p, other, s.topics[other], edit).Ok? {
      EditedTopic(env.p, other, s.topics[other], edit);
    }
  }

  lemma SameTopicItself(topic: Topic)
    ensures SameTopic(topic, topic)
  {
  }

  lemma SameAfterSet(env: Env, w: World, arn: string, name: TopicAttributeName, value: TopicAttribute, now: Time)
    requires GoodWorld(env, w) && arn in w.store.topics
    ensures var topic := w.store.topics[arn];
      AcceptsTopicAttribute(env.p, topic.attributes, false, name, value) ==>
        SameTopic(topic,
          topic.(attributes := WithTopicAttributes(env.p, topic.attributes, map[name := value]), updatedAt := now))
  {
    TopicFacts(env, w.used, w.store, arn);
    hide Good, WithTopicAttributes, AcceptsTopicAttribute, IsFifoName;
    if AcceptsTopicAttribute(env.p, w.store.topics[arn].attributes, false, name, value) {
      OneTopicAttribute(env.p, w.store.topics[arn].attributes, name, value);
    }
  }

  lemma CreateTopicStep(env: Env, w: World, name: string, attrs: TopicEntries, tags: map<string, string>, now: Time,
    later: Time, arn: string)
    requires GoodWorld(env, w)
    ensures KeepsTopic(w.store, ServiceSpec.CreateTopic(env, w.store, name, attrs, tags, now, later).store, arn)
  {
    hide Good, ValidTopicName, WithTopicAttributes, AcceptsTopicAttributes, NewTopic, WantsFifo, TopicArn;
    var topic := NewTopic(env, name, WantsFifo(env.p, attrs), tags, now);
    NewTopicFields(env, name, WantsFifo(env.p, attrs), tags, now);
    if name !in w.store.topicsByName {
      assert StoreSpec.TopicsIndexed(env.cfg, w.store) by { GoodTopics(env, w.used, w.store); }
      NewTopicIsNew(env.cfg, w.store, topic);
    }
  }

  lemma GoodTopics(env: Env, used: set<string>, s: StoreState)
    requires Good(env, used, s)
    ensures StoreSpec.TopicsIndexed(env.cfg, s)
  {
    hide StoreSpec.TopicsIndexed, StoreSpec.SubscriptionsIndexed, StoreSpec.RecordsKeyed;
  }

  lemma PublishStep(env: Env, s: StoreState, auth: Auth, input: PublishInput, a: Arrival, subs: seq<Subscription>,
    fate: string -> Fate)
    ensures var s' := ServiceSpec.Publish(env, s, auth, input, a, subs, fate).store;
      s'.topics ==
        if auth.None? && input.topicArn in s.topics && ValidPublishInput(env.p, s.topics[input.topicArn], input)
           && s.topics[input.topicArn].attributes.fifoTopic
        then s.topics[input.topicArn := Admitted(s.topics[input.topicArn], input.groupId,
                                          DedupId(env.p, s.topics[input.topicArn], input), a)]
        else s.topics
  {
    hide ValidPublishInput, DedupId, Admitted, Admit, ResolveMessages, Enqueued, Deliveries, Redrives;
  }

  lemma OtherStep(env: Env, w: World, a: Action)
    requires Enabled(env, w, a) && !a.CreateTopic? && !a.DeleteTopic? && !a.SetTopicAttribute? && !a.EditTopic?
    requires !a.Publish?
    ensures Next(env, w, a).store.topics == w.store.topics
  {
    hide Listing, Filtered, StoreSpec.ReadyKeys, FreshTicket, MadeSubscription, AcceptsSubscription, FindExisting,
      AcceptsSubscriptionAttribute, Delivery.EffectivePolicy, WithEffective, Judge, Stored;
    StoredAside();
  }

  lemma StoredAside()
    ensures forall s, topic, sub, returnArn, t :: Stored(s, topic, sub, returnArn, t).store.topics == s.topics
  {
    hide Delivery.EffectivePolicy, SubscribeTokenFor, ConfirmationJob, ReplyFor;
  }

  lemma NewTopicStep(env: Env, w: World, a: Action, w': World, arn: string)
    requires GoodWorld(env, w) && Steps(env, w, a, w') && (arn !in w.store.topics || Deletes(a, arn))
    requires arn in w'.store.topics
    ensures w'.store.topics[arn].groupSequences == map[] && w'.store.topics[arn].dedupRecords == map[]
  {
    hide Good, ServiceSpec.CreateTopic, ServiceSpec.SetTopicAttribute, ServiceSpec.EditTopic, ServiceSpec.Publish,
      Listing, StoreSpec.ReadyKeys, FreshTicket, FreshJobs, Filtered;
    match a
    case CreateTopic(name, attrs, tags, createdAt, updatedAt) =>
      CreateTopicStep(env, w, name, attrs, tags, createdAt, updatedAt, arn);
    case SetTopicAttribute(other, auth, name, value, now) => SetTopicStep(env, w, other, auth, name, value, now, arn);
    case EditTopic(other, auth, edit) => EditStep(env, w.store, other, auth, edit, arn);
    case DeleteTopic(_) =>
    case Publish(auth, input, arrival, _, subs, fate) => PublishStep(env, w.store, auth, input, arrival, subs, fate);
    case _ => OtherStep(env, w, a);
  }

  lemma ClockStep(env: Env, w: World, a: Action, w': World)
    requires Steps(env, w, a, w')
    ensures w.now <= w'.now
    ensures a.Publish? ==> w.now <= a.arrival.checkedAt <= a.arrival.recordedAt == w'.now
  {
    hide After, BatchAfter, Issued, Listing, StoreSpec.ReadyKeys, FreshTicket, FreshJobs, Filtered;
  }

  // ---- Runs ----------------------------------------------------------------------------------------------------

  datatype Run = Run(env: Env, worlds: seq<World>, actions: seq<Action>)

  ghost predicate Valid(r: Run) { IsRun(r.env, r.worlds, r.actions) }

  function Last(r: Run): World
    requires r.worlds != []
  {
    r.worlds[|r.worlds| - 1]
  }

  /** The run with one more step. */
  ghost function Extended(r: Run, a: Action): Run
    requires r.worlds != [] && Enabled(r.env, Last(r), a)
  {
    Run(r.env, r.worlds + [Next(r.env, Last(r), a)], r.actions + [a])
  }

  lemma ExtendedIsValid(r: Run, a: Action)
    requires Valid(r) && Enabled(r.env, Last(r), a)
    ensures Valid(Extended(r, a)) && Last(Extended(r, a)) == Next(r.env, Last(r), a)
  {
    hide Enabled, Next;
    var r' := Extended(r, a);
    forall i | 0 <= i < |r'.actions| ensures StepAt(r'.env, r'.worlds, r'.actions, i) {
      if i < |r.actions| {
        assert StepAt(r.env, r.worlds, r.actions, i);
      }
    }
  }

  /** Step `k` accepts a message for the topic `arn`. */
  predicate Accepted(r: Run, k: nat, arn: string) {
    k < |r.actions| && k < |r.worlds| && Accepts(r.env, r.worlds[k], r.actions[k], arn)
  }

  predicate AcceptedKey(r: Run, k: nat, arn: string, key: string) {
    Accepted(r, k, arn) && KeyAt(r.env, r.worlds[k], r.actions[k]) == key
  }

  predicate AcceptedGroup(r: Run, k: nat, arn: string, group: string) {
    Accepted(r, k, arn) && r.actions[k].input.groupId == group
  }

  /** The topic is not deleted in steps `i` to `j - 1`. */
  predicate Lives(r: Run, arn: string, i: nat, j: nat) {
    forall m :: i <= m < j && m < |r.actions| ==> !Deletes(r.actions[m], arn)
  }

  function NumberAt(r: Run, k: nat): nat
    requires k < |r.actions| && k < |r.worlds| && r.actions[k].Publish?
    requires r.actions[k].input.topicArn in r.worlds[k].store.topics
  {
    AdmissionAt(r.env, r.worlds[k], r.actions[k]).sequenceNumber
  }

  ghost predicate HasTopic(r: Run, j: nat, arn: string) { j < |r.worlds| && arn in r.worlds[j].store.topics }

  function TopicAt(r: Run, j: nat, arn: string): Topic
    requires j < |r.worlds| && arn in r.worlds[j].store.topics
  {
    r.worlds[j].store.topics[arn]
  }

  /** One step of a run, seen from one topic. */
  lemma RunStep(r: Run, j: nat, arn: string)
    requires Valid(r) && j < |r.actions|
    ensures r.worlds[j].now <= r.worlds[j + 1].now
    ensures Accepted(r, j, arn) ==>
      r.worlds[j].now <= r.actions[j].arrival.checkedAt <= r.actions[j].arrival.recordedAt == r.worlds[j + 1].now
    ensures HasTopic(r, j, arn) && !Deletes(r.actions[j], arn) ==>
      HasTopic(r, j + 1, arn) && TopicChange(r.env, r.worlds[j], r.actions[j], r.worlds[j + 1], arn)
    ensures (!HasTopic(r, j, arn) || Deletes(r.actions[j], arn)) && HasTopic(r, j + 1, arn) ==>
      TopicAt(r, j + 1, arn).groupSequences == map[] && TopicAt(r, j + 1, arn).dedupRecords == map[]
  {
    hide GoodWorld, Steps, TopicChange, Accepts;
    var env, w, a, w' := r.env, r.worlds[j], r.actions[j], r.worlds[j + 1];
    ReachableIsGood(env, r.worlds, r.actions, j);
    assert StepAt(env, r.worlds, r.actions, j);
    ClockStep(env, w, a, w');
    AcceptsPublish(env, w, a, arn);
    if HasTopic(r, j, arn) && !Deletes(a, arn) {
      TopicStep(env, w, a, w', arn);
      ChangeKeepsTopic(env, w, a, w', arn);
    } else if HasTopic(r, j + 1, arn) {
      NewTopicStep(env, w, a, w', arn);
    }
  }

  lemma AcceptsPublish(env: Env, w: World, a: Action, arn: string)
    ensures Accepts(env, w, a, arn) ==> a.Publish? && a.input.topicArn == arn && arn in w.store.topics
  {
  }

  lemma ChangeKeepsTopic(env: Env, w: World, a: Action, w': World, arn: string)
    requires TopicChange(env, w, a, w', arn)
    ensures arn in w.store.topics && arn in w'.store.topics
  {
  }

  // ---- Deduplication ---------------------------------------------------------------------------------------------

  /** What is remembered of an accepted message. */
  function RecordOf(r: Run, k: nat, arn: string): DedupRecord
    requires Accepted(r, k, arn)
  {
    DedupRecord(r.actions[k].arrival.messageId, NumberAt(r, k), r.actions[k].arrival.recordedAt + DEDUP_WINDOW)
  }

  lemma RecordsStep(r: Run, j: nat, arn: string)
    requires Valid(r) && j < |r.actions| && HasTopic(r, j, arn) && !Deletes(r.actions[j], arn)
    ensures HasTopic(r, j + 1, arn)
    ensures TopicAt(r, j + 1, arn).dedupRecords ==
      if Accepted(r, j, arn) then
        TopicAt(r, j, arn).dedupRecords[KeyAt(r.env, r.worlds[j], r.actions[j]) := RecordOf(r, j, arn)]
      else TopicAt(r, j, arn).dedupRecords
  {
    hide DedupId, DedupKey, ValidPublishInput;
    RunStep(r, j, arn);
  }

  /** Step `k` is the latest, before step `j` and in the same life of the topic, that accepts the key. */
  ghost predicate Latest(r: Run, k: nat, j: nat, arn: string, key: string) {
    k < j && AcceptedKey(r, k, arn, key) && Lives(r, arn, k, j) && forall m :: k < m < j ==>
      !AcceptedKey(r, m, arn, key)
  }

  /** Every record of a topic was written by the latest acceptance of its key. */
  lemma {:induction false} RecordHasOrigin(r: Run, j: nat, arn: string, key: string) returns (k: nat)
    requires Valid(r) && HasTopic(r, j, arn) && key in TopicAt(r, j, arn).dedupRecords
    ensures Latest(r, k, j, arn, key) && TopicAt(r, j, arn).dedupRecords[key] == RecordOf(r, k, arn)
  {
    hide Accepted, RecordOf, KeyAt;
    if j == 0 {
      assert false by {
        StartIsEmpty(r, arn);
      }
    } else {
      RunStep(r, j - 1, arn);
      assert HasTopic(r, j - 1, arn) && !Deletes(r.actions[j - 1], arn);
      RecordsStep(r, j - 1, arn);
      if AcceptedKey(r, j - 1, arn, key) {
        k := j - 1;
      } else {
        k := RecordHasOrigin(r, j - 1, arn, key);
      }
    }
  }

  lemma StartIsEmpty(r: Run, arn: string)
    requires Valid(r)
    ensures !HasTopic(r, 0, arn)
  {
  }

  /** A key stays remembered for at least the window. */
  lemma {:induction false} KeyIsRemembered(r: Run, k: nat, j: nat, arn: string, key: string)
    requires Valid(r) && k < j < |r.worlds| && AcceptedKey(r, k, arn, key) && Lives(r, arn, k, j)
    ensures HasTopic(r, j, arn) && key in TopicAt(r, j, arn).dedupRecords
    ensures TopicAt(r, j, arn).dedupRecords[key].expiresAt >= r.actions[k].arrival.recordedAt + DEDUP_WINDOW
    ensures r.actions[k].arrival.recordedAt <= r.worlds[j].now
  {
    hide Accepted, KeyAt;
    AcceptedHere(r, k, arn);
    RunStep(r, j - 1, arn);
    if k < j - 1 {
      KeyIsRemembered(r, k, j - 1, arn, key);
      if Accepted(r, j - 1, arn) {
        AcceptedHere(r, j - 1, arn);
      }
    }
    RecordsStep(r, j - 1, arn);
  }

  lemma AcceptedHere(r: Run, k: nat, arn: string)
    requires Valid(r)
    requires Accepted(r, k, arn)
    ensures HasTopic(r, k, arn) && r.actions[k].Publish? && r.actions[k].input.topicArn == arn
    ensures !Deletes(r.actions[k], arn)
  {
  }

  /** An earlier acceptance of the same key whose window is still open. */
  ghost predicate WindowOpen(r: Run, k: nat, j: nat, arn: string, key: string, at: Time) {
    k < j && AcceptedKey(r, k, arn, key) && Lives(r, arn, k, j) && r.actions[k].arrival.recordedAt + DEDUP_WINDOW > at
  }

  /** A message is a duplicate exactly when its key was accepted less than five minutes before. */
  lemma DuplicateIffWindowOpen(r: Run, j: nat, arn: string)
    requires Valid(r) && j < |r.actions| && Admits(r.env, r.worlds[j], r.actions[j], arn)
    ensures AdmissionAt(r.env, r.worlds[j], r.actions[j]).deduplicated <==>
      exists k :: WindowOpen(r, k, j, arn, KeyAt(r.env, r.worlds[j], r.actions[j]), r.actions[j].arrival.checkedAt)
  {
    hide DedupKey, DedupId, ValidPublishInput;
    var w, a := r.worlds[j], r.actions[j];
    var key := KeyAt(r.env, w, a);
    if AdmissionAt(r.env, w, a).deduplicated {
      var k := RecordHasOrigin(r, j, arn, key);
      assert WindowOpen(r, k, j, arn, key, a.arrival.checkedAt);
    }
    forall k | WindowOpen(r, k, j, arn, key, a.arrival.checkedAt) ensures AdmissionAt(r.env, w, a).deduplicated {
      KeyIsRemembered(r, k, j, arn, key);
    }
  }

  /** Two accepted messages with the same key are at least five minutes apart. */
  lemma AcceptancesAreApart(r: Run, i: nat, j: nat, arn: string, key: string)
    requires Valid(r) && i < j && AcceptedKey(r, i, arn, key) && AcceptedKey(r, j, arn, key) && Lives(r, arn, i, j)
    ensures r.actions[i].arrival.recordedAt + DEDUP_WINDOW <= r.actions[j].arrival.checkedAt
  {
    hide Admits;
    AcceptedHere(r, i, arn);
    AcceptedHere(r, j, arn);
    AcceptsAdmits(r, j, arn);
    DuplicateIffWindowOpen(r, j, arn);
    assert !WindowOpen(r, i, j, arn, key, r.actions[j].arrival.checkedAt);
  }

  lemma AcceptsAdmits(r: Run, j: nat, arn: string)
    requires Accepted(r, j, arn)
    ensures Admits(r.env, r.worlds[j], r.actions[j], arn) && !AdmissionAt(r.env, r.worlds[j], r.actions[j]).deduplicated
  {
  }

  /** A duplicate is told the message id and the number of the latest acceptance of its key. */
  lemma DuplicateIsToldTheLatest(r: Run, j: nat, arn: string) returns (k: nat)
    requires Valid(r) && j < |r.actions| && Admits(r.env, r.worlds[j], r.actions[j], arn)
    requires AdmissionAt(r.env, r.worlds[j], r.actions[j]).deduplicated
    ensures Latest(r, k, j, arn, KeyAt(r.env, r.worlds[j], r.actions[j]))
    ensures AdmissionAt(r.env, r.worlds[j], r.actions[j]).messageId == r.actions[k].arrival.messageId
    ensures AdmissionAt(r.env, r.worlds[j], r.actions[j]).sequenceNumber == NumberAt(r, k)
    ensures !WindowOver(r, k, r.actions[j].arrival.checkedAt)
  {
    hide DedupKey, DedupId, ValidPublishInput;
    k := RecordHasOrigin(r, j, arn, KeyAt(r.env, r.worlds[j], r.actions[j]));
  }

  predicate WindowOver(r: Run, k: nat, at: Time)
    requires k < |r.actions| && r.actions[k].Publish?
  {
    r.actions[k].arrival.recordedAt + DEDUP_WINDOW <= at
  }

  /**
   A duplicate need not be of a message that was sent: one whose text cannot be resolved fails, yet
   is remembered, and for five minutes the same publish is then answered as a duplicate.
   */
  lemma FailedPublishIsRemembered(env: Env, s: StoreState, input: PublishInput, a: Arrival, later: Arrival,
    subs: seq<Subscription>, fate: string -> Fate)
    requires input.topicArn in s.topics && ValidPublishInput(env.p, s.topics[input.topicArn], input)
    requires s.topics[input.topicArn].attributes.fifoTopic
    requires !Admit(s.topics[input.topicArn], input.groupId, DedupId(env.p, s.topics[input.topicArn], input),
      a).deduplicated
    requires ResolveMessages(env.p, input.message, input.messageStructure).None?
    requires later.checkedAt < a.recordedAt + DEDUP_WINDOW
    ensures var first := ServiceSpec.Publish(env, s, None, input, a, subs, fate);
      var second := ServiceSpec.Publish(env, first.store, None, input, later, subs, fate);
      && first.result == Err(InvalidParameter)
      && second.result.Ok? && second.result.value.deduplicated && second.result.value.messageId == a.messageId
      && second.result.value.sent == NOTHING && second.store == first.store
      && first.store.deliveryJobs == s.deliveryJobs
  {
    hide ResolveMessages, Enqueued, Deliveries, Redrives, ValidAttributes, ValidFifoIdentifier, NextSequence;
    var topic := s.topics[input.topicArn];
    var dedupId := DedupId(env.p, topic, input);
    var admitted := Admitted(topic, input.groupId, dedupId, a);
    assert Live(admitted, DedupKey(admitted, input.groupId, dedupId), later.checkedAt);
  }

  // ---- Sequence numbers --------------------------------------------------------------------------------------------

  /** The group's sequence state on the topic before step `j`. */
  function SequenceAt(r: Run, j: nat, arn: string, group: string): SequenceState
    requires j < |r.worlds| && arn in r.worlds[j].store.topics
  {
    SequenceOf(TopicAt(r, j, arn), group)
  }

  /** An accepted message of the group moves the group's sequence on and is given its number; nothing else does. */
  lemma SequenceStep(r: Run, j: nat, arn: string, group: string)
    requires Valid(r) && j < |r.actions| && HasTopic(r, j, arn) && !Deletes(r.actions[j], arn)
    ensures HasTopic(r, j + 1, arn)
    ensures AcceptedGroup(r, j, arn, group) ==>
      (SequenceAt(r, j + 1, arn, group), NumberAt(r, j)) ==
        NextSequence(SequenceAt(r, j, arn, group), r.actions[j].arrival.nanos)
    ensures !AcceptedGroup(r, j, arn, group) ==> SequenceAt(r, j + 1, arn, group) == SequenceAt(r, j, arn, group)
  {
    hide DedupId, DedupKey, ValidPublishInput, Valid, NextSequence;
    RunStep(r, j, arn);
  }

  /** After an accepted message and until the next one of its group, the group's state is the one that message left. */
  lemma {:induction false} SequenceHolds(r: Run, k: nat, j: nat, arn: string, group: string)
    requires Valid(r) && k < j < |r.worlds| && AcceptedGroup(r, k, arn, group) && Lives(r, arn, k, j)
    requires forall m :: k < m < j ==> !AcceptedGroup(r, m, arn, group)
    ensures HasTopic(r, j, arn)
    ensures SequenceAt(r, j, arn, group) == NextSequence(SequenceAt(r, k, arn, group), r.actions[k].arrival.nanos).0
  {
    AcceptedHere(r, k, arn);
    hide Accepted, NextSequence;
    if k < j - 1 {
      SequenceHolds(r, k, j - 1, arn, group);
    }
    SequenceStep(r, j - 1, arn, group);
  }

  /**
   Successive messages of a group keep its prefix and differ by exactly one; only after 2^64 of
   them does the counter start again from zero.
   */
  lemma SuccessiveNumbers(r: Run, i: nat, j: nat, arn: string, group: string)
    requires Valid(r) && i < j && AcceptedGroup(r, i, arn, group) && AcceptedGroup(r, j, arn, group)
    requires Lives(r, arn, i, j)
    requires forall m :: i < m < j ==> !AcceptedGroup(r, m, arn, group)
    ensures NumberAt(r, i) / TWO64 == NumberAt(r, j) / TWO64
    ensures NumberAt(r, j) == NumberAt(r, i) + 1 <==> NumberAt(r, i) % TWO64 != TWO64 - 1
    ensures NumberAt(r, i) % TWO64 == TWO64 - 1 ==> NumberAt(r, j) % TWO64 == 0
  {
    AcceptedHere(r, i, arn);
    AcceptedHere(r, j, arn);
    SequenceHolds(r, i, j, arn, group);
    SequenceStep(r, i, arn, group);
    SequenceStep(r, j, arn, group);
    hide Valid, Accepted, AcceptedGroup, Lives, NextSequence;
    var first, second := SequenceAt(r, i, arn, group), SequenceAt(r, j, arn, group);
    TwoNumbers(first, r.actions[i].arrival.nanos, r.actions[j].arrival.nanos);
  }

  lemma TwoNumbers(state: SequenceState, nanos: nat, later: nat)
    ensures var (next, number) := NextSequence(state, nanos);
      var (_, number') := NextSequence(next, later);
      && number / TWO64 == number' / TWO64
      && (number' == number + 1 <==> number % TWO64 != TWO64 - 1)
      && (number % TWO64 == TWO64 - 1 ==> number' % TWO64 == 0)
  {
    var (next, number) := NextSequence(state, nanos);
    var (next', number') := NextSequence(next, later);
    SequenceNumberParts(state, nanos);
    SequenceNumberParts(next, later);
    SplitNumber(next.prefix.value, next.counter);
    SplitNumber(next.prefix.value, next'.counter);
  }

  /** A group's counter cannot have passed the number of steps taken. */
  lemma {:induction false} CounterBound(r: Run, j: nat, arn: string, group: string)
    requires Valid(r) && HasTopic(r, j, arn) && j < TWO64
    ensures SequenceAt(r, j, arn, group).counter <= j
  {
    if j == 0 {
      StartIsEmpty(r, arn);
    } else {
      hide Accepted, TopicChange;
      RunStep(r, j - 1, arn);
      if HasTopic(r, j - 1, arn) && !Deletes(r.actions[j - 1], arn) {
        CounterBound(r, j - 1, arn, group);
        SequenceStep(r, j - 1, arn, group);
      }
    }
  }

  /** Until 2^64 steps are taken, a group keeps its prefix and its counter does not go back. */
  lemma {:induction false} SequenceGrows(r: Run, i: nat, j: nat, arn: string, group: string)
    requires Valid(r) && i <= j < |r.worlds| && j < TWO64 && HasTopic(r, i, arn) && Lives(r, arn, i, j)
    requires SequenceAt(r, i, arn, group).prefix.Some?
    ensures HasTopic(r, j, arn) && SequenceAt(r, j, arn, group).prefix == SequenceAt(r, i, arn, group).prefix
    ensures SequenceAt(r, i, arn, group).counter <= SequenceAt(r, j, arn, group).counter
  {
    if i < j {
      hide Accepted;
      SequenceGrows(r, i, j - 1, arn, group);
      CounterBound(r, j - 1, arn, group);
      SequenceStep(r, j - 1, arn, group);
    }
  }

  /** Within a group, a message accepted later has a larger number. */
  lemma NumbersIncrease(r: Run, i: nat, j: nat, arn: string, group: string)
    requires Valid(r) && |r.actions| < TWO64
    requires i < j && AcceptedGroup(r, i, arn, group) && AcceptedGroup(r, j, arn, group) && Lives(r, arn, i, j)
    ensures NumberAt(r, i) < NumberAt(r, j)
  {
    hide StepAt, Accepts, AdmissionAt;
    AcceptedHere(r, i, arn);
    AcceptedHere(r, j, arn);
    SequenceStep(r, i, arn, group);
    SequenceStep(r, j, arn, group);
    CounterBound(r, i, arn, group);
    CounterBound(r, j, arn, group);
    SequenceGrows(r, i + 1, j, arn, group);
  }

  // ---- FIFO-ness ------------------------------------------------------------------------------------------

  /** In every reachable store a topic is FIFO exactly when its name ends in ".fifo". */
  lemma FifoByNameAlways(r: Run, j: nat, arn: string)
    requires Valid(r) && HasTopic(r, j, arn)
    ensures TopicAt(r, j, arn).attributes.fifoTopic <==> IsFifoName(TopicAt(r, j, arn).name)
    ensures arn == TopicArn(r.env.cfg, TopicAt(r, j, arn).name)
  {
    hide Good, IsFifoName, TopicArn;
    ReachableIsGood(r.env, r.worlds, r.actions, j);
    TopicFacts(r.env, r.worlds[j].used, r.worlds[j].store, arn);
  }

  /** A topic never turns from FIFO to standard or back, even if it is deleted and made again. */
  lemma FifoForever(r: Run, i: nat, j: nat, arn: string)
    requires Valid(r) && HasTopic(r, i, arn) && HasTopic(r, j, arn)
    ensures TopicAt(r, i, arn).attributes.fifoTopic == TopicAt(r, j, arn).attributes.fifoTopic
  {
    hide IsFifoName, TopicArn, Valid;
    FifoByNameAlways(r, i, arn);
    FifoByNameAlways(r, j, arn);
    TopicArnInjective(r.env.cfg, TopicAt(r, i, arn).name, TopicAt(r, j, arn).name);
  }

  /** While the topic lives, its throughput scope does not go from message group back to topic. */
  lemma {:induction false} ScopeIsKept(r: Run, i: nat, j: nat, arn: string)
    requires Valid(r) && i <= j < |r.worlds| && HasTopic(r, i, arn) && Lives(r, arn, i, j)
    requires TopicAt(r, i, arn).attributes.throughputScope.GroupScope?
    ensures HasTopic(r, j, arn) && TopicAt(r, j, arn).attributes.throughputScope.GroupScope?
  {
    if i < j {
      hide Accepts, DedupIdAt, Valid;
      ScopeIsKept(r, i, j - 1, arn);
      RunStep(r, j - 1, arn);
      AcceptsPublish(r.env, r.worlds[j - 1], r.actions[j - 1], arn);
    }
  }
}
