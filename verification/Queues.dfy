/**
 Which queues are subscribed to a topic (internal/service/service.go, `Subscribe` and
 `ConfirmSubscription`): no queue twice, over whole runs.
 */
module Queues {
  import opened Common
  import opened Domain
  import opened Attributes
  import opened ServiceSpec
  import opened Runs
  import opened Integrity
  import opened Preservation
  import opened Fifo
  import opened Tokens
  import Delivery
  import Paging
  import StoreSpec

  /** A subscription of this queue to this topic. */
  predicate Takes(sub: Subscription, topicArn: string, queue: string) {
    sub.topicArn == topicArn && SameEndpoint(sub, Sqs, queue)
  }

  /** No two queue subscriptions of a topic share an endpoint. */
  ghost predicate QueuesDiffer(subs: Subscriptions) {
    forall a, b :: a in subs && b in subs && a != b && subs[a].protocol.Sqs? ==>
      !Takes(subs[b], subs[a].topicArn, subs[a].endpoint)
  }

  /** Every queue subscription was there before, with the same topic and endpoint. */
  ghost predicate NoNewQueue(subs: Subscriptions, subs': Subscriptions) {
    forall a :: a in subs' && subs'[a].protocol.Sqs? ==>
      a in subs && Takes(subs[a], subs'[a].topicArn, subs'[a].endpoint)
  }

  lemma FewerQueues(subs: Subscriptions, subs': Subscriptions)
    requires QueuesDiffer(subs) && NoNewQueue(subs, subs')
    ensures QueuesDiffer(subs')
  {
  }

  lemma OneMoreQueue(subs: Subscriptions, sub: Subscription)
    requires QueuesDiffer(subs) && sub.arn !in subs && sub.protocol.Sqs?
    ensures QueuesDiffer(subs[sub.arn := sub]) <==>
      forall a :: a in subs ==> !Takes(subs[a], sub.topicArn, sub.endpoint)
  {
    var subs' := subs[sub.arn := sub];
    if QueuesDiffer(subs') {
      forall a | a in subs ensures !Takes(subs[a], sub.topicArn, sub.endpoint) {
        assert subs'[a] == subs[a] && subs'[sub.arn] == sub;
      }
    }
  }

  // ---- One step -------------------------------------------------------------------------------------------

  /** A call of `Subscribe` that finds no subscription in its listing and makes one. */
  ghost predicate Makes(env: Env, w: World, a: Action) {
    && a.Subscribe? && LooksForExisting(w.store, a.topicArn, a.auth, a.protocol)
    && FindExisting(a.subs, a.protocol, a.endpoint).None?
    && AcceptsSubscription(env, w.store.topics[a.topicArn], a.protocol, a.endpoint, a.entries, a.queue)
  }

  /**
   The call makes a subscription of a queue that is subscribed already, by a subscription that
   comes after the first 10,000 of the topic.
   */
  ghost predicate Overlooks(env: Env, w: World, a: Action) {
    && Makes(env, w, a) && a.protocol.Sqs?
    && exists k :: LIST_LIMIT <= k < |a.keys| && a.keys[k] in w.store.subscriptions
         && SameEndpoint(w.store.subscriptions[a.keys[k]], Sqs, a.endpoint)
  }

  lemma {:induction false} NotFound(subs: seq<Subscription>, protocol: Protocol, endpoint: string)
    requires FindExisting(subs, protocol, endpoint).None?
    ensures forall i :: 0 <= i < |subs| ==> !SameEndpoint(subs[i], protocol, endpoint)
  {
    if subs != [] {
      NotFound(subs[1..], protocol, endpoint);
      assert forall i :: 0 < i < |subs| ==> subs[i] == subs[1..][i - 1];
    }
  }

  /** What a call that finds nothing has missed comes after the first 10,000. */
  lemma MissedIsFar(env: Env, w: World, a: Action)
    requires GoodWorld(env, w) && a.Subscribe? && Listing(w.store, a.topicArn, a.keys, a.subs)
    requires a.protocol.Sqs? && FindExisting(a.subs, a.protocol, a.endpoint).None?
    ensures (exists x :: x in w.store.subscriptions && Takes(w.store.subscriptions[x], a.topicArn, a.endpoint)) <==>
      exists k :: LIST_LIMIT <= k < |a.keys| && a.keys[k] in w.store.subscriptions
        && SameEndpoint(w.store.subscriptions[a.keys[k]], Sqs, a.endpoint)
  {
    hide Linked, FifoByName, Readable, TokensMatch, StoreSpec.TopicsIndexed, StoreSpec.RecordsKeyed, UuidOf, TopicOf,
      Paging.Ascending, FindExisting;
    var all := w.store.subscriptions;
    NotFound(a.subs, a.protocol, a.endpoint);
    assert forall k :: 0 <= k < |a.subs| ==> a.subs[k] == all[a.keys[k]];
    if x :| x in all && Takes(all[x], a.topicArn, a.endpoint) {
      assert x in StoreSpec.SubsOf(w.store, a.topicArn);
      var k :| 0 <= k < |a.keys| && a.keys[k] == x;
    }
    if k :| LIST_LIMIT <= k < |a.keys| && a.keys[k] in all && SameEndpoint(all[a.keys[k]], Sqs, a.endpoint) {
      assert a.keys[k] in a.keys && a.keys[k] in StoreSpec.SubsOf(w.store, a.topicArn);
    }
  }

  function MadeBy(env: Env, w: World, a: Action): Subscription
    requires a.Subscribe? && a.topicArn in w.store.topics
  {
    MadeSubscription(env.p, a.topicArn, w.store.topics[a.topicArn].attributes.deliveryPolicy, a.ticket.uuid, a.protocol,
      a.endpoint, a.entries, a.ticket.tokenAt)
  }

  ghost predicate NewHere(w: World, a: Action, sub: Subscription)
    requires a.Subscribe?
  {
    && sub.arn !in w.store.subscriptions && sub.topicArn == a.topicArn && sub.protocol == a.protocol
    && sub.endpoint == a.endpoint
  }

  lemma MadeIsNew(env: Env, w: World, a: Action)
    requires GoodWorld(env, w) && Enabled(env, w, a) && Makes(env, w, a)
    ensures NewHere(w, a, MadeBy(env, w, a))
  {
    hide Good, FindExisting, AcceptsSubscriptionAttributes, ValidQueue, ValidUrl, UuidOf, TopicOf,
      ReadableSubscription, Listing, MadeSubscription;
    var t := a.ticket;
    MadeSubscriptionFacts(env.p, a.topicArn, w.store.topics[a.topicArn].attributes.deliveryPolicy, t.uuid, a.protocol,
      a.endpoint,
      a.entries, t.tokenAt);
    Unused(env, w.used, w.store, MadeBy(env, w, a).arn, t);
  }

  /** The subscriptions after a call of `Subscribe`: the same, or one more. */
  lemma SubscribeAdds(env: Env, w: World, a: Action, w': World)
    requires Steps(env, w, a, w') && a.Subscribe?
    ensures w'.store.subscriptions == w.store.subscriptions
      || (Makes(env, w, a)
           && w'.store.subscriptions == w.store.subscriptions[MadeBy(env, w, a).arn := MadeBy(env, w, a)])
    ensures Makes(env, w, a) && a.protocol.Sqs? && MadeBy(env, w, a).protocol.Sqs? ==>
      w'.store.subscriptions == w.store.subscriptions[MadeBy(env, w, a).arn := MadeBy(env, w, a)]
  {
    hide FindExisting, AcceptsSubscription, ConfirmationJob, Delivery.EffectivePolicy, SubscribeTokenFor, Listing,
      FreshTicket, MadeSubscription;
  }

  /** A call of `Subscribe` keeps the queues apart if and only if it does not overlook a subscription. */
  lemma SubscribeStep(env: Env, w: World, a: Action, w': World)
    requires GoodWorld(env, w) && Steps(env, w, a, w') && a.Subscribe? && QueuesDiffer(w.store.subscriptions)
    ensures QueuesDiffer(w'.store.subscriptions) <==> !Overlooks(env, w, a)
  {
    hide GoodWorld, FindExisting, AcceptsSubscription, Listing, FreshTicket, MadeBy, After, QueuesDiffer, SameEndpoint;
    var subs, subs' := w.store.subscriptions, w'.store.subscriptions;
    SubscribeAdds(env, w, a, w');
    if Makes(env, w, a) {
      MadeIsNew(env, w, a);
      if a.protocol.Sqs? {
        MissedIsFar(env, w, a);
        OneMoreQueue(subs, MadeBy(env, w, a));
      } else if subs' != subs {
        PushedAside(subs, MadeBy(env, w, a));
      }
    }
  }

  lemma PushedAside(subs: Subscriptions, sub: Subscription)
    requires QueuesDiffer(subs) && !sub.protocol.Sqs?
    ensures QueuesDiffer(subs[sub.arn := sub])
  {
  }

  /** Confirming turns no subscription into one of a queue, and what it restores is pushed to. */
  lemma ConfirmingKeepsQueues(env: Env, used: set<string>, s: StoreState, topicArn: string, token: string,
    authenticated: bool, now: Time)
    requires Good(env, used, s)
    ensures NoNewQueue(s.subscriptions, ConfirmSubscription(s, topicArn, token, authenticated, now).store.subscriptions)
  {
    hide Good, FifoTopicAt, UuidOf, TopicOf, ReadableSubscription;
    if token in s.confirmation {
      TokenFacts(env, used, s, token);
      var arn := s.confirmation[token].subscriptionArn;
      if arn in s.subscriptions {
        GoodSubscription(env, used, s, arn);
      }
    }
  }

  lemma ConfirmStep(env: Env, w: World, a: Action, w': World)
    requires GoodWorld(env, w) && Steps(env, w, a, w') && a.Confirm?
    ensures NoNewQueue(w.store.subscriptions, w'.store.subscriptions)
  {
    hide Good, Steps, ConfirmSubscription, NoNewQueue;
    AfterConfirm(env, w, a, w');
    ConfirmingKeepsQueues(env, w.used, w.store, a.topicArn, a.token, a.authenticated, a.confirmedAt);
  }

  /** Every other step makes no queue subscription. */
  lemma OtherQueues(env: Env, w: World, a: Action, w': World)
    requires Steps(env, w, a, w') && !a.Subscribe? && !a.Confirm?
    ensures NoNewQueue(w.store.subscriptions, w'.store.subscriptions)
  {
    hide Enabled, Judge, ServiceSpec.Publish, ServiceSpec.CreateTopic, ServiceSpec.SetTopicAttribute,
      ServiceSpec.SetSubscriptionAttribute, ServiceSpec.Unsubscribe, StoreSpec.DeleteTopic, NoNewQueue, BatchAfter,
      Issued;
    if a.Publish? {
      PublishTokens(env, w.store, a.auth, a.input, a.arrival, a.subs, a.fate);
    } else if a.CreateTopic? || a.SetTopicAttribute? {
      TopicCallsKeepSubscriptions(env, w.store, a);
    } else if a.DeleteTopic? || a.Unsubscribe? {
      RemovalsKeepTheRest(w.store, a);
    } else if a.SetSubscriptionAttribute? {
      SettingKeepsQueues(env, w.store, a.arn, a.entry, a.entryValue);
    }
    SameQueues(w.store.subscriptions);
  }

  lemma SameQueues(subs: Subscriptions)
    ensures NoNewQueue(subs, subs)
  {
  }

  lemma TopicCallsKeepSubscriptions(env: Env, s: StoreState, a: Action)
    requires a.CreateTopic? || a.SetTopicAttribute?
    ensures a.CreateTopic? ==>
      ServiceSpec.CreateTopic(env, s, a.name, a.attrs, a.tags, a.createdAt, a.updatedAt).store.subscriptions ==
        s.subscriptions
    ensures a.SetTopicAttribute? ==>
      ServiceSpec.SetTopicAttribute(env, s, a.arn, a.auth, a.attribute, a.value, a.updatedAt).store.subscriptions ==
        s.subscriptions
  {
    hide ValidTopicName, NewTopic, WithTopicAttributes, AcceptsTopicAttribute, AcceptsTopicAttributes, WantsFifo;
  }

  lemma RemovalsKeepTheRest(s: StoreState, a: Action)
    requires a.DeleteTopic? || a.Unsubscribe?
    ensures a.DeleteTopic? ==> NoNewQueue(s.subscriptions, StoreSpec.DeleteTopic(s, a.arn).subscriptions)
    ensures a.Unsubscribe? ==>
      NoNewQueue(s.subscriptions, ServiceSpec.Unsubscribe(s, a.arn, a.byOwner, a.ticket).store.subscriptions)
  {
    hide Delivery.EffectivePolicy, ConfirmationJob, UnsubscribeTokenFor;
  }

  lemma SettingKeepsQueues(env: Env, s: StoreState, arn: string, name: SubscriptionAttributeName,
    v: SubscriptionAttribute)
    ensures NoNewQueue(s.subscriptions, ServiceSpec.SetSubscriptionAttribute(env, s, arn, name, v).store.subscriptions)
  {
    hide AcceptsSubscriptionAttribute, WithEffective, WithSubscriptionAttributes;
  }

  /** Any step at all keeps the queues apart, unless it overlooks a subscription. */
  lemma QueuesStep(env: Env, w: World, a: Action, w': World)
    requires GoodWorld(env, w) && Steps(env, w, a, w') && QueuesDiffer(w.store.subscriptions)
    ensures QueuesDiffer(w'.store.subscriptions) <==> !Overlooks(env, w, a)
  {
    hide GoodWorld, Steps, QueuesDiffer, NoNewQueue;
    if a.Subscribe? {
      SubscribeStep(env, w, a, w');
    } else {
      if a.Confirm? {
        ConfirmStep(env, w, a, w');
      } else {
        OtherQueues(env, w, a, w');
      }
      FewerQueues(w.store.subscriptions, w'.store.subscriptions);
    }
  }

  /** The call that subscribes the queue of a subscription again. */
  function Again(env: Env, sub: Subscription, keys: seq<string>, subs: seq<Subscription>, t: Ticket): Action {
    Action.Subscribe(sub.topicArn, None, Sqs, sub.endpoint, map[], true, keys, subs, Some(Queue(env.cfg.region, false)),
      t)
  }

  /**
   A queue beyond the first 10,000 subscriptions of its topic can always be subscribed once more, and
   then, by `QueuesStep`, it is subscribed twice.
   */
  lemma FarQueueIsOverlooked(env: Env, w: World, keys: seq<string>, subs: seq<Subscription>, k: nat, t: Ticket)
    requires GoodWorld(env, w) && QueuesDiffer(w.store.subscriptions) && env.hasSqs
    requires LIST_LIMIT <= k < |keys| && keys[k] in w.store.subscriptions
      && w.store.subscriptions[keys[k]].protocol.Sqs?
    requires Listing(w.store, w.store.subscriptions[keys[k]].topicArn, keys, subs)
    requires w.now <= t.tokenAt && FreshTicket(w.used, t)
    ensures var a := Again(env, w.store.subscriptions[keys[k]], keys, subs, t);
      Enabled(env, w, a) && Overlooks(env, w, a)
  {
    hide GoodWorld, FreshTicket, Listing, QueuesDiffer, Makes;
    var a := Again(env, w.store.subscriptions[keys[k]], keys, subs, t);
    NothingListed(env, w, keys, subs, k);
    AgainMakes(env, w, keys, subs, k, t);
    assert SameEndpoint(w.store.subscriptions[a.keys[k]], Sqs, a.endpoint);
  }

  lemma NothingListed(env: Env, w: World, keys: seq<string>, subs: seq<Subscription>, k: nat)
    requires GoodWorld(env, w) && QueuesDiffer(w.store.subscriptions)
    requires LIST_LIMIT <= k < |keys| && keys[k] in w.store.subscriptions
      && w.store.subscriptions[keys[k]].protocol.Sqs?
    requires Listing(w.store, w.store.subscriptions[keys[k]].topicArn, keys, subs)
    ensures FindExisting(subs, Sqs, w.store.subscriptions[keys[k]].endpoint).None?
  {
    hide GoodWorld, Paging.Lists;
    var sub := w.store.subscriptions[keys[k]];
    forall i | 0 <= i < |subs| ensures !SameEndpoint(subs[i], Sqs, sub.endpoint) {
      ListedElsewhere(env, w, keys, sub.topicArn, i, k);
    }
    NothingFound(subs, Sqs, sub.endpoint);
  }

  lemma AgainMakes(env: Env, w: World, keys: seq<string>, subs: seq<Subscription>, k: nat, t: Ticket)
    requires GoodWorld(env, w) && k < |keys| && keys[k] in w.store.subscriptions && env.hasSqs
    requires FindExisting(subs, Sqs, w.store.subscriptions[keys[k]].endpoint).None?
    ensures Makes(env, w, Again(env, w.store.subscriptions[keys[k]], keys, subs, t))
  {
    hide Good, FindExisting, TopicOf, UuidOf, ReadableSubscription;
    GoodSubscription(env, w.used, w.store, keys[k]);
  }

  lemma ListedElsewhere(env: Env, w: World, keys: seq<string>, topicArn: string, i: nat, k: nat)
    requires GoodWorld(env, w) && Paging.Lists(keys, StoreSpec.SubsOf(w.store, topicArn)) && i < k < |keys|
    ensures keys[i] != keys[k] && keys[i] in w.store.subscriptions
      && w.store.subscriptions[keys[i]].topicArn == topicArn
  {
    hide Linked, FifoByName, Readable, TokensMatch, StoreSpec.TopicsIndexed, StoreSpec.RecordsKeyed, UuidOf, TopicOf;
    assert keys[i] in keys && keys[k] in keys;
    assert Paging.Below(keys[i], keys[k]);
    Paging.BelowIrreflexive(keys[i]);
  }

  lemma {:induction false} NothingFound(subs: seq<Subscription>, protocol: Protocol, endpoint: string)
    requires forall i :: 0 <= i < |subs| ==> !SameEndpoint(subs[i], protocol, endpoint)
    ensures FindExisting(subs, protocol, endpoint).None?
  {
    if subs != [] {
      assert forall i :: 0 <= i < |subs| - 1 ==> subs[1..][i] == subs[i + 1];
      assert !SameEndpoint(subs[0], protocol, endpoint);
      NothingFound(subs[1..], protocol, endpoint);
    }
  }

  // ---- Runs -----------------------------------------------------------------------------------------------

  /** None of the first `j` steps overlooks a subscription. */
  ghost predicate NoneOverlooked(r: Run, j: nat) {
    forall k :: 0 <= k < j && k < |r.actions| && k < |r.worlds| ==> !Overlooks(r.env, r.worlds[k], r.actions[k])
  }

  /** Topics that have at most 10,000 subscriptions whenever `Subscribe` is called: nothing can be overlooked. */
  lemma SmallTopicsAreSeen(r: Run, j: nat)
    requires forall k :: 0 <= k < j && k < |r.actions| && r.actions[k].Subscribe? ==> |r.actions[k].keys| <= LIST_LIMIT
    ensures NoneOverlooked(r, j)
  {
    hide AcceptsSubscription, FindExisting, LooksForExisting;
  }

  /** In every run no queue is subscribed twice to a topic, unless a subscription was overlooked before. */
  lemma {:induction false} QueuesAlwaysDiffer(r: Run, j: nat)
    requires Valid(r) && j < |r.worlds| && NoneOverlooked(r, j)
    ensures QueuesDiffer(r.worlds[j].store.subscriptions)
  {
    hide GoodWorld, Steps, Overlooks;
    if j > 0 {
      QueuesAlwaysDiffer(r, j - 1);
      ReachableIsGood(r.env, r.worlds, r.actions, j - 1);
      assert StepAt(r.env, r.worlds, r.actions, j - 1);
      QueuesStep(r.env, r.worlds[j - 1], r.actions[j - 1], r.worlds[j]);
    }
  }
}
