/**
 What a call sees of a topic's subscriptions (internal/service/service.go, `findExistingSubscription`
 and `dispatchPublish`): the first 10,000 in the order of their ARNs. A call that fails before it lists
 them would have seen the same.
 */
module Listings {
  import opened Common
  import opened Json
  import opened Domain
  import opened Attributes
  import opened ServiceSpec
  import opened Integrity
  import opened Dispatching
  import opened FanOut
  import Delivery
  import Filter
  import Paging
  import StoreSpec

  lemma GoodIndex(env: Env, used: set<string>, s: StoreState)
    requires Good(env, used, s)
    ensures StoreSpec.SubscriptionsIndexed(s)
  {
    hide StoreSpec.SubscriptionsIndexed, StoreSpec.TopicsIndexed, StoreSpec.RecordsKeyed, Linked, FifoByName, IdsUsed,
      Readable, TokensMatch;
  }

  lemma IndexHolds(s: StoreState, topicArn: string)
    requires StoreSpec.SubscriptionsIndexed(s)
    ensures StoreSpec.SubsOf(s, topicArn) <= s.subscriptions.Keys
  {
  }

  /** The empty token starts the first page, which holds at most the page size. */
  lemma FirstPage(keys: seq<string>)
    ensures Paging.PageOf(keys, "", LIST_LIMIT).keys == keys[..Delivery.Min(|keys|, LIST_LIMIT)]
  {
  }

  lemma ListedApart(s: StoreState, topicArn: string, keys: seq<string>, subs: seq<Subscription>)
    requires StoreSpec.SubscriptionsIndexed(s)
    requires Paging.Lists(keys, StoreSpec.SubsOf(s, topicArn)) && |subs| == Delivery.Min(|keys|, LIST_LIMIT)
    requires forall i :: 0 <= i < |subs| ==> keys[i] in s.subscriptions && subs[i] == s.subscriptions[keys[i]]
    ensures Listing(s, topicArn, keys, subs) && ArnsDiffer(subs)
  {
    hide Paging.Below;
    forall i, j | 0 <= i < j < |subs| ensures subs[i].arn != subs[j].arn {
      assert Paging.Below(keys[i], keys[j]);
      Paging.BelowIrreflexive(keys[i]);
    }
  }

  lemma AnyListing(env: Env, used: set<string>, s: StoreState, topicArn: string)
    returns (keys: seq<string>, subs: seq<Subscription>)
    requires Good(env, used, s)
    ensures Listing(s, topicArn, keys, subs) && ArnsDiffer(subs)
  {
    hide Good, StoreSpec.SubscriptionsIndexed, Paging.Lists, StoreSpec.SubsOf;
    GoodIndex(env, used, s);
    IndexHolds(s, topicArn);
    keys := Paging.SomeListing(StoreSpec.SubsOf(s, topicArn));
    ListedKeys(s, topicArn, keys);
    var n := Delivery.Min(|keys|, LIST_LIMIT);
    subs := seq(n, i requires 0 <= i < n => s.subscriptions[keys[i]]);
    ListedApart(s, topicArn, keys, subs);
  }

  lemma ListedKeys(s: StoreState, topicArn: string, keys: seq<string>)
    requires Paging.Lists(keys, StoreSpec.SubsOf(s, topicArn)) && StoreSpec.SubsOf(s, topicArn) <= s.subscriptions.Keys
    ensures forall i :: 0 <= i < |keys| ==> keys[i] in s.subscriptions
  {
    forall i | 0 <= i < |keys| ensures keys[i] in s.subscriptions {
      assert keys[i] in keys;
    }
  }

  // ---- Calls that do not get that far --------------------------------------------------------------------

  lemma AnySubscribe(env: Env, s: StoreState, topicArn: string, auth: Auth, protocol: Protocol, endpoint: string,
    attrs: SubscriptionEntries, returnArn: bool, a: seq<Subscription>, b: seq<Subscription>, queue: Option<Queue>,
    t: Ticket)
    requires !LooksForExisting(s, topicArn, auth, protocol)
    ensures ServiceSpec.Subscribe(env, s, topicArn, auth, protocol, endpoint, attrs, returnArn, a, queue, t) ==
      ServiceSpec.Subscribe(env, s, topicArn, auth, protocol, endpoint, attrs, returnArn, b, queue, t)
  {
    hide FindExisting, AcceptsSubscription, MadeSubscription, Stored;
  }

  lemma AnyPublish(env: Env, s: StoreState, auth: Auth, input: PublishInput, a: Arrival, subs: seq<Subscription>,
    fate: string -> Fate, subs': seq<Subscription>, fate': string -> Fate)
    requires !Dispatches(env, s, auth, input, a)
    ensures ServiceSpec.Publish(env, s, auth, input, a, subs, fate) ==
      ServiceSpec.Publish(env, s, auth, input, a, subs', fate')
  {
    hide ValidPublishInput, Admit, Admitted, DedupId, ResolveMessages, Enqueued, Deliveries, Redrives;
  }

  /** The subscriptions that the filter evaluator may match, as far as a message can be resolved. */
  ghost function MayMatch(p: Platform, input: PublishInput, subs: seq<Subscription>): set<string> {
    var messages := ResolveMessages(p, input.message, input.messageStructure);
    set i | 0 <= i < |subs| && messages.Some?
      && Decides(p, subs[i], messages.value["default"], input.attributes, true) ::
      subs[i].arn
  }

  /** Any subscriptions can be given possible answers of the evaluator. */
  lemma AnyFiltered(p: Platform, input: PublishInput, subs: seq<Subscription>, calls: string -> Call)
    requires ArnsDiffer(subs)
    ensures Filtered(p, input, subs, FateOf(calls, MayMatch(p, input, subs)))
  {
    hide Decides, ResolveMessages;
    var messages := ResolveMessages(p, input.message, input.messageStructure);
    if messages.Some? {
      var hits, message := MayMatch(p, input, subs), messages.value["default"];
      forall i | 0 <= i < |subs|
        ensures Decides(p, subs[i], message, input.attributes, subs[i].arn in hits)
      {
        DecidesExactly(p, subs[i], message, input.attributes, true);
        DecidesExactly(p, subs[i], message, input.attributes, false);
        MustFailMayFail(p, subs[i], message, input.attributes);
        assert forall k :: 0 <= k < |subs| && subs[k].arn == subs[i].arn ==> k == i;
      }
    }
  }

  lemma MustFailMayFail(p: Platform, sub: Subscription, message: string, attrs: MessageAttributes)
    ensures FilterMustFail(p, sub, message, attrs) ==> FilterMayFail(p, sub, message, attrs)
  {
    hide Filter.SelectionMustFail, Filter.SelectionMayFail;
    Filter.SelectionDecides(p, sub.attributes.filterPolicy, sub.attributes.filterPolicyScope, message, attrs);
  }
}
