/**
 The life of a confirmation token over whole runs (internal/service/service.go,
 `ConfirmSubscription` and `Unsubscribe`): it is used at most once, and using the token of an
 unsubscription undoes it.
 */
module Tokens {
  import opened Common
  import opened Domain
  import opened Attributes
  import opened ServiceSpec
  import opened Runs
  import opened Integrity
  import opened Preservation
  import opened Fifo
  import Delivery
  import StoreSpec

  function ConfirmReply(w: World, a: Action): Reply<string>
    requires a.Confirm?
  {
    ConfirmSubscription(w.store, a.topicArn, a.token, a.authenticated, a.confirmedAt)
  }

  /** The call uses the token: it succeeds with it. */
  predicate Uses(w: World, a: Action, t: string) {
    a.Confirm? && a.token == t && ConfirmReply(w, a).result.Ok?
  }

  predicate Unsubscribes(w: World, a: Action, arn: string) {
    a.Unsubscribe? && a.arn == arn && ServiceSpec.Unsubscribe(w.store, arn, a.byOwner, a.ticket).result.Ok?
  }

  // ---- One step -------------------------------------------------------------------------------------------

  ghost predicate Keeps(s: StoreState, s': StoreState, t: string) {
    (t in s.confirmation <==> t in s'.confirmation) && (t in s.confirmation ==> s'.confirmation[t] == s.confirmation[t])
  }

  ghost predicate KeepsOut(s: StoreState, s': StoreState, t: string) {
    t !in s.confirmation ==> t !in s'.confirmation
  }

  /** What can end a token: being used, the end of its topic, or an unsubscription that removes its subscription. */
  predicate Ends(w: World, a: Action, t: string)
    requires t in w.store.confirmation
  {
    || Uses(w, a, t)
    || Deletes(a, w.store.confirmation[t].topicArn)
    || Unsubscribes(w, a, w.store.confirmation[t].subscriptionArn)
  }

  lemma SubscribeTokens(env: Env, s: StoreState, topicArn: string, auth: Auth, protocol: Protocol, endpoint: string,
    attrs: SubscriptionEntries, returnArn: bool, existing: seq<Subscription>, queue: Option<Queue>, ticket: Ticket,
    t: string)
    requires t != ticket.token
    ensures var s' := ServiceSpec.Subscribe(env, s, topicArn, auth, protocol, endpoint, attrs, returnArn, existing,
        queue, ticket).store;
      Keeps(s, s', t)
  {
    hide FindExisting, MadeSubscription, AcceptsSubscription, Delivery.EffectivePolicy, ConfirmationJob;
  }

  lemma UnsubscribeTokens(w: World, a: Action, t: string)
    requires a.Unsubscribe? && t != a.ticket.token
    ensures var s' := ServiceSpec.Unsubscribe(w.store, a.arn, a.byOwner, a.ticket).store;
      && KeepsOut(w.store, s', t)
      && (t in w.store.confirmation && !Ends(w, a, t) ==> Keeps(w.store, s', t))
  {
    hide Delivery.EffectivePolicy, ConfirmationJob;
  }

  lemma ConfirmTokens(w: World, a: Action, t: string)
    requires a.Confirm?
    ensures Uses(w, a, t) ==> t in w.store.confirmation && t !in ConfirmReply(w, a).store.confirmation
    ensures !Uses(w, a, t) ==> Keeps(w.store, ConfirmReply(w, a).store, t)
  {
  }

  lemma PublishTokens(env: Env, s: StoreState, auth: Auth, input: PublishInput, a: Arrival, subs: seq<Subscription>,
    fate: string -> Fate)
    ensures ServiceSpec.Publish(env, s, auth, input, a, subs, fate).store.confirmation == s.confirmation
    ensures ServiceSpec.Publish(env, s, auth, input, a, subs, fate).store.subscriptions == s.subscriptions
  {
    hide Finish, ValidPublishInput, Admit, Admitted, DedupId;
    FinishTouchesJobs(env, fate);
  }

  lemma FinishTouchesJobs(env: Env, fate: string -> Fate)
    ensures forall s, topic, input, messageId, sequenceNumber, subs ::
      var s' := Finish(env, s, topic, input, messageId, sequenceNumber, subs, fate).store;
      s' == s.(deliveryJobs := s'.deliveryJobs)
  {
    hide ResolveMessages, Enqueued, Deliveries, Redrives, DedupId;
  }

  lemma OtherTokens(env: Env, w: World, a: Action, w': World)
    requires Steps(env, w, a, w') && !a.DeleteTopic? && !a.Subscribe? && !a.Confirm? && !a.Unsubscribe?
    ensures w'.store.confirmation == w.store.confirmation
  {
    hide Listing, StoreSpec.ReadyKeys, FreshTicket, FreshJobs, Filtered, Judge, ServiceSpec.Publish,
      AcceptsSubscriptionAttribute, WithEffective, WithSubscriptionAttributes, ValidTopicName, NewTopic,
      WithTopicAttributes, AcceptsTopicAttribute, AcceptsTopicAttributes, WantsFifo;
    if a.Publish? {
      PublishTokens(env, w.store, a.auth, a.input, a.arrival, a.subs, a.fate);
    }
  }

  ghost predicate TokenChange(w: World, a: Action, w': World, t: string) {
    && (t in w.used ==> t in w'.used && KeepsOut(w.store, w'.store, t))
    && (t in w.store.confirmation && !Ends(w, a, t) ==> Keeps(w.store, w'.store, t))
    && (Uses(w, a, t) ==> t in w.store.confirmation && t !in w'.store.confirmation)
  }

  lemma TokenStep(env: Env, w: World, a: Action, w': World, t: string)
    requires Steps(env, w, a, w') && w.store.confirmation.Keys <= w.used
    ensures TokenChange(w, a, w', t)
  {
    hide Listing, StoreSpec.ReadyKeys, FreshJobs, Filtered, ConfirmSubscription, ServiceSpec.Unsubscribe,
      ServiceSpec.Subscribe, ServiceSpec.Publish, ServiceSpec.CreateTopic, ServiceSpec.SetTopicAttribute,
      ServiceSpec.SetSubscriptionAttribute, ProcessJob;
    match a
    case DeleteTopic(_) =>
    case Subscribe(topicArn, auth, protocol, endpoint, entries, returnArn, _, subs, queue, ticket) =>
      if t != ticket.token {
        SubscribeTokens(env, w.store, topicArn, auth, protocol, endpoint, entries, returnArn, subs, queue, ticket, t);
      }
    case Confirm(_, _, _, _) => ConfirmTokens(w, a, t);
    case Unsubscribe(_, _, _) =>
      if t != a.ticket.token {
        UnsubscribeTokens(w, a, t);
      }
    case _ => OtherTokens(env, w, a, w');
  }

  // ---- Runs -----------------------------------------------------------------------------------------------

  lemma RunTokenStep(r: Run, j: nat, t: string)
    requires Valid(r) && j < |r.actions|
    ensures GoodWorld(r.env, r.worlds[j]) && TokenChange(r.worlds[j], r.actions[j], r.worlds[j + 1], t)
  {
    hide Good, Steps, TokenChange;
    ReachableIsGood(r.env, r.worlds, r.actions, j);
    assert StepAt(r.env, r.worlds, r.actions, j);
    TokensAreUsed(r.env, r.worlds[j]);
    TokenStep(r.env, r.worlds[j], r.actions[j], r.worlds[j + 1], t);
  }

  lemma TokensAreUsed(env: Env, w: World)
    requires GoodWorld(env, w)
    ensures w.store.confirmation.Keys <= w.used
  {
    hide StoreSpec.Indexed, Linked, FifoByName, Readable, TokensMatch, UuidOf;
  }

  /** A token that has gone stays away. */
  lemma {:induction false} GoneForGood(r: Run, i: nat, j: nat, t: string)
    requires Valid(r) && i <= j < |r.worlds| && t in r.worlds[i].used && t !in r.worlds[i].store.confirmation
    ensures t in r.worlds[j].used && t !in r.worlds[j].store.confirmation
  {
    if i < j {
      hide GoodWorld, TokenChange;
      GoneForGood(r, i, j - 1, t);
      RunTokenStep(r, j - 1, t);
      StillGone(r.worlds[j - 1], r.actions[j - 1], r.worlds[j], t);
    }
  }

  lemma StillGone(w: World, a: Action, w': World, t: string)
    requires TokenChange(w, a, w', t) && t in w.used && t !in w.store.confirmation
    ensures t in w'.used && t !in w'.store.confirmation
  {
  }

  /** A token confirms at most once: any later use of it is answered with "not found". */
  lemma ConfirmsOnce(r: Run, i: nat, j: nat, t: string)
    requires Valid(r) && i < j < |r.actions| && Uses(r.worlds[i], r.actions[i], t)
    requires r.actions[j].Confirm? && r.actions[j].token == t
    ensures ConfirmReply(r.worlds[j], r.actions[j]).result == Err(NotFound)
  {
    hide GoodWorld, Ends;
    RunTokenStep(r, i, t);
    TokensAreUsed(r.env, r.worlds[i]);
    GoneForGood(r, i + 1, j, t);
  }

  /** Nothing ends the token in steps `i` to `j - 1`. */
  predicate Undisturbed(r: Run, t: string, topicArn: string, i: nat, j: nat) {
    forall m :: i <= m < j && m < |r.actions| && m < |r.worlds| ==>
      !Uses(r.worlds[m], r.actions[m], t) && !Deletes(r.actions[m], topicArn)
  }

  /**
   The token of an unsubscription stays, and its subscription stays away, until the token is used
   or its topic deleted.
   */
  lemma {:induction false} UnsubscribeTokenStays(r: Run, i: nat, j: nat, t: string)
    requires Valid(r) && i <= j < |r.worlds| && t in r.worlds[i].store.confirmation
    requires r.worlds[i].store.confirmation[t].kind.UnsubscribeToken?
    requires Undisturbed(r, t, r.worlds[i].store.confirmation[t].topicArn, i, j)
    ensures t in r.worlds[j].store.confirmation
    ensures r.worlds[j].store.confirmation[t] == r.worlds[i].store.confirmation[t]
    ensures r.worlds[i].store.confirmation[t].subscriptionArn !in r.worlds[j].store.subscriptions
  {
    hide GoodWorld, Uses;
    if i < j {
      UnsubscribeTokenStays(r, i, j - 1, t);
      RunTokenStep(r, j - 1, t);
      NotUnsubscribed(r.worlds[j - 1], r.actions[j - 1], r.worlds[i].store.confirmation[t].subscriptionArn);
    }
    ReachableIsGood(r.env, r.worlds, r.actions, j);
    GoneSubscription(r.env, r.worlds[j], t);
  }

  lemma NotUnsubscribed(w: World, a: Action, arn: string)
    requires arn !in w.store.subscriptions
    ensures !Unsubscribes(w, a, arn)
  {
  }

  lemma GoneSubscription(env: Env, w: World, t: string)
    requires GoodWorld(env, w) && t in w.store.confirmation && w.store.confirmation[t].kind.UnsubscribeToken?
    ensures w.store.confirmation[t].subscriptionArn !in w.store.subscriptions
  {
    hide Base;
  }

  lemma AfterUnsubscribe(env: Env, w: World, a: Action, w': World)
    requires Steps(env, w, a, w') && a.Unsubscribe? && Unsubscribes(w, a, a.arn)
    requires Pushed(w.store.subscriptions[a.arn].protocol)
    ensures a.ticket.token in w'.store.confirmation
    ensures w'.store.confirmation[a.ticket.token] == UnsubscribeTokenFor(w.store.subscriptions[a.arn], a.ticket)
  {
    hide Delivery.EffectivePolicy, ConfirmationJob, StoreSpec.DeleteSubscription;
  }

  /**
   Unsubscribing a pushed subscription and then confirming with the token that was sent restores
   the record, whatever happens in between short of using the token or deleting the topic. The
   confirmation is accepted exactly until 48 hours after the unsubscription, and what it restores
   is the identical record exactly when that one was confirmed.
   */
  lemma UnsubscribeThenConfirm(r: Run, i: nat, j: nat, arn: string)
    requires Valid(r) && i < j < |r.actions| && Unsubscribes(r.worlds[i], r.actions[i], arn)
    requires Pushed(r.worlds[i].store.subscriptions[arn].protocol)
    requires r.actions[j].Confirm? && r.actions[j].token == r.actions[i].ticket.token
    requires r.actions[j].topicArn == r.worlds[i].store.subscriptions[arn].topicArn
    requires Undisturbed(r, r.actions[i].ticket.token, r.actions[j].topicArn, i, j)
    ensures arn !in r.worlds[j].store.subscriptions
    ensures var sub, s' := r.worlds[i].store.subscriptions[arn], r.worlds[j + 1].store;
      && (ConfirmReply(r.worlds[j], r.actions[j]).result.Ok? <==>
            r.actions[j].confirmedAt <= r.actions[i].ticket.tokenAt + TOKEN_LIFETIME)
      && (ConfirmReply(r.worlds[j], r.actions[j]).result.Ok? ==>
            && ConfirmReply(r.worlds[j], r.actions[j]).result == Ok(arn)
            && arn in s'.subscriptions && arn in StoreSpec.SubsOf(s', sub.topicArn)
            && r.actions[i].ticket.token !in s'.confirmation
            && (s'.subscriptions[arn] == sub <==> sub.confirmed))
  {
    hide Good, Steps, Delivery.EffectivePolicy, ConfirmationJob, StoreSpec.DeleteSubscription;
    var t := r.actions[i].ticket.token;
    ReachableIsGood(r.env, r.worlds, r.actions, i);
    assert StepAt(r.env, r.worlds, r.actions, i);
    AfterUnsubscribe(r.env, r.worlds[i], r.actions[i], r.worlds[i + 1]);
    GoodSubscription(r.env, r.worlds[i].used, r.worlds[i].store, arn);
    UnsubscribeTokenStays(r, i + 1, j, t);
    assert StepAt(r.env, r.worlds, r.actions, j);
    AfterConfirm(r.env, r.worlds[j], r.actions[j], r.worlds[j + 1]);
  }

  lemma AfterConfirm(env: Env, w: World, a: Action, w': World)
    requires Steps(env, w, a, w') && a.Confirm?
    ensures w'.store == ConfirmReply(w, a).store
  {
    hide ConfirmSubscription;
  }

  /** In every run neither confirming nor unsubscribing ends in an internal error. */
  lemma NeverInternal(r: Run, k: nat)
    requires Valid(r) && k < |r.actions|
    ensures r.actions[k].Confirm? ==> ConfirmReply(r.worlds[k], r.actions[k]).result != Err(Internal)
    ensures r.actions[k].Unsubscribe? ==>
      var a := r.actions[k];
      ServiceSpec.Unsubscribe(r.worlds[k].store, a.arn, a.byOwner, a.ticket).result != Err(Internal)
  {
    hide Good, ServiceSpec.Unsubscribe, ConfirmSubscription;
    ReachableIsGood(r.env, r.worlds, r.actions, k);
    var s, used, a := r.worlds[k].store, r.worlds[k].used, r.actions[k];
    if a.Confirm? {
      ConfirmNoInternal(r.env, used, s, a.topicArn, a.token, a.authenticated, a.confirmedAt);
    } else if a.Unsubscribe? {
      UnsubscribeNoInternal(r.env, used, s, a.arn, a.byOwner, a.ticket);
    }
  }
}
