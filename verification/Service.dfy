/**
 The service and its worker as an object over the in-memory store (internal/service/service.go and
 worker.go). Every method is tied to the function of `ServiceSpec` that the theorems on runs are
 about, and keeps the invariant of `Integrity`. Where there is a method of the same name that begins
 with `Try`, it does the work on the store alone, in the order of the source, and the call itself adds
 that the invariant is kept.
 */
module Service {
  import opened Common
  import opened Json
  import opened Domain
  import opened Attributes
  import opened ServiceSpec
  import opened TopicRecords
  import opened Dispatching
  import opened Listings
  import opened Runs
  import opened Integrity
  import opened Preservation
  import opened FanOut
  import AccessPolicy
  import Delivery
  import Filter
  import MemoryStore
  import Paging
  import StoreSpec

  /** `authorizeTopic` denies what the topic's policy may deny, and refuses to guess at an unreadable policy. */
  ghost predicate Decision(env: Env, identity: string, topic: Topic, action: string, auth: Auth) {
    match AccessPolicy.Parse(topic.attributes.policy)
    case None => auth == Some(InvalidParameter)
    case Some(doc) =>
      && auth in {None, Some(Authorization)}
      && AccessPolicy.EvaluationGives(env.p, doc, AccessPolicy.TopicRequest(identity, action, topic.arn),
           env.cfg.account, auth.None?)
  }

  /** Under well-formed principals the decision is what the policy means. */
  lemma DecisionIsMeaning(env: Env, identity: string, topic: Topic, action: string, auth: Auth)
    requires Decision(env, identity, topic, action, auth)
    ensures var doc, req := AccessPolicy.Parse(topic.attributes.policy),
      AccessPolicy.TopicRequest(identity, action, topic.arn);
      && (doc.Some? && AccessPolicy.WellFormedPrincipals(doc.value, req) ==>
            auth == if AccessPolicy.Allowed(env.p, doc.value, req, env.cfg.account) then None else Some(Authorization))
      && (auth.None? && identity != env.cfg.account ==>
            exists st :: st in doc.value.statements && AccessPolicy.StatementHolds(env.p, st, req)
              && AccessPolicy.Allows(env.p, st))
  {
    hide AccessPolicy.EvaluationGives, AccessPolicy.WellFormedPrincipals, AccessPolicy.Allowed,
      AccessPolicy.StatementHolds;
    var doc := AccessPolicy.Parse(topic.attributes.policy);
    if doc.Some? {
      AccessPolicy.WellFormedDecides(env.p, doc.value, AccessPolicy.TopicRequest(identity, action, topic.arn),
        env.cfg.account);
    }
  }

  /** The matches are possible answers of the filter evaluator. */
  ghost predicate FilteredBy(p: Platform, o: Outgoing, subs: seq<Subscription>, hits: set<string>)
    requires "default" in o.messages
  {
    forall i :: 0 <= i < |subs| ==>
      && (subs[i].arn in hits ==> subs[i].confirmed && !subs[i].pendingConfirmation)
      && (subs[i].confirmed && !subs[i].pendingConfirmation ==>
            Decides(p, subs[i], o.messages["default"], o.input.attributes, subs[i].arn in hits))
  }

  /** What is known of the matches even if the walk stopped early: none is false. */
  ghost predicate HonestBy(p: Platform, o: Outgoing, subs: seq<Subscription>, hits: set<string>)
    requires "default" in o.messages
  {
    forall i :: 0 <= i < |subs| && subs[i].arn in hits ==>
      && subs[i].confirmed && !subs[i].pendingConfirmation
      && FilterSelects(p, subs[i], o.messages["default"], o.input.attributes)
  }

  /** The fates use the identifiers, readings and queue answers of the calls. */
  ghost predicate Answers(calls: string -> Call, fate: string -> Fate) {
    forall arn ::
      fate(arn).jobId == calls(arn).jobId && fate(arn).at == calls(arn).at && fate(arn).accepted == calls(arn).accepted
  }

  /**
   A publication of the store `s` as it is: the policy decided it, its listing is that of the topic's
   subscriptions, and its matches are possible answers of the filter evaluator.
   */
  ghost predicate Genuine(env: Env, identity: string, s: StoreState, calls: string -> Call, p: Publication) {
    && (p.input.topicArn in s.topics ==> Decision(env, identity, s.topics[p.input.topicArn], "SNS:Publish", p.auth))
    && Listing(s, p.input.topicArn, p.keys, p.subs) && Filtered(env.p, p.input, p.subs, p.fate)
    && Answers(calls, p.fate)
  }

  /** Each entry is published, on the store as the entries before it left it. */
  ghost predicate OneAfterAnother(env: Env, identity: string, topicArn: string, s: StoreState,
    entries: seq<BatchEntry>, arrivals: seq<Arrival>, calls: seq<string -> Call>, ps: seq<Publication>)
    requires |ps| <= |entries| == |arrivals| == |calls|
  {
    forall i :: 0 <= i < |ps| ==>
      && ps[i].input == entries[i].input.(topicArn := topicArn) && ps[i].arrival == arrivals[i]
      && Genuine(env, identity, PublishedAll(env, s, ps[..i]), calls[i], ps[i])
  }

  lemma NoEntryYet(env: Env, identity: string, topicArn: string, s: StoreState, entries: seq<BatchEntry>,
    arrivals: seq<Arrival>, calls: seq<string -> Call>)
    requires |entries| == |arrivals| == |calls|
    ensures OneAfterAnother(env, identity, topicArn, s, entries, arrivals, calls, [])
  {
    hide Genuine, PublishedAll;
  }

  lemma OneMoreEntry(env: Env, identity: string, topicArn: string, s: StoreState, entries: seq<BatchEntry>,
    arrivals: seq<Arrival>, calls: seq<string -> Call>, ps: seq<Publication>, p: Publication)
    requires |ps| < |entries| == |arrivals| == |calls|
    requires OneAfterAnother(env, identity, topicArn, s, entries, arrivals, calls, ps)
    requires p.input == entries[|ps|].input.(topicArn := topicArn) && p.arrival == arrivals[|ps|]
    requires Genuine(env, identity, PublishedAll(env, s, ps), calls[|ps|], p)
    ensures OneAfterAnother(env, identity, topicArn, s, entries, arrivals, calls, ps + [p])
  {
    hide Genuine, PublishedAll;
    assert forall k :: 0 <= k <= |ps| ==> (ps + [p])[..k] == ps[..k];
    assert ps[..|ps|] == ps;
  }

  /** Every subscription would get a job identifier of its own, never handed out before. */
  ghost predicate FreshCalls(used: set<string>, calls: string -> Call) {
    && (forall a :: calls(a).jobId !in used)
    && (forall a, b :: a != b ==> calls(a).jobId != calls(b).jobId)
  }

  function JobIds(subs: seq<Subscription>, calls: string -> Call): set<string> {
    set i | 0 <= i < |subs| :: calls(subs[i].arn).jobId
  }

  /** The job identifiers of the publications of a batch. */
  function BatchJobIds(ps: seq<Publication>, calls: seq<string -> Call>): set<string>
    requires |ps| <= |calls|
  {
    if ps == [] then {}
    else BatchJobIds(ps[..|ps| - 1], calls) + JobIds(ps[|ps| - 1].subs, calls[|ps| - 1])
  }

  /** The entries of a batch share no identifiers either. */
  ghost predicate FreshBatch(used: set<string>, calls: seq<string -> Call>) {
    && (forall i :: 0 <= i < |calls| ==> FreshCalls(used, calls[i]))
    && (forall i, j, a, b :: 0 <= i < j < |calls| ==> calls[i](a).jobId != calls[j](b).jobId)
  }

  /** The index of names leads to topics that know their own ARN. */
  ghost predicate NamesExact(s: StoreState) {
    forall n :: n in s.topicsByName ==>
      s.topicsByName[n] in s.topics && s.topics[s.topicsByName[n]].arn == s.topicsByName[n]
  }

  class Service {
    const env: Env
    const store: MemoryStore.Store
    ghost var used: set<string>

    ghost predicate Valid()
      reads this, store, store.state, store.state.topics, store.state.topics.owned, store.state.topics.plains,
            store.state.topics.tags, store.state.topics.sequences, store.state.topics.dedups,
            store.state.topics.members, store.state.subscriptions, store.state.subscriptions.owned,
            store.state.subsByTopic, store.state.subsByTopic.owned, store.state.deliveryJobs,
              store.state.deliveryJobs.owned
    {
      store.Valid() && Good(env, used, store.View())
    }

    constructor (env: Env)
      ensures Valid() && store.View() == StoreSpec.EMPTY && used == {} && this.env == env
    {
      this.env := env;
      store := new MemoryStore.Store();
      used := {};
      new;
      StartIsGood(env);
    }

    method Authorize(identity: string, topic: Topic, action: string) returns (auth: Auth)
      ensures Decision(env, identity, topic, action, auth)
    {
      var req := AccessPolicy.TopicRequest(identity, action, topic.arn);
      var allowed := AccessPolicy.Evaluate(env.p, topic.attributes.policy, req, env.cfg.account);
      if allowed.Err? {
        return Some(InvalidParameter);
      }
      return if allowed.value then None else Some(Authorization);
    }

    method CreateTopic(name: string, attrs: TopicEntries, tags: map<string, string>, now: Time, later: Time)
      returns (r: Result<string, ApiError>)
      requires Valid()
      modifies store
      ensures Valid() && used == old(used)
      ensures var reply := ServiceSpec.CreateTopic(env, old(store.View()), name, attrs, tags, now, later);
        store.View() == reply.store && r == reply.result
    {
      hide MemoryStore.State.Valid, Good, ServiceSpec.CreateTopic;
      NamesAreExact(env, used, store.View());
      CreateTopicGood(env, used, store.View(), name, attrs, tags, now, later);
      r := TryCreateTopic(name, attrs, tags, now, later);
    }

    /** `CreateTopic` on the store alone. */
    method TryCreateTopic(name: string, attrs: TopicEntries, tags: map<string, string>, now: Time, later: Time)
      returns (r: Result<string, ApiError>)
      requires store.Valid() && NamesExact(store.View())
      modifies store
      ensures store.Valid()
      ensures var reply := ServiceSpec.CreateTopic(env, old(store.View()), name, attrs, tags, now, later);
        store.View() == reply.store && r == reply.result
    {
      hide MemoryStore.State.Valid, WithTopicAttributes, AcceptsTopicAttributes, NewTopic, ValidTopicName,
        TopicRecord.Valid;
      var fifo := WantsFifo(env.p, attrs);
      if !ValidTopicName(name, fifo) {
        return Err(InvalidParameter);
      }
      var existing := store.FindTopicByName(name);
      if existing.Some? {
        return Ok(existing.value.arn);
      }
      NewTopicFields(env, name, fifo, tags, now);
      var applied, record := MakeTopic(name, attrs, tags, now, later);
      if !applied {
        return Err(InvalidParameter);
      }
      if |tags| > 50 {
        return Err(TagLimitExceeded);
      }
      var created := store.CreateTopic(record);
      return Ok(record.arn);
    }

    /** The record of a new topic, with its attributes written into it. */
    method MakeTopic(name: string, attrs: TopicEntries, tags: map<string, string>, now: Time, later: Time)
      returns (ok: bool, record: TopicRecord)
      ensures record.Valid()
      ensures var topic := NewTopic(env, name, WantsFifo(env.p, attrs), tags, now);
        && ok == AcceptsTopicAttributes(env.p, topic.attributes, true, attrs)
        && (ok ==> record.arn == topic.arn)
        && var made := topic.(attributes := WithTopicAttributes(env.p, topic.attributes, attrs), updatedAt := later);
           ok ==> record.value == made
    {
      hide WithTopicAttributes, AcceptsTopicAttributes;
      record := new TopicRecord(NewTopic(env, name, WantsFifo(env.p, attrs), tags, now));
      ok := ApplyTopicAttributes(env.p, record, attrs, true, later);
    }

    method DeleteTopic(arn: string)
      requires Valid()
      modifies store
      ensures Valid() && used == old(used) && store.View() == StoreSpec.DeleteTopic(old(store.View()), arn)
    {
      hide MemoryStore.State.Valid, Good;
      DeleteTopicGood(env, used, store.View(), arn);
      store.DeleteTopic(arn);
    }

    method SetTopicAttribute(identity: string, arn: string, name: TopicAttributeName, value: TopicAttribute, now: Time)
      returns (r: Result<(), ApiError>, ghost auth: Auth)
      requires Valid()
      modifies store
      ensures Valid() && used == old(used)
      ensures var reply := ServiceSpec.SetTopicAttribute(env, old(store.View()), arn, auth, name, value, now);
        store.View() == reply.store && r == reply.result
      ensures arn in old(store.View()).topics ==>
        Decision(env, identity, old(store.View()).topics[arn], "SNS:SetTopicAttributes", auth)
    {
      hide MemoryStore.State.Valid, Good, Decision, ServiceSpec.SetTopicAttribute;
      r, auth := TrySetTopicAttribute(identity, arn, name, value, now);
      SetTopicAttributeGood(env, used, old(store.View()), arn, auth, name, value, now);
    }

    /** `SetTopicAttribute` on the store alone. */
    method TrySetTopicAttribute(identity: string, arn: string, name: TopicAttributeName, value: TopicAttribute,
      now: Time)
      returns (r: Result<(), ApiError>, ghost auth: Auth)
      requires store.Valid()
      modifies store
      ensures store.Valid()
      ensures var reply := ServiceSpec.SetTopicAttribute(env, old(store.View()), arn, auth, name, value, now);
        store.View() == reply.store && r == reply.result
      ensures arn in old(store.View()).topics ==>
        Decision(env, identity, old(store.View()).topics[arn], "SNS:SetTopicAttributes", auth)
    {
      hide MemoryStore.State.Valid, WithTopicAttributes, AcceptsTopicAttribute, Decision;
      auth := None;
      var topic := store.GetTopic(arn);
      if topic.None? {
        return Err(NotFound), auth;
      }
      var decision := Authorize(identity, topic.value, "SNS:SetTopicAttributes");
      auth := decision;
      if decision.Some? {
        return Err(decision.value), auth;
      }
      OneEntry(env.p, topic.value.attributes, false, name, value);
      hide AcceptsTopicAttributes;
      var updated, told := store.UpdateTopic(arn, ApplyAttributes(env.p, map[name := value], now));
      return (if updated.Ok? then Ok(()) else Err(InvalidParameter)), auth;
    }

    /**
     `TagTopic`, `UntagTopic`, `AddPermission` and `RemovePermission`, which differ in what they ask the
     policy for and in what they prepare for `UpdateTopic`.
     */
    method EditTopic(identity: string, arn: string, edit: TopicEdit)
      returns (r: Result<(), ApiError>, ghost auth: Auth)
      requires Valid()
      modifies store
      ensures Valid() && used == old(used)
      ensures var reply := ServiceSpec.EditTopic(env.p, old(store.View()), arn, auth, edit);
        store.View() == reply.store && r == reply.result
      ensures arn in old(store.View()).topics ==>
        var topic := old(store.View()).topics[arn];
        && (edit.Tag? ==> Decision(env, identity, topic, "SNS:TagResource", auth))
        && (edit.Untag? ==> Decision(env, identity, topic, "SNS:UntagResource", auth))
        && (edit.Permit? ==> Decision(env, identity, topic, "SNS:AddPermission", auth))
        && (edit.Revoke? ==> Decision(env, identity, topic, "SNS:RemovePermission", auth))
    {
      hide MemoryStore.State.Valid, Good, Decision, ServiceSpec.EditTopic;
      r, auth := TryEditTopic(identity, arn, edit);
      EditTopicGood(env, used, old(store.View()), arn, auth, edit);
    }

    /** The same on the store alone. */
    method TryEditTopic(identity: string, arn: string, edit: TopicEdit)
      returns (r: Result<(), ApiError>, ghost auth: Auth)
      requires store.Valid()
      modifies store
      ensures store.Valid()
      ensures var reply := ServiceSpec.EditTopic(env.p, old(store.View()), arn, auth, edit);
        store.View() == reply.store && r == reply.result
      ensures arn in old(store.View()).topics ==>
        Decision(env, identity, old(store.View()).topics[arn], ActionOf(edit), auth)
    {
      hide MemoryStore.State.Valid, Decision, Edited, TopicRecords.Outcome, TopicRecords.Tells;
      auth := None;
      var topic := store.GetTopic(arn);
      if topic.None? {
        return Err(NotFound), auth;
      }
      var decision := Authorize(identity, topic.value, ActionOf(edit));
      auth := decision;
      if decision.Some? {
        return Err(decision.value), auth;
      }
      var update := PrepareEdit(arn, topic.value, edit);
      if update.Err? {
        return Err(update.error), auth;
      }
      var updated, told := store.UpdateTopic(arn, update.value);
      return Ok(()), auth;
    }

    /** The checks before `UpdateTopic`, and the closure given to it. */
    method PrepareEdit(arn: string, topic: Topic, edit: TopicEdit) returns (r: Result<TopicUpdate, ApiError>)
      ensures match Edited(env.p, arn, topic, edit)
        case Ok(edited) => r.Ok? && TopicRecords.Outcome(r.value, topic) == Ok(edited)
        case Err(e) => r == Err(e)
    {
      hide AccessPolicy.AddSpec, AccessPolicy.RemoveSpec;
      match edit
      case Tag(tags) =>
        return if |topic.tags| + |tags| > 50 then Err(TagLimitExceeded) else Ok(PutTags(tags));
      case Untag(keys) => return Ok(DropTags(keys));
      case Permit(sid, accounts, actions) =>
        var policy := AccessPolicy.AddPermission(env.p, topic.attributes.policy, sid, accounts, actions, arn);
        return if policy.None? then Err(InvalidParameter) else Ok(ReplacePolicy(policy.value));
      case Revoke(sid) =>
        var policy := AccessPolicy.RemovePermission(topic.attributes.policy, sid);
        return if policy.None? then Err(NotFound) else Ok(ReplacePolicy(policy.value));
    }

    method Subscribe(identity: string, topicArn: string, protocol: Protocol, endpoint: string,
      attrs: SubscriptionEntries, returnArn: bool, queue: Option<Queue>, t: Ticket)
      returns (r: Result<Subscribed, ApiError>, ghost auth: Auth, ghost keys: seq<string>,
      ghost existing: seq<Subscription>)
      requires Valid() && FreshTicket(used, t)
      modifies this, store
      ensures Valid() && used == old(used) + {t.uuid, t.token, t.jobId}
      ensures var reply :=
        ServiceSpec.Subscribe(env, old(store.View()), topicArn, auth, protocol, endpoint, attrs, returnArn,
          existing, queue, t);
        store.View() == reply.store && r == reply.result
      ensures topicArn in old(store.View()).topics ==>
        Decision(env, identity, old(store.View()).topics[topicArn], "SNS:Subscribe", auth)
      ensures Listing(old(store.View()), topicArn, keys, existing)
    {
      hide MemoryStore.State.Valid, Good, Decision, Listing, FreshTicket, ServiceSpec.Subscribe;
      r, auth, keys, existing := TrySubscribe(identity, topicArn, protocol, endpoint, attrs, returnArn, queue, t);
      if !LooksForExisting(old(store.View()), topicArn, auth, protocol) {
        ghost var unseen;
        keys, unseen := AnyListing(env, used, old(store.View()), topicArn);
        AnySubscribe(env, old(store.View()), topicArn, auth, protocol, endpoint, attrs, returnArn, existing, unseen,
          queue, t);
        existing := unseen;
      }
      SubscribeGood(env, used, old(store.View()), topicArn, auth, protocol, endpoint, attrs, returnArn, existing, queue,
        t);
      used := used + {t.uuid, t.token, t.jobId};
    }

    /** `Subscribe` on the store alone. */
    method TrySubscribe(identity: string, topicArn: string, protocol: Protocol, endpoint: string,
      attrs: SubscriptionEntries, returnArn: bool, queue: Option<Queue>, t: Ticket)
      returns (r: Result<Subscribed, ApiError>, ghost auth: Auth, ghost keys: seq<string>,
      ghost existing: seq<Subscription>)
      requires Valid()
      modifies store
      ensures store.Valid()
      ensures var reply :=
        ServiceSpec.Subscribe(env, old(store.View()), topicArn, auth, protocol, endpoint, attrs, returnArn,
          existing, queue, t);
        store.View() == reply.store && r == reply.result
      ensures topicArn in old(store.View()).topics ==>
        Decision(env, identity, old(store.View()).topics[topicArn], "SNS:Subscribe", auth)
      ensures LooksForExisting(old(store.View()), topicArn, auth, protocol) ==>
        Listing(old(store.View()), topicArn, keys, existing)
    {
      hide MemoryStore.State.Valid, Good, Decision, MadeSubscription, AcceptsSubscription, FindExisting, Listing,
        Delivery.EffectivePolicy, StoreSpec.CreateSubscription, SubscribeTokenFor, ConfirmationJob,
        StoreSpec.SubscriptionsIndexed;
      auth, keys, existing := None, [], [];
      var topic := store.GetTopic(topicArn);
      if topic.None? {
        return Err(NotFound), auth, keys, existing;
      }
      var decision := Authorize(identity, topic.value, "SNS:Subscribe");
      auth := decision;
      if decision.Some? {
        return Err(decision.value), auth, keys, existing;
      }
      if protocol.OtherProtocol? || (topic.value.attributes.fifoTopic && !protocol.Sqs?) {
        return Err(InvalidParameter), auth, keys, existing;
      }
      GoodIndex(env, used, store.View());
      r, keys, existing := SubscribeTo(topic.value, topicArn, protocol, endpoint, attrs, returnArn, queue, t);
    }

    /** The part of `Subscribe` after the topic is found, the caller allowed and the protocol accepted. */
    method SubscribeTo(topic: Topic, topicArn: string, protocol: Protocol, endpoint: string,
      attrs: SubscriptionEntries, returnArn: bool, queue: Option<Queue>, t: Ticket)
      returns (r: Result<Subscribed, ApiError>, ghost keys: seq<string>, ghost existing: seq<Subscription>)
      requires store.Valid() && StoreSpec.SubscriptionsIndexed(store.View())
      requires topicArn in store.View().topics && store.View().topics[topicArn] == topic
      requires !protocol.OtherProtocol? && (topic.attributes.fifoTopic ==> protocol.Sqs?)
      modifies store
      ensures store.Valid()
      ensures var reply :=
        ServiceSpec.Subscribe(env, old(store.View()), topicArn, None, protocol, endpoint, attrs, returnArn,
          existing, queue, t);
        store.View() == reply.store && r == reply.result
      ensures Listing(old(store.View()), topicArn, keys, existing)
    {
      hide MemoryStore.State.Valid, StoreSpec.SubscriptionsIndexed, MadeSubscription, AcceptsSubscription,
        FindExisting, Listing, Stored;
      var found;
      found, keys, existing := FindExistingSubscription(topicArn, protocol, endpoint);
      if found.Some? {
        return Ok(ReplyFor(found.value, returnArn)), keys, existing;
      }
      var sub := BuildSubscription(topic, topicArn, protocol, endpoint, attrs, queue, t);
      if sub.None? {
        return Err(InvalidParameter), keys, existing;
      }
      r := AddSubscription(topic, sub.value, returnArn, t);
    }

    /** The record that `Subscribe` is about to store, or nothing if it is refused. */
    method BuildSubscription(topic: Topic, topicArn: string, protocol: Protocol, endpoint: string,
      attrs: SubscriptionEntries, queue: Option<Queue>, t: Ticket) returns (r: Option<Subscription>)
      ensures r == if AcceptsSubscription(env, topic, protocol, endpoint, attrs, queue)
        then Some(MadeSubscription(env.p, topicArn, topic.attributes.deliveryPolicy, t.uuid, protocol, endpoint, attrs,
          t.tokenAt))
        else None
    {
      hide AcceptsSubscriptionAttributes, ValidQueue, ValidUrl, WithEffective, WithSubscriptionAttributes;
      var plain := NewSubscription(topicArn, t.uuid, protocol, endpoint, t.tokenAt);
      var applied :=
        ApplySubscriptionAttributes(env.p, plain.attributes, protocol, topic.attributes.deliveryPolicy, attrs);
      if applied.None? {
        return None;
      }
      if protocol.Sqs? {
        if !ValidQueue(env, topic, queue) {
          return None;
        }
      } else if protocol in env.adapters && !ValidUrl(endpoint) {
        return None;
      }
      return Some(plain.(attributes := applied.value));
    }

    /** The end of `Subscribe`: a plain store call, or a transaction of three. */
    method AddSubscription(topic: Topic, sub: Subscription, returnArn: bool, t: Ticket)
      returns (r: Result<Subscribed, ApiError>)
      requires store.Valid()
      modifies store
      ensures store.Valid()
      ensures var reply := Stored(old(store.View()), topic, sub, returnArn, t);
        store.View() == reply.store && r == reply.result
    {
      hide MemoryStore.State.Valid, Delivery.EffectivePolicy, StoreSpec.CreateSubscription, ConfirmationJob, ReplyFor;
      if sub.protocol.Sqs? {
        store.CreateSubscription(sub);
        return Ok(ReplyFor(sub, returnArn));
      }
      var effective := Delivery.EffectivePolicy(topic.attributes.deliveryPolicy, sub.attributes.deliveryPolicy);
      if effective.None? {
        return Err(Internal);
      }
      var tx := store.Begin();
      tx.CreateSubscription(sub);
      tx.confirmation := tx.confirmation[t.token := SubscribeTokenFor(sub, t)];
      tx.EnqueueDeliveryJob(ConfirmationJob(topic, sub, SubscriptionConfirmation, effective.value, t));
      store.Commit(tx);
      return Ok(ReplyFor(sub, returnArn));
    }

    /** `findExistingSubscription`: a scan of the first 10,000 subscriptions of the topic. */
    method FindExistingSubscription(topicArn: string, protocol: Protocol, endpoint: string)
      returns (found: Option<Subscription>, ghost keys: seq<string>, ghost subs: seq<Subscription>)
      requires store.Valid() && StoreSpec.SubscriptionsIndexed(store.View())
      ensures Listing(store.View(), topicArn, keys, subs) && found == FindExisting(subs, protocol, endpoint)
    {
      hide MemoryStore.State.Valid, StoreSpec.SubscriptionsIndexed, Paging.Lists, FindExisting;
      IndexHolds(store.View(), topicArn);
      var items, next;
      items, next, keys := store.state.ListSubscriptionsByTopic(topicArn, "", LIST_LIMIT);
      subs := items;
      FirstPage(keys);
      found := FirstMatch(items, protocol, endpoint);
    }

    method FirstMatch(items: seq<Subscription>, protocol: Protocol, endpoint: string)
      returns (found: Option<Subscription>)
      ensures found == FindExisting(items, protocol, endpoint)
    {
      hide SameEndpoint;
      for i := 0 to |items|
        invariant FindExisting(items, protocol, endpoint) == FindExisting(items[i..], protocol, endpoint)
      {
        if SameEndpoint(items[i], protocol, endpoint) {
          return Some(items[i]);
        }
      }
      return None;
    }

    method ConfirmSubscription(topicArn: string, token: string, authenticated: bool, now: Time)
      returns (r: Result<string, ApiError>)
      requires Valid()
      modifies store
      ensures Valid() && used == old(used)
      ensures var reply := ServiceSpec.ConfirmSubscription(old(store.View()), topicArn, token, authenticated, now);
        store.View() == reply.store && r == reply.result
    {
      hide MemoryStore.State.Valid, Good, StoreSpec.CreateSubscription;
      ConfirmGood(env, used, store.View(), topicArn, token, authenticated, now);
      var record := store.GetConfirmationToken(token);
      if record.None? {
        return Err(NotFound);
      }
      if record.value.topicArn != topicArn || now > record.value.expiresAt {
        return Err(InvalidParameter);
      }
      match record.value.kind {
        case SubscribeToken =>
          var sub :=
            store.UpdateSubscription(record.value.subscriptionArn,
              (sub: Subscription) => Ok(Confirmed(sub, authenticated)));
          if sub.Err? {
            return Err(NotFound);
          }
          store.DeleteConfirmationToken(token);
          return Ok(sub.value.arn);
        case UnsubscribeToken =>
          if record.value.restore.None? {
            return Err(Internal);
          }
          var restore := Restored(record.value.restore.value, record.value.authenticateOnUnsubscribe);
          store.CreateSubscription(restore);
          store.DeleteConfirmationToken(token);
          return Ok(restore.arn);
        case OtherToken(_) => return Err(InvalidParameter);
      }
    }

    method Unsubscribe(identity: string, arn: string, t: Ticket) returns (r: Result<(), ApiError>)
      requires Valid() && FreshTicket(used, t)
      modifies this, store
      ensures Valid() && used == old(used) + {t.uuid, t.token, t.jobId}
      ensures var reply := ServiceSpec.Unsubscribe(old(store.View()), arn, identity == env.cfg.account, t);
        store.View() == reply.store && r == reply.result
    {
      hide MemoryStore.State.Valid, Good, Delivery.EffectivePolicy, FreshTicket, StoreSpec.DeleteSubscription;
      UnsubscribeGood(env, used, store.View(), arn, identity == env.cfg.account, t);
      used := used + {t.uuid, t.token, t.jobId};
      r := RemoveSubscription(identity, arn, t);
    }

    /** `Unsubscribe` on the store alone. */
    method RemoveSubscription(identity: string, arn: string, t: Ticket) returns (r: Result<(), ApiError>)
      requires store.Valid()
      modifies store
      ensures store.Valid()
      ensures var reply := ServiceSpec.Unsubscribe(old(store.View()), arn, identity == env.cfg.account, t);
        store.View() == reply.store && r == reply.result
    {
      hide MemoryStore.State.Valid, Delivery.EffectivePolicy, ConfirmationJob, UnsubscribeTokenFor,
        StoreSpec.EnqueueJob, StoreSpec.PutToken;
      var sub := store.GetSubscription(arn);
      if sub.None? {
        return Err(NotFound);
      }
      if sub.value.authenticateOnUnsubscribe && identity != env.cfg.account {
        return Err(Authorization);
      }
      var topic := store.GetTopic(sub.value.topicArn);
      if topic.None? {
        return Err(NotFound);
      }
      if !Pushed(sub.value.protocol) {
        var removed := store.DeleteSubscription(arn);
        return Ok(());
      }
      var effective :=
        Delivery.EffectivePolicy(topic.value.attributes.deliveryPolicy, sub.value.attributes.deliveryPolicy);
      if effective.None? {
        return Err(Internal);
      }
      LeaveToken(arn, UnsubscribeTokenFor(sub.value, t),
        ConfirmationJob(topic.value, sub.value, UnsubscribeConfirmation, effective.value, t));
      return Ok(());
    }

    /** The transaction that replaces a subscription by the token to restore it. */
    method LeaveToken(arn: string, token: ConfirmationToken, job: DeliveryJob)
      requires store.Valid() && arn in store.View().subscriptions
      modifies store
      ensures store.Valid()
      ensures store.View() ==
        StoreSpec.EnqueueJob(StoreSpec.PutToken(StoreSpec.DeleteSubscription(old(store.View()), arn).value, token), job)
    {
      hide MemoryStore.State.Valid;
      var tx := store.Begin();
      var deleted := tx.DeleteSubscription(arn);
      hide StoreSpec.DeleteSubscription;
      tx.confirmation := tx.confirmation[token.token := token];
      tx.EnqueueDeliveryJob(job);
      store.Commit(tx);
    }

    method SetSubscriptionAttribute(arn: string, name: SubscriptionAttributeName, value: SubscriptionAttribute)
      returns (r: Result<(), ApiError>)
      requires Valid()
      modifies store
      ensures Valid() && used == old(used)
      ensures var reply := ServiceSpec.SetSubscriptionAttribute(env, old(store.View()), arn, name, value);
        store.View() == reply.store && r == reply.result
    {
      hide MemoryStore.State.Valid, Good, WithSubscriptionAttributes, AcceptsSubscriptionAttribute, WithEffective;
      SetSubscriptionAttributeGood(env, used, store.View(), arn, name, value);
      var sub := store.GetSubscription(arn);
      if sub.None? {
        return Err(NotFound);
      }
      var topic := store.GetTopic(sub.value.topicArn);
      if topic.None? {
        return Err(NotFound);
      }
      var applied :=
        ApplySubscriptionAttributes(env.p, sub.value.attributes, sub.value.protocol,
          topic.value.attributes.deliveryPolicy,
        map[name := value]);
      OneSubscriptionEntry(sub.value.protocol, name, value);
      EffectiveTwice(WithSubscriptionAttributes(env.p, sub.value.attributes, map[name := value]),
        topic.value.attributes.deliveryPolicy);
      var updated := StoreAttributes(arn, applied, topic.value.attributes.deliveryPolicy);
      return if updated then Ok(()) else Err(InvalidParameter);
    }

    /** Both updates of `SetSubscriptionAttribute`; the second writes the effective policy that is already there. */
    method StoreAttributes(arn: string, applied: Option<SubscriptionAttributes>,
      topicPolicy: Text<Delivery.TopicPolicy>)
      returns (ok: bool)
      requires store.Valid() && arn in store.View().subscriptions
      requires applied.Some? ==> WithEffective(applied.value, topicPolicy) == applied.value
      modifies store
      ensures store.Valid() && ok == applied.Some?
      ensures store.View() == if applied.None? then old(store.View())
        else var s := old(store.View());
          s.(subscriptions := s.subscriptions[arn := s.subscriptions[arn].(attributes := applied.value)])
    {
      hide MemoryStore.State.Valid, Delivery.EffectivePolicy;
      var updated := store.UpdateSubscription(arn, (current: Subscription) =>
        if applied.None? then Err(StoreSpec.Rejected("")) else Ok(current.(attributes := applied.value)));
      if updated.Err? {
        return false;
      }
      PutSame(store.View().subscriptions, arn);
      var effective := Delivery.EffectivePolicy(topicPolicy, applied.value.deliveryPolicy);
      if effective.Some? {
        assert updated.value.attributes.(effectiveDeliveryPolicy := Parsed(effective.value)) ==
          updated.value.attributes;
        hide WithEffective;
        var again := store.UpdateSubscription(arn, (current: Subscription) =>
          Ok(current.(attributes := current.attributes.(effectiveDeliveryPolicy := Parsed(effective.value)))));
      }
      return true;
    }

    // ---- Publishing ------------------------------------------------------------------------------------------

    /** The transaction body of `dispatchPublish`: one pass over the subscriptions. */
    method EnqueueAll(tx: MemoryStore.State, o: Outgoing, subs: seq<Subscription>, calls: string -> Call)
      returns (ok: bool, queue: seq<Subscription>, ghost hits: set<string>)
      requires tx.Valid() && "default" in o.messages && ArnsDiffer(subs)
      modifies tx.deliveryJobs
      ensures tx.Valid()
      ensures ok ==>
        && Progress(env, o, old(tx.View()).deliveryJobs, subs, calls, hits, tx.View().deliveryJobs, queue)
        && tx.View() == old(tx.View()).(deliveryJobs := tx.View().deliveryJobs)
        && FilteredBy(env.p, o, subs, hits)
      ensures !ok ==> Enqueued(o, old(tx.View()).deliveryJobs, subs, FateOf(calls, hits)).None?
      ensures HonestBy(env.p, o, subs, hits)
    {
      hide MemoryStore.State.Valid, Progress, Decides, FilteredBy, HonestBy, EffectiveFor, MessageFor, Filter.Selects,
        Filter.CanAnswer, Filter.SelectionMayFail, Filter.SelectionMustFail, Filter.WellFormed;
      ghost var view := tx.View();
      ghost var before, jobs := view.deliveryJobs, view.deliveryJobs;
      queue, hits := [], {};
      NothingYet(env, o, before, calls);
      for i := 0 to |subs|
        invariant tx.Valid() && tx.View() == view.(deliveryJobs := jobs)
        invariant Progress(env, o, before, subs[..i], calls, hits, jobs, queue)
        invariant forall k :: i <= k < |subs| ==> subs[k].arn !in hits
        invariant FilteredBy(env.p, o, subs[..i], hits)
      {
        var sub := subs[i];
        assert subs[..i + 1] == subs[..i] + [sub];
        if !sub.confirmed || sub.pendingConfirmation {
          Skip(env, o, before, subs[..i], sub, calls, hits, jobs, queue);
          OneMoreFiltered(env.p, o, subs[..i], sub, hits, false);
          continue;
        }
        var matched :=
          Filter.Matches(env.p, sub.attributes.filterPolicy, sub.attributes.filterPolicyScope, o.messages["default"],
          o.input.attributes);
        MatchDecides(env.p, sub, o.messages["default"], o.input.attributes, matched);
        if matched.Err? || !matched.value {
          Skip(env, o, before, subs[..i], sub, calls, hits, jobs, queue);
          OneMoreFiltered(env.p, o, subs[..i], sub, hits, false);
          continue;
        }
        MoreHits(env, o, before, subs[..i], calls, hits, jobs, queue, sub.arn);
        OneMoreFiltered(env.p, o, subs[..i], sub, hits, true);
        hits := hits + {sub.arn};
        if sub.protocol.Sqs? {
          AddQueue(env, o, before, subs[..i], sub, calls, hits, jobs, queue);
          queue := queue + [sub];
          continue;
        }
        if EffectiveFor(o, sub).None? {
          FailsAt(o, before, subs, i, FateOf(calls, hits));
          HonestSoFar(env.p, o, subs, i + 1, hits);
          return false, queue, hits;
        }
        AddJob(env, o, before, subs[..i], sub, calls, hits, jobs, queue);
        var job := JobFor(o, sub, Fate(true, calls(sub.arn).jobId, calls(sub.arn).at, calls(sub.arn).accepted));
        tx.EnqueueDeliveryJob(job);
        jobs := jobs[job.id := job];
      }
      assert subs[..|subs|] == subs;
      HonestSoFar(env.p, o, subs, |subs|, hits);
      ok := true;
    }

    /** The loop of `dispatchPublish` after its transaction: one delivery for each queue, and a redrive if it fails. */
    method DeliverQueue(o: Outgoing, queue: seq<Subscription>, calls: string -> Call) returns (sent: Dispatched)
      requires "default" in o.messages
      ensures sent == Dispatched(DeliverAll(o, queue), RedriveAll(env, o, queue, calls))
    {
      hide QueueDelivery, RedriveOf, Taken;
      var deliveries, redrives := [], [];
      for i := 0 to |queue|
        invariant deliveries == DeliverAll(o, queue[..i]) && redrives == RedriveAll(env, o, queue[..i], calls)
      {
        var sub := queue[i];
        assert queue[..i + 1][..i] == queue[..i];
        deliveries := deliveries + [QueueDelivery(o, sub)];
        if !Taken(env, o.input, sub, calls(sub.arn).accepted) {
          redrives := redrives + RedriveOf(env, sub.attributes.redrivePolicy, sub.arn, o.messageId);
        }
      }
      assert queue[..|queue|] == queue;
      return Dispatched(deliveries, redrives);
    }

    method DispatchPublish(topic: Topic, input: PublishInput, messageId: string, dedupId: string,
      sequenceNumber: Option<nat>, calls: string -> Call)
      returns (r: Result<Dispatched, ApiError>, ghost keys: seq<string>, ghost subs: seq<Subscription>,
      ghost hits: set<string>)
      requires store.Valid() && StoreSpec.SubscriptionsIndexed(store.View())
      modifies store
      ensures store.Valid()
      ensures var reply :=
        Dispatch(env, old(store.View()), topic, input, messageId, dedupId, sequenceNumber, subs, FateOf(calls, hits));
        store.View() == reply.store && r == reply.result
      ensures ResolveMessages(env.p, input.message, input.messageStructure).Some? ==>
        Listing(old(store.View()), topic.arn, keys, subs)
      ensures OnlySelected(env.p, input, subs, FateOf(calls, hits))
      ensures r.Ok? ==> Filtered(env.p, input, subs, FateOf(calls, hits))
    {
      hide MemoryStore.State.Valid, ResolveMessages, Enqueued, Deliveries, Redrives, Listing, Decides, FilterSelects,
        StoreSpec.SubscriptionsIndexed;
      var messages := ResolveMessages(env.p, input.message, input.messageStructure);
      if messages.None? {
        return Err(InvalidParameter), [], [], {};
      }
      var o := Outgoing(topic, input, messages.value, messageId, dedupId, sequenceNumber);
      var sent;
      sent, keys, subs, hits := DispatchMessages(o, calls);
      return (if sent.Some? then Ok(sent.value) else Err(Internal)), keys, subs, hits;
    }

    /** The transaction and the queue deliveries of `dispatchPublish`. */
    method DispatchMessages(o: Outgoing, calls: string -> Call)
      returns (sent: Option<Dispatched>, ghost keys: seq<string>, ghost subs: seq<Subscription>,
      ghost hits: set<string>)
      requires store.Valid() && StoreSpec.SubscriptionsIndexed(store.View()) && "default" in o.messages
      modifies store
      ensures store.Valid() && Listing(old(store.View()), o.topic.arn, keys, subs)
      ensures HonestBy(env.p, o, subs, hits)
      ensures var fate, s := FateOf(calls, hits), old(store.View());
        var jobs := Enqueued(o, s.deliveryJobs, subs, fate);
        if jobs.None? then sent.None? && store.View() == s
        else
          && store.View() == s.(deliveryJobs := jobs.value)
          && sent == Some(Dispatched(Deliveries(o, subs, fate), Redrives(env, o, subs, fate)))
          && FilteredBy(env.p, o, subs, hits)
    {
      hide MemoryStore.State.Valid, Enqueued, Deliveries, Redrives, DeliverAll, RedriveAll, Listing, FilteredBy,
        HonestBy, FateOf, StoreSpec.SubscriptionsIndexed, StoreSpec.SubsOf, Paging.PageOf, Paging.Lists, ArnsDiffer;
      var tx := store.Begin();
      IndexHolds(store.View(), o.topic.arn);
      var items, next;
      items, next, keys := tx.ListSubscriptionsByTopic(o.topic.arn, "", LIST_LIMIT);
      subs := items;
      FirstPage(keys);
      ListedApart(store.View(), o.topic.arn, keys, subs);
      var ok, queue;
      ok, queue, hits := EnqueueAll(tx, o, items, calls);
      if !ok {
        return None, keys, subs, hits;
      }
      store.Commit(tx);
      var deliveries := DeliverQueue(o, queue, calls);
      return Some(deliveries), keys, subs, hits;
    }

    method Publish(identity: string, input: PublishInput, a: Arrival, calls: string -> Call)
      returns (r: Result<PublishOutput, ApiError>, ghost p: Publication)
      requires Valid() && FreshCalls(used, calls)
      modifies this, store
      ensures Valid() && used == old(used) + JobIds(p.subs, calls)
      ensures p.input == input && p.arrival == a && Genuine(env, identity, old(store.View()), calls, p)
      ensures store.View() == Published(env, old(store.View()), p).store
      ensures r == Published(env, old(store.View()), p).result
    {
      hide MemoryStore.State.Valid, Good, Decision, ServiceSpec.Publish, Dispatches, CanPublish, Listing, Filtered,
        OnlySelected, FreshCalls, FateOf, Answers, MayMatch;
      ghost var s := store.View();
      ghost var auth, keys, subs, hits;
      r, auth, keys, subs, hits := TryPublish(identity, input, a, calls);
      if Dispatches(env, s, auth, input, a) {
        CanPublishSucceeds(env, used, s, auth, input, a, keys, subs, FateOf(calls, hits));
        DispatchesCanPublish(env, s, auth, input, a);
      } else {
        ghost var unseen;
        keys, unseen := AnyListing(env, used, s, input.topicArn);
        ghost var fate := FateOf(calls, hits);
        hits := MayMatch(env.p, input, unseen);
        AnyFiltered(env.p, input, unseen, calls);
        AnyPublish(env, s, auth, input, a, subs, fate, unseen, FateOf(calls, hits));
        subs := unseen;
      }
      p := Publication(auth, input, a, keys, subs, FateOf(calls, hits));
      MoreUsed(env, used, JobIds(subs, calls), s);
      IssuedJobs(subs, calls, hits);
      FateAnswers(calls, hits);
      used := used + JobIds(subs, calls);
      PublishGood(env, used, s, auth, input, a, subs, p.fate);
    }

    /** `Publish` on the store alone. */
    method TryPublish(identity: string, input: PublishInput, a: Arrival, calls: string -> Call)
      returns (r: Result<PublishOutput, ApiError>, ghost auth: Auth, ghost keys: seq<string>,
        ghost subs: seq<Subscription>, ghost hits: set<string>)
      requires Valid()
      modifies store
      ensures store.Valid()
      ensures var reply := ServiceSpec.Publish(env, old(store.View()), auth, input, a, subs, FateOf(calls, hits));
        store.View() == reply.store && r == reply.result
      ensures input.topicArn in old(store.View()).topics ==>
        Decision(env, identity, old(store.View()).topics[input.topicArn], "SNS:Publish", auth)
      ensures Dispatches(env, old(store.View()), auth, input, a) ==>
        && Listing(old(store.View()), input.topicArn, keys, subs)
        && (r.Ok? ==> Filtered(env.p, input, subs, FateOf(calls, hits)))
      ensures OnlySelected(env.p, input, subs, FateOf(calls, hits))
    {
      hide MemoryStore.State.Valid, Good, Decision, Finish, ValidPublishInput, Admit, Admitted, DedupId, Listing,
        Filtered, FateOf, ResolveMessages, FilterSelects;
      auth, keys, subs, hits := None, [], [], {};
      var topic := store.GetTopic(input.topicArn);
      if topic.None? {
        return Err(NotFound), auth, keys, subs, hits;
      }
      var decision := Authorize(identity, topic.value, "SNS:Publish");
      auth := decision;
      if decision.Some? {
        return Err(decision.value), auth, keys, subs, hits;
      }
      if !ValidPublishInput(env.p, topic.value, input) {
        return Err(InvalidParameter), auth, keys, subs, hits;
      }
      r, keys, subs, hits := PublishTo(topic.value, input, a, calls);
    }

    /** `Publish` after its checks: a FIFO topic first decides whether the message is a duplicate. */
    method PublishTo(topic: Topic, input: PublishInput, a: Arrival, calls: string -> Call)
      returns (r: Result<PublishOutput, ApiError>, ghost keys: seq<string>, ghost subs: seq<Subscription>,
      ghost hits: set<string>)
      requires Valid() && input.topicArn in store.View().topics && store.View().topics[input.topicArn] == topic
      requires ValidPublishInput(env.p, topic, input)
      modifies store
      ensures store.Valid()
      ensures var reply := ServiceSpec.Publish(env, old(store.View()), None, input, a, subs, FateOf(calls, hits));
        store.View() == reply.store && r == reply.result
      ensures Dispatches(env, old(store.View()), None, input, a) ==>
        && Listing(old(store.View()), input.topicArn, keys, subs)
        && (r.Ok? ==> Filtered(env.p, input, subs, FateOf(calls, hits)))
      ensures OnlySelected(env.p, input, subs, FateOf(calls, hits))
    {
      hide MemoryStore.State.Valid, Good, Finish, ValidPublishInput, Admit, Admitted, DedupId, Listing, Filtered,
        FateOf, ResolveMessages, FilterSelects, StoreSpec.SubscriptionsIndexed, IsFifoName, ReadableTopic;
      TopicFacts(env, used, store.View(), input.topicArn);
      GoodIndex(env, used, store.View());
      var dedupId := DedupId(env.p, topic, input);
      if !topic.attributes.fifoTopic {
        r, keys, subs, hits := FinishPublish(topic, input, a.messageId, dedupId, None, calls);
        return;
      }
      var stored, told := store.UpdateTopic(input.topicArn, AdmitOne(input.groupId, dedupId, a));
      var updated, admission := stored.value, told.value;
      AdmittedFacts(env.p, topic, input, dedupId, a);
      IndexAside(old(store.View()), input.topicArn, updated);
      if admission.deduplicated {
        return Ok(PublishOutput(admission.messageId, Some(admission.sequenceNumber), true, NOTHING)), [], [], {};
      }
      r, keys, subs, hits :=
        FinishPublish(updated, input, admission.messageId, dedupId, Some(admission.sequenceNumber), calls);
      ListingAside(old(store.View()), input.topicArn, updated, input.topicArn, keys, subs);
    }

    /** The dispatch at the end of `Publish`. */
    method FinishPublish(topic: Topic, input: PublishInput, messageId: string, dedupId: string,
      sequenceNumber: Option<nat>, calls: string -> Call)
      returns (r: Result<PublishOutput, ApiError>, ghost keys: seq<string>, ghost subs: seq<Subscription>,
      ghost hits: set<string>)
      requires store.Valid() && StoreSpec.SubscriptionsIndexed(store.View()) && dedupId == DedupId(env.p, topic, input)
      modifies store
      ensures store.Valid()
      ensures var reply :=
        Finish(env, old(store.View()), topic, input, messageId, sequenceNumber, subs, FateOf(calls, hits));
        store.View() == reply.store && r == reply.result
      ensures ResolveMessages(env.p, input.message, input.messageStructure).Some? ==>
        Listing(old(store.View()), topic.arn, keys, subs)
      ensures OnlySelected(env.p, input, subs, FateOf(calls, hits))
      ensures r.Ok? ==> Filtered(env.p, input, subs, FateOf(calls, hits))
    {
      hide MemoryStore.State.Valid, DedupId, Listing, Filtered, OnlySelected, ResolveMessages, FateOf,
        StoreSpec.SubscriptionsIndexed, Enqueued, Deliveries, Redrives;
      var sent;
      sent, keys, subs, hits := DispatchPublish(topic, input, messageId, dedupId, sequenceNumber, calls);
      if sent.Err? {
        return Err(sent.error), keys, subs, hits;
      }
      return Ok(PublishOutput(messageId, sequenceNumber, false, sent.value)), keys, subs, hits;
    }

    method PublishBatch(identity: string, topicArn: string, entries: seq<BatchEntry>, arrivals: seq<Arrival>,
      calls: seq<string -> Call>)
      returns (r: Result<BatchResults, ApiError>, ghost auth: Auth, ghost ps: seq<Publication>)
      requires Valid() && |arrivals| == |calls| == |entries| && FreshBatch(used, calls)
      modifies this, store
      ensures Valid()
      ensures topicArn in old(store.View()).topics ==>
        Decision(env, identity, old(store.View()).topics[topicArn], "SNS:Publish", auth)
      ensures var refused := if topicArn !in old(store.View()).topics then Some(NotFound)
          else if auth.Some? then auth else BatchError(entries);
        if refused.Some? then r == Err(refused.value) && store.View() == old(store.View()) && used == old(used)
        else
          && |ps| == |entries|
          && OneAfterAnother(env, identity, topicArn, old(store.View()), entries, arrivals, calls, ps)
          && store.View() == PublishedAll(env, old(store.View()), ps) && used == old(used) + BatchJobIds(ps, calls)
          && r == Ok(ResultsOf(env, old(store.View()), entries, ps))
    {
      hide MemoryStore.State.Valid, Good, Decision, FreshBatch, Published, TotalLength, OneAfterAnother;
      auth, ps := None, [];
      var topic := store.GetTopic(topicArn);
      if topic.None? {
        return Err(NotFound), auth, ps;
      }
      var decision := Authorize(identity, topic.value, "SNS:Publish");
      auth := decision;
      if decision.Some? {
        return Err(decision.value), auth, ps;
      }
      var refused := CheckBatch(entries);
      if refused.Some? {
        return Err(refused.value), auth, ps;
      }
      var results;
      results, ps := PublishEntries(identity, topicArn, entries, arrivals, calls);
      return Ok(results), auth, ps;
    }

    /** The checks of `PublishBatch` on the batch as a whole. */
    method CheckBatch(entries: seq<BatchEntry>) returns (refused: Option<ApiError>)
      ensures refused == BatchError(entries)
    {
      if entries == [] {
        return Some(EmptyBatch);
      }
      if |entries| > 10 {
        return Some(TooManyEntries);
      }
      var total := 0;
      var seen: set<string> := {};
      for i := 0 to |entries|
        invariant total == TotalLength(entries[..i])
        invariant forall k :: 0 <= k < i ==> entries[k].id in seen
        invariant forall id :: id in seen ==> exists k :: 0 <= k < i && entries[k].id == id
        invariant DistinctIds(entries[..i])
      {
        if entries[i].id in seen {
          return Some(EntryIdsNotDistinct);
        }
        seen := seen + {entries[i].id};
        assert entries[..i + 1][..i] == entries[..i];
        total := total + |entries[i].input.message|;
      }
      assert entries[..|entries|] == entries;
      return if total > 262144 then Some(BatchTooLong) else None;
    }

    /** The loop of `PublishBatch`. */
    method PublishEntries(identity: string, topicArn: string, entries: seq<BatchEntry>, arrivals: seq<Arrival>,
      calls: seq<string -> Call>)
      returns (results: BatchResults, ghost ps: seq<Publication>)
      requires Valid() && |arrivals| == |calls| == |entries| && FreshBatch(used, calls)
      modifies this, store
      ensures Valid() && |ps| == |entries|
      ensures OneAfterAnother(env, identity, topicArn, old(store.View()), entries, arrivals, calls, ps)
      ensures store.View() == PublishedAll(env, old(store.View()), ps) && used == old(used) + BatchJobIds(ps, calls)
      ensures results == ResultsOf(env, old(store.View()), entries, ps)
    {
      hide MemoryStore.State.Valid, Good, Published, PublishedAll, ResultsOf, FreshCalls, FreshBatch, JobIds, Genuine,
        OneAfterAnother;
      ghost var s, usedBefore := store.View(), used;
      NoEntryYet(env, identity, topicArn, s, entries, arrivals, calls);
      assert PublishedAll(env, s, []) == s && ResultsOf(env, s, entries[..0], []) == BatchResults([], []) by {
        NoResults(env, s, entries);
      }
      assert calls[0..] == calls;
      var successes, failures := [], [];
      ps := [];
      for i := 0 to |entries|
        invariant Valid() && |ps| == i && FreshBatch(used, calls[i..])
        invariant OneAfterAnother(env, identity, topicArn, s, entries, arrivals, calls, ps)
        invariant store.View() == PublishedAll(env, s, ps) && used == usedBefore + BatchJobIds(ps, calls)
        invariant BatchResults(successes, failures) == ResultsOf(env, s, entries[..i], ps)
      {
        ghost var used0 := used;
        FreshHead(used, calls[i..]);
        var out;
        ghost var p;
        out, p := Publish(identity, entries[i].input.(topicArn := topicArn), arrivals[i], calls[i]);
        FreshTail(used0, calls[i..], p.subs);
        NextResult(env, s, entries, ps, p, i);
        OneMoreEntry(env, identity, topicArn, s, entries, arrivals, calls, ps, p);
        assert (ps + [p])[..i] == ps;
        ps := ps + [p];
        if out.Ok? {
          successes := successes + [(entries[i].id, out.value)];
        } else {
          failures := failures + [(entries[i].id, out.error)];
        }
      }
      assert entries[..|entries|] == entries;
      results := BatchResults(successes, failures);
    }

    // ---- The delivery worker ---------------------------------------------------------------------------------------

    /** `processDeliveryJob` on the worker's copy of a job; `h` is how the delivery goes and what the clock says. */
    method ProcessDeliveryJob(job: DeliveryJob, h: Handling) returns (redrives: seq<Redrive>)
      requires Valid()
      modifies store, store.state.deliveryJobs
      ensures Valid() && used == old(used)
      ensures store.state == old(store.state) || fresh(store.state.deliveryJobs)
      ensures store.View() == ProcessJob(env, old(store.View()), job, h.outcome, h.error, h.at, h.later)
      ensures redrives == VerdictRedrives(Judge(env, job, h.outcome))
    {
      hide MemoryStore.State.Valid, Good, Delivery.RetryDelaysSpec, Delivery.ParseSubscriptionPolicy, RedriveOf;
      ProcessGood(env, used, store.View(), job, h.outcome, h.error, h.at, h.later);
      redrives := [];
      if job.payload.protocol !in env.adapters {
        Reschedule(job, RETRY_WITHOUT_ADAPTER, h);
        return;
      }
      var parsed := Delivery.ParseSubscriptionPolicy(job.effectivePolicy);
      var policy := if parsed.Some? then parsed.value else Delivery.DEFAULT_POLICY;
      if h.outcome.Success? {
        store.DeleteDeliveryJob(job.id);
        return;
      }
      var schedule := Delivery.RetryDelays(policy);
      var delays := if schedule.Ok? then schedule.value else [];
      if h.outcome.Final? || job.attemptCount >= |delays| {
        store.DeleteDeliveryJob(job.id);
        if job.kind.Notification? {
          redrives := RedriveOf(env, job.redrivePolicy, job.payload.subscriptionArn, job.payload.messageId);
        }
        return;
      }
      Reschedule(job, delays[job.attemptCount], h);
    }

    /** `rescheduleDeliveryJob`: the stored job is updated, not the worker's copy. */
    method Reschedule(job: DeliveryJob, delay: int, h: Handling)
      requires store.Valid()
      modifies store
      ensures store.Valid()
      ensures store.state == old(store.state) || fresh(store.state.deliveryJobs)
      ensures store.View() == if job.id !in old(store.View()).deliveryJobs then old(store.View())
        else var s := old(store.View());
          s.(deliveryJobs :=
            s.deliveryJobs[job.id := Rescheduled(s.deliveryJobs[job.id], delay, h.error, h.at, h.later)])
    {
      hide MemoryStore.State.Valid;
      var updated :=
        store.UpdateDeliveryJob(job.id, (current: DeliveryJob) => Rescheduled(current, delay, h.error, h.at, h.later));
    }

    method ProcessReadyDeliveryJobs(now: Time, limit: int, handle: string -> Handling)
      returns (redrives: seq<Redrive>, ghost jobs: seq<DeliveryJob>, ghost keys: seq<string>)
      requires Valid()
      modifies store, store.state.deliveryJobs
      ensures Valid() && used == old(used)
      ensures StoreSpec.ReadyKeys(old(store.View()).deliveryJobs, now, limit, keys) && |jobs| == |keys|
      ensures forall i :: 0 <= i < |jobs| ==> jobs[i] == old(store.View()).deliveryJobs[keys[i]]
      ensures store.View() == ProcessAll(env, old(store.View()), jobs, handle)
      ensures redrives == RedrivesOfAll(env, jobs, handle)
    {
      hide MemoryStore.State.Valid, Good, StoreSpec.ReadyKeys, ProcessJob, Judge, VerdictRedrives;
      var ready;
      ready, keys := store.state.ListReadyDeliveryJobs(now, limit);
      jobs := ready;
      redrives := [];
      for i := 0 to |ready|
        invariant Valid() && used == old(used)
        invariant store.state == old(store.state) || fresh(store.state.deliveryJobs)
        invariant store.View() == ProcessAll(env, old(store.View()), ready[..i], handle)
        invariant redrives == RedrivesOfAll(env, ready[..i], handle)
      {
        assert ready[..i + 1][..i] == ready[..i];
        var sends := ProcessDeliveryJob(ready[i], handle(ready[i].id));
        redrives := redrives + sends;
      }
      assert ready[..|ready|] == ready;
    }
  }

  lemma NamesAreExact(env: Env, used: set<string>, s: StoreState)
    requires Good(env, used, s)
    ensures NamesExact(s)
  {
    hide StoreSpec.SubscriptionsIndexed, StoreSpec.RecordsKeyed, Linked, FifoByName, IdsUsed, Readable, TokensMatch;
  }

  lemma OneEntry(p: Platform, a: TopicAttributes, creating: bool, name: TopicAttributeName, value: TopicAttribute)
    ensures AcceptsTopicAttributes(p, a, creating, map[name := value]) <==>
      AcceptsTopicAttribute(p, a, creating, name, value)
  {
    hide AcceptsTopicAttribute;
    var attrs: TopicEntries := map[name := value];
    assert name in attrs && attrs[name] == value && forall n :: n in attrs ==> n == name;
  }

  lemma OneSubscriptionEntry(protocol: Protocol, name: SubscriptionAttributeName, value: SubscriptionAttribute)
    ensures AcceptsSubscriptionAttributes(protocol, map[name := value]) <==>
      AcceptsSubscriptionAttribute(protocol, name, value)
  {
    hide AcceptsSubscriptionAttribute;
    var attrs: SubscriptionEntries := map[name := value];
    assert name in attrs && attrs[name] == value && forall n :: n in attrs ==> n == name;
  }

  lemma EffectiveTwice(a: SubscriptionAttributes, topicPolicy: Text<Delivery.TopicPolicy>)
    ensures WithEffective(WithEffective(a, topicPolicy), topicPolicy) == WithEffective(a, topicPolicy)
  {
    hide Delivery.EffectivePolicy;
  }

  lemma PutSame<T>(m: map<string, T>, k: string)
    ensures k in m ==> m[k := m[k]] == m
  {
  }

  lemma NothingYet(env: Env, o: Outgoing, before: map<string, DeliveryJob>, calls: string -> Call)
    requires "default" in o.messages
    ensures Progress(env, o, before, [], calls, {}, before, []) && FilteredBy(env.p, o, [], {})
  {
  }

  lemma MatchDecides(p: Platform, sub: Subscription, message: string, attrs: MessageAttributes, r: Result<bool, string>)
    requires CanAnswer(p, sub, message, attrs, Filter.AnswerOf(r))
    ensures Decides(p, sub, message, attrs, r.Ok? && r.value)
  {
    hide CanAnswer;
  }

  lemma OneMoreFiltered(p: Platform, o: Outgoing, subs: seq<Subscription>, last: Subscription, hits: set<string>,
    hit: bool)
    requires "default" in o.messages && FilteredBy(p, o, subs, hits) && last.arn !in hits
    requires forall i :: 0 <= i < |subs| ==> subs[i].arn != last.arn
    requires hit ==> last.confirmed && !last.pendingConfirmation
    requires last.confirmed && !last.pendingConfirmation ==>
      Decides(p, last, o.messages["default"], o.input.attributes, hit)
    ensures FilteredBy(p, o, subs + [last], if hit then hits + {last.arn} else hits)
  {
    hide Decides;
  }

  lemma HonestSoFar(p: Platform, o: Outgoing, subs: seq<Subscription>, n: nat, hits: set<string>)
    requires "default" in o.messages && n <= |subs| && FilteredBy(p, o, subs[..n], hits)
    requires forall k :: n <= k < |subs| ==> subs[k].arn !in hits
    ensures HonestBy(p, o, subs, hits)
  {
    hide FilterSelects, Decides;
    forall i | 0 <= i < |subs| && subs[i].arn in hits
      ensures subs[i].confirmed && !subs[i].pendingConfirmation
      ensures FilterSelects(p, subs[i], o.messages["default"], o.input.attributes)
    {
      assert subs[i] == subs[..n][i];
      DecidesExactly(p, subs[i], o.messages["default"], o.input.attributes, true);
    }
  }

  lemma FateAnswers(calls: string -> Call, hits: set<string>)
    ensures Answers(calls, FateOf(calls, hits))
  {
  }

  lemma DispatchesCanPublish(env: Env, s: StoreState, auth: Auth, input: PublishInput, a: Arrival)
    requires Dispatches(env, s, auth, input, a)
    ensures CanPublish(env, s, auth, input, a)
  {
  }

  /**
   The topic after admission has the same identity and attributes, so the same deduplication id is
   computed for it.
   */
  lemma AdmittedFacts(p: Platform, topic: Topic, input: PublishInput, dedupId: string, a: Arrival)
    ensures var admitted := Admitted(topic, input.groupId, dedupId, a);
      admitted.arn == topic.arn && DedupId(p, admitted, input) == DedupId(p, topic, input)
  {
    AdmittedTopic(topic, input.groupId, dedupId, a);
    hide Admitted;
  }

  lemma IndexAside(s: StoreState, arn: string, topic: Topic)
    requires StoreSpec.SubscriptionsIndexed(s)
    ensures StoreSpec.SubscriptionsIndexed(s.(topics := s.topics[arn := topic]))
  {
    var s' := s.(topics := s.topics[arn := topic]);
    assert forall t :: StoreSpec.SubsOf(s', t) == StoreSpec.SubsOf(s, t);
  }

  lemma ListingAside(s: StoreState, arn: string, topic: Topic, topicArn: string, keys: seq<string>,
    subs: seq<Subscription>)
    ensures Listing(s.(topics := s.topics[arn := topic]), topicArn, keys, subs) <==> Listing(s, topicArn, keys, subs)
  {
    hide Paging.Lists;
  }

  lemma IssuedJobs(subs: seq<Subscription>, calls: string -> Call, hits: set<string>)
    ensures forall i :: 0 <= i < |subs| ==> FateOf(calls, hits)(subs[i].arn).jobId in JobIds(subs, calls)
  {
    forall i | 0 <= i < |subs| ensures FateOf(calls, hits)(subs[i].arn).jobId in JobIds(subs, calls) {
      assert calls(subs[i].arn).jobId == FateOf(calls, hits)(subs[i].arn).jobId;
    }
  }

  lemma FreshHead(used: set<string>, calls: seq<string -> Call>)
    requires FreshBatch(used, calls) && calls != []
    ensures FreshCalls(used, calls[0])
  {
    hide FreshCalls;
  }

  lemma FreshTail(used: set<string>, calls: seq<string -> Call>, subs: seq<Subscription>)
    requires FreshBatch(used, calls) && calls != []
    ensures FreshBatch(used + JobIds(subs, calls[0]), calls[1..])
  {
    forall i | 0 < i < |calls| ensures FreshCalls(used + JobIds(subs, calls[0]), calls[i]) {
      assert FreshCalls(used, calls[i]);
      assert forall a, b :: calls[0](a).jobId != calls[i](b).jobId;
    }
  }

  lemma NextResult(env: Env, s: StoreState, entries: seq<BatchEntry>, ps: seq<Publication>, p: Publication, i: nat)
    requires i == |ps| < |entries|
    ensures PublishedAll(env, s, ps + [p]) == Published(env, PublishedAll(env, s, ps), p).store
    ensures ResultsOf(env, s, entries[..i + 1], ps + [p]) ==
      var before := ResultsOf(env, s, entries[..i], ps);
      match Published(env, PublishedAll(env, s, ps), p).result
      case Ok(out) => before.(successes := before.successes + [(entries[i].id, out)])
      case Err(e) => before.(failures := before.failures + [(entries[i].id, e)])
  {
    hide Published;
    assert (ps + [p])[..i] == ps && entries[..i + 1][..i] == entries[..i];
  }

  lemma NoResults(env: Env, s: StoreState, entries: seq<BatchEntry>)
    ensures PublishedAll(env, s, []) == s && ResultsOf(env, s, entries[..0], []) == BatchResults([], [])
  {
    hide Published;
  }
}
