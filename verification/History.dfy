/**
 A service whose calls are recorded: whatever sequence of calls and worker steps is made on it, the
 record is a run, so all that is proved about runs holds of the service.
 */
module History {
  import opened Common
  import opened Domain
  import opened Attributes
  import opened ServiceSpec
  import opened Dispatching
  import opened Runs
  import opened Integrity
  import opened Preservation
  import opened Fifo
  import opened FanOut
  import opened Listings
  import MemoryStore
  import Paging
  import Service
  import StoreSpec

  // ---- Calls are steps ------------------------------------------------------------------------------------

  function PublishAction(p: Publication): Action {
    Action.Publish(p.auth, p.input, p.arrival, p.keys, p.subs, p.fate)
  }

  /** A genuine publication of the run's last store is an enabled step, with the effect that the service promises. */
  lemma PublishIsStep(env: Env, identity: string, w: World, calls: string -> Call, p: Publication)
    requires GoodWorld(env, w) && Service.FreshCalls(w.used, calls) && Service.Genuine(env, identity, w.store, calls, p)
    requires w.now <= p.arrival.checkedAt <= p.arrival.recordedAt
    ensures Enabled(env, w, PublishAction(p))
    ensures Next(env, w, PublishAction(p)) ==
      World(Published(env, w.store, p).store, p.arrival.recordedAt, w.used + Service.JobIds(p.subs, calls), w.batch)
  {
    hide Good, Listing, Filtered, Service.Decision, ServiceSpec.Publish, ArnsDiffer;
    ListingIsApart(env, w.used, w.store, p.input.topicArn, p.keys, p.subs);
    FreshCallsAreFresh(w.used, calls, p.subs, p.fate);
    SameIds(calls, p.subs, p.fate);
  }

  lemma FreshCallsAreFresh(used: set<string>, calls: string -> Call, subs: seq<Subscription>, fate: string -> Fate)
    requires Service.FreshCalls(used, calls) && Service.Answers(calls, fate) && ArnsDiffer(subs)
    ensures FreshJobs(used, subs, fate)
  {
  }

  lemma SameIds(calls: string -> Call, subs: seq<Subscription>, fate: string -> Fate)
    requires Service.Answers(calls, fate)
    ensures (set i | 0 <= i < |subs| :: fate(subs[i].arn).jobId) == Service.JobIds(subs, calls)
  {
    forall i | 0 <= i < |subs| ensures fate(subs[i].arn).jobId == calls(subs[i].arn).jobId {
    }
  }

  lemma ListingIsApart(env: Env, used: set<string>, s: StoreState, topicArn: string, keys: seq<string>,
    subs: seq<Subscription>)
    requires Good(env, used, s) && Listing(s, topicArn, keys, subs)
    ensures ArnsDiffer(subs)
  {
    hide StoreSpec.SubscriptionsIndexed, Paging.Lists;
    GoodIndex(env, used, s);
    hide Good;
    ListedApart(s, topicArn, keys, subs);
  }

  /** The run so far ends in this store, with these identifiers handed out and this batch in the worker's hands. */
  ghost predicate Records(r: Run, env: Env, s: StoreState, used: set<string>, batch: seq<DeliveryJob>) {
    && Valid(r) && r.env == env
    && Last(r).store == s && Last(r).used == used && Last(r).batch == batch
  }

  /** The run `after` is `before` with one more step. */
  ghost predicate OneStepOn(before: Run, after: Run, a: Action) {
    after.env == before.env && after.actions == before.actions + [a]
  }

  lemma OneStepMore(r: Run, a: Action) returns (r': Run)
    requires Valid(r) && Enabled(r.env, Last(r), a)
    ensures Valid(r') && OneStepOn(r, r', a) && Last(r') == Next(r.env, Last(r), a)
  {
    hide StepAt, Enabled, Next;
    ExtendedIsValid(r, a);
    r' := Extended(r, a);
  }

  lemma StartIsRun(env: Env)
    ensures Records(Run(env, [START], []), env, StoreSpec.EMPTY, {}, [])
  {
  }

  lemma RunIsGood(r: Run)
    requires Valid(r)
    ensures GoodWorld(r.env, Last(r))
  {
    hide StepAt, GoodWorld;
    ReachableIsGood(r.env, r.worlds, r.actions, |r.actions|);
  }

  lemma ListingIsStep(env: Env, w: World, now: Time, limit: int, keys: seq<string>, jobs: seq<DeliveryJob>)
    requires w.batch == [] && w.now <= now && StoreSpec.ReadyKeys(w.store.deliveryJobs, now, limit, keys)
    requires |jobs| == |keys| && forall i :: 0 <= i < |jobs| ==> jobs[i] == w.store.deliveryJobs[keys[i]]
    ensures Enabled(env, w, Action.ListReady(now, limit, keys))
    ensures Next(env, w, Action.ListReady(now, limit, keys)) == World(w.store, now, w.used, jobs)
  {
  }

  // ---- A batch is its entries ----------------------------------------------------------------------------------

  function PublishActions(ps: seq<Publication>): seq<Action> {
    seq(|ps|, i requires 0 <= i < |ps| => PublishAction(ps[i]))
  }

  /** The clock after the first `n` entries. */
  function NowAfter(now: Time, arrivals: seq<Arrival>, n: nat): Time
    requires n <= |arrivals|
  {
    if n == 0 then now else arrivals[n - 1].recordedAt
  }

  /** The clock readings of the entries follow each other. */
  predicate InOrder(now: Time, arrivals: seq<Arrival>) {
    forall n: nat :: n < |arrivals| ==> NowAfter(now, arrivals, n) <= arrivals[n].checkedAt <= arrivals[n].recordedAt
  }

  lemma {:induction false} EntryIsFresh(used: set<string>, calls: seq<string -> Call>, ps: seq<Publication>, n: nat)
    requires Service.FreshBatch(used, calls) && |ps| <= n < |calls|
    ensures Service.FreshCalls(used + Service.BatchJobIds(ps, calls), calls[n])
  {
    if ps != [] {
      var k := |ps| - 1;
      EntryIsFresh(used, calls, ps[..k], n);
      assert forall a, b :: calls[k](a).jobId != calls[n](b).jobId;
    } else {
      assert used + {} == used;
    }
  }

  lemma FewerEntries(env: Env, identity: string, topicArn: string, s: StoreState, entries: seq<BatchEntry>,
    arrivals: seq<Arrival>, calls: seq<string -> Call>, ps: seq<Publication>)
    requires 0 < |ps| <= |entries| == |arrivals| == |calls|
    requires Service.OneAfterAnother(env, identity, topicArn, s, entries, arrivals, calls, ps)
    ensures var n := |ps| - 1;
      && Service.OneAfterAnother(env, identity, topicArn, s, entries, arrivals, calls, ps[..n])
      && ps[n].arrival == arrivals[n] && Service.Genuine(env, identity, PublishedAll(env, s, ps[..n]), calls[n], ps[n])
  {
    hide Service.Genuine, PublishedAll;
    var before := ps[..|ps| - 1];
    assert forall k :: 0 <= k < |before| ==> before[..k] == ps[..k];
  }

  lemma {:induction false} EntriesAreSteps(r: Run, identity: string, topicArn: string, entries: seq<BatchEntry>,
    arrivals: seq<Arrival>, calls: seq<string -> Call>, ps: seq<Publication>) returns (r': Run)
    requires Valid(r) && |ps| <= |entries| == |arrivals| == |calls|
    requires Service.OneAfterAnother(r.env, identity, topicArn, Last(r).store, entries, arrivals, calls, ps)
    requires Service.FreshBatch(Last(r).used, calls) && InOrder(Last(r).now, arrivals)
    ensures Valid(r') && r'.env == r.env && r'.actions == r.actions + PublishActions(ps)
    ensures Last(r').store == PublishedAll(r.env, Last(r).store, ps) && Last(r').batch == Last(r).batch
    ensures Last(r').used == Last(r).used + Service.BatchJobIds(ps, calls)
    ensures Last(r').now == NowAfter(Last(r).now, arrivals, |ps|)
  {
    hide StepAt, GoodWorld, Service.OneAfterAnother, Service.FreshBatch, Service.FreshCalls, Service.Genuine,
      Published, Enabled, Next;
    if ps == [] {
      r' := r;
      assert Last(r).used + {} == Last(r).used;
    } else {
      var n := |ps| - 1;
      FewerEntries(r.env, identity, topicArn, Last(r).store, entries, arrivals, calls, ps);
      var before := EntriesAreSteps(r, identity, topicArn, entries, arrivals, calls, ps[..n]);
      EntryIsFresh(Last(r).used, calls, ps[..n], n);
      RunIsGood(before);
      assert NowAfter(Last(r).now, arrivals, n) <= arrivals[n].checkedAt <= arrivals[n].recordedAt;
      assert Last(before).store == PublishedAll(r.env, Last(r).store, ps[..n]);
      PublishIsStep(r.env, identity, Last(before), calls[n], ps[n]);
      r' := OneStepMore(before, PublishAction(ps[n]));
      assert PublishActions(ps) == PublishActions(ps[..n]) + [PublishAction(ps[n])];
    }
  }

  // ---- The recorded service ---------------------------------------------------------------------------------

  class RecordedService {
    const service: Service.Service
    var batch: seq<DeliveryJob>
    ghost var run: Run

    ghost predicate Sound()
      reads this, service, service.store, service.store.state, service.store.state.topics,
            service.store.state.topics.owned, service.store.state.topics.plains, service.store.state.topics.tags,
            service.store.state.topics.sequences, service.store.state.topics.dedups, service.store.state.topics.members,
            service.store.state.subscriptions, service.store.state.subscriptions.owned,
            service.store.state.subsByTopic, service.store.state.subsByTopic.owned,
            service.store.state.deliveryJobs, service.store.state.deliveryJobs.owned
    {
      service.Valid() && Records(run, service.env, service.store.View(), service.used, batch)
    }

    constructor (env: Env)
      ensures Sound() && run.actions == [] && service.env == env
    {
      hide Service.Service.Valid, Records, StepAt;
      service := new Service.Service(env);
      batch := [];
      run := Run(env, [START], []);
      new;
      StartIsRun(env);
    }

    method CreateTopic(name: string, attrs: TopicEntries, tags: map<string, string>, now: Time, later: Time)
      returns (r: Result<string, ApiError>)
      requires Sound() && Last(run).now <= now <= later
      modifies this, service.store
      ensures Sound() && OneStepOn(old(run), run, Action.CreateTopic(name, attrs, tags, now, later))
      ensures r == ServiceSpec.CreateTopic(service.env, old(service.store.View()), name, attrs, tags, now, later).result
    {
      hide Service.Service.Valid, StepAt, ServiceSpec.CreateTopic;
      r := service.CreateTopic(name, attrs, tags, now, later);
      run := OneStepMore(run, Action.CreateTopic(name, attrs, tags, now, later));
    }

    method DeleteTopic(arn: string)
      requires Sound()
      modifies this, service.store
      ensures Sound() && OneStepOn(old(run), run, Action.DeleteTopic(arn))
    {
      hide Service.Service.Valid, StepAt, StoreSpec.DeleteTopic;
      service.DeleteTopic(arn);
      run := OneStepMore(run, Action.DeleteTopic(arn));
    }

    method SetTopicAttribute(identity: string, arn: string, name: TopicAttributeName, value: TopicAttribute, now: Time)
      returns (r: Result<(), ApiError>, ghost auth: Auth)
      requires Sound() && Last(run).now <= now
      modifies this, service.store
      ensures Sound() && OneStepOn(old(run), run, Action.SetTopicAttribute(arn, auth, name, value, now))
      ensures r ==
        ServiceSpec.SetTopicAttribute(service.env, old(service.store.View()), arn, auth, name, value, now).result
    {
      hide Service.Service.Valid, Service.Decision, StepAt, ServiceSpec.SetTopicAttribute;
      r, auth := service.SetTopicAttribute(identity, arn, name, value, now);
      run := OneStepMore(run, Action.SetTopicAttribute(arn, auth, name, value, now));
    }

    method EditTopic(identity: string, arn: string, edit: TopicEdit) returns (r: Result<(), ApiError>, ghost auth: Auth)
      requires Sound()
      modifies this, service.store
      ensures Sound() && OneStepOn(old(run), run, Action.EditTopic(arn, auth, edit))
      ensures r == ServiceSpec.EditTopic(service.env.p, old(service.store.View()), arn, auth, edit).result
    {
      hide Service.Service.Valid, Service.Decision, StepAt, ServiceSpec.EditTopic;
      r, auth := service.EditTopic(identity, arn, edit);
      run := OneStepMore(run, Action.EditTopic(arn, auth, edit));
    }

    method Subscribe(identity: string, topicArn: string, protocol: Protocol, endpoint: string,
      attrs: SubscriptionEntries, returnArn: bool, queue: Option<Queue>, t: Ticket)
      returns (r: Result<Subscribed, ApiError>, ghost a: Action)
      requires Sound() && FreshTicket(service.used, t) && Last(run).now <= t.tokenAt
      modifies this, service, service.store
      ensures Sound() && OneStepOn(old(run), run, a)
      ensures a.Subscribe? && a.topicArn == topicArn && a.protocol == protocol && a.endpoint == endpoint
      ensures a.entries == attrs && a.returnArn == returnArn && a.queue == queue && a.ticket == t
      ensures r ==
        ServiceSpec.Subscribe(service.env, old(service.store.View()), topicArn, a.auth, protocol, endpoint, attrs,
        returnArn, a.subs, queue, t).result
    {
      hide Service.Service.Valid, Service.Decision, StepAt, ServiceSpec.Subscribe, Listing, FreshTicket;
      ghost var auth, keys, existing;
      r, auth, keys, existing := service.Subscribe(identity, topicArn, protocol, endpoint, attrs, returnArn, queue, t);
      a := Action.Subscribe(topicArn, auth, protocol, endpoint, attrs, returnArn, keys, existing, queue, t);
      run := OneStepMore(run, a);
    }

    method ConfirmSubscription(topicArn: string, token: string, authenticated: bool, now: Time)
      returns (r: Result<string, ApiError>)
      requires Sound() && Last(run).now <= now
      modifies this, service.store
      ensures Sound() && OneStepOn(old(run), run, Confirm(topicArn, token, authenticated, now))
      ensures r ==
        ServiceSpec.ConfirmSubscription(old(service.store.View()), topicArn, token, authenticated, now).result
    {
      hide Service.Service.Valid, StepAt, ServiceSpec.ConfirmSubscription;
      r := service.ConfirmSubscription(topicArn, token, authenticated, now);
      run := OneStepMore(run, Confirm(topicArn, token, authenticated, now));
    }

    method Unsubscribe(identity: string, arn: string, t: Ticket) returns (r: Result<(), ApiError>)
      requires Sound() && FreshTicket(service.used, t) && Last(run).now <= t.tokenAt
      modifies this, service, service.store
      ensures Sound()
      ensures OneStepOn(old(run), run, Action.Unsubscribe(arn, identity == service.env.cfg.account, t))
      ensures r ==
        ServiceSpec.Unsubscribe(old(service.store.View()), arn, identity == service.env.cfg.account, t).result
    {
      hide Service.Service.Valid, StepAt, ServiceSpec.Unsubscribe, FreshTicket;
      r := service.Unsubscribe(identity, arn, t);
      run := OneStepMore(run, Action.Unsubscribe(arn, identity == service.env.cfg.account, t));
    }

    method SetSubscriptionAttribute(arn: string, name: SubscriptionAttributeName, value: SubscriptionAttribute)
      returns (r: Result<(), ApiError>)
      requires Sound()
      modifies this, service.store
      ensures Sound() && OneStepOn(old(run), run, Action.SetSubscriptionAttribute(arn, name, value))
      ensures r == ServiceSpec.SetSubscriptionAttribute(service.env, old(service.store.View()), arn, name, value).result
    {
      hide Service.Service.Valid, StepAt, ServiceSpec.SetSubscriptionAttribute;
      r := service.SetSubscriptionAttribute(arn, name, value);
      run := OneStepMore(run, Action.SetSubscriptionAttribute(arn, name, value));
    }

    method Publish(identity: string, input: PublishInput, a: Arrival, calls: string -> Call)
      returns (r: Result<PublishOutput, ApiError>, ghost p: Publication)
      requires Sound() && Service.FreshCalls(service.used, calls) && Last(run).now <= a.checkedAt <= a.recordedAt
      modifies this, service, service.store
      ensures Sound() && OneStepOn(old(run), run, PublishAction(p)) && p.input == input && p.arrival == a
      ensures r == Published(service.env, old(service.store.View()), p).result
    {
      hide Service.Service.Valid, StepAt, Service.FreshCalls, Service.Genuine, Published, GoodWorld, Enabled, Next;
      RunIsGood(run);
      r, p := service.Publish(identity, input, a, calls);
      PublishIsStep(service.env, identity, Last(run), calls, p);
      run := OneStepMore(run, PublishAction(p));
    }

    method PublishBatch(identity: string, topicArn: string, entries: seq<BatchEntry>, arrivals: seq<Arrival>,
      calls: seq<string -> Call>)
      returns (r: Result<BatchResults, ApiError>, ghost ps: seq<Publication>)
      requires Sound() && |arrivals| == |calls| == |entries|
      requires Service.FreshBatch(service.used, calls) && InOrder(Last(run).now, arrivals)
      modifies this, service, service.store
      ensures Sound() && run.env == old(run.env)
      ensures r.Ok? ==> |ps| == |entries| && run.actions == old(run.actions) + PublishActions(ps)
      ensures r.Err? ==> run == old(run)
    {
      hide Service.Service.Valid, StepAt, Service.FreshBatch, Service.OneAfterAnother, Service.Decision, PublishedAll,
        ResultsOf, Service.BatchJobIds;
      ghost var auth;
      r, auth, ps := service.PublishBatch(identity, topicArn, entries, arrivals, calls);
      if r.Ok? {
        run := EntriesAreSteps(run, identity, topicArn, entries, arrivals, calls, ps);
      }
    }

    lemma StoreIsValid()
      requires Sound()
      ensures service.store.state.Valid() && service.store.state.View() == service.store.View()
    {
      hide Good, Records, MemoryStore.State.Valid;
    }

    /** The worker lists a batch. */
    method ListReady(now: Time, limit: int)
      requires Sound() && batch == [] && Last(run).now <= now
      modifies this
      ensures Sound() && exists keys :: OneStepOn(old(run), run, Action.ListReady(now, limit, keys))
    {
      hide Service.Service.Valid, StepAt, StoreSpec.ReadyKeys;
      StoreIsValid();
      ghost var keys;
      batch, keys := service.store.state.ListReadyDeliveryJobs(now, limit);
      ListingIsStep(service.env, Last(run), now, limit, keys, batch);
      run := OneStepMore(run, Action.ListReady(now, limit, keys));
    }

    /** And takes up the first of its copies. */
    method ProcessNext(h: Handling) returns (redrives: seq<Redrive>)
      requires Sound() && batch != [] && Last(run).now <= h.at <= h.later
      modifies this, service.store, service.store.state.deliveryJobs
      ensures Sound() && OneStepOn(old(run), run, Process(h.outcome, h.error, h.at, h.later))
      ensures redrives == VerdictRedrives(Judge(service.env, old(batch[0]), h.outcome))
    {
      hide Service.Service.Valid, StepAt, ProcessJob, Judge, VerdictRedrives;
      redrives := service.ProcessDeliveryJob(batch[0], h);
      batch := batch[1..];
      run := OneStepMore(run, Process(h.outcome, h.error, h.at, h.later));
    }
  }
}
