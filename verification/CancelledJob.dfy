/**
 A job that is cancelled while the worker holds a copy of it, and redriven all the same (a consequence
 of internal/service/worker.go and internal/store/memory/store.go): how any run with a due job goes on
 to one, and a run from the empty store that has one. The run is built a step at a time, each step with
 a lemma that it is enabled and one that says what the store is afterwards.
 */
module CancelledJob {
  import opened Common
  import opened Json
  import opened Domain
  import opened Attributes
  import opened ServiceSpec
  import opened Runs
  import opened Preservation
  import opened Fifo
  import opened Worker
  import AccessPolicy
  import Delivery
  import Filter
  import Paging
  import StoreSpec

  // ---- From any due job ----------------------------------------------------------------------------------

  /** Nothing is in the worker's hands, and this job comes first in a listing of the due ones. */
  ghost predicate IsNext(w: World, id: string, limit: int, keys: seq<string>) {
    && w.batch == [] && keys != [] && keys[0] == id && id in w.store.deliveryJobs
    && StoreSpec.ReadyKeys(w.store.deliveryJobs, w.now, limit, keys)
  }

  lemma ListsIt(env: Env, w: World, id: string, limit: int, keys: seq<string>)
    requires IsNext(w, id, limit, keys)
    ensures var a := ListReady(w.now, limit, keys);
      Enabled(env, w, a) && var w' := Next(env, w, a);
      w'.store == w.store && w'.now == w.now && w'.batch != [] && w'.batch[0] == w.store.deliveryJobs[id]
  {
    hide StoreSpec.Sooner;
  }

  lemma Cancels(env: Env, w: World, job: DeliveryJob)
    requires GoodWorld(env, w) && w.batch != [] && w.batch[0] == job
    requires job.id in w.store.deliveryJobs && w.store.deliveryJobs[job.id] == job
    ensures Enabled(env, w, Action.DeleteTopic(job.payload.topicArn))
    ensures var w' := Next(env, w, Action.DeleteTopic(job.payload.topicArn));
      w'.batch == w.batch && w'.now == w.now && job.id !in w'.store.deliveryJobs
  {
    hide GoodWorld;
    JobsAreUsed(env, w);
  }

  /** The step in which the copy meets a failure that is final. */
  function Fails(w: World): Action { Process(Final, "", w.now, w.now) }

  lemma IsRedriven(env: Env, w: World, job: DeliveryJob)
    requires w.batch != [] && w.batch[0] == job && job.payload.protocol in env.adapters
    ensures Enabled(env, w, Fails(w)) && TakesUp(w, Fails(w), job.id)
    ensures VerdictOf(env, w, Fails(w)) == GivenUp(RedriveOfJob(env, job))
  {
    hide Delays, RedriveOf;
  }

  /** The run's last step cancels the job while a copy of it heads the batch. */
  ghost predicate JustCancelled(r: Run, job: DeliveryJob) {
    && |r.actions| > 0 && |r.worlds| == |r.actions| + 1 && Ends(r, |r.actions| - 1, job.id, WasCancelled)
    && Last(r).batch != [] && Last(r).batch[0] == job
  }

  lemma Listed(r: Run, id: string, limit: int, keys: seq<string>) returns (r': Run)
    requires Valid(r) && IsNext(Last(r), id, limit, keys)
    ensures Valid(r') && r'.env == r.env && |r'.actions| == |r.actions| + 1
    ensures Last(r').store == Last(r).store && Last(r').batch != []
      && Last(r').batch[0] == Last(r).store.deliveryJobs[id]
  {
    hide StepAt, IsNext, Enabled, Next;
    ListsIt(r.env, Last(r), id, limit, keys);
    ExtendedIsValid(r, ListReady(Last(r).now, limit, keys));
    r' := Extended(r, ListReady(Last(r).now, limit, keys));
  }

  lemma HeadIsCancelled(r: Run, job: DeliveryJob) returns (r': Run)
    requires Valid(r) && Last(r).batch != [] && Last(r).batch[0] == job
    requires job.id in Last(r).store.deliveryJobs && Last(r).store.deliveryJobs[job.id] == job
    ensures Valid(r') && r'.env == r.env && |r'.actions| == |r.actions| + 1 && JustCancelled(r', job)
  {
    hide StepAt, GoodWorld, Enabled, Next;
    var a := Action.DeleteTopic(job.payload.topicArn);
    ReachableIsGood(r.env, r.worlds, r.actions, |r.actions|);
    RunLengths(r);
    Cancels(r.env, Last(r), job);
    ExtendedIsValid(r, a);
    r' := Extended(r, a);
    RunLengths(r');
    assert r'.worlds[|r.actions|] == Last(r);
  }

  /**
   From any run whose next job has an adapter: the worker lists the job, its topic is deleted, and
   the copy is attempted once, given up and redriven.
   */
  lemma CancelledYetRedriven(r: Run, id: string, limit: int, keys: seq<string>) returns (r': Run)
    requires Valid(r) && IsNext(Last(r), id, limit, keys)
    requires Last(r).store.deliveryJobs[id].payload.protocol in r.env.adapters
    ensures Valid(r') && r'.env == r.env && |r'.actions| == |r.actions| + 3 && |r'.worlds| == |r.worlds| + 3
    ensures Ends(r', |r.actions| + 1, id, WasCancelled)
    ensures Attempts(r', |r.actions| + 2, |r.actions| + 3, id) == 1
    ensures RedrivesIn(r', |r.actions| + 2, |r.actions| + 3, id) == RedriveOfJob(r.env, Last(r).store.deliveryJobs[id])
  {
    hide StepAt, Enabled, Next, RedriveOfJob, VerdictOf, Follows, StoreSpec.ReadyKeys;
    var n, job := |r.actions|, Last(r).store.deliveryJobs[id];
    StoredIsFollowed(r, n, id);
    var r1 := Listed(r, id, limit, keys);
    var r2 := HeadIsCancelled(r1, job);
    IsRedriven(r.env, Last(r2), job);
    ExtendedIsValid(r2, Fails(Last(r2)));
    r' := Extended(r2, Fails(Last(r2)));
    RunLengths(r);
    assert r'.worlds[n + 1] == r2.worlds[n + 1] && r'.worlds[n + 2] == Last(r2) && r'.actions[n + 2] == Fails(Last(r2));
    assert r'.actions[n + 1] == r2.actions[n + 1];
    OneStep(r', n + 2, id);
  }

  lemma OneStep(r: Run, i: nat, id: string)
    requires i < |r.actions| && i + 1 < |r.worlds|
    ensures Attempts(r, i, i + 1, id) == if TakesUp(r.worlds[i], r.actions[i], id) then 1 else 0
    ensures RedrivesIn(r, i, i + 1, id) == RedrivesAt(r, i, id)
  {
    hide TakesUp, RedrivesAt;
    assert Attempts(r, i, i, id) == 0 && RedrivesIn(r, i, i, id) == [];
  }

  // ---- A due job ------------------------------------------------------------------------------------------

  /** What the example needs of its surroundings: an HTTP adapter, queues, and "" not read as "true". */
  predicate Fit(env: Env) { Http in env.adapters && env.hasSqs && !IsTrue(env.p, "") }

  function ArnOf(env: Env): string { TopicArn(env.cfg, "t") }

  function Uuid(): string { seq(UUID_LENGTH, i => 'u') }

  function SubOf(env: Env): string { SubscriptionArn(ArnOf(env), Uuid()) }

  const MAKE := Action.CreateTopic("t", map[], map[], 0, 0)

  const TICKET := Ticket(Uuid(), "token", "confirmation", "m", 0, 1)

  const ENTRIES: SubscriptionEntries := map[RedrivePolicy := SubscriptionAttribute("", Blank, Blank, Parsed("dlq"))]

  function Join(env: Env): Action {
    Action.Subscribe(ArnOf(env), None, Http, "http://e", ENTRIES, true, [], [], None, TICKET)
  }

  function Agree(env: Env): Action { Confirm(ArnOf(env), "token", false, 0) }

  const FATE := Fate(true, "job", 0, true)

  function Send(env: Env, sub: Subscription): Action {
    Action.Publish(None, PublishInput(ArnOf(env), "hello", "", "", map[], "", ""), Arrival("m", 0, 0, 0), [SubOf(env)],
      [sub],
      arn => FATE)
  }

  /** The topic alone. */
  ghost predicate HasTopicOnly(env: Env, w: World) {
    && w.now == 0 && w.used == {} && w.batch == [] && w.store.subscriptions == map[] && w.store.subsByTopic == map[]
    && w.store.confirmation == map[] && w.store.deliveryJobs == map[] && TopicFits(env, w.store)
  }

  predicate TopicFits(env: Env, s: StoreState) {
    && ArnOf(env) in s.topics && s.topics[ArnOf(env)].arn == ArnOf(env)
    && !s.topics[ArnOf(env)].attributes.fifoTopic && s.topics[ArnOf(env)].attributes.deliveryPolicy.Blank?
  }

  lemma PlainName(p: Platform)
    requires !IsTrue(p, "")
    ensures ValidTopicName("t", false) && !WantsFifo(p, map[])
  {
    var name := ['t'];
    assert |name| == 1 && name[0] == 't' && |".fifo"| == 5 && name == "t";
    assert NameChar(name[0]) && !IsFifoName(name);
  }

  lemma CreatedTopic(env: Env)
    requires Fit(env)
    ensures var s := ServiceSpec.CreateTopic(env, StoreSpec.EMPTY, "t", map[], map[], 0, 0).store;
      TopicFits(env, s) && s == StoreSpec.EMPTY.(topics := s.topics, topicsByName := s.topicsByName)
  {
    hide ValidTopicName, WantsFifo, AccessPolicy.DefaultTopicPolicy, TopicArn;
    PlainName(env.p);
  }

  lemma MakesTopic(env: Env)
    requires Fit(env)
    ensures Enabled(env, START, MAKE) && HasTopicOnly(env, Next(env, START, MAKE))
  {
    hide ServiceSpec.CreateTopic, TopicFits, Fit;
    CreatedTopic(env);
  }

  predicate SubFits(env: Env, sub: Subscription) {
    && sub.arn == SubOf(env) && sub.topicArn == ArnOf(env) && sub.protocol.Http? && sub.attributes.deliveryPolicy.Blank?
    && sub.attributes.filterPolicy.Blank? && sub.attributes.filterPolicyScope == Filter.MESSAGE_ATTRIBUTES
    && sub.attributes.redrivePolicy == Parsed("dlq")
  }

  /** The topic and its one subscription, and a confirmation that is not due yet. */
  ghost predicate HasSubscriber(env: Env, w: World) {
    w.now == 0 && w.used == {Uuid(), "token", "confirmation"} && w.batch == [] && SubscriberFits(env, w.store)
  }

  predicate SubscriberFits(env: Env, s: StoreState) {
    && TopicFits(env, s) && StoreSpec.SubsOf(s, ArnOf(env)) == {SubOf(env)}
    && SubOf(env) in s.subscriptions && SubFits(env, s.subscriptions[SubOf(env)])
    && s.deliveryJobs.Keys == {"confirmation"} && s.deliveryJobs["confirmation"].nextAttemptAt == 1
  }

  predicate HasToken(env: Env, s: StoreState) {
    && "token" in s.confirmation && s.confirmation["token"].kind.SubscribeToken?
    && s.confirmation["token"].topicArn == ArnOf(env) && s.confirmation["token"].subscriptionArn == SubOf(env)
    && s.confirmation["token"].expiresAt > 0
  }

  lemma AcceptsEntries(env: Env, topic: Topic)
    ensures AcceptsSubscription(env, topic, Http, "http://e", ENTRIES, None)
  {
    assert |"http://"| == 7 && "http://e"[..7] == "http://";
  }

  lemma MadeFits(env: Env, policy: Text<Delivery.TopicPolicy>)
    requires policy.Blank?
    ensures var sub := MadeSubscription(env.p, ArnOf(env), policy, Uuid(), Http, "http://e", ENTRIES, 0);
      SubFits(env, sub) && Delivery.EffectivePolicy(policy, sub.attributes.deliveryPolicy).Some?
  {
    hide TopicArn, Uuid, Delivery.Merge;
  }

  lemma JoinedStore(env: Env, s: StoreState)
    requires TopicFits(env, s) && s.subsByTopic == map[] && s.deliveryJobs == map[]
    ensures var s' :=
      ServiceSpec.Subscribe(env, s, ArnOf(env), None, Http, "http://e", ENTRIES, true, [], None, TICKET).store;
      SubscriberFits(env, s') && HasToken(env, s')
  {
    hide AcceptsSubscription, MadeSubscription, Delivery.EffectivePolicy, TopicArn, SubscriptionArn, Uuid;
    AcceptsEntries(env, s.topics[ArnOf(env)]);
    MadeFits(env, s.topics[ArnOf(env)].attributes.deliveryPolicy);
  }

  lemma JoinsTopic(env: Env, w: World)
    requires HasTopicOnly(env, w)
    ensures Enabled(env, w, Join(env)) && HasSubscriber(env, Next(env, w, Join(env)))
    ensures HasToken(env, Next(env, w, Join(env)).store)
  {
    hide ServiceSpec.Subscribe, TopicFits, SubscriberFits, HasToken, ArnOf, Uuid;
    JoinedStore(env, w.store);
    UuidIsLong();
  }

  lemma UuidIsLong()
    ensures |Uuid()| == UUID_LENGTH && Uuid() != "token" && Uuid() != "confirmation" && Uuid() != "job"
  {
    assert |"token"| == 5 && |"confirmation"| == 12 && |"job"| == 3;
  }

  lemma AgreedStore(env: Env, s: StoreState)
    requires SubscriberFits(env, s) && HasToken(env, s)
    ensures var s' := ConfirmSubscription(s, ArnOf(env), "token", false, 0).store;
      && SubscriberFits(env, s') && SubOf(env) in s'.subscriptions
      && s'.subscriptions[SubOf(env)].confirmed && !s'.subscriptions[SubOf(env)].pendingConfirmation
  {
    hide TopicArn, SubscriptionArn, Uuid;
  }

  lemma Agrees(env: Env, w: World)
    requires HasSubscriber(env, w) && HasToken(env, w.store)
    ensures Enabled(env, w, Agree(env)) && HasSubscriber(env, Next(env, w, Agree(env)))
    ensures SubOf(env) in Next(env, w, Agree(env)).store.subscriptions
    ensures var sub := Next(env, w, Agree(env)).store.subscriptions[SubOf(env)];
      sub.confirmed && !sub.pendingConfirmation
  {
    hide ConfirmSubscription, SubscriberFits, HasToken, ArnOf, SubOf, Uuid;
    AgreedStore(env, w.store);
  }

  /** The message's job is due, and no other. */
  ghost predicate HasDueJob(env: Env, w: World) {
    && w.now == 0 && w.batch == [] && w.store.deliveryJobs.Keys == {"confirmation", "job"}
    && w.store.deliveryJobs["confirmation"].nextAttemptAt == 1 && JobFits(w.store.deliveryJobs["job"])
  }

  predicate JobFits(job: DeliveryJob) {
    && job.nextAttemptAt == 0 && job.kind.Notification? && job.payload.protocol.Http?
    && job.redrivePolicy == Parsed("dlq")
  }

  lemma BlankPolicies(topicPolicy: Text<Delivery.TopicPolicy>, policy: Text<Delivery.SubscriptionPolicy>)
    requires topicPolicy.Blank? && policy.Blank?
    ensures Delivery.EffectivePolicy(topicPolicy, policy).Some?
  {
    hide Delivery.Merge;
  }

  lemma OneJob(o: Outgoing, jobs: map<string, DeliveryJob>, sub: Subscription)
    requires "default" in o.messages && o.topic.attributes.deliveryPolicy.Blank? && sub.attributes.deliveryPolicy.Blank?
    requires sub.confirmed && !sub.pendingConfirmation && sub.protocol.Http?
      && sub.attributes.redrivePolicy == Parsed("dlq")
    ensures EffectiveFor(o, sub).Some?
      && Enqueued(o, jobs, [sub], arn => FATE) == Some(jobs["job" := JobFor(o, sub, FATE)])
    ensures JobFits(JobFor(o, sub, FATE))
  {
    hide Delivery.EffectivePolicy, MessageFor;
    BlankPolicies(o.topic.attributes.deliveryPolicy, sub.attributes.deliveryPolicy);
    assert [sub][..0] == [];
    assert Enqueued(o, jobs, [], arn => FATE) == Some(jobs);
  }

  lemma SentJob(env: Env, s: StoreState, sub: Subscription)
    requires SubscriberFits(env, s) && sub == s.subscriptions[SubOf(env)] && sub.confirmed && !sub.pendingConfirmation
    ensures var a := Send(env, sub);
      var s' := ServiceSpec.Publish(env, s, None, a.input, a.arrival, [sub], a.fate).store;
      && s'.deliveryJobs.Keys == {"confirmation", "job"}
      && s'.deliveryJobs["confirmation"].nextAttemptAt == 1 && JobFits(s'.deliveryJobs["job"])
  {
    hide TopicArn, SubscriptionArn, Uuid, EffectiveFor, Enqueued, Deliveries, Redrives, JobFor, JobFits;
    var a, topic := Send(env, sub), s.topics[ArnOf(env)];
    assert |"hello"| == 5;
    assert ResolveMessages(env.p, "hello", "") == Some(map["default" := "hello"]);
    OneJob(Outgoing(topic, a.input, map["default" := "hello"], "m", DedupId(env.p, topic, a.input), None),
      s.deliveryJobs, sub);
  }

  lemma SendIsEnabled(env: Env, w: World, sub: Subscription)
    requires HasSubscriber(env, w) && sub == w.store.subscriptions[SubOf(env)]
    ensures Enabled(env, w, Send(env, sub))
  {
    hide TopicArn, SubscriptionArn, TopicFits, ResolveMessages;
    UuidIsLong();
    hide Uuid;
    var keys := [SubOf(env)];
    assert Paging.Lists(keys, StoreSpec.SubsOf(w.store, ArnOf(env)));
    assert "job" !in w.used;
  }

  lemma SendsMessage(env: Env, w: World, sub: Subscription)
    requires HasSubscriber(env, w) && sub == w.store.subscriptions[SubOf(env)] && sub.confirmed
      && !sub.pendingConfirmation
    ensures Enabled(env, w, Send(env, sub)) && HasDueJob(env, Next(env, w, Send(env, sub)))
  {
    hide SubscriberFits, JobFits, Enabled, ServiceSpec.Publish;
    SendIsEnabled(env, w, sub);
    SentJob(env, w.store, sub);
  }

  lemma JobIsNext(env: Env, w: World)
    requires HasDueJob(env, w)
    ensures IsNext(w, "job", 100, ["job"])
    ensures env.hasSqs ==>
      RedriveOfJob(env, w.store.deliveryJobs["job"]) ==
      [Redrive("dlq", w.store.deliveryJobs["job"].payload.subscriptionArn,
        w.store.deliveryJobs["job"].payload.messageId)]
  {
    assert |"dlq"| == 3;
  }

  lemma DueRun(env: Env) returns (r: Run)
    requires Fit(env)
    ensures Valid(r) && r.env == env && |r.actions| == 4 && HasDueJob(env, Last(r))
  {
    hide HasTopicOnly, HasSubscriber, HasDueJob, HasToken, Fit, Enabled, Next, StepAt;
    r := Run(env, [START], []);
    MakesTopic(env);
    ExtendedIsValid(r, MAKE);
    r := Extended(r, MAKE);
    JoinsTopic(env, Last(r));
    ExtendedIsValid(r, Join(env));
    r := Extended(r, Join(env));
    Agrees(env, Last(r));
    ExtendedIsValid(r, Agree(env));
    r := Extended(r, Agree(env));
    var sub := Last(r).store.subscriptions[SubOf(env)];
    SendsMessage(env, Last(r), sub);
    ExtendedIsValid(r, Send(env, sub));
    r := Extended(r, Send(env, sub));
  }

  /** Seven steps from the empty store, the last of which redrives a job that the sixth has cancelled. */
  lemma CancelledRunExists(env: Env) returns (r: Run)
    requires Fit(env)
    ensures Valid(r) && r.env == env && |r.actions| == 7 && |r.worlds| == 8
    ensures Ends(r, 5, "job", WasCancelled) && Attempts(r, 6, 7, "job") == 1 && |RedrivesIn(r, 6, 7, "job")| == 1
  {
    hide StepAt, StoreSpec.ReadyKeys, Attempts, RedrivesIn, Ends, RedriveOfJob;
    var due := DueRun(env);
    JobIsNext(env, Last(due));
    r := CancelledYetRedriven(due, "job", 100, ["job"]);
  }
}
