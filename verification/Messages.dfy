/**
 Which messages are accepted, which text goes out, and what becomes of a failed delivery
 (internal/service/service.go, `validatePublishInput`, `resolveProtocolMessages`, `dispatchPublish` and
 `PublishBatch`), told from the published message and what it decodes to.
 */
module Messages {
  import opened Common
  import opened Json
  import opened Domain
  import opened ServiceSpec
  import opened Runs
  import opened Integrity
  import opened Preservation
  import opened Fifo
  import opened FanOut
  import Delivery

  /** The non-empty string that a message written for several protocols has under this name. */
  function Entry(p: Platform, message: string, name: string): Option<string> {
    var decoded := p.decode(message);
    if decoded.Some? && decoded.value.JObj? && name in decoded.value.members
      && decoded.value.members[name].JStr? && decoded.value.members[name].s != ""
    then Some(decoded.value.members[name].s) else None
  }

  /** A message can go out as it is, or as a JSON object with a text for every protocol that has none of its own. */
  predicate HasText(p: Platform, input: PublishInput) {
    input.messageStructure == "" || Entry(p, input.message, "default").Some?
  }

  /** The text for the protocol of this name. */
  function TextFor(p: Platform, input: PublishInput, name: string): string
    requires HasText(p, input)
  {
    if input.messageStructure == "" then input.message
    else if Entry(p, input.message, name).Some? then Entry(p, input.message, name).value
    else Entry(p, input.message, "default").value
  }

  /** The name that goes with a protocol in such a message. */
  predicate Named(protocol: Protocol, name: string) {
    match protocol
    case Sqs => name == "sqs"
    case Http => name == "http"
    case Https => name == "https"
    case OtherProtocol(text) => name == text
  }

  lemma ResolvesToText(p: Platform, input: PublishInput, protocol: Protocol, name: string)
    requires Named(protocol, name)
    ensures var messages := ResolveMessages(p, input.message, input.messageStructure);
      && (messages.Some? <==> HasText(p, input))
      && (messages.Some? ==>
            && messages.value["default"] == TextFor(p, input, "default")
            && MessageFor(messages.value, protocol) == TextFor(p, input, name))
  {
  }

  /** What the message of a publish is taken for: its own deduplication id, or on a FIFO topic its digest. */
  function IdFor(p: Platform, topic: Topic, input: PublishInput): string {
    if input.dedupId == "" && topic.attributes.fifoTopic then p.sha256(input.message) else input.dedupId
  }

  /** The job bears the text for its protocol and the identifiers of the message. */
  predicate BearsText(env: Env, w: World, a: Action, job: DeliveryJob)
    requires a.Publish? && a.input.topicArn in w.store.topics && HasText(env.p, a.input)
  {
    && (job.payload.protocol == Http ==> job.payload.protocolMessage == TextFor(env.p, a.input, "http"))
    && (job.payload.protocol == Https ==> job.payload.protocolMessage == TextFor(env.p, a.input, "https"))
    && job.payload.messageId == a.arrival.messageId && job.payload.groupId == a.input.groupId
    && job.payload.dedupId == IdFor(env.p, w.store.topics[a.input.topicArn], a.input)
  }

  /** So does the queue delivery. */
  predicate DeliversText(env: Env, w: World, a: Action, d: SqsDelivery)
    requires a.Publish? && a.input.topicArn in w.store.topics && HasText(env.p, a.input)
  {
    && d.message == TextFor(env.p, a.input, "sqs")
    && d.messageId == a.arrival.messageId && d.groupId == a.input.groupId
    && d.dedupId == IdFor(env.p, w.store.topics[a.input.topicArn], a.input)
  }

  lemma SentReply(env: Env, w: World, a: Action)
    requires Sends(env, w, a)
    ensures a.input.topicArn in w.store.topics
    ensures ReplyTo(env, w, a).result.value.messageId == a.arrival.messageId
    ensures IdFor(env.p, w.store.topics[a.input.topicArn], a.input) ==
      DedupId(env.p, w.store.topics[a.input.topicArn], a.input)
    ensures ResolveMessages(env.p, a.input.message, a.input.messageStructure).Some?
  {
    hide Enqueued, Deliveries, Redrives, ResolveMessages, ValidAttributes, DedupKey, NextSequence, Admitted;
  }

  /**
   In every run, a publish that sends has a text to send, and each queue and each subscriber gets the
   text for its protocol: the message itself, or the string under "sqs", "http" or "https" of a message
   written for several protocols, and its default where that is missing or empty.
   */
  lemma TextsAreSent(r: Run, k: nat)
    requires Valid(r) && SendsAt(r, k)
    ensures HasText(r.env.p, r.actions[k].input) && r.actions[k].input.topicArn in r.worlds[k].store.topics
    ensures forall d :: d in ReplyTo(r.env, r.worlds[k], r.actions[k]).result.value.sent.deliveries ==>
      DeliversText(r.env, r.worlds[k], r.actions[k], d)
    ensures forall j :: j in r.worlds[k + 1].store.deliveryJobs && j !in r.worlds[k].store.deliveryJobs ==>
      BearsText(r.env, r.worlds[k], r.actions[k], r.worlds[k + 1].store.deliveryJobs[j])
  {
    hide StepAt, ReplyTo, MessageFor, ResolveMessages, HasText, TextFor, IdFor, Delivery.EffectivePolicy, DedupId;
    var env, w, a := r.env, r.worlds[k], r.actions[k];
    FanOutContents(r, k);
    SentReply(env, w, a);
    ResolvesToText(env.p, a.input, Sqs, "sqs");
    ResolvesToText(env.p, a.input, Http, "http");
    ResolvesToText(env.p, a.input, Https, "https");
  }

  /** Filters that look at the body see the default text, whatever the protocol. */
  lemma FiltersSeeDefault(env: Env, w: World, a: Action, arn: string)
    requires a.Publish? && arn in w.store.subscriptions
    ensures var sub := w.store.subscriptions[arn];
      IsSelected(env, w, a, arn) <==>
        && sub.topicArn == a.input.topicArn && sub.confirmed && HasText(env.p, a.input)
        && FilterSelects(env.p, sub, TextFor(env.p, a.input, "default"), a.input.attributes)
  {
    hide FilterSelects, ResolveMessages, HasText, TextFor, MessageFor;
    ResolvesToText(env.p, a.input, Sqs, "sqs");
  }

  /** A delivery fails if the queue refuses it, or if it is raw and the message has more than ten attributes. */
  predicate IsDelivered(input: PublishInput, sub: Subscription, f: Fate) {
    f.accepted && !(sub.attributes.rawMessageDelivery && |input.attributes| > 10)
  }

  /**
   In every run, each queue delivery of a publish that fails is redriven once if the subscription has a
   dead-letter queue, to that queue and as this message; a delivery that succeeds is not.
   */
  lemma FailuresAreRedriven(r: Run, k: nat, arn: string)
    requires Valid(r) && SendsAt(r, k) && arn in r.worlds[k].store.subscriptions
    ensures var a, sent := r.actions[k], ReplyTo(r.env, r.worlds[k], r.actions[k]).result.value.sent;
      var sub := r.worlds[k].store.subscriptions[arn];
      var target := sub.attributes.redrivePolicy;
      && CountRedrives(sent.redrives, arn) ==
         (if CountSends(sent.deliveries, arn) > 0 && !IsDelivered(a.input, sub, a.fate(arn))
            && r.env.hasSqs && target.Parsed? && target.value != "" then 1 else 0)
      && forall d :: d in sent.redrives && d.subscriptionArn == arn ==>
           target.Parsed? && d == Redrive(target.value, arn, a.arrival.messageId)
  {
    hide StepAt, ReplyTo, CountRedrives, CountSends;
    RedrivesExactly(r, k, arn);
    SentReply(r.env, r.worlds[k], r.actions[k]);
  }

  // ---- Which messages are accepted ---------------------------------------------------------------------------------

  /** What is asked of a message, its attributes, its subject, and on a FIFO topic its group and deduplication id. */
  predicate IsFine(p: Platform, topic: Topic, input: PublishInput) {
    && 1 <= |input.message| <= 262_144
    && (input.messageStructure == "" || (input.messageStructure == "json" && |input.attributes| == 0))
    && (topic.attributes.fifoTopic ==> 1 <= |input.groupId|) && |input.groupId| <= 128
    && (topic.attributes.fifoTopic && !topic.attributes.contentBasedDeduplication ==> 1 <= |input.dedupId| <= 128)
    && |input.subject| < 100 && '\r' !in input.subject && '\n' !in input.subject
    && forall k :: k in input.attributes ==>
         && !("aws." <= p.lower(k)) && !("amazon." <= p.lower(k))
         && input.attributes[k].dataType in ["String", "String.Array", "Number", "Binary"]
  }

  lemma FineIsValid(p: Platform, topic: Topic, input: PublishInput)
    ensures ValidPublishInput(p, topic, input) <==> IsFine(p, topic, input)
  {
    assert input.attributes == map[] <==> |input.attributes| == 0;
  }

  /**
   What a publish is answered with: an error that changes nothing for a missing topic, a refused caller or
   a message that is not fine; otherwise success if the message has a text to send.
   */
  lemma PublishAnswers(env: Env, w: World, a: Action)
    requires GoodWorld(env, w) && Enabled(env, w, a) && a.Publish?
    ensures var r, s := ReplyTo(env, w, a), w.store;
      if a.input.topicArn !in s.topics then r == Fail(s, NotFound)
      else if a.auth != None then r == Fail(s, a.auth.value)
      else
        var topic := s.topics[a.input.topicArn];
        if !IsFine(env.p, topic, a.input) then r == Fail(s, InvalidParameter)
        else if HasText(env.p, a.input) then r.result.Ok?
        else if !topic.attributes.fifoTopic then r == Fail(s, InvalidParameter)
        else r.result == Err(InvalidParameter) || (r.result.Ok? && r.result.value.deduplicated)
  {
    hide Good, IsFine, ValidPublishInput, ResolveMessages, HasText, MessageFor, Admit, Admitted, DedupId, Enqueued,
      Deliveries, Redrives, Listing, Filtered, FreshJobs;
    ResolvesToText(env.p, a.input, Sqs, "sqs");
    CanPublishSucceeds(env, w.used, w.store, a.auth, a.input, a.arrival, a.keys, a.subs, a.fate);
    if a.input.topicArn in w.store.topics {
      FineIsValid(env.p, w.store.topics[a.input.topicArn], a.input);
    }
  }

  // ---- Batches ---------------------------------------------------------------------------------------------------

  function Together(entries: seq<BatchEntry>): nat {
    if entries == [] then 0 else |entries[0].input.message| + Together(entries[1..])
  }

  lemma {:induction false} TotalIsTogether(entries: seq<BatchEntry>)
    ensures TotalLength(entries) == Together(entries)
  {
    if entries != [] {
      var first, rest, n := entries[0], entries[1..], |entries| - 1;
      TotalIsTogether(rest);
      if n > 0 {
        assert rest[..n - 1] == entries[..n][1..] && rest[n - 1] == entries[n];
        TotalIsTogether(entries[..n]);
        TotalIsTogether(rest[..n - 1]);
      }
    }
  }

  /** A batch has 1 to 10 entries with different identifiers, and no more text than one message may have. */
  lemma BatchIsFine(entries: seq<BatchEntry>)
    ensures BatchError(entries) == (
      if |entries| == 0 then Some(EmptyBatch)
      else if |entries| > 10 then Some(TooManyEntries)
      else if exists i, j :: 0 <= i < j < |entries| && entries[i].id == entries[j].id then Some(EntryIdsNotDistinct)
      else if Together(entries) > 262_144 then Some(BatchTooLong)
      else None)
  {
    TotalIsTogether(entries);
  }

  /** The reply to the i-th entry, published after those before it. */
  function EntryReply(env: Env, s: StoreState, ps: seq<Publication>, i: nat): Result<PublishOutput, ApiError>
    requires i < |ps|
  {
    ServiceSpec.Publish(env, PublishedAll(env, s, ps[..i]), ps[i].auth, ps[i].input, ps[i].arrival, ps[i].subs,
      ps[i].fate).result
  }

  /** Every entry is answered once: with its output among the successes or its error among the failures. */
  lemma {:induction false} EveryEntryIsAnswered(env: Env, s: StoreState, entries: seq<BatchEntry>, ps: seq<Publication>)
    requires |entries| == |ps|
    ensures var results := ResultsOf(env, s, entries, ps);
      && |results.successes| + |results.failures| == |entries|
      && forall i :: 0 <= i < |entries| ==>
           match EntryReply(env, s, ps, i)
           case Ok(out) => (entries[i].id, out) in results.successes
           case Err(e) => (entries[i].id, e) in results.failures
  {
    hide ServiceSpec.Publish;
    if ps != [] {
      var n := |ps| - 1;
      EveryEntryIsAnswered(env, s, entries[..n], ps[..n]);
      forall i | 0 <= i < n ensures EntryReply(env, s, ps[..n], i) == EntryReply(env, s, ps, i) {
        assert ps[..n][..i] == ps[..i];
      }
    }
  }
}
