/**
 Making and changing topics (internal/service/service.go, `CreateTopic` and `SetTopicAttribute`), told
 from what was asked for.
 */
module TopicCalls {
  import opened Common
  import opened Json
  import opened Domain
  import opened Attributes
  import opened ServiceSpec
  import opened Runs
  import opened Integrity
  import opened Preservation
  import AccessPolicy
  import StoreSpec

  predicate IsBase(base: string) {
    1 <= |base| <= 256 &&
    forall i :: 0 <= i < |base| ==>
      'A' <= base[i] <= 'Z' || 'a' <= base[i] <= 'z' || '0' <= base[i] <= '9' || base[i] == '_' || base[i] == '-'
  }

  /** A name of 1 to 256 letters, digits, underscores and hyphens, which for a FIFO topic is followed by ".fifo". */
  ghost predicate Named(name: string, fifo: bool) {
    exists base: string :: IsBase(base) && name == if fifo then base + ".fifo" else base
  }

  lemma NamedExactly(name: string, fifo: bool)
    ensures ValidTopicName(name, fifo) <==> Named(name, fifo)
  {
    hide IsBase;
    if ValidTopicName(name, fifo) {
      var base := if fifo then name[..|name| - 5] else name;
      CharsMakeBase(base);
      assert name == if fifo then base + ".fifo" else base;
    }
    if base: string :| IsBase(base) && name == if fifo then base + ".fifo" else base {
      CharsMakeBase(base);
      if fifo {
        assert name[|base|..] == ".fifo" && name[..|base|] == base;
      } else if IsFifoName(name) {
        assert name[|name| - 5..][0] == name[|name| - 5] && NameChar(base[|name| - 5]);
      }
    }
  }

  lemma CharsMakeBase(base: string)
    ensures NameChars(base) <==> IsBase(base)
  {
    assert forall c :: NameChar(c) <==>
      'A' <= c <= 'Z' || 'a' <= c <= 'z' || '0' <= c <= '9' || c == '_' || c == '-';
  }

  function TextOf(attrs: TopicEntries, name: TopicAttributeName): string {
    if name in attrs then attrs[name].text else ""
  }

  /** The topic is asked to be a FIFO topic. */
  predicate AsksFifo(p: Platform, attrs: TopicEntries) { p.fold(TextOf(attrs, FifoTopic)) == p.fold("true") }

  /** The value that the attribute may be given; what the topic is and whether it is new decide over some. */
  predicate Fine(p: Platform, fifo: bool, byGroup: bool, creating: bool, name: TopicAttributeName, v: TopicAttribute) {
    match name
    case Policy => v.asPolicy != Malformed
    case DeliveryPolicy => v.asDelivery != Malformed
    case FifoTopic => creating
    case ContentBasedDeduplication => fifo
    case FifoThroughputScope => fifo && (v.text == "MessageGroup" || (v.text == "Topic" && !byGroup))
    case ArchivePolicy => p.trim(v.text) == "" || v.validJson
    case SignatureVersion => v.text == "1" || v.text == "2"
    case TracingConfig => v.text == "PassThrough" || v.text == "Active"
    case DisplayName => true
    case Unsupported(_) => true
    case UnknownTopicAttribute(_) => false
  }

  lemma FineIsAccepted(p: Platform, a: TopicAttributes, creating: bool, name: TopicAttributeName, v: TopicAttribute)
    ensures AcceptsTopicAttribute(p, a, creating, name, v) <==>
      Fine(p, a.fifoTopic, a.throughputScope.GroupScope?, creating, name, v)
  {
    assert "Topic" != "MessageGroup" by {
      assert |"Topic"| == 5 && |"MessageGroup"| == 12;
    }
  }

  /** The record of a topic that was just made: attributes as asked, or else the defaults, and nothing sent yet. */
  predicate IsNew(env: Env, a: Action, topic: Topic)
    requires a.CreateTopic?
  {
    var b := topic.attributes;
    && topic.arn == "arn:aws:sns:" + env.cfg.region + ":" + env.cfg.account + ":" + a.name && topic.name == a.name
    && topic.createdAt == a.createdAt && topic.updatedAt == a.updatedAt && topic.tags == a.tags
    && topic.groupSequences == map[] && topic.dedupRecords == map[]
    && b.fifoTopic == AsksFifo(env.p, a.attrs)
    && b.contentBasedDeduplication == (ContentBasedDeduplication in a.attrs
         && env.p.fold(a.attrs[ContentBasedDeduplication].text) == env.p.fold("true"))
    && b.throughputScope == (if TextOf(a.attrs, FifoThroughputScope) == "MessageGroup" then GroupScope else TopicScope)
    && b.deliveryPolicy == (if DeliveryPolicy in a.attrs then a.attrs[DeliveryPolicy].asDelivery else Blank)
    && b.policy == (if Policy in a.attrs then a.attrs[Policy].asPolicy
         else AccessPolicy.DefaultTopicPolicy(topic.arn, env.cfg.account))
    && SignatureVersion in b.plain && TracingConfig in b.plain
    && b.plain[SignatureVersion] == (if SignatureVersion in a.attrs then a.attrs[SignatureVersion].text else "1")
    && b.plain[TracingConfig] == (if TracingConfig in a.attrs then a.attrs[TracingConfig].text else "PassThrough")
  }

  lemma MadeAsAsked(env: Env, a: Action)
    requires a.CreateTopic? && AcceptsTopicAttributes(env.p,
      NewTopic(env, a.name, AsksFifo(env.p, a.attrs), a.tags, a.createdAt).attributes, true, a.attrs)
    ensures var topic := NewTopic(env, a.name, AsksFifo(env.p, a.attrs), a.tags, a.createdAt);
      IsNew(env, a, topic.(attributes := WithTopicAttributes(env.p, topic.attributes, a.attrs),
        updatedAt := a.updatedAt))
  {
    hide AccessPolicy.DefaultTopicPolicy;
    var topic := NewTopic(env, a.name, AsksFifo(env.p, a.attrs), a.tags, a.createdAt);
    assert |"Topic"| == 5 && |"MessageGroup"| == 12;
    assert FifoThroughputScope in a.attrs ==> AcceptsTopicAttribute(env.p, topic.attributes, true, FifoThroughputScope,
      a.attrs[FifoThroughputScope]);
  }

  /**
   A name in use is answered with the topic that has it, whatever the attributes; otherwise the attributes
   and then the tags are checked, and the topic made as it was asked for.
   */
  lemma CreateTopicAnswers(env: Env, w: World, a: Action)
    requires GoodWorld(env, w) && a.CreateTopic?
    ensures var r := ServiceSpec.CreateTopic(env, w.store, a.name, a.attrs, a.tags, a.createdAt, a.updatedAt);
      var arn := "arn:aws:sns:" + env.cfg.region + ":" + env.cfg.account + ":" + a.name;
      var fifo := AsksFifo(env.p, a.attrs);
      if !Named(a.name, fifo) then r == Fail(w.store, InvalidParameter)
      else if arn in w.store.topics then r == Reply(w.store, Ok(arn))
      else if exists n :: n in a.attrs && !Fine(env.p, fifo, false, true, n, a.attrs[n]) then
        r == Fail(w.store, InvalidParameter)
      else if |a.tags| > 50 then r == Fail(w.store, TagLimitExceeded)
      else
        && r.result == Ok(arn) && arn in r.store.topics && IsNew(env, a, r.store.topics[arn])
        && r.store.topics == w.store.topics[arn := r.store.topics[arn]]
        && r.store.subscriptions == w.store.subscriptions && r.store.deliveryJobs == w.store.deliveryJobs
  {
    hide Good, ValidTopicName, AcceptsTopicAttribute, Fine, Named, WithTopicAttributes, IsNew, TopicArn;
    NamedExactly(a.name, WantsFifo(env.p, a.attrs));
    NameInUse(env, w, a.name);
    var attributes := NewTopic(env, a.name, WantsFifo(env.p, a.attrs), a.tags, a.createdAt).attributes;
    forall n | n in a.attrs
      ensures AcceptsTopicAttribute(env.p, attributes, true, n, a.attrs[n]) <==>
        Fine(env.p, AsksFifo(env.p, a.attrs), false, true, n, a.attrs[n])
    {
      FineIsAccepted(env.p, attributes, true, n, a.attrs[n]);
    }
    if AcceptsTopicAttributes(env.p, attributes, true, a.attrs) {
      MadeAsAsked(env, a);
    }
  }

  lemma NameInUse(env: Env, w: World, name: string)
    requires GoodWorld(env, w)
    ensures var arn := "arn:aws:sns:" + env.cfg.region + ":" + env.cfg.account + ":" + name;
      && TopicArn(env.cfg, name) == arn
      && (name in w.store.topicsByName <==> arn in w.store.topics)
      && (name in w.store.topicsByName ==> w.store.topicsByName[name] == arn)
  {
    hide StoreSpec.SubscriptionsIndexed, StoreSpec.RecordsKeyed, Linked, IdsUsed, TokensMatch, FifoByName, Readable;
    var arn := TopicArn(env.cfg, name);
    if arn in w.store.topics {
      TopicArnInjective(env.cfg, name, w.store.topics[arn].name);
    }
  }

  /** The attributes after one of them was set. */
  function AfterSetting(p: Platform, b: TopicAttributes, name: TopicAttributeName, v: TopicAttribute): TopicAttributes {
    match name
    case Policy => b.(policy := v.asPolicy)
    case DeliveryPolicy => b.(deliveryPolicy := v.asDelivery)
    case FifoThroughputScope => b.(throughputScope := if v.text == "MessageGroup" then GroupScope else TopicScope)
    case ContentBasedDeduplication => b.(contentBasedDeduplication := p.fold(v.text) == p.fold("true"))
    case _ => b.(plain := b.plain[name := v.text])
  }

  /** One attribute is set, if its value is fine; whether a topic is FIFO cannot be set. */
  lemma SetTopicAttributeAnswers(env: Env, s: StoreState, arn: string, auth: Auth, name: TopicAttributeName,
    v: TopicAttribute, now: Time)
    ensures var r := ServiceSpec.SetTopicAttribute(env, s, arn, auth, name, v, now);
      if arn !in s.topics then r == Fail(s, NotFound)
      else if auth != None then r == Fail(s, auth.value)
      else
        var topic := s.topics[arn];
        var b := topic.attributes;
        if !Fine(env.p, b.fifoTopic, b.throughputScope == GroupScope, false, name, v)
          then r == Fail(s, InvalidParameter)
        else r == Reply(s.(topics := s.topics[arn :=
          topic.(attributes := AfterSetting(env.p, b, name, v), updatedAt := now)]), Ok(()))
  {
    hide AcceptsTopicAttribute, WithTopicAttributes;
    if arn in s.topics {
      FineIsAccepted(env.p, s.topics[arn].attributes, false, name, v);
      if AcceptsTopicAttribute(env.p, s.topics[arn].attributes, false, name, v) {
        SettingIsWith(env.p, s.topics[arn].attributes, name, v);
      }
    }
  }

  lemma SettingIsWith(p: Platform, b: TopicAttributes, name: TopicAttributeName, v: TopicAttribute)
    requires AcceptsTopicAttribute(p, b, false, name, v)
    ensures WithTopicAttributes(p, b, map[name := v]) == AfterSetting(p, b, name, v)
  {
    assert |"Topic"| == 5 && |"MessageGroup"| == 12;
    OneMoreTopicAttribute(p, b, false, map[], name, v);
    assert WithTopicAttributes(p, b, map[]) == b;
  }

  /** Tags are added under the new keys and others kept, as long as no more than 50 result even if all are new. */
  lemma TagAnswers(p: Platform, s: StoreState, arn: string, tags: map<string, string>, k: string)
    requires arn in s.topics
    ensures var r, before := ServiceSpec.EditTopic(p, s, arn, None, Tag(tags)), s.topics[arn].tags;
      if |before| + |tags| > 50 then r == Fail(s, TagLimitExceeded)
      else
        && r.result == Ok(()) && arn in r.store.topics
        && var after := r.store.topics[arn].tags;
           && r.store == s.(topics := s.topics[arn := s.topics[arn].(tags := after)])
           && (k in after <==> k in before || k in tags)
           && (k in after ==> after[k] == if k in tags then tags[k] else before[k])
  {
  }

  /** The tags under the given keys are removed and others kept. */
  lemma UntagAnswers(p: Platform, s: StoreState, arn: string, keys: seq<string>, k: string)
    requires arn in s.topics
    ensures var r, before := ServiceSpec.EditTopic(p, s, arn, None, Untag(keys)), s.topics[arn].tags;
      && r.result == Ok(()) && arn in r.store.topics
      && var after := r.store.topics[arn].tags;
         && r.store == s.(topics := s.topics[arn := s.topics[arn].(tags := after)])
         && (k in after <==> k in before && k !in keys) && (k in after ==> after[k] == before[k])
  {
  }
}
