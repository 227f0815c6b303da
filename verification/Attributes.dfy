/**
 Attribute maps (internal/service/service.go, `applyTopicAttributes` and
 `applySubscriptionAttributes`): Go walks them in an arbitrary order and stops at the first entry
 it rejects. The outcome is described entry by entry, with no order.
 */
module Attributes {
  import opened Common
  import opened Json
  import opened Domain
  import AccessPolicy
  import Delivery
  import Filter

  /** A submitted attribute value: its text, and what the decoders make of it. */
  datatype TopicAttribute = TopicAttribute(
    text: string, asPolicy: Text<AccessPolicy.Document>, asDelivery: Text<Delivery.TopicPolicy>, validJson: bool)

  datatype SubscriptionAttribute = SubscriptionAttribute(
    text: string, asDelivery: Text<Delivery.SubscriptionPolicy>, asFilter: Text<map<string, JSON>>,
    asRedrive: Text<string>)

  predicate IsTrue(p: Platform, text: string) { p.EqualFold(text, "true") }

  // ---- Topics ----------------------------------------------------------------------------------------

  /** Attributes that are only stored and read back. */
  predicate IsPlain(name: TopicAttributeName) {
    name.ArchivePolicy? || name.SignatureVersion? || name.TracingConfig? || name.DisplayName? || name.Unsupported?
  }

  function ScopeOf(text: string): Scope {
    if text == "Topic" then TopicScope else if text == "MessageGroup" then GroupScope else OtherScope(text)
  }

  predicate AcceptsTopicAttribute(p: Platform, a: TopicAttributes, creating: bool, name: TopicAttributeName,
    v: TopicAttribute) {
    match name
    case Policy => !v.asPolicy.Malformed?
    case DeliveryPolicy => !v.asDelivery.Malformed?
    case FifoTopic => creating
    case ContentBasedDeduplication => a.fifoTopic
    case FifoThroughputScope =>
      a.fifoTopic && !ScopeOf(v.text).OtherScope? && !(a.throughputScope.GroupScope? && ScopeOf(v.text).TopicScope?)
    case ArchivePolicy => p.trim(v.text) == "" || v.validJson
    case SignatureVersion => v.text in {"1", "2"}
    case TracingConfig => v.text in {"PassThrough", "Active"}
    case DisplayName => true
    case Unsupported(_) => true
    case UnknownTopicAttribute(_) => false
  }

  function SetTopicAttribute(p: Platform, a: TopicAttributes, name: TopicAttributeName, v: TopicAttribute):
    TopicAttributes
  {
    match name
    case Policy => a.(policy := v.asPolicy)
    case DeliveryPolicy => a.(deliveryPolicy := v.asDelivery)
    case FifoTopic => a.(fifoTopic := IsTrue(p, v.text))
    case ContentBasedDeduplication => a.(contentBasedDeduplication := IsTrue(p, v.text))
    case FifoThroughputScope => a.(throughputScope := ScopeOf(v.text))
    case _ => a.(plain := a.plain[name := v.text])
  }

  type TopicEntries = map<TopicAttributeName, TopicAttribute>

  function PlainEntries(attrs: TopicEntries): map<TopicAttributeName, string> {
    map n | n in attrs && IsPlain(n) :: attrs[n].text
  }

  /** The attributes after all the entries of `attrs`, each read on its own. */
  function WithTopicAttributes(p: Platform, a: TopicAttributes, attrs: TopicEntries): TopicAttributes {
    TopicAttributes(
      if Policy in attrs then attrs[Policy].asPolicy else a.policy,
      if DeliveryPolicy in attrs then attrs[DeliveryPolicy].asDelivery else a.deliveryPolicy,
      if FifoTopic in attrs then IsTrue(p, attrs[FifoTopic].text) else a.fifoTopic,
      if ContentBasedDeduplication in attrs then IsTrue(p, attrs[ContentBasedDeduplication].text)
        else a.contentBasedDeduplication,
      if FifoThroughputScope in attrs then ScopeOf(attrs[FifoThroughputScope].text) else a.throughputScope,
      a.plain + PlainEntries(attrs))
  }

  ghost predicate AcceptsTopicAttributes(p: Platform, a: TopicAttributes, creating: bool, attrs: TopicEntries) {
    forall n :: n in attrs ==> AcceptsTopicAttribute(p, a, creating, n, attrs[n])
  }

  /** A `FifoTopic` entry says what the topic was already made to be, as `CreateTopic` arranges. */
  predicate FifoAgrees(p: Platform, a: TopicAttributes, creating: bool, attrs: TopicEntries) {
    creating && FifoTopic in attrs ==> IsTrue(p, attrs[FifoTopic].text) == a.fifoTopic
  }

  /** The attributes already applied do not change the verdict on another one. */
  lemma SameVerdict(p: Platform, a: TopicAttributes, creating: bool, attrs: TopicEntries, done: TopicEntries,
    name: TopicAttributeName, v: TopicAttribute)
    requires FifoAgrees(p, a, creating, attrs) && name !in done && AcceptsTopicAttributes(p, a, creating, done)
    requires forall n :: n in done ==> n in attrs && done[n] == attrs[n]
    ensures AcceptsTopicAttribute(p, WithTopicAttributes(p, a, done), creating, name, v)
      <==> AcceptsTopicAttribute(p, a, creating, name, v)
  {
    assert FifoTopic in done ==> AcceptsTopicAttribute(p, a, creating, FifoTopic, done[FifoTopic]);
  }

  lemma OneMoreTopicAttribute(p: Platform, a: TopicAttributes, creating: bool, done: TopicEntries,
    name: TopicAttributeName, v: TopicAttribute)
    requires AcceptsTopicAttribute(p, a, creating, name, v)
    ensures SetTopicAttribute(p, WithTopicAttributes(p, a, done), name, v) == WithTopicAttributes(p, a, done[name := v])
  {
    PlainStep(done, name, v);
    PlusUpdate(a.plain, PlainEntries(done), name, v.text);
  }

  lemma PlainStep(done: TopicEntries, name: TopicAttributeName, v: TopicAttribute)
    ensures PlainEntries(done[name := v]) ==
      if IsPlain(name) then PlainEntries(done)[name := v.text] else PlainEntries(done)
  {
  }

  lemma PlusUpdate<K, V>(a: map<K, V>, b: map<K, V>, k: K, v: V)
    ensures a + b[k := v] == (a + b)[k := v]
  {
  }

  // ---- Subscriptions ---------------------------------------------------------------------------------

  type SubscriptionEntries = map<SubscriptionAttributeName, SubscriptionAttribute>

  ghost predicate AcceptsSubscriptionAttribute(protocol: Protocol, name: SubscriptionAttributeName,
    v: SubscriptionAttribute) {
    match name
    case SubDeliveryPolicy => Pushed(protocol) && !v.asDelivery.Malformed?
    case FilterPolicy => !v.asFilter.Malformed? && (v.asFilter.Parsed? ==> Filter.ValidObject(v.asFilter.value))
    case FilterPolicyScope => v.text in {Filter.MESSAGE_ATTRIBUTES, Filter.MESSAGE_BODY}
    case RawMessageDelivery => true
    case RedrivePolicy => !v.asRedrive.Malformed?
    case UnknownSubscriptionAttribute(_) => false
  }

  ghost predicate AcceptsSubscriptionAttributes(protocol: Protocol, attrs: SubscriptionEntries) {
    forall n :: n in attrs ==> AcceptsSubscriptionAttribute(protocol, n, attrs[n])
  }

  function SetSubscriptionAttribute(p: Platform, a: SubscriptionAttributes, name: SubscriptionAttributeName,
    v: SubscriptionAttribute): SubscriptionAttributes
  {
    match name
    case SubDeliveryPolicy => a.(deliveryPolicy := v.asDelivery)
    case FilterPolicy => a.(filterPolicy := v.asFilter)
    case FilterPolicyScope => a.(filterPolicyScope := v.text)
    case RawMessageDelivery => a.(rawMessageDelivery := IsTrue(p, v.text))
    case RedrivePolicy => a.(redrivePolicy := v.asRedrive)
    case UnknownSubscriptionAttribute(_) => a
  }

  /** The entries of `attrs`, each read on its own. */
  function WithSubscriptionAttributes(p: Platform, a: SubscriptionAttributes, attrs: SubscriptionEntries):
    SubscriptionAttributes
  {
    SubscriptionAttributes(
      if SubDeliveryPolicy in attrs then attrs[SubDeliveryPolicy].asDelivery else a.deliveryPolicy,
      if FilterPolicy in attrs then attrs[FilterPolicy].asFilter else a.filterPolicy,
      if FilterPolicyScope in attrs then attrs[FilterPolicyScope].text else a.filterPolicyScope,
      if RawMessageDelivery in attrs then IsTrue(p, attrs[RawMessageDelivery].text) else a.rawMessageDelivery,
      if RedrivePolicy in attrs then attrs[RedrivePolicy].asRedrive else a.redrivePolicy,
      a.effectiveDeliveryPolicy)
  }

  /** The effective policy is recomputed when both policies can be read, and left alone otherwise. */
  function WithEffective(a: SubscriptionAttributes, topicPolicy: Text<Delivery.TopicPolicy>): SubscriptionAttributes {
    var effective := Delivery.EffectivePolicy(topicPolicy, a.deliveryPolicy);
    if effective.Some? then a.(effectiveDeliveryPolicy := Parsed(effective.value)) else a
  }

  method ApplySubscriptionAttributes(p: Platform, a: SubscriptionAttributes, protocol: Protocol,
    topicPolicy: Text<Delivery.TopicPolicy>, attrs: SubscriptionEntries) returns (r: Option<SubscriptionAttributes>)
    ensures r == if AcceptsSubscriptionAttributes(protocol, attrs)
      then Some(WithEffective(WithSubscriptionAttributes(p, a, attrs), topicPolicy)) else None
  {
    var out := a;
    var rest := attrs.Keys;
    ghost var done: SubscriptionEntries := map[];
    while rest != {}
      invariant rest <= attrs.Keys && done == map n | n in attrs && n !in rest :: attrs[n]
      invariant AcceptsSubscriptionAttributes(protocol, done)
      invariant out == WithSubscriptionAttributes(p, a, done)
    {
      var name :| name in rest;
      rest := rest - {name};
      var v := attrs[name];
      var ok := CheckSubscriptionAttribute(protocol, name, v);
      if !ok {
        return None;
      }
      OneMoreSubscriptionAttribute(p, a, done, protocol, name, v);
      out := SetSubscriptionAttribute(p, out, name, v);
      done := done[name := v];
    }
    assert done == attrs;
    return Some(WithEffective(out, topicPolicy));
  }

  method CheckSubscriptionAttribute(protocol: Protocol, name: SubscriptionAttributeName, v: SubscriptionAttribute)
    returns (ok: bool)
    ensures ok <==> AcceptsSubscriptionAttribute(protocol, name, v)
  {
    match name {
      case SubDeliveryPolicy => ok := Pushed(protocol) && !v.asDelivery.Malformed?;
      case FilterPolicy => ok := Filter.Validate(v.asFilter);
      case FilterPolicyScope => ok := v.text in {Filter.MESSAGE_ATTRIBUTES, Filter.MESSAGE_BODY};
      case RawMessageDelivery => ok := true;
      case RedrivePolicy => ok := !v.asRedrive.Malformed?;
      case UnknownSubscriptionAttribute(_) => ok := false;
    }
  }

  lemma OneMoreSubscriptionAttribute(p: Platform, a: SubscriptionAttributes, done: SubscriptionEntries,
    protocol: Protocol, name: SubscriptionAttributeName, v: SubscriptionAttribute)
    requires AcceptsSubscriptionAttribute(protocol, name, v) && AcceptsSubscriptionAttributes(protocol, done)
    ensures AcceptsSubscriptionAttributes(protocol, done[name := v])
    ensures SetSubscriptionAttribute(p, WithSubscriptionAttributes(p, a, done), name, v)
      == WithSubscriptionAttributes(p, a, done[name := v])
  {
  }
}
