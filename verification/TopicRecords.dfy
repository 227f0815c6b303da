/**
 Topic records as the heap objects they are (internal/domain/types.go, `Topic` and `CopyTopic`):
 their maps can be shared, and closures change a record in place, perhaps before they fail.
 */
module TopicRecords {
  import opened Common
  import opened Json
  import opened Domain
  import opened Attributes
  import opened ServiceSpec
  import AccessPolicy
  import Delivery
  import StoreSpec

  // ---- Go maps ------------------------------------------------------------------------------------

  /** A Go map: a reference, so two variables can hold the same one. */
  class GoMap<K(==), V> {
    var entries: map<K, V>

    constructor (entries: map<K, V>)
      ensures this.entries == entries
    {
      this.entries := entries;
    }
  }

  /** `maps.Copy`: the entries are written one by one, in an arbitrary order. */
  method CopyInto<K, V>(dst: GoMap<K, V>, src: map<K, V>)
    modifies dst
    ensures dst.entries == old(dst.entries) + src
  {
    ghost var before := dst.entries;
    var rest := src.Keys;
    while rest != {}
      invariant rest <= src.Keys
      invariant dst.entries == before + map k | k in src && k !in rest :: src[k]
    {
      var k :| k in rest;
      rest := rest - {k};
      dst.entries := dst.entries[k := src[k]];
    }
    assert src == map k | k in src && k !in rest :: src[k];
  }

  method CopyMap<K, V>(src: GoMap<K, V>) returns (dst: GoMap<K, V>)
    ensures fresh(dst) && dst.entries == src.entries
  {
    dst := new GoMap(map[]);
    CopyInto(dst, src.entries);
  }

  // ---- Records ------------------------------------------------------------------------------------

  class TopicRecord {
    var arn: string
    var name: string
    var createdAt: Time
    var updatedAt: Time
    var policy: Text<AccessPolicy.Document>
    var deliveryPolicy: Text<Delivery.TopicPolicy>
    var fifoTopic: bool
    var contentBasedDeduplication: bool
    var throughputScope: Scope
    var plain: GoMap<TopicAttributeName, string>
    var tags: GoMap<string, string>
    var groupSequences: GoMap<string, SequenceState>
    var dedupRecords: GoMap<string, DedupRecord>
    var subscriptions: GoMap<string, ()>

    /** The value the record stands for. */
    ghost var value: Topic

    ghost predicate Valid()
      reads this, plain, tags, groupSequences, dedupRecords, subscriptions
    {
      value == Topic(arn, name, createdAt, updatedAt,
        TopicAttributes(policy, deliveryPolicy, fifoTopic, contentBasedDeduplication, throughputScope, plain.entries),
        tags.entries, groupSequences.entries, dedupRecords.entries, subscriptions.entries)
    }

    constructor (t: Topic)
      ensures Valid() && value == t
      ensures fresh(plain) && fresh(tags) && fresh(groupSequences) && fresh(dedupRecords) && fresh(subscriptions)
    {
      arn, name, createdAt, updatedAt := t.arn, t.name, t.createdAt, t.updatedAt;
      policy, deliveryPolicy := t.attributes.policy, t.attributes.deliveryPolicy;
      fifoTopic, contentBasedDeduplication := t.attributes.fifoTopic, t.attributes.contentBasedDeduplication;
      throughputScope := t.attributes.throughputScope;
      plain := new GoMap(t.attributes.plain);
      tags := new GoMap(t.tags);
      groupSequences := new GoMap(t.groupSequences);
      dedupRecords := new GoMap(t.dedupRecords);
      subscriptions := new GoMap(t.subscriptions);
      value := t;
    }

    /** `cp := *src`: the fields are copied, and with them the references to the maps. */
    constructor Shallow(src: TopicRecord)
      requires src.Valid()
      ensures Valid() && value == src.value
      ensures plain == src.plain && tags == src.tags
      ensures groupSequences == src.groupSequences && dedupRecords == src.dedupRecords
      ensures subscriptions == src.subscriptions
    {
      arn, name, createdAt, updatedAt := src.arn, src.name, src.createdAt, src.updatedAt;
      policy, deliveryPolicy := src.policy, src.deliveryPolicy;
      fifoTopic, contentBasedDeduplication := src.fifoTopic, src.contentBasedDeduplication;
      throughputScope := src.throughputScope;
      plain, tags := src.plain, src.tags;
      groupSequences, dedupRecords := src.groupSequences, src.dedupRecords;
      subscriptions := src.subscriptions;
      value := src.value;
    }

    /** Gives the record its own copies of the maps of its attributes and tags. */
    method OwnAttributes()
      requires Valid()
      modifies this`plain, this`tags
      ensures Valid() && fresh(plain) && fresh(tags)
    {
      var newPlain := CopyMap(plain);
      var newTags := CopyMap(tags);
      plain, tags := newPlain, newTags;
    }

    /** Of its sequences and deduplication records. */
    method OwnRecords()
      requires Valid()
      modifies this`groupSequences, this`dedupRecords
      ensures Valid() && fresh(groupSequences) && fresh(dedupRecords)
    {
      var sequences := CopyMap(groupSequences);
      var records := CopyMap(dedupRecords);
      groupSequences, dedupRecords := sequences, records;
    }

    method OwnSubscriptions()
      requires Valid()
      modifies this`subscriptions
      ensures Valid() && fresh(subscriptions)
    {
      subscriptions := CopyMap(subscriptions);
    }

    /** What the closure of a publish reads. */
    lemma ReadsMatch()
      requires Valid()
      ensures arn == value.arn && throughputScope == value.attributes.throughputScope
      ensures groupSequences.entries == value.groupSequences && dedupRecords.entries == value.dedupRecords
    {
    }

    method Remember(group: string, next: SequenceState, key: string, record: DedupRecord)
      requires Valid()
      modifies this`value, groupSequences, dedupRecords
      ensures Valid() && value == old(value).(
        groupSequences := old(value).groupSequences[group := next],
          dedupRecords := old(value).dedupRecords[key := record])
    {
      groupSequences.entries := groupSequences.entries[group := next];
      dedupRecords.entries := dedupRecords.entries[key := record];
      value := value.(groupSequences := groupSequences.entries, dedupRecords := dedupRecords.entries);
    }

    method SetPolicy(policy: Text<AccessPolicy.Document>)
      requires Valid()
      modifies this`policy, this`value
      ensures Valid() && value == old(value).(attributes := old(value).attributes.(policy := policy))
    {
      this.policy, value := policy, value.(attributes := value.attributes.(policy := policy));
    }

    method SetDeliveryPolicy(policy: Text<Delivery.TopicPolicy>)
      requires Valid()
      modifies this`deliveryPolicy, this`value
      ensures Valid() && value == old(value).(attributes := old(value).attributes.(deliveryPolicy := policy))
    {
      deliveryPolicy, value := policy, value.(attributes := value.attributes.(deliveryPolicy := policy));
    }

    method SetFifo(fifo: bool)
      requires Valid()
      modifies this`fifoTopic, this`value
      ensures Valid() && value == old(value).(attributes := old(value).attributes.(fifoTopic := fifo))
    {
      fifoTopic, value := fifo, value.(attributes := value.attributes.(fifoTopic := fifo));
    }

    method SetContentBased(contentBased: bool)
      requires Valid()
      modifies this`contentBasedDeduplication, this`value
      ensures Valid()
      ensures value == old(value).(attributes := old(value).attributes.(contentBasedDeduplication := contentBased))
    {
      contentBasedDeduplication := contentBased;
      value := value.(attributes := value.attributes.(contentBasedDeduplication := contentBased));
    }

    method SetScope(scope: Scope)
      requires Valid()
      modifies this`throughputScope, this`value
      ensures Valid() && value == old(value).(attributes := old(value).attributes.(throughputScope := scope))
    {
      throughputScope, value := scope, value.(attributes := value.attributes.(throughputScope := scope));
    }

    method SetPlain(name: TopicAttributeName, text: string)
      requires Valid()
      modifies this`value, plain
      ensures Valid()
      ensures value ==
        old(value).(attributes := old(value).attributes.(plain := old(value).attributes.plain[name := text]))
    {
      plain.entries := plain.entries[name := text];
      value := value.(attributes := value.attributes.(plain := plain.entries));
    }

    method Stamp(now: Time)
      requires Valid()
      modifies this`updatedAt, this`value
      ensures Valid() && value == old(value).(updatedAt := now)
    {
      updatedAt, value := now, value.(updatedAt := now);
    }

    method Value() returns (t: Topic)
      requires Valid()
      ensures t == value
    {
      t := Topic(arn, name, createdAt, updatedAt,
        TopicAttributes(policy, deliveryPolicy, fifoTopic, contentBasedDeduplication, throughputScope, plain.entries),
        tags.entries, groupSequences.entries, dedupRecords.entries, subscriptions.entries);
    }
  }

  /** No object that the record is made of existed before. */
  twostate predicate AllNew(new r: TopicRecord)
    reads r
  {
    && fresh(r) && fresh(r.plain) && fresh(r.tags) && fresh(r.groupSequences) && fresh(r.dedupRecords)
    && fresh(r.subscriptions)
  }

  /** The record still has the maps it had. */
  twostate predicate SameMaps(r: TopicRecord)
    reads r
  {
    && r.plain == old(r.plain) && r.tags == old(r.tags)
    && r.groupSequences == old(r.groupSequences) && r.dedupRecords == old(r.dedupRecords)
    && r.subscriptions == old(r.subscriptions)
  }

  /** `CopyTopic`: an equal record none of whose objects existed before. */
  method CopyTopic(src: TopicRecord) returns (cp: TopicRecord)
    requires src.Valid()
    ensures cp.Valid() && AllNew(cp) && cp.value == src.value
  {
    hide TopicRecord.Valid;
    cp := new TopicRecord.Shallow(src);
    cp.OwnAttributes();
    cp.OwnRecords();
    cp.OwnSubscriptions();
  }

  // ---- Closures -----------------------------------------------------------------------------------

  /** The switch in `applyTopicAttributes`, in place. */
  method SetInPlace(p: Platform, topic: TopicRecord, name: TopicAttributeName, v: TopicAttribute)
    requires topic.Valid()
    modifies topic, topic.plain
    ensures topic.Valid() && SameMaps(topic)
    ensures topic.value ==
      old(topic.value).(attributes := Attributes.SetTopicAttribute(p, old(topic.value).attributes, name, v))
  {
    hide TopicRecord.Valid;
    match name {
      case Policy => topic.SetPolicy(v.asPolicy);
      case DeliveryPolicy => topic.SetDeliveryPolicy(v.asDelivery);
      case FifoTopic => topic.SetFifo(IsTrue(p, v.text));
      case ContentBasedDeduplication => topic.SetContentBased(IsTrue(p, v.text));
      case FifoThroughputScope => topic.SetScope(ScopeOf(v.text));
      case _ => topic.SetPlain(name, v.text);
    }
  }

  /** One turn of the loop of `applyTopicAttributes`; `done` are the entries written before. */
  method ApplyEntry(p: Platform, topic: TopicRecord, name: TopicAttributeName, v: TopicAttribute, creating: bool,
    ghost a: TopicAttributes, ghost attrs: TopicEntries, ghost done: TopicEntries) returns (ok: bool)
    requires FifoAgrees(p, a, creating, attrs) && AcceptsTopicAttributes(p, a, creating, done)
    requires name !in done && forall n :: n in done ==> n in attrs && done[n] == attrs[n]
    requires topic.Valid() && topic.value.attributes == WithTopicAttributes(p, a, done)
    modifies topic, topic.plain
    ensures topic.Valid() && SameMaps(topic) && ok == AcceptsTopicAttribute(p, a, creating, name, v)
    ensures ok ==> topic.value == old(topic.value).(attributes := WithTopicAttributes(p, a, done[name := v]))
  {
    hide WithTopicAttributes, Attributes.SetTopicAttribute, AcceptsTopicAttribute, TopicRecord.Valid;
    var current := topic.Value();
    SameVerdict(p, a, creating, attrs, done, name, v);
    ok := AcceptsTopicAttribute(p, current.attributes, creating, name, v);
    if ok {
      OneMoreTopicAttribute(p, a, creating, done, name, v);
      SetInPlace(p, topic, name, v);
    }
  }

  /**
   `applyTopicAttributes`, writing entry by entry in the order in which Go happens to walk the map.
   A rejected entry ends it, and what was written before stays in the record.
   */
  method ApplyTopicAttributes(p: Platform, topic: TopicRecord, attrs: TopicEntries, creating: bool, now: Time)
    returns (ok: bool)
    requires topic.Valid() && FifoAgrees(p, topic.value.attributes, creating, attrs)
    modifies topic, topic.plain
    ensures topic.Valid() && SameMaps(topic)
    ensures ok == AcceptsTopicAttributes(p, old(topic.value).attributes, creating, attrs)
    ensures ok ==> topic.value == old(topic.value).(
      attributes := WithTopicAttributes(p, old(topic.value).attributes, attrs), updatedAt := now)
  {
    ghost var was := topic.value;
    ghost var a := was.attributes;
    var rest := attrs.Keys;
    ghost var done: TopicEntries := map[];
    NoEntries(p, a);
    hide WithTopicAttributes, AcceptsTopicAttribute, TopicRecord.Valid;
    while rest != {}
      invariant topic.Valid() && SameMaps(topic)
      invariant rest <= attrs.Keys && done == map n | n in attrs && n !in rest :: attrs[n]
      invariant AcceptsTopicAttributes(p, a, creating, done)
      invariant topic.value == was.(attributes := WithTopicAttributes(p, a, done))
    {
      var name :| name in rest;
      OneEntryLess(attrs, rest, name);
      ok := ApplyEntry(p, topic, name, attrs[name], creating, a, attrs, done);
      if !ok {
        return;
      }
      rest := rest - {name};
      done := done[name := attrs[name]];
    }
    assert done == attrs;
    topic.Stamp(now);
    ok := true;
  }

  lemma OneEntryLess(attrs: TopicEntries, rest: set<TopicAttributeName>, name: TopicAttributeName)
    requires name in attrs
    ensures (map n | n in attrs && n !in rest :: attrs[n])[name := attrs[name]] ==
      map n | n in attrs && n !in rest - {name} :: attrs[n]
  {
  }

  lemma NoEntries(p: Platform, a: TopicAttributes)
    ensures WithTopicAttributes(p, a, map[]) == a
  {
    assert a.plain + PlainEntries(map[]) == a.plain;
  }

  /** The closure of a FIFO publish: look the key up, or move the sequence on and remember the key, in place. */
  method AdmitMessage(topic: TopicRecord, groupId: string, dedupId: string, a: Arrival) returns (admission: Admission)
    requires topic.Valid()
    modifies topic`value, topic.groupSequences, topic.dedupRecords
    ensures topic.Valid()
    ensures admission == Admit(old(topic.value), groupId, dedupId, a)
    ensures topic.value == Admitted(old(topic.value), groupId, dedupId, a)
  {
    hide TopicRecord.Valid;
    topic.ReadsMatch();
    var scope := topic.arn;
    if topic.throughputScope.GroupScope? {
      scope := topic.arn + ":" + groupId;
    }
    var key := scope + ":" + dedupId;
    var records, sequences := topic.dedupRecords.entries, topic.groupSequences.entries;
    if key in records && records[key].expiresAt > a.checkedAt {
      return Admission(records[key].messageId, records[key].sequenceNumber, true);
    }
    var state := if groupId in sequences then sequences[groupId] else NO_SEQUENCE;
    var (next, number) := NextSequence(state, a.nanos);
    topic.Remember(groupId, next, key, DedupRecord(a.messageId, number, a.recordedAt + DEDUP_WINDOW));
    admission := Admission(a.messageId, number, false);
  }

  /** `maps.Copy(topic.Tags, tags)`. */
  method WriteTags(topic: TopicRecord, tags: map<string, string>)
    requires topic.Valid()
    modifies topic`value, topic.tags
    ensures topic.Valid() && topic.value == old(topic.value).(tags := old(topic.value).tags + tags)
  {
    CopyInto(topic.tags, tags);
    topic.value := topic.value.(tags := topic.tags.entries);
  }

  /** `delete(topic.Tags, key)` for each key. */
  method DeleteTags(topic: TopicRecord, keys: seq<string>)
    requires topic.Valid()
    modifies topic`value, topic.tags
    ensures topic.Valid()
    ensures topic.value == old(topic.value).(tags := WithoutTags(old(topic.value).tags, keys))
  {
    ghost var before := topic.tags.entries;
    for i := 0 to |keys|
      invariant topic.tags.entries == WithoutTags(before, keys[..i])
      modifies topic.tags
    {
      assert keys[..i + 1] == keys[..i] + [keys[i]];
      topic.tags.entries := map k | k in topic.tags.entries && k != keys[i] :: topic.tags.entries[k];
    }
    assert keys[..|keys|] == keys;
    topic.value := topic.value.(tags := topic.tags.entries);
  }

  /** All the closures that the service gives to `UpdateTopic`. */
  datatype TopicUpdate =
    | ApplyAttributes(p: Platform, attrs: TopicEntries, now: Time)
    | AdmitOne(groupId: string, dedupId: string, arrival: Arrival)
    | PutTags(tags: map<string, string>)
    | DropTags(keys: seq<string>)
    | ReplacePolicy(policy: Text<AccessPolicy.Document>)

  /** What a closure makes of a topic, or its error. */
  ghost function Outcome(update: TopicUpdate, t: Topic): Result<Topic, StoreSpec.Error> {
    match update
    case ApplyAttributes(p, attrs, now) =>
      if AcceptsTopicAttributes(p, t.attributes, false, attrs)
      then Ok(t.(attributes := WithTopicAttributes(p, t.attributes, attrs), updatedAt := now))
      else Err(StoreSpec.Rejected(""))
    case AdmitOne(groupId, dedupId, arrival) => Ok(Admitted(t, groupId, dedupId, arrival))
    case PutTags(tags) => Ok(t.(tags := t.tags + tags))
    case DropTags(keys) => Ok(t.(tags := WithoutTags(t.tags, keys)))
    case ReplacePolicy(policy) => Ok(WithPolicy(t, policy))
  }

  /** What the closure tells its caller through the variables it captured. */
  predicate Tells(update: TopicUpdate, t: Topic, told: Option<Admission>) {
    update.AdmitOne? ==> told == Some(Admit(t, update.groupId, update.dedupId, update.arrival))
  }

  /** Runs a closure on a record, in place. */
  method Run(update: TopicUpdate, topic: TopicRecord) returns (ok: bool, told: Option<Admission>)
    requires topic.Valid()
    modifies topic, topic.plain, topic.tags, topic.groupSequences, topic.dedupRecords
    ensures topic.Valid() && SameMaps(topic)
    ensures Outcome(update, old(topic.value)) == if ok then Ok(topic.value) else Err(StoreSpec.Rejected(""))
    ensures Tells(update, old(topic.value), told)
  {
    hide WithTopicAttributes, AcceptsTopicAttributes, Admitted, Admit;
    match update
    case ApplyAttributes(p, attrs, now) =>
      ok := ApplyTopicAttributes(p, topic, attrs, false, now);
      told := None;
    case AdmitOne(groupId, dedupId, arrival) =>
      var admission := AdmitMessage(topic, groupId, dedupId, arrival);
      ok, told := true, Some(admission);
    case PutTags(tags) =>
      WriteTags(topic, tags);
      ok, told := true, None;
    case DropTags(keys) =>
      DeleteTags(topic, keys);
      ok, told := true, None;
    case ReplacePolicy(policy) =>
      topic.SetPolicy(policy);
      ok, told := true, None;
  }
}
