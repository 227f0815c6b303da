/**
 The in-memory store as objects (internal/store/memory/store.go): Go maps are objects that can be
 shared, and so are the records their entries point to. Every mutator is tied to the value-level
 mutator of `StoreSpec`.
 */
module MemoryStore {
  import opened Common
  import opened Domain
  import opened StoreSpec
  import opened TopicRecords
  import ServiceSpec
  import Paging

  /** A pointer to a record. */
  class Ref<T> {
    var value: T

    constructor (value: T)
      ensures this.value == value
    {
      this.value := value;
    }
  }

  /** `map[string]*T`: what is put in and taken out is copied, so no pointer leaves the table. */
  class Table<T> {
    var refs: map<string, Ref<T>>
    ghost var records: map<string, T>
    ghost var owned: set<Ref<T>>

    ghost predicate Valid()
      reads this, owned
    {
      && refs.Keys == records.Keys
      && forall k :: k in refs ==> refs[k] in owned && refs[k].value == records[k]
    }

    constructor ()
      ensures Valid() && records == map[] && fresh(owned)
    {
      refs, records, owned := map[], map[], {};
    }

    /** A copy of the record, if there is one. */
    method Get(key: string) returns (r: Option<T>)
      requires Valid()
      ensures r == if key in records then Some(records[key]) else None
    {
      return if key in refs then Some(refs[key].value) else None;
    }

    /** Copies of the records at some keys, in the order of the keys. */
    method GetAll(keys: seq<string>) returns (out: seq<T>)
      requires Valid() && forall k :: k in keys ==> k in records
      ensures |out| == |keys| && forall i :: 0 <= i < |out| ==> keys[i] in records && out[i] == records[keys[i]]
    {
      out := [];
      for i := 0 to |keys|
        invariant |out| == i && forall k :: 0 <= k < i ==> keys[k] in records && out[k] == records[keys[k]]
      {
        assert keys[i] in keys;
        out := out + [refs[keys[i]].value];
      }
    }

    method Put(key: string, value: T)
      requires Valid()
      modifies this
      ensures Valid() && fresh(owned - old(owned))
      ensures records == old(records)[key := value]
    {
      var copy := new Ref(value);
      refs := refs[key := copy];
      records, owned := records[key := value], owned + {copy};
    }

    method Delete(key: string)
      requires Valid()
      modifies this
      ensures Valid() && owned == old(owned)
      ensures records == Drop(old(records), {key})
    {
      refs := map k | k in refs && k != key :: refs[k];
      records := Drop(records, {key});
    }

    /** A `range` loop that collects keys. */
    method KeysWhere(wanted: T -> bool) returns (keys: set<string>)
      requires Valid()
      ensures keys == set k | k in records && wanted(records[k])
    {
      keys := {};
      var rest := refs.Keys;
      while rest != {}
        invariant rest <= refs.Keys
        invariant keys == set k | k in records && k !in rest && wanted(records[k])
      {
        var k :| k in rest;
        rest := rest - {k};
        if wanted(refs[k].value) {
          keys := keys + {k};
        }
      }
    }

    /** A `range` loop that deletes keys. */
    method DeleteAll(keys: set<string>)
      requires Valid()
      modifies this
      ensures Valid() && owned == old(owned)
      ensures records == Drop(old(records), keys)
    {
      var rest := keys;
      while rest != {}
        invariant Valid() && owned == old(owned) && rest <= keys
        invariant records == Drop(old(records), keys - rest)
      {
        var k :| k in rest;
        rest := rest - {k};
        Delete(k);
      }
    }

    method Clone() returns (dst: Table<T>)
      requires Valid()
      ensures dst.Valid() && fresh(dst) && fresh(dst.owned) && dst.records == records
    {
      dst := new Table();
      var rest := refs.Keys;
      while rest != {}
        invariant rest <= refs.Keys && dst.Valid() && fresh(dst) && fresh(dst.owned)
        invariant dst.records == Drop(records, rest)
        modifies dst
      {
        var k :| k in rest;
        rest := rest - {k};
        dst.Put(k, refs[k].value);
      }
    }
  }

  /**
   `map[string]*domain.Topic`. The records have maps of their own, so a copy is made of whatever is
   put in: no object of a record in the table can be reached from outside.
   */
  class TopicTable {
    var refs: map<string, TopicRecord>
    ghost var records: map<string, Topic>
    // The objects that the records are made of, by their type.
    ghost var owned: set<TopicRecord>
    ghost var plains: set<GoMap<TopicAttributeName, string>>
    ghost var tags: set<GoMap<string, string>>
    ghost var sequences: set<GoMap<string, SequenceState>>
    ghost var dedups: set<GoMap<string, DedupRecord>>
    ghost var members: set<GoMap<string, ()>>

    ghost predicate Owns(r: TopicRecord)
      reads this`owned, this`plains, this`tags, this`sequences, this`dedups, this`members, r
    {
      && r in owned && r.plain in plains && r.tags in tags && r.groupSequences in sequences && r.dedupRecords in dedups
      && r.subscriptions in members
    }

    ghost predicate Valid()
      reads this, owned, plains, tags, sequences, dedups, members
    {
      && refs.Keys == records.Keys
      && forall k :: k in refs ==> refs[k] in owned && refs[k].value == records[k] && Owns(refs[k]) && refs[k].Valid()
    }

    constructor ()
      ensures Valid() && records == map[]
      ensures owned == {} && plains == {} && tags == {} && sequences == {} && dedups == {} && members == {}
    {
      refs, records := map[], map[];
      owned, plains, tags, sequences, dedups, members := {}, {}, {}, {}, {}, {};
    }

    /** The table owns what it owned, and new objects. */
    twostate predicate OwnsMoreNew()
      reads this
    {
      && fresh(owned - old(owned)) && fresh(plains - old(plains)) && fresh(tags - old(tags))
      && fresh(sequences - old(sequences)) && fresh(dedups - old(dedups)) && fresh(members - old(members))
    }

    method Has(key: string) returns (b: bool)
      requires Valid()
      ensures b <==> key in records
    {
      return key in refs;
    }

    /** `getTopic`: the value of a private copy. */
    method Get(key: string) returns (r: Option<Topic>)
      requires Valid()
      ensures r == if key in records then Some(records[key]) else None
    {
      if key !in refs {
        return None;
      }
      var copy := CopyTopic(refs[key]);
      var value := copy.Value();
      return Some(value);
    }

    /** A private copy of the record, none of whose objects is the table's. */
    method CopyOf(key: string) returns (copy: TopicRecord)
      requires Valid() && key in records
      ensures TopicRecords.AllNew(copy) && copy.Valid() && copy.value == records[key]
    {
      copy := CopyTopic(refs[key]);
    }

    method Put(key: string, topic: TopicRecord)
      requires Valid() && topic.Valid()
      modifies this
      ensures Valid() && OwnsMoreNew()
      ensures records == old(records)[key := topic.value]
    {
      hide TopicRecord.Valid;
      var copy := CopyTopic(topic);
      Install(key, copy);
    }

    /** Takes over a record that nobody else knows. */
    method Install(key: string, r: TopicRecord)
      requires Valid() && r.Valid()
      modifies this
      ensures Valid() && records == old(records)[key := r.value]
      ensures owned == old(owned) + {r} && plains == old(plains) + {r.plain} && tags == old(tags) + {r.tags}
      ensures sequences == old(sequences) + {r.groupSequences} && dedups == old(dedups) + {r.dedupRecords}
      ensures members == old(members) + {r.subscriptions}
    {
      hide TopicRecord.Valid, Owns;
      Own(r);
      label Owned:
      refs, records := refs[key := r], records[key := r.value];
      forall k | k in refs
        ensures refs[k] in owned && refs[k].value == records[k] && Owns(refs[k]) && refs[k].Valid()
      {
        assert k != key ==> k in old@Owned(refs) && refs[k] == old@Owned(refs)[k];
      }
    }

    ghost method Own(r: TopicRecord)
      requires Valid()
      modifies this`owned, this`plains, this`tags, this`sequences, this`dedups, this`members
      ensures Valid() && Owns(r)
      ensures owned == old(owned) + {r} && plains == old(plains) + {r.plain} && tags == old(tags) + {r.tags}
      ensures sequences == old(sequences) + {r.groupSequences} && dedups == old(dedups) + {r.dedupRecords}
      ensures members == old(members) + {r.subscriptions}
    {
      hide TopicRecord.Valid, Owns;
      Include(r);
    }

    ghost method Include(r: TopicRecord)
      modifies this`owned, this`plains, this`tags, this`sequences, this`dedups, this`members
      ensures owned == old(owned) + {r} && plains == old(plains) + {r.plain} && tags == old(tags) + {r.tags}
      ensures sequences == old(sequences) + {r.groupSequences} && dedups == old(dedups) + {r.dedupRecords}
      ensures members == old(members) + {r.subscriptions}
      ensures Owns(r) && forall other: TopicRecord :: old(allocated(other)) && old(Owns(other)) ==> Owns(other)
    {
      owned, plains, tags := owned + {r}, plains + {r.plain}, tags + {r.tags};
      sequences, dedups := sequences + {r.groupSequences}, dedups + {r.dedupRecords};
      members := members + {r.subscriptions};
    }

    method Delete(key: string)
      requires Valid()
      modifies this`refs, this`records
      ensures Valid()
      ensures records == Drop(old(records), {key})
    {
      hide TopicRecord.Valid, Owns;
      refs := map k | k in refs && k != key :: refs[k];
      records := Drop(records, {key});
    }

    /** The first loop of `cloneState`. */
    method Clone() returns (dst: TopicTable)
      requires Valid()
      ensures dst.Valid() && fresh(dst) && OwnsOnlyNew(dst) && dst.records == records
    {
      hide TopicRecord.Valid, Owns, Drop, Valid;
      dst := new TopicTable();
      KeysMatch();
      DropAll(records);
      var rest := refs.Keys;
      while rest != {}
        invariant rest <= refs.Keys && dst.Valid() && fresh(dst) && OwnsOnlyNew(dst)
        invariant dst.records == Drop(records, rest)
        modifies dst
      {
        var k :| k in rest;
        DropOneLess(records, rest, k);
        rest := rest - {k};
        PutInto(dst, k);
      }
    }

    lemma KeysMatch()
      requires Valid()
      ensures refs.Keys == records.Keys
    {
      hide TopicRecord.Valid, Owns;
    }

    /** One turn of the loop. */
    method PutInto(dst: TopicTable, key: string)
      requires Valid() && key in refs && dst.Valid() && dst != this
      modifies dst
      ensures dst.Valid() && dst.OwnsMoreNew()
      ensures dst.records == old(dst.records)[key := records[key]]
    {
      hide TopicRecord.Valid, Owns, Drop;
      dst.Put(key, refs[key]);
    }

    /** Runs a closure on a private copy, in place; the table itself is left alone. */
    method RunOnCopy(key: string, update: TopicUpdate)
      returns (r: Result<Topic, Error>, told: Option<ServiceSpec.Admission>, copy: TopicRecord)
      requires Valid() && key in records
      ensures r == Outcome(update, records[key]) && copy.Valid() && (r.Ok? ==> copy.value == r.value)
      ensures Tells(update, records[key], told)
    {
      hide TopicRecord.Valid, Owns, Outcome, Tells, Valid;
      copy := CopyOf(key);
      var ok;
      ok, told := Run(update, copy);
      if !ok {
        return Err(Rejected("")), told, copy;
      }
      var value := copy.Value();
      r := Ok(value);
    }

    /** If the closure fails, what it wrote is lost with the copy; otherwise a copy of the copy is stored. */
    method Update(key: string, update: TopicUpdate)
      returns (r: Result<Topic, Error>, told: Option<ServiceSpec.Admission>)
      requires Valid() && key in records
      modifies this
      ensures Valid() && OwnsMoreNew()
      ensures r == Outcome(update, old(records)[key]) && Tells(update, old(records)[key], told)
      ensures records == if r.Ok? then old(records)[key := r.value] else old(records)
    {
      hide TopicRecord.Valid, Owns, Outcome, Tells, Valid;
      var copy;
      r, told, copy := RunOnCopy(key, update);
      if r.Ok? {
        Put(key, copy);
      }
    }
  }

  lemma DropAll<V>(m: map<string, V>)
    ensures Drop(m, m.Keys) == map[] && Drop(m, {}) == m
  {
  }

  lemma DropOneLess<V>(m: map<string, V>, rest: set<string>, k: string)
    requires k in rest && k in m
    ensures Drop(m, rest)[k := m[k]] == Drop(m, rest - {k})
  {
  }

  /** All objects of the table's records are new. */
  twostate predicate OwnsOnlyNew(new t: TopicTable)
    reads t
  {
    && fresh(t.owned) && fresh(t.plains) && fresh(t.tags) && fresh(t.sequences) && fresh(t.dedups)
    && fresh(t.members)
  }

  class StringSet {
    var members: set<string>

    constructor ()
      ensures members == {}
    {
      members := {};
    }
  }

  /** `map[string]map[string]struct{}`: the inner maps are changed in place. */
  class SetTable {
    var sets: map<string, StringSet>
    ghost var records: map<string, set<string>>
    ghost var owned: set<StringSet>

    /** No two keys share an inner map. */
    ghost predicate Valid()
      reads this, owned
    {
      && sets.Keys == records.Keys
      && (forall k :: k in sets ==> sets[k] in owned && sets[k].members == records[k])
      && (forall j, k :: j in sets && k in sets && j != k ==> sets[j] != sets[k])
    }

    constructor ()
      ensures Valid() && records == map[] && fresh(owned)
    {
      sets, records, owned := map[], map[], {};
    }

    method Get(key: string) returns (members: set<string>)
      requires Valid()
      ensures members == if key in records then records[key] else {}
    {
      return if key in sets then sets[key].members else {};
    }

    /** `subsByTopic[key][member] = struct{}{}`, after making sure that the inner map is there. */
    method Add(key: string, member: string)
      requires Valid()
      modifies this, owned
      ensures Valid() && fresh(owned - old(owned))
      ensures records == old(records)[key := (if key in old(records) then old(records)[key] else {}) + {member}]
    {
      if key in sets {
        sets[key].members := sets[key].members + {member};
        records := records[key := records[key] + {member}];
      } else {
        var inner := new StringSet();
        inner.members := {member};
        assert {} + {member} == {member};
        sets := sets[key := inner];
        records, owned := records[key := {member}], owned + {inner};
      }
    }

    /** A new inner map, filled member by member. */
    method PutCopy(key: string, members: set<string>)
      requires Valid() && key !in records
      modifies this
      ensures Valid() && fresh(owned - old(owned))
      ensures records == old(records)[key := members]
    {
      var inner := new StringSet();
      var left := members;
      while left != {}
        invariant inner.members + left == members
        modifies inner
      {
        var m :| m in left;
        left := left - {m};
        inner.members := inner.members + {m};
      }
      sets := sets[key := inner];
      records, owned := records[key := members], owned + {inner};
    }

    method Remove(key: string, member: string)
      requires Valid()
      modifies this, owned
      ensures Valid() && owned == old(owned)
      ensures records == if key in old(records) then old(records)[key := old(records)[key] - {member}] else old(records)
    {
      if key in sets {
        sets[key].members := sets[key].members - {member};
        records := records[key := records[key] - {member}];
      }
    }

    method Delete(key: string)
      requires Valid()
      modifies this
      ensures Valid() && owned == old(owned)
      ensures records == Drop(old(records), {key})
    {
      sets := map k | k in sets && k != key :: sets[k];
      records := Drop(records, {key});
    }

    method Clone() returns (dst: SetTable)
      requires Valid()
      ensures dst.Valid() && fresh(dst) && fresh(dst.owned) && dst.records == records
    {
      dst := new SetTable();
      var rest := sets.Keys;
      while rest != {}
        invariant rest <= sets.Keys && dst.Valid() && fresh(dst) && fresh(dst.owned)
        invariant dst.records == Drop(records, rest)
        modifies dst
      {
        var k :| k in rest;
        rest := rest - {k};
        dst.PutCopy(k, sets[k].members);
      }
    }
  }

  /** A call that fails changes nothing; one that succeeds installs the specified state. */
  ghost predicate Follows<T>(spec: Result<StoreState, Error>, r: Result<T, Error>, before: StoreState,
    after: StoreState) {
    match spec
    case Ok(s) => r.Ok? && after == s
    case Err(e) => r.Err? && r.error == e && after == before
  }

  /** No object of this state existed before. */
  twostate predicate NewState(new s: State)
    reads s.topics, s.subscriptions, s.subsByTopic, s.deliveryJobs
  {
    && fresh(s)
    && fresh(s.topics) && OwnsOnlyNew(s.topics)
    && fresh(s.subscriptions) && fresh(s.subscriptions.owned)
    && fresh(s.subsByTopic) && fresh(s.subsByTopic.owned)
    && fresh(s.deliveryJobs) && fresh(s.deliveryJobs.owned)
  }

  /** `state`, and at the same time `txStore`, which is a state that one transaction owns. */
  class State {
    const topics: TopicTable
    var topicsByName: map<string, string>
    const subscriptions: Table<Subscription>
    const subsByTopic: SetTable
    var confirmation: map<string, ConfirmationToken>
    const deliveryJobs: Table<DeliveryJob>
    var signingMaterial: string

    ghost predicate Valid()
      reads topics, topics.owned, topics.plains, topics.tags, topics.sequences, topics.dedups, topics.members,
            subscriptions, subscriptions.owned, subsByTopic, subsByTopic.owned,
            deliveryJobs, deliveryJobs.owned
    {
      topics.Valid() && subscriptions.Valid() && subsByTopic.Valid() && deliveryJobs.Valid()
    }

    /** The value this state stands for. */
    ghost function View(): StoreState
      reads this, topics, subscriptions, subsByTopic, deliveryJobs
    {
      StoreState(topics.records, topicsByName, subscriptions.records, subsByTopic.records, confirmation,
        deliveryJobs.records, signingMaterial)
    }

    constructor ()
      ensures Valid() && View() == StoreSpec.EMPTY
      ensures fresh(topics) && fresh(subscriptions) && fresh(subsByTopic) && fresh(subsByTopic.owned)
      ensures fresh(deliveryJobs)
    {
      topicsByName, confirmation, signingMaterial := map[], map[], "";
      topics := new TopicTable();
      subscriptions := new Table();
      subsByTopic := new SetTable();
      deliveryJobs := new Table();
    }

    constructor Of(topics: TopicTable, topicsByName: map<string, string>, subscriptions: Table<Subscription>,
      subsByTopic: SetTable, confirmation: map<string, ConfirmationToken>, deliveryJobs: Table<DeliveryJob>,
      signingMaterial: string)
      requires topics.Valid() && subscriptions.Valid() && subsByTopic.Valid() && deliveryJobs.Valid()
      ensures this.topics == topics && this.subscriptions == subscriptions && this.subsByTopic == subsByTopic
      ensures this.deliveryJobs == deliveryJobs
      ensures View() ==
        StoreState(topics.records, topicsByName, subscriptions.records, subsByTopic.records, confirmation,
        deliveryJobs.records, signingMaterial)
    {
      this.topics, this.topicsByName := topics, topicsByName;
      this.subscriptions, this.subsByTopic := subscriptions, subsByTopic;
      this.confirmation, this.deliveryJobs, this.signingMaterial := confirmation, deliveryJobs, signingMaterial;
    }

    /** `cloneState`: an equal state that shares no object with this one. */
    method Clone() returns (dst: State)
      requires Valid()
      ensures NewState(dst) && dst.Valid() && dst.View() == View()
    {
      var a := topics.Clone();
      var b := subscriptions.Clone();
      var c := subsByTopic.Clone();
      var d := deliveryJobs.Clone();
      dst := new State.Of(a, topicsByName, b, c, confirmation, d, signingMaterial);
    }

    /** The service's own record stays private to it: the state keeps a copy. */
    method CreateTopic(topic: TopicRecord) returns (r: Result<(), Error>)
      requires Valid() && topic.Valid()
      modifies this, topics
      ensures Valid()
      ensures Follows(StoreSpec.CreateTopic(old(View()), topic.value), r, old(View()), View())
    {
      hide Table.Valid, TopicTable.Valid, SetTable.Valid;
      var arn, name := topic.arn, topic.name;
      assert arn == topic.value.arn && name == topic.value.name;
      if name in topicsByName {
        return Err(Conflict);
      }
      AddTopic(arn, name, topic);
      return Ok(());
    }

    method AddTopic(arn: string, name: string, topic: TopicRecord)
      requires Valid() && topic.Valid()
      modifies this`topicsByName, topics
      ensures Valid()
      ensures View() == old(View()).(topics := old(View()).topics[arn := topic.value],
                                     topicsByName := old(View()).topicsByName[name := arn])
    {
      hide Table.Valid, TopicTable.Valid, SetTable.Valid, TopicRecord.Valid;
      topics.Put(arn, topic);
      topicsByName := topicsByName[name := arn];
    }

    /**
     `UpdateTopic`: the closure works on a private copy, in place. If it fails halfway, what it wrote
     is lost with the copy; if it succeeds, a copy of the copy is stored.
     */
    method UpdateTopic(arn: string, update: TopicUpdate)
      returns (r: Result<Topic, Error>, told: Option<ServiceSpec.Admission>)
      requires Valid()
      modifies topics
      ensures Valid()
      ensures Follows(StoreSpec.UpdateTopic(old(View()), arn, t => Outcome(update, t)), r, old(View()), View())
      ensures r.Ok? ==> arn in View().topics && r.value == View().topics[arn]
      ensures arn in old(View()).topics ==> Tells(update, old(View()).topics[arn], told)
    {
      hide Table.Valid, TopicTable.Valid, SetTable.Valid, Outcome, Tells;
      var known := topics.Has(arn);
      if !known {
        return Err(NotFound), None;
      }
      r, told := topics.Update(arn, update);
    }

    method DeleteTopic(arn: string)
      requires Valid()
      modifies this, topics, subscriptions, subsByTopic, deliveryJobs
      ensures Valid()
      ensures View() == StoreSpec.DeleteTopic(old(View()), arn)
    {
      hide Table.Valid, TopicTable.Valid, SetTable.Valid;
      var topic := topics.Get(arn);
      if topic.None? {
        return;
      }
      topics.Delete(arn);
      topicsByName := Drop(topicsByName, {topic.value.name});
      DropSubscriptionsOf(arn);
      confirmation := Drop(confirmation, set t | t in confirmation && confirmation[t].topicArn == arn);
      DropJobsOf(arn);
    }

    /** The first `range` loop of `DeleteTopic`. */
    method DropSubscriptionsOf(arn: string)
      requires Valid()
      modifies subscriptions, subsByTopic
      ensures Valid()
      ensures View() == old(View()).(subscriptions := Drop(old(View()).subscriptions, SubsOf(old(View()), arn)),
                                     subsByTopic := Drop(old(View()).subsByTopic, {arn}))
    {
      hide Table.Valid, TopicTable.Valid, SetTable.Valid;
      var subs := subsByTopic.Get(arn);
      subscriptions.DeleteAll(subs);
      subsByTopic.Delete(arn);
    }

    /** The last `range` loop of `DeleteTopic`. */
    method DropJobsOf(arn: string)
      requires Valid()
      modifies deliveryJobs
      ensures Valid()
      ensures View() == old(View()).(deliveryJobs := Drop(old(View()).deliveryJobs, JobsOfTopic(old(View()), arn)))
    {
      hide Table.Valid, TopicTable.Valid, SetTable.Valid;
      var jobs := deliveryJobs.KeysWhere((job: DeliveryJob) => job.payload.topicArn == arn);
      deliveryJobs.DeleteAll(jobs);
    }

    method CreateSubscription(sub: Subscription)
      requires Valid()
      modifies subscriptions, subsByTopic, subsByTopic.owned
      ensures Valid() && fresh(subsByTopic.owned - old(subsByTopic.owned))
      ensures View() == StoreSpec.CreateSubscription(old(View()), sub)
    {
      hide Table.Valid, TopicTable.Valid, SetTable.Valid;
      subscriptions.Put(sub.arn, sub);
      subsByTopic.Add(sub.topicArn, sub.arn);
    }

    method UpdateSubscription(arn: string, update: Subscription -> Result<Subscription, Error>)
      returns (r: Result<Subscription, Error>)
      requires Valid()
      modifies subscriptions
      ensures Valid()
      ensures Follows(StoreSpec.UpdateSubscription(old(View()), arn, update), r, old(View()), View())
      ensures r.Ok? ==> arn in View().subscriptions && r.value == View().subscriptions[arn]
    {
      hide Table.Valid, TopicTable.Valid, SetTable.Valid;
      var current := subscriptions.Get(arn);
      if current.None? {
        return Err(NotFound);
      }
      r := update(current.value);
      if r.Ok? {
        subscriptions.Put(arn, r.value);
      }
    }

    method DeleteSubscription(arn: string) returns (r: Result<Subscription, Error>)
      requires Valid()
      modifies this, subscriptions, subsByTopic, subsByTopic.owned
      ensures Valid() && subsByTopic.owned == old(subsByTopic.owned)
      ensures Follows(StoreSpec.DeleteSubscription(old(View()), arn), r, old(View()), View())
    {
      hide Table.Valid, TopicTable.Valid, SetTable.Valid;
      var sub := subscriptions.Get(arn);
      if sub.None? {
        return Err(NotFound);
      }
      RemoveFromIndex(arn, sub.value.topicArn);
      confirmation := Drop(confirmation, set t | t in confirmation && confirmation[t].subscriptionArn == arn);
      return Ok(sub.value);
    }

    method RemoveFromIndex(arn: string, topicArn: string)
      requires Valid()
      modifies subscriptions, subsByTopic, subsByTopic.owned
      ensures Valid() && subsByTopic.owned == old(subsByTopic.owned)
      ensures View() == old(View()).(
        subscriptions := Drop(old(View()).subscriptions, {arn}),
        subsByTopic := if topicArn in old(View()).subsByTopic
                       then old(View()).subsByTopic[topicArn := old(View()).subsByTopic[topicArn] - {arn}]
                       else old(View()).subsByTopic)
    {
      hide Table.Valid, TopicTable.Valid, SetTable.Valid;
      subscriptions.Delete(arn);
      subsByTopic.Remove(topicArn, arn);
    }

    method EnqueueDeliveryJob(job: DeliveryJob)
      requires Valid()
      modifies deliveryJobs
      ensures Valid()
      ensures View() == EnqueueJob(old(View()), job)
    {
      hide Table.Valid, TopicTable.Valid, SetTable.Valid;
      deliveryJobs.Put(job.id, job);
    }

    /** `UpdateDeliveryJob` on the transaction's own state. */
    method UpdateDeliveryJob(id: string, update: DeliveryJob -> DeliveryJob) returns (r: Result<DeliveryJob, Error>)
      requires Valid()
      modifies deliveryJobs
      ensures Valid()
      ensures Follows(UpdateJob(old(View()), id, update), r, old(View()), View())
    {
      hide Table.Valid, TopicTable.Valid, SetTable.Valid;
      var current := deliveryJobs.Get(id);
      if current.None? {
        return Err(NotFound);
      }
      var updated := update(current.value);
      deliveryJobs.Put(id, updated);
      return Ok(updated);
    }

    method ListSubscriptionsByTopic(topicArn: string, token: string, pageSize: int)
      returns (subs: seq<Subscription>, next: string, ghost keys: seq<string>)
      requires Valid() && SubsOf(View(), topicArn) <= View().subscriptions.Keys
      ensures Paging.Lists(keys, SubsOf(View(), topicArn))
      ensures var page := Paging.PageOf(keys, token, pageSize);
        && next == page.token && |subs| == |page.keys|
        && forall i :: 0 <= i < |subs| ==>
             page.keys[i] in View().subscriptions && subs[i] == View().subscriptions[page.keys[i]]
    {
      hide Table.Valid, TopicTable.Valid, SetTable.Valid;
      var members := subsByTopic.Get(topicArn);
      var page: Paging.Page;
      page, keys := Paging.ListPage(members, token, pageSize);
      Paging.PageWithin(keys, members, token, pageSize);
      next := page.token;
      subs := subscriptions.GetAll(page.keys);
    }

    /** `sort.Slice` on the keys of due jobs; ties are left in any order. */
    method SortSoonest(due: set<string>) returns (sorted: seq<string>)
      requires Valid() && due <= View().deliveryJobs.Keys
      ensures SoonestFirst(View().deliveryJobs, sorted) && forall k :: k in sorted <==> k in due
    {
      hide Table.Valid, TopicTable.Valid, SetTable.Valid;
      sorted := [];
      var rest := due;
      while rest != {}
        invariant rest <= due && SoonestFirst(View().deliveryJobs, sorted)
        invariant forall k :: k in sorted <==> k in due - rest
      {
        var k :| k in rest;
        rest := rest - {k};
        var i := InsertionPoint(sorted, k);
        InsertSoonest(View().deliveryJobs, sorted, k, i);
        sorted := sorted[..i] + [k] + sorted[i..];
      }
    }

    method InsertionPoint(sorted: seq<string>, k: string) returns (i: nat)
      requires Valid() && SoonestFirst(View().deliveryJobs, sorted) && k in View().deliveryJobs
      ensures var jobs := View().deliveryJobs;
        && i <= |sorted|
        && (forall j :: 0 <= j < i ==> !Sooner(jobs[k], jobs[sorted[j]]))
        && (i < |sorted| ==> Sooner(jobs[k], jobs[sorted[i]]))
    {
      hide Table.Valid, TopicTable.Valid, SetTable.Valid;
      var job := deliveryJobs.Get(k);
      i := 0;
      while i < |sorted|
        invariant 0 <= i <= |sorted|
        invariant forall j :: 0 <= j < i ==> !Sooner(View().deliveryJobs[k], View().deliveryJobs[sorted[j]])
      {
        var other := deliveryJobs.Get(sorted[i]);
        if Sooner(job.value, other.value) {
          return;
        }
        i := i + 1;
      }
    }

    /** `ListReadyDeliveryJobs`: the due jobs, earliest first, at most `limit` of them. */
    method ListReadyDeliveryJobs(now: Time, limit: int) returns (jobs: seq<DeliveryJob>, ghost keys: seq<string>)
      requires Valid()
      ensures |jobs| == |keys| && ReadyKeys(View().deliveryJobs, now, limit, keys)
      ensures forall i :: 0 <= i < |jobs| ==> jobs[i] == View().deliveryJobs[keys[i]]
    {
      hide Table.Valid, TopicTable.Valid, SetTable.Valid;
      var due := deliveryJobs.KeysWhere((job: DeliveryJob) => Due(job, now));
      var sorted := SortSoonest(due);
      keys := sorted;
      assert ReadyKeys(View().deliveryJobs, now, 0, keys);
      if limit > 0 && |sorted| > limit {
        TakeSoonest(View().deliveryJobs, sorted, limit);
        sorted := sorted[..limit];
        keys := sorted;
      }
      jobs := deliveryJobs.GetAll(sorted);
    }
  }

  /** `Store`: one shared state, replaced as a whole when a transaction commits. */
  class Store {
    var state: State

    ghost predicate Valid()
      reads this, state.topics, state.topics.owned, state.topics.plains, state.topics.tags,
            state.topics.sequences, state.topics.dedups, state.topics.members, state.subscriptions,
            state.subscriptions.owned, state.subsByTopic, state.subsByTopic.owned, state.deliveryJobs,
              state.deliveryJobs.owned
    {
      state.Valid()
    }

    ghost function View(): StoreState
      reads this, state, state.topics, state.subscriptions, state.subsByTopic, state.deliveryJobs
    {
      state.View()
    }

    constructor ()
      ensures Valid() && View() == StoreSpec.EMPTY
    {
      state := new State();
    }

    /** The first half of `Tx`: a private clone. Whatever the body does to it leaves the store alone. */
    method Begin() returns (tx: State)
      requires Valid()
      ensures NewState(tx) && tx.Valid() && tx.View() == View()
    {
      tx := state.Clone();
    }

    /** The second half of `Tx`: the clone becomes the shared state. */
    method Commit(tx: State)
      requires tx.Valid()
      modifies this
      ensures state == tx && Valid() && View() == old(tx.View())
    {
      hide State.Valid, Table.Valid, TopicTable.Valid, SetTable.Valid;
      state := tx;
    }

    method GetTopic(arn: string) returns (r: Option<Topic>)
      requires Valid()
      ensures r == if arn in View().topics then Some(View().topics[arn]) else None
    {
      r := state.topics.Get(arn);
    }

    method FindTopicByName(name: string) returns (r: Option<Topic>)
      requires Valid() && (name in View().topicsByName ==> View().topicsByName[name] in View().topics)
      ensures r == if name in View().topicsByName then Some(View().topics[View().topicsByName[name]]) else None
    {
      if name !in state.topicsByName {
        return None;
      }
      r := state.topics.Get(state.topicsByName[name]);
    }

    method GetSubscription(arn: string) returns (r: Option<Subscription>)
      requires Valid()
      ensures r == if arn in View().subscriptions then Some(View().subscriptions[arn]) else None
    {
      r := state.subscriptions.Get(arn);
    }

    method GetConfirmationToken(token: string) returns (r: Option<ConfirmationToken>)
      ensures r == if token in View().confirmation then Some(View().confirmation[token]) else None
    {
      return if token in state.confirmation then Some(state.confirmation[token]) else None;
    }

    method CreateTopic(topic: TopicRecord) returns (r: Result<(), Error>)
      requires Valid() && topic.Valid()
      modifies this
      ensures Valid() && Follows(StoreSpec.CreateTopic(old(View()), topic.value), r, old(View()), View())
    {
      hide Table.Valid, TopicTable.Valid, SetTable.Valid, State.Valid;
      var tx := Begin();
      r := tx.CreateTopic(topic);
      if r.Ok? { Commit(tx); }
    }

    method UpdateTopic(arn: string, update: TopicUpdate)
      returns (r: Result<Topic, Error>, told: Option<ServiceSpec.Admission>)
      requires Valid()
      modifies this
      ensures Valid()
      ensures Follows(StoreSpec.UpdateTopic(old(View()), arn, t => Outcome(update, t)), r, old(View()), View())
      ensures r.Ok? ==> arn in View().topics && r.value == View().topics[arn]
      ensures arn in old(View()).topics ==> Tells(update, old(View()).topics[arn], told)
    {
      hide Table.Valid, TopicTable.Valid, SetTable.Valid, State.Valid, Outcome, Tells;
      var tx := Begin();
      r, told := tx.UpdateTopic(arn, update);
      if r.Ok? { Commit(tx); }
    }

    method DeleteTopic(arn: string)
      requires Valid()
      modifies this
      ensures Valid() && View() == StoreSpec.DeleteTopic(old(View()), arn)
    {
      hide Table.Valid, TopicTable.Valid, SetTable.Valid, State.Valid;
      var tx := Begin();
      tx.DeleteTopic(arn);
      Commit(tx);
    }

    method CreateSubscription(sub: Subscription)
      requires Valid()
      modifies this
      ensures Valid() && View() == StoreSpec.CreateSubscription(old(View()), sub)
    {
      hide Table.Valid, TopicTable.Valid, SetTable.Valid, State.Valid;
      var tx := Begin();
      tx.CreateSubscription(sub);
      Commit(tx);
    }

    method UpdateSubscription(arn: string, update: Subscription -> Result<Subscription, Error>)
      returns (r: Result<Subscription, Error>)
      requires Valid()
      modifies this
      ensures Valid() && Follows(StoreSpec.UpdateSubscription(old(View()), arn, update), r, old(View()), View())
      ensures r.Ok? ==> arn in View().subscriptions && r.value == View().subscriptions[arn]
    {
      hide Table.Valid, TopicTable.Valid, SetTable.Valid, State.Valid;
      var tx := Begin();
      r := tx.UpdateSubscription(arn, update);
      if r.Ok? { Commit(tx); }
    }

    method DeleteSubscription(arn: string) returns (r: Result<Subscription, Error>)
      requires Valid()
      modifies this
      ensures Valid() && Follows(StoreSpec.DeleteSubscription(old(View()), arn), r, old(View()), View())
    {
      hide Table.Valid, TopicTable.Valid, SetTable.Valid, State.Valid;
      var tx := Begin();
      r := tx.DeleteSubscription(arn);
      if r.Ok? { Commit(tx); }
    }

    method DeleteConfirmationToken(token: string)
      requires Valid()
      modifies this
      ensures Valid() && View() == DeleteToken(old(View()), token)
    {
      hide Table.Valid, TopicTable.Valid, SetTable.Valid, State.Valid;
      var tx := Begin();
      tx.confirmation := Drop(tx.confirmation, {token});
      Commit(tx);
    }

    method UpdateDeliveryJob(id: string, update: DeliveryJob -> DeliveryJob) returns (r: Result<DeliveryJob, Error>)
      requires Valid()
      modifies this
      ensures Valid() && Follows(UpdateJob(old(View()), id, update), r, old(View()), View())
      ensures state == old(state) || (fresh(state) && fresh(state.deliveryJobs))
    {
      hide Table.Valid, TopicTable.Valid, SetTable.Valid, State.Valid;
      var tx := Begin();
      r := tx.UpdateDeliveryJob(id, update);
      if r.Ok? { Commit(tx); }
    }

    /** Writes the shared state in place, outside any transaction. */
    method DeleteDeliveryJob(id: string)
      requires Valid()
      modifies state.deliveryJobs
      ensures Valid() && View() == DeleteJob(old(View()), id)
    {
      hide Table.Valid, TopicTable.Valid, SetTable.Valid;
      state.deliveryJobs.Delete(id);
    }
  }
}
