/**
 Which messages of a FIFO topic count as the same (internal/service/service.go, `Publish`): the
 deduplication window again, told from the inputs of the calls.
 */
module Deduplication {
  import opened Common
  import opened Json
  import opened Domain
  import opened ServiceSpec
  import opened Runs
  import opened Integrity
  import opened Preservation
  import opened Fifo
  import opened FanOut

  /** The publish is answered as a duplicate. */
  predicate IsDuplicate(r: Run, j: nat)
    requires j < |r.actions| && j < |r.worlds| && r.actions[j].Publish?
  {
    var reply := ReplyTo(r.env, r.worlds[j], r.actions[j]).result;
    reply.Ok? && reply.value.deduplicated
  }

  /** Two messages with the same deduplication id; for one that has none, the digest of its text stands in. */
  predicate SameMessage(p: Platform, a: PublishInput, b: PublishInput) {
    if a.dedupId != "" then
      if b.dedupId != "" then a.dedupId == b.dedupId else a.dedupId == p.sha256(b.message)
    else
      if b.dedupId != "" then p.sha256(a.message) == b.dedupId else p.sha256(a.message) == p.sha256(b.message)
  }

  /** Step `k` accepted a message, in this life of the topic, less than five minutes before step `j`. */
  ghost predicate JustBefore(r: Run, k: nat, j: nat, arn: string)
    requires j < |r.actions| && r.actions[j].Publish?
  {
    && k < j && Accepted(r, k, arn) && Lives(r, arn, k, j)
    && r.actions[j].arrival.checkedAt < r.actions[k].arrival.recordedAt + 300_000_000_000
  }

  /** And it is the same message. */
  ghost predicate Repeats(r: Run, k: nat, j: nat, arn: string)
    requires j < |r.actions| && r.actions[j].Publish?
  {
    JustBefore(r, k, j, arn) && SameMessage(r.env.p, r.actions[k].input, r.actions[j].input)
  }

  predicate ByGroup(r: Run, k: nat, arn: string) {
    k < |r.worlds| && arn in r.worlds[k].store.topics
    && r.worlds[k].store.topics[arn].attributes.throughputScope.GroupScope?
  }

  // ---- Keys --------------------------------------------------------------------------------------------------

  lemma SameAfterPrefix(prefix: string, a: string, b: string)
    ensures prefix + a == prefix + b <==> a == b
  {
    assert (prefix + a)[|prefix|..] == a && (prefix + b)[|prefix|..] == b;
  }

  /** What stands for the message in its key. */
  function Identity(p: Platform, a: PublishInput): string {
    if a.dedupId != "" then a.dedupId else p.sha256(a.message)
  }

  lemma KeyOf(p: Platform, topic: Topic, a: PublishInput)
    requires topic.attributes.fifoTopic && ValidPublishInput(p, topic, a)
    ensures DedupKey(topic, a.groupId, DedupId(p, topic, a)) ==
      if topic.attributes.throughputScope.GroupScope? then topic.arn + ":" + (a.groupId + ":" + Identity(p, a))
      else topic.arn + ":" + Identity(p, a)
  {
    var id := Identity(p, a);
    assert topic.arn + ":" + a.groupId + ":" + id == topic.arn + ":" + (a.groupId + ":" + id);
  }

  lemma KeyInRun(r: Run, k: nat, arn: string)
    requires Valid(r) && k < |r.actions| && Admits(r.env, r.worlds[k], r.actions[k], arn)
    ensures var id := Identity(r.env.p, r.actions[k].input);
      KeyAt(r.env, r.worlds[k], r.actions[k]) ==
        if ByGroup(r, k, arn) then arn + ":" + (r.actions[k].input.groupId + ":" + id) else arn + ":" + id
  {
    hide StepAt, Good, ValidPublishInput, IsFifoName, DedupKey, DedupId, ReadableTopic, Identity;
    ReachableIsGood(r.env, r.worlds, r.actions, k);
    TopicFacts(r.env, r.worlds[k].used, r.worlds[k].store, arn);
    KeyOf(r.env.p, r.worlds[k].store.topics[arn], r.actions[k].input);
  }

  lemma ReplyTellsDuplicate(r: Run, j: nat, arn: string)
    requires Valid(r) && j < |r.actions| && Admits(r.env, r.worlds[j], r.actions[j], arn)
    ensures IsDuplicate(r, j) <==> AdmissionAt(r.env, r.worlds[j], r.actions[j]).deduplicated
  {
    hide StepAt, ValidPublishInput, Admit, Admitted, DedupId, ResolveMessages, Enqueued, Deliveries, Redrives;
  }

  // ---- Duplicates --------------------------------------------------------------------------------------------

  lemma SameIdentity(p: Platform, a: PublishInput, b: PublishInput)
    ensures SameMessage(p, a, b) <==> Identity(p, a) == Identity(p, b)
  {
  }

  /** An acceptance of the same key that is recent is an acceptance `JustBefore`, and the other way round. */
  lemma WindowIsJustBefore(r: Run, k: nat, j: nat, arn: string)
    requires Valid(r) && j < |r.actions| && Admits(r.env, r.worlds[j], r.actions[j], arn)
    ensures var key := KeyAt(r.env, r.worlds[j], r.actions[j]);
      WindowOpen(r, k, j, arn, key, r.actions[j].arrival.checkedAt) <==>
        JustBefore(r, k, j, arn) && KeyAt(r.env, r.worlds[k], r.actions[k]) == key
  {
    hide StepAt, ValidPublishInput, DedupKey, DedupId, AdmissionAt;
  }

  /** A group scope, once set, stays for the life of the topic. */
  lemma ScopeBefore(r: Run, k: nat, j: nat, arn: string)
    requires Valid(r) && j < |r.actions| && r.actions[j].Publish? && JustBefore(r, k, j, arn)
    ensures ByGroup(r, k, arn) ==> ByGroup(r, j, arn)
  {
    hide StepAt, Accepts;
    AcceptedHere(r, k, arn);
    if ByGroup(r, k, arn) {
      ScopeIsKept(r, k, j, arn);
    }
  }

  /**
   While the topic's scope is the topic, a message is a duplicate exactly when the same message was
   accepted less than five minutes before, in whatever group.
   */
  lemma DuplicateInTopic(r: Run, j: nat, arn: string)
    requires Valid(r) && j < |r.actions| && Admits(r.env, r.worlds[j], r.actions[j], arn) && !ByGroup(r, j, arn)
    ensures IsDuplicate(r, j) <==> exists k: nat :: Repeats(r, k, j, arn)
  {
    hide StepAt, IsDuplicate, KeyAt, Accepts, WindowOpen, Lives, SameMessage, AdmissionAt, ByGroup, ValidPublishInput;
    ReplyTellsDuplicate(r, j, arn);
    DuplicateIffWindowOpen(r, j, arn);
    var key := KeyAt(r.env, r.worlds[j], r.actions[j]);
    forall k: nat
      ensures WindowOpen(r, k, j, arn, key, r.actions[j].arrival.checkedAt) <==> Repeats(r, k, j, arn)
    {
      WindowIsJustBefore(r, k, j, arn);
      if JustBefore(r, k, j, arn) {
        TopicKeys(r, k, j, arn);
      }
    }
  }

  lemma TopicKeys(r: Run, k: nat, j: nat, arn: string)
    requires Valid(r) && j < |r.actions| && Admits(r.env, r.worlds[j], r.actions[j], arn) && !ByGroup(r, j, arn)
    requires JustBefore(r, k, j, arn)
    ensures KeyAt(r.env, r.worlds[k], r.actions[k]) == KeyAt(r.env, r.worlds[j], r.actions[j]) <==>
      SameMessage(r.env.p, r.actions[k].input, r.actions[j].input)
  {
    hide StepAt, ValidPublishInput, DedupKey, DedupId, SameMessage, Identity, ByGroup, AdmissionAt;
    ScopeBefore(r, k, j, arn);
    KeyInRun(r, k, arn);
    KeyInRun(r, j, arn);
    SameIdentity(r.env.p, r.actions[k].input, r.actions[j].input);
    SameAfterPrefix(arn + ":", Identity(r.env.p, r.actions[k].input), Identity(r.env.p, r.actions[j].input));
  }

  /** In a group scope, the same message of the same group. */
  ghost predicate RepeatsInGroup(r: Run, k: nat, j: nat, arn: string)
    requires j < |r.actions| && r.actions[j].Publish?
  {
    Repeats(r, k, j, arn) && ByGroup(r, k, arn) && r.actions[k].input.groupId == r.actions[j].input.groupId
  }

  /** Every recent acceptance was made in the group scope too, of a group whose name has no colon. */
  ghost predicate PlainGroups(r: Run, j: nat, arn: string)
    requires j < |r.actions| && r.actions[j].Publish?
  {
    && ':' !in r.actions[j].input.groupId
    && forall k: nat :: JustBefore(r, k, j, arn) ==> ByGroup(r, k, arn) && ':' !in r.actions[k].input.groupId
  }

  /**
   While the scope is the message group, a message is a duplicate if the same message of the same group
   was accepted less than five minutes before; and only then, as long as group names have no colon.
   */
  lemma DuplicateInGroup(r: Run, j: nat, arn: string)
    requires Valid(r) && j < |r.actions| && Admits(r.env, r.worlds[j], r.actions[j], arn) && ByGroup(r, j, arn)
    ensures (exists k: nat :: RepeatsInGroup(r, k, j, arn)) ==> IsDuplicate(r, j)
    ensures PlainGroups(r, j, arn) && IsDuplicate(r, j) ==> exists k: nat :: RepeatsInGroup(r, k, j, arn)
  {
    hide StepAt, IsDuplicate, KeyAt, Accepts, WindowOpen, Lives, SameMessage, AdmissionAt, ByGroup, ValidPublishInput,
      RepeatsInGroup;
    ReplyTellsDuplicate(r, j, arn);
    DuplicateIffWindowOpen(r, j, arn);
    var key := KeyAt(r.env, r.worlds[j], r.actions[j]);
    forall k: nat
      ensures RepeatsInGroup(r, k, j, arn) ==>
        WindowOpen(r, k, j, arn, key, r.actions[j].arrival.checkedAt)
      ensures PlainGroups(r, j, arn) && WindowOpen(r, k, j, arn, key, r.actions[j].arrival.checkedAt) ==>
        RepeatsInGroup(r, k, j, arn)
    {
      WindowIsJustBefore(r, k, j, arn);
      GroupKeys(r, k, j, arn);
    }
  }

  lemma GroupKeys(r: Run, k: nat, j: nat, arn: string)
    requires Valid(r) && j < |r.actions| && Admits(r.env, r.worlds[j], r.actions[j], arn) && ByGroup(r, j, arn)
    ensures RepeatsInGroup(r, k, j, arn) ==>
      JustBefore(r, k, j, arn) && KeyAt(r.env, r.worlds[k], r.actions[k]) == KeyAt(r.env, r.worlds[j], r.actions[j])
    ensures PlainGroups(r, j, arn) && JustBefore(r, k, j, arn)
      && KeyAt(r.env, r.worlds[k], r.actions[k]) == KeyAt(r.env, r.worlds[j], r.actions[j])
      ==> RepeatsInGroup(r, k, j, arn)
  {
    hide StepAt, ValidPublishInput, DedupKey, DedupId, SameMessage, Identity, AdmissionAt, ByGroup;
    if JustBefore(r, k, j, arn) && ByGroup(r, k, arn) {
      KeyInRun(r, k, arn);
      KeyInRun(r, j, arn);
      var a, b := r.actions[k].input, r.actions[j].input;
      SameIdentity(r.env.p, a, b);
      SameAfterPrefix(arn + ":", a.groupId + ":" + Identity(r.env.p, a), b.groupId + ":" + Identity(r.env.p, b));
      if ':' !in a.groupId && ':' !in b.groupId {
        SplitAtColon(a.groupId, Identity(r.env.p, a), b.groupId, Identity(r.env.p, b));
      }
    }
  }

  lemma SplitAtColon(g: string, x: string, h: string, y: string)
    requires ':' !in g && ':' !in h
    ensures g + ":" + x == h + ":" + y <==> g == h && x == y
  {
    var a, b := g + ":" + x, h + ":" + y;
    assert a[|g|] == ':' && b[|h|] == ':';
    assert forall i :: 0 <= i < |g| ==> a[i] == g[i] && g[i] in g;
    assert forall i :: 0 <= i < |h| ==> b[i] == h[i] && h[i] in h;
    if a == b {
      assert |g| == |h|;
      assert g == a[..|g|] && h == b[..|h|];
      assert x == a[|g| + 1..] && y == b[|h| + 1..];
    }
  }

  /**
   Group names may contain colons, and then a message can be taken for a duplicate of one of another
   group with another id: group "a" with id "b:c", and group "a:b" with id "c".
   */
  lemma ColonsConfuseGroups(env: Env, s: StoreState, input: PublishInput, a: Arrival, later: Arrival,
    subs: seq<Subscription>, fate: string -> Fate)
    requires input.topicArn in s.topics && s.topics[input.topicArn].attributes.fifoTopic
    requires s.topics[input.topicArn].attributes.throughputScope.GroupScope?
    requires input.groupId == "a" && input.dedupId == "b:c" && ValidPublishInput(env.p, s.topics[input.topicArn], input)
    requires !Live(s.topics[input.topicArn], s.topics[input.topicArn].arn + ":a:b:c", a.checkedAt)
    requires later.checkedAt < a.recordedAt + 300_000_000_000
    ensures var first := ServiceSpec.Publish(env, s, None, input, a, subs, fate);
      var second :=
        ServiceSpec.Publish(env, first.store, None, input.(groupId := "a:b", dedupId := "c"), later, subs, fate);
      && (first.result.Ok? ==> !first.result.value.deduplicated)
      && second.result.Ok? && second.result.value.deduplicated && second.result.value.messageId == a.messageId
  {
    hide ResolveMessages, Enqueued, Deliveries, Redrives, ValidAttributes, NextSequence;
    var topic := s.topics[input.topicArn];
    var key := DedupKey(topic, "a", "b:c");
    ColonKeys(topic);
    assert Live(Admitted(topic, "a", "b:c", a), key, later.checkedAt);
  }

  lemma ColonKeys(topic: Topic)
    requires topic.attributes.throughputScope.GroupScope?
    ensures DedupKey(topic, "a", "b:c") == topic.arn + ":a:b:c" == DedupKey(topic, "a:b", "c")
  {
    assert topic.arn + ":" + "a" + ":" + "b:c" == topic.arn + ":a:b:c";
    assert topic.arn + ":" + "a:b" + ":" + "c" == topic.arn + ":a:b:c";
  }
}
