# A verified model of the SNS emulator

This project models the core of an emulator of Amazon SNS and proves what it promises: the
in-memory store with its transactions, the service calls for topics, subscriptions, confirmation
tokens and publishing, the delivery worker, retry schedules, filter policies and access policies.

## How it is built

- `Filter`, `Glob`, `Delivery`, `AccessPolicy`, `PageToken`, `Paging`, `Attributes`: the algorithms, as
  methods with the loops of the source, each proved against a meaning that has no loop and no map
  order. Where Go ranges over a map, the method takes the keys in an arbitrary order; where the order
  can show, the possible answers are those of all enumerations (`Filter.Gives`,
  `AccessPolicy.EvaluationGives`), and their exact conditions are proved.
- `TopicRecords`, `MemoryStore`: the store as heap objects. A topic record is an object whose maps are
  objects too; `CopyTopic` copies them, and the closures given to `UpdateTopic` change a private copy
  in place and may fail halfway. Tables own the objects of their records, a transaction works on a
  clone none of whose objects existed before, and each mutator is tied to the value-level mutator in
  `StoreSpec`. The other records hold no maps that the service changes, and are kept as values behind
  pointers of their own.
- `Service`: the service and its worker as a class over that store. Each method is tied to a function
  of `ServiceSpec`, and keeps the invariant `Integrity.Good`. `History` records the calls made on a
  service, in any order and with worker steps between them: the record is a run.
- `Runs`: whole runs of those functions, one call or worker step after another. `Integrity` and
  `Preservation` prove the invariant of every reachable state; `Fifo`, `Queues`, `FanOut`, `Tokens` and
  `Worker` prove the statements about runs, and `CancelledJob` builds one.
- `Isolation`: transactions in every interleaving.
- `Deduplication`, `Outcomes`, `Messages`, `SubscriptionLife`, `TopicCalls`, `RetryPolicies`,
  `FilterOperators`, `AccessDecisions`: what the specification functions come to, told from the inputs of a
  call or of a run and from what is seen afterwards, with the numbers and the words of the API written out.

## Assumptions

- Two kinds of theorem are kept apart. `Isolation` holds under every interleaving of transactions and
  of the two writes that bypass them. Everything about runs (`Preservation`, `Fifo`, `Queues`, `FanOut`,
  `Tokens`, `Worker`, `Deduplication`, `Outcomes`, `Messages`, `SubscriptionLife`) assumes that service calls and worker steps are atomic: `Tx` takes its snapshot under one
  lock and commits under another, so concurrent writers can overwrite each other
  (`Isolation.DeletedJobComesBack` is such a run).
- There is one worker. It lists a batch and then handles its copies one by one, with service calls in
  between.
- Identifiers from `util.UUID` and `util.RandomHex` were never handed out before; UUIDs have 36
  characters. Clock readings do not go back, and two readings in one call may differ.
- Queue look-ups, delivery results and the reading of the wall clock for a new sequence prefix are
  arguments. What a call sends to queues is part of its reply.
- JSON is a datatype; a stored JSON text is blank, malformed, or the document it decodes to. Case
  folding, trimming, `strconv.ParseFloat`, `fmt.Sprint`, `netip` and SHA-256 are arbitrary functions,
  collected in `Json.Platform`; every theorem holds for all choices of them.
- Floating-point numbers are real numbers.

## Findings

- A validated filter can still fail at evaluation, and then counts as no match: a `cidr` operand that
  is no prefix, a `numeric` operand that is no number (`Filter.ValidatedPoliciesCanFail`, whole policies
  that fail in every order).
- Whether it fails can depend on the order in which Go walks the policy, so that order decides whether
  a subscription gets a message: `Filter.OrderCanDecideDelivery` is a validated policy that matches in
  one order and fails in another. `Filter.OrdersDecide` says exactly when some order fails, when every
  order does, and when all orders agree.
- The result of matching a principal map can depend on the order in which Go walks the map;
  `AccessPolicy.PrincipalOrderMatters` says exactly when. `AccessPolicy.PassExactly` says what a whole
  policy can then answer.
- Adding and removing a permission gives back the statements re-marshalled, which is the same list
  exactly when every statement has all its fields (`AccessPolicy.RemoveUndoesAdd`). A re-marshalled
  statement without an action matches a request with an empty action (`AccessPolicy.RemarshalCanGrant`).
  No caller of `Evaluate` makes such a request: for those the service makes, adding a permission changes
  the answer by the new statement alone (`AccessPolicy.AddExactly`).
- A FIFO message whose text cannot be resolved fails but is remembered, so the retry is answered as a
  duplicate although nothing was ever sent (`Fifo.FailedPublishIsRemembered`); what a duplicate stands
  for was sent exactly when its own text resolved (`FanOut.DuplicateOfWhat`).
- While the deduplication scope is the message group, group and deduplication id are joined by a colon, and
  both may contain colons: a message of group "a:b" with the id "c" is a duplicate of one of group "a"
  with the id "b:c" (`Deduplication.ColonsConfuseGroups`). For groups without colons the window is exact
  (`Deduplication.DuplicateInGroup`).
- A subscription's delivery policy replaces the topic's altogether: what it leaves out is the default and
  not the topic's setting, the throttle excepted (`RetryPolicies.SubscriptionReplaces`). One that sets a
  minimum delay above 20 seconds and no maximum has no schedule (`RetryPolicies.ScheduleExists`), so its
  messages are given up at the first failure (`Outcomes.GivesUpExactly`).
- An access policy statement whose principal is the empty string, or null, is for everybody: the service's
  requests name no service, and that is compared as an empty string (`AccessDecisions.StarIsEveryone`).
- Unsubscribing and confirming gives back the identical record exactly when the subscription was
  confirmed; a pending one comes back confirmed (`Tokens.UnsubscribeThenConfirm`).
- Successive sequence numbers differ by one exactly until the 64-bit counter wraps
  (`Fifo.SuccessiveNumbers`).
- A job cancelled by the deletion of its topic while the worker holds a copy of it is attempted all the
  same: exactly once if such a copy leaves the worker's hands, and never otherwise
  (`Worker.CancelledAttempts`); its redrives are those of that one failure (`Worker.CancelledRedrives`).
  `CancelledJob.CancelledYetRedriven` extends any run with a due job to one that does this, and
  `CancelledJob.CancelledRunExists` starts from the empty store.
- `Subscribe` looks at 10,000 subscriptions only, so on a larger topic a queue can be subscribed twice:
  a step makes it so exactly when a matching subscription lies beyond the first 10,000
  (`Queues.QueuesStep`, `Queues.FarQueueIsOverlooked`). Otherwise no queue is ever subscribed twice to a
  topic (`Queues.QueuesAlwaysDiffer`).

## Model

| member | source | states |
|---|---|---|
| Preservation.ReachableIsGood | internal/service/service.go:70-441 | In every world of every run: `topicsByName` is the inverse of the topics' names, `subsByTopic` is exact, every subscription, token and job names an existing topic, confirmed is the negation of pending, "subscribe" tokens and pending subscriptions are in bijection, "unsubscribe" tokens name absent subscriptions they can restore, FIFO-ness follows the name with only queues subscribed, and stored policies are readable |
| Preservation.StepKeepsGood | internal/service/service.go:70-626 | Every call and every worker step keeps that invariant |
| FanOut.PublishSucceeds | internal/service/service.go:453-507 | In a reachable store a publish succeeds if and only if topic, authorization and input are fine and the message resolves, or it is a duplicate; fan-out never fails halfway |
| Messages.PublishAnswers | internal/service/service.go:897-964 | In a reachable store: which error a missing topic, a refused caller or a message out of bounds gets, changing nothing, and that any other message with a text to send succeeds |
| Tokens.NeverInternal | internal/service/service.go:319-404 | In a reachable store neither confirming nor unsubscribing runs into an unreadable policy or a missing restore record |
| Integrity.ApplyKeepsBase | internal/store/memory/store.go:252-382 | Each store operation the service makes keeps indexes, references, FIFO rules, identifiers and readability |
| Integrity.MatchAddPending | internal/service/service.go:277-303 | Adding a pending subscription with its token keeps the bijection |
| Integrity.MatchConfirm | internal/service/service.go:331-343 | Using a "subscribe" token keeps it |
| Integrity.MatchRestore | internal/service/service.go:344-353 | Using an "unsubscribe" token keeps it |
| Integrity.MatchUnsubscribe | internal/service/service.go:371-398 | Leaving a restore token in place of a subscription keeps it |
| Integrity.MatchRemove | internal/store/memory/store.go:342-357 | Removing a subscription with the tokens that name it keeps it, and leaves no token naming it |
| Integrity.MatchRemoveTopic | internal/store/memory/store.go:284-310 | Deleting a topic takes subscriptions and tokens away together |
| Fifo.DuplicateIffWindowOpen | internal/service/service.go:464-500 | In any run a message is a duplicate if and only if its key was accepted, in the same life of the topic, less than five minutes before |
| Fifo.AcceptancesAreApart | internal/service/service.go:471-500 | Two accepted messages with the same key are at least five minutes apart |
| Fifo.DuplicateIsToldTheLatest | internal/service/service.go:477-483 | A duplicate is told the message id and sequence number of the latest acceptance of its key |
| Deduplication.DuplicateInTopic | internal/service/service.go:464-500 | In any run, while the scope is the topic: a message is a duplicate if and only if one with the same deduplication id, or the same digest where none is given, was accepted less than five minutes before |
| Deduplication.DuplicateInGroup | internal/service/service.go:464-500 | While the scope is the message group: if such a message of the same group was, and only then as long as group names have no colon |
| Deduplication.ColonsConfuseGroups | internal/service/service.go:471-483 | With colons in group names, a message of another group and another id is answered as a duplicate |
| Fifo.RecordHasOrigin | internal/service/service.go:485-498 | Every deduplication record comes from the latest acceptance of its key |
| Fifo.FailedPublishIsRemembered | internal/service/service.go:494-505 | A publish that fails to resolve its message is still remembered and answered as a duplicate |
| Fifo.SuccessiveNumbers | internal/domain/types.go:415-425 | Successive messages of a group keep its prefix and differ by exactly one if and only if the counter does not wrap |
| Fifo.NumbersIncrease | internal/service/service.go:485-493 | In a run of fewer than 2^64 steps a group's later messages have larger numbers |
| Domain.SequenceNumberParts | internal/domain/types.go:415-425 | Prefix and counter can be recovered from the number; the prefix is the first message's clock reading for good, and the counter goes up by one modulo 2^64 |
| Fifo.FifoByNameAlways | internal/service/service.go:70-109 | In every reachable store a topic is FIFO if and only if its name ends in ".fifo" |
| Fifo.FifoForever | internal/service/service.go:753-771 | No sequence of calls turns a FIFO topic into a standard one or back |
| Fifo.ScopeIsKept | internal/service/service.go:777-787 | While a topic lives its throughput scope never goes from message group back to topic |
| Fifo.TopicStep | internal/service/service.go:464-500 | Only an accepted publish changes a topic's sequence and deduplication records |
| FanOut.ExactFanOut | internal/service/service.go:561-626 | A publish that sends creates exactly one job per selected pushed subscription, exactly one delivery per selected queue subscription, nothing for any other, and leaves the other jobs alone |
| FanOut.NothingOtherwise | internal/service/service.go:561-610 | A publish that fails, or is a duplicate, enqueues and sends nothing |
| FanOut.FanOutContents | internal/service/service.go:583-603 | Each job and each delivery carries the reply's identifiers, the deduplication id, the right protocol's message and the policies in force to the right endpoint |
| Messages.TextsAreSent | internal/service/service.go:582-603 | In every run: with no structure each queue and subscriber gets the message itself; with structure "json" the non-empty string under "sqs", "http" or "https" for its protocol, and the "default" string otherwise; each under the message's own identifiers |
| Messages.FiltersSeeDefault | internal/service/service.go:578-580 | Filters that look at the body see the default text, whatever the protocol |
| Messages.FailuresAreRedriven | internal/service/service.go:611-624 | In every run: a queue delivery that is refused, or raw with more than ten attributes, is redriven once if there is a dead-letter queue, and no other is |
| FanOut.RedrivesExactly | internal/service/service.go:611-624 | In every run a publish redrives exactly the failed queue deliveries that have a dead-letter queue, once each, to that queue and with the message's identifier |
| FanOut.GetsIfSelected | internal/service/service.go:573-582 | In every run: only selected subscriptions get the message, and none whose filter fails in every order of its keys; each selected one whose filter fails in no order gets it, and readable operands never fail |
| FanOut.SendsAreInOrder | internal/service/service.go:537-557 | To each queue the messages of a group go out in strictly increasing order of number, batches included; within one publish, if no subscription of the queue was overlooked before |
| FanOut.OneSendPerQueue | internal/service/service.go:611-624 | In every run no queue gets two deliveries of one publish, unless a subscription of it was overlooked before |
| Queues.QueuesAlwaysDiffer | internal/service/service.go:242-300 | In every run no two queue subscriptions of a topic share an endpoint, unless a call of `Subscribe` overlooked one beyond the first 10,000 |
| Queues.QueuesStep | internal/service/service.go:70-441 | One step of any kind keeps the queues of all topics apart if and only if it does not overlook a subscription |
| Queues.FarQueueIsOverlooked | internal/service/service.go:887-895 | Any queue beyond the first 10,000 subscriptions of its topic can be subscribed again |
| Queues.SmallTopicsAreSeen | internal/service/service.go:887-895 | Where topics have at most 10,000 subscriptions nothing is overlooked |
| FanOut.OneSendEach | internal/service/service.go:611-624 | No subscription gets two deliveries of one publish |
| FanOut.SendsAreNumbered | internal/service/service.go:464-505 | Everything sent on a FIFO topic bears the number its acceptance was given |
| FanOut.AcceptedIsSentIfItResolves | internal/service/service.go:485-507 | A message that a FIFO topic accepts is sent if and only if its text resolves |
| FanOut.DuplicateOfWhat | internal/service/service.go:477-505 | A duplicate is told the identifiers of the latest acceptance of its key, which was sent if and only if its text resolved |
| Tokens.ConfirmsOnce | internal/service/service.go:319-357 | Once a token has confirmed, every later use of it is answered with "not found" |
| Tokens.UnsubscribeThenConfirm | internal/service/service.go:319-404 | After any run that neither uses the token nor deletes the topic, confirming succeeds if and only if 48 hours have not passed, and restores the identical record and its index entry if and only if it was confirmed |
| Tokens.UnsubscribeTokenStays | internal/service/service.go:371-398 | Until then the token stays as it is and the subscription stays away |
| Tokens.GoneForGood | internal/store/memory/store.go:375-377 | A token that has gone never comes back |
| SubscriptionLife.SubscribeRefuses | internal/service/service.go:227-272 | In a reachable store: a call of `Subscribe` is refused, without effect, if and only if the topic is missing, the caller not allowed, the protocol unknown or not for this topic, or nothing is there yet and an attribute, the queue or the URL is not acceptable |
| SubscriptionLife.SubscribeAgain | internal/service/service.go:242-247 | The first subscription with this protocol and endpoint is the answer, pending or by its ARN, and nothing is changed |
| SubscriptionLife.SubscribeMakes | internal/service/service.go:248-317 | Otherwise exactly one record is added with the attributes asked for, confirmed at once for a queue; any other is pending, with a token that lives 48 hours and a job that carries it to the endpoint |
| SubscriptionLife.SubscriptionStep | internal/service/service.go:227-441 | One step of any kind leaves a subscription as it is, unless it deletes its topic, unsubscribes it, confirms it, or sets its attributes |
| SubscriptionLife.SubscribeThenConfirm | internal/service/service.go:276-343 | After any run that neither uses the token, nor removes the subscription, nor deletes the topic, it is still pending, and confirming succeeds if and only if 48 hours have not passed since the call |
| SubscriptionLife.ProtectedStays | internal/service/service.go:364-366 | In every run a subscription confirmed with authentication stays so until its owner unsubscribes it or its topic is deleted |
| SubscriptionLife.StrangersAreRefused | internal/service/service.go:364-366 | Until then anybody else who unsubscribes it is refused, and nothing is changed |
| SubscriptionLife.ConfirmAnswers | internal/service/service.go:319-357 | In a reachable store a token confirms if and only if it is there, for this topic, and not expired, and is then gone; otherwise nothing changes |
| SubscriptionLife.UnsubscribeAnswers | internal/service/service.go:359-404 | In a reachable store: who may unsubscribe, that exactly this subscription goes, and what token and job a pushed one leaves behind |
| SubscriptionLife.SetAttributeAnswers | internal/service/service.go:418-441 | In a reachable store: which values are refused, and that the one attribute and the policy in force are all that changes |
| TopicCalls.CreateTopicAnswers | internal/service/service.go:70-109 | In a reachable store: which names, attributes and tags are refused, in this order; a name in use is answered with its topic; a new topic has what was asked for and the defaults |
| TopicCalls.NamedExactly | internal/util/arns.go:37-48 | Which topic names are valid: 1 to 256 letters, digits, underscores and hyphens, followed by ".fifo" for a FIFO topic and no other |
| TopicCalls.SetTopicAttributeAnswers | internal/service/service.go:753-822 | Which values an attribute of an existing topic may be given, and that only this attribute changes |
| TopicCalls.TagAnswers | internal/service/service.go:150-168 | New tags replace and join those that are there, up to 50 counted together |
| TopicCalls.UntagAnswers | internal/service/service.go:170-187 | Exactly the named tags go |
| Worker.AttemptsAreBounded | internal/service/worker.go:61-91 | A job whose protocol has an adapter is attempted at most once more than its schedule has entries |
| Worker.RetryWaits | internal/service/worker.go:90-101 | After a retry verdict the job is not taken up again before the reschedule time plus its delay |
| Worker.RetryHasItsPlace | internal/service/worker.go:78-101 | The retry after an attempt waits for the delay whose place in the schedule is the number of attempts before it, which is within the schedule |
| Worker.RetryOnSchedule | internal/service/worker.go:78-101 | For a message's job: the n-th retry waits for the n-th delay of the policy in force for its subscription at the publish |
| Worker.LastVerdict | internal/service/worker.go:73-89 | A delivered or given-up job is never taken up again |
| Outcomes.SuccessDelivers | internal/service/worker.go:74-77 | In every run: an attempt that succeeds removes the job, counts it as delivered and redrives nothing |
| Outcomes.GivesUpExactly | internal/service/worker.go:78-89 | The worker gives a job up if and only if the attempt fails for good, or fails with as many attempts behind it as its schedule has entries; the job is then removed and its dead letter sent |
| Outcomes.RetryPutsBack | internal/service/worker.go:90-101 | Otherwise it is put back, with one more attempt, for the delay whose place is the number of attempts behind it |
| Outcomes.NoAdapterPutsBack | internal/service/worker.go:62-67 | Without an adapter it is put back for five seconds, whatever the outcome |
| Outcomes.DeliveredExactly | internal/service/worker.go:61-91 | Over any stretch of a run a job counts as delivered if and only if an attempt at it succeeded, and then once |
| Outcomes.DueJobsAreListed | internal/store/memory/store.go:189-214 | The worker lists due jobs only, those due first in front and of these the oldest, and all of them unless the limit is used up by jobs before them |
| Worker.JobsAreConserved | internal/service/worker.go:61-101 | At any later time a job is in exactly one of four states: queued, delivered, given up, or cancelled with its topic |
| Worker.RedrivenOnce | internal/service/worker.go:83-89 | The redrives of a job over any stretch are those of one failure: a notification that is given up is redriven once, a confirmation never |
| Worker.CancelledAttempts | internal/service/worker.go:51-91 | A job that is no longer stored is attempted once more if and only if the worker holds a copy that it then takes up, and never twice |
| Worker.CancelledRedrives | internal/service/worker.go:83-89 | The redrives of such a copy are those of one failure if it is given up, and none otherwise |
| CancelledJob.CancelledYetRedriven | internal/service/worker.go:51-91 | Any run with a due job extends to one in which that job is cancelled by the deletion of its topic and then attempted and redriven |
| CancelledJob.CancelledRunExists | internal/service/worker.go:51-91 | Seven steps from the empty store after which a cancelled job has been redriven |
| Worker.JobKeepsItsSchedule | internal/service/worker.go:61-91 | In every run a job is retried on the schedule of the delivery policy that was in force for its subscription when the message was published |
| Worker.ReachableBatch | internal/service/worker.go:51-59 | The worker's copies are of different jobs, are due, and equal the stored jobs for as long as these exist |
| Worker.JobStep | internal/store/memory/store.go:216-240 | A step changes no job but the one taken up and those of a deleted topic, and never brings one back |
| Isolation.RunKeepsIndexes | internal/store/memory/store.go:52-66 | Under every interleaving, every committed state has exact indexes |
| Isolation.BodyIsInvisible | internal/store/memory/store.go:52-62 | A transaction that does not commit, because its body fails or still runs, can be erased from any run: what remains is a run that ends in the same shared state with the same other transactions |
| Isolation.CommitIsAtomic | internal/store/memory/store.go:52-66 | A commit whose snapshot is still current is the atomic application of its body |
| Isolation.UndisturbedTransactionIsAtomic | internal/store/memory/store.go:52-66 | So is a transaction that nothing commits or writes in place beside |
| Isolation.DeletedJobComesBack | internal/store/memory/store.go:235-240 | A run in which a commit brings back a job deleted in the meantime |
| StoreSpec.ApplyKeepsIndexes | internal/store/memory/store.go:252-382 | Every operation of a transaction body keeps both indexes and all keys exact |
| StoreSpec.DeleteJobKeepsIndexes | internal/store/memory/store.go:235-240 | So does the in-place deletion of a job |
| MemoryStore.State.Clone | internal/store/memory/store.go:492-522 | The clone has the same value and shares no object with the original: no table, no record, and none of the maps inside a topic record |
| MemoryStore.State.CreateTopic | internal/store/memory/store.go:252-261 | Adds the topic and its name, or reports a conflict and changes nothing |
| MemoryStore.State.UpdateTopic | internal/store/memory/store.go:271-282 | For each of the closures the service has: replaces the record by what the closure made, in place, of a private copy; a closure that fails halfway changes nothing in the store |
| MemoryStore.TopicTable.Update | internal/store/memory/store.go:271-282 | The same for the table alone: after a failure what the closure wrote is lost with the copy |
| MemoryStore.Store.UpdateTopic | internal/store/memory/store.go:52-66 | As a transaction of its own, committed only if the closure succeeds |
| TopicRecords.CopyTopic | internal/domain/types.go:345-360 | An equal record none of whose objects, its five maps included, existed before |
| TopicRecords.ApplyTopicAttributes | internal/service/service.go:753-822 | Written in place entry by entry: success and the result do not depend on the order in which the attribute map is walked |
| TopicRecords.AdmitMessage | internal/service/service.go:471-500 | The closure of a FIFO publish, in place: the admission and the new topic record |
| TopicRecords.WriteTags | internal/service/service.go:162-168 | The closure of `TagTopic`, in place |
| TopicRecords.DeleteTags | internal/service/service.go:180-185 | The closure of `UntagTopic`, in place |
| MemoryStore.State.DeleteTopic | internal/store/memory/store.go:284-310 | Removes the topic, both index entries, and every subscription, token and job of it |
| MemoryStore.State.CreateSubscription | internal/store/memory/store.go:316-323 | Adds the record and its index entry |
| MemoryStore.State.UpdateSubscription | internal/store/memory/store.go:329-340 | Replaces the record by what the closure made of a copy |
| MemoryStore.State.DeleteSubscription | internal/store/memory/store.go:342-357 | Removes the record, its index entry and the tokens that name it |
| MemoryStore.State.ListSubscriptionsByTopic | internal/store/memory/store.go:458-482 | The requested page of the topic's subscriptions in key order |
| MemoryStore.State.ListReadyDeliveryJobs | internal/store/memory/store.go:189-214 | Due jobs only, soonest first, and none left out unless the limit is used up by jobs due no later |
| MemoryStore.Store.Begin | internal/store/memory/store.go:52-57 | A transaction's state is new and equal to the shared one |
| MemoryStore.Store.Commit | internal/store/memory/store.go:58-66 | The transaction's state becomes the shared one |
| MemoryStore.Store.UpdateDeliveryJob | internal/store/memory/store.go:216-233 | Replaces one stored job, or reports that it is gone |
| MemoryStore.Store.DeleteDeliveryJob | internal/store/memory/store.go:235-240 | Removes the job from the shared state in place |
| MemoryStore.Store.DeleteConfirmationToken | internal/store/memory/store.go:165-170 | Removes the token and nothing else |
| Service.Service.Authorize | internal/service/service.go:735-751 | The decision is one that some order of the policy's principal maps gives; an unreadable policy is an error |
| Service.DecisionIsMeaning | internal/service/service.go:735-751 | Under well-formed principals the decision is what the policy means, and nobody but the owner is let in without a matching Allow |
| Service.Service.CreateTopic | internal/service/service.go:70-109 | Store and reply are those of the specification, and the invariant is kept |
| Service.Service.DeleteTopic | internal/service/service.go:111-116 | The same for deleting a topic |
| Service.Service.SetTopicAttribute | internal/service/service.go:129-144 | The same for setting a topic attribute, under the policy's decision |
| Service.Service.EditTopic | internal/service/service.go:150-225 | The same for tagging, untagging, adding and removing a permission |
| Service.Service.PrepareEdit | internal/service/service.go:150-225 | The checks of these calls, and a closure that makes the specified topic |
| Preservation.EditedTopic | internal/service/service.go:150-225 | They change tags or policy alone, and leave the policy readable |
| Service.Service.Subscribe | internal/service/service.go:227-317 | The same for subscribing, the subscriptions looked at being the topic's first 10,000 |
| Service.Service.FindExistingSubscription | internal/service/service.go:887-895 | The first listed subscription with this protocol and endpoint |
| Service.Service.ConfirmSubscription | internal/service/service.go:319-357 | The same for confirming |
| Service.Service.Unsubscribe | internal/service/service.go:359-404 | The same for unsubscribing |
| Service.Service.SetSubscriptionAttribute | internal/service/service.go:418-441 | The same for setting a subscription attribute, in two updates |
| Service.Service.EnqueueAll | internal/service/service.go:571-607 | One pass over the subscriptions yields the jobs and the queue list of the specification, with matches the filter evaluator can give |
| Service.Service.DeliverQueue | internal/service/service.go:611-624 | One delivery for each listed queue, and a redrive for each that fails |
| Service.Service.DispatchPublish | internal/service/service.go:561-626 | Store, deliveries and redrives are those of the specification |
| Service.Service.Publish | internal/service/service.go:453-507 | Store and reply are those of the specification for a decision of the policy, the topic's first 10,000 subscriptions, and answers that the filter evaluator can give |
| Service.Service.CheckBatch | internal/service/service.go:518-536 | Which batches are refused, and why |
| Messages.BatchIsFine | internal/service/service.go:518-536 | A batch has 1 to 10 entries with different identifiers and at most 262,144 characters of text together |
| Messages.EveryEntryIsAnswered | internal/service/service.go:537-558 | Every entry is answered once, with its output or its error |
| Service.Service.PublishBatch | internal/service/service.go:509-559 | A batch is refused as a whole without effect, or is its entries published one after another, each under the policy's decision and to the subscriptions of the store as the entries before it left it, with the replies in order |
| Service.Service.ProcessDeliveryJob | internal/service/worker.go:61-91 | The job is deleted, or put back with one more attempt and its delay, and redriven only when given up |
| Service.Service.Reschedule | internal/service/worker.go:93-101 | The stored job, not the worker's copy, is updated if it still exists |
| Service.Service.ProcessReadyDeliveryJobs | internal/service/worker.go:51-59 | Every listed job is handled, in order, and the redrives are those of their verdicts |
| History.RecordedService.Publish | internal/service/service.go:453-507 | A call of the service extends the run recorded so far by the step of `Runs` with the same effect and reply |
| History.RecordedService.PublishBatch | internal/service/service.go:509-559 | A batch that is not refused extends it by one step for each entry |
| History.RecordedService.Subscribe | internal/service/service.go:227-317 | So does a call of `Subscribe`, with the listing it saw |
| History.RecordedService.ListReady | internal/service/worker.go:51-59 | The worker's listing is a step |
| History.RecordedService.ProcessNext | internal/service/worker.go:61-91 | Taking up the next copy is a step, with the redrives of its verdict |
| History.PublishIsStep | internal/service/service.go:453-507 | What the service promises of a publish makes it an enabled step of a run |
| History.EntriesAreSteps | internal/service/service.go:537-557 | The entries of a batch are successive steps |
| Attributes.ApplySubscriptionAttributes | internal/service/service.go:824-865 | Nor does that of subscription attributes |
| Filter.EvalObject | internal/filter/filter.go:80-115 | The answer is that of some enumeration of the keys of the policy and of every object in it; an answer that is no failure is the declarative meaning |
| Filter.OrdersDecide | internal/filter/filter.go:80-115 | Some order fails, every order fails, some order matches, all orders agree: each if and only if a condition that mentions no order |
| FilterOperators.ExistsAnswers | internal/filter/filter.go:251-253 | `exists` with `true` matches a message that has the key, with anything else one that has not |
| FilterOperators.ScalarAnswers | internal/filter/filter.go:248-249 | A plain value matches if some value under the key is within 1e-9 of it as a number, or prints as it does |
| FilterOperators.AnythingButAnswers | internal/filter/filter.go:282-293 | `anything-but` with a value or a list matches if no value under the key is like any of them |
| FilterOperators.StringOperatorAnswers | internal/filter/filter.go:257-276 | `prefix`, `suffix`, `equals-ignore-case`, `wildcard` and `cidr` match if some string under the key passes; a bad `cidr` prefix fails |
| FilterOperators.AnythingButOperatorAnswers | internal/filter/filter.go:294-312 | The same five under `anything-but` match if no string passes |
| FilterOperators.NonStringAnswers | internal/filter/filter.go:315-383 | What they answer when the operand is no string |
| FilterOperators.NumericAnswers | internal/filter/filter.go:397-442 | `numeric` matches if every comparison, by `=`, `>`, `>=`, `<` or `<=`, holds of one number under the key |
| FilterOperators.OddNumericFails | internal/filter/filter.go:397-401 | `numeric` without a list of pairs fails |
| FilterOperators.NoOperatorAnswers | internal/filter/filter.go:276-279 | A condition that is a list, or an object without operators, matches nothing |
| FilterOperators.GlobReads | internal/filter/filter.go:491-506 | How a wildcard pattern is read, a character at a time |
| FilterOperators.ListAnswers | internal/filter/filter.go:233-244 | A list of conditions answers what the first of them, taken alone, answers that does not answer "no" |
| FilterOperators.KeysCombine | internal/filter/filter.go:80-115 | A policy of several keys can match if each key alone can, and can answer otherwise whatever some key alone can |
| FilterOperators.NestedAnswers | internal/filter/filter.go:95-103 | A nested object is compared with the object under its key |
| FilterOperators.OddKeyFails | internal/filter/filter.go:109-111 | A key with neither an object nor a list fails |
| FilterOperators.OrAnswers | internal/filter/filter.go:212-231 | `$or` over two or more items answers what the first of its objects answers that does not answer "no" |
| FilterOperators.ShortOrAnswers | internal/filter/filter.go:213-216 | Over fewer it matches nothing |
| FilterOperators.ScopeAnswers | internal/filter/filter.go:15-43 | No policy lets everything through; a policy is compared with the attributes or with the message if that is an object, and in no other scope |
| FilterOperators.AttributeIsRead | internal/filter/filter.go:56-78 | Which values an attribute of each type has for a policy, and when it is left out |
| FilterOperators.ValidExactly | internal/filter/filter.go:117-210 | Which policies are valid, key by key and condition by condition |
| Filter.GivesExactly | internal/filter/filter.go:80-115 | The possible answers, at every nesting level |
| Filter.OrderCanDecideDelivery | internal/filter/filter.go:212-231 | A validated policy and a message that match in one order and fail in another |
| Filter.EvalOr | internal/filter/filter.go:212-231 | The answer is that of some enumeration of the objects in the list |
| Filter.OrGivesExactly | internal/filter/filter.go:212-231 | `$or` is "exists" over its branches, and fails exactly when a branch that is reached does |
| Filter.EvalConditions | internal/filter/filter.go:233-244 | A list of conditions is "any of"; it fails exactly when a condition fails before one holds |
| Filter.EvalCondition | internal/filter/filter.go:246-280 | Each operator has its declarative meaning, and evaluation fails exactly when it meets an operand that cannot be read |
| Filter.EvalAnythingBut | internal/filter/filter.go:282-313 | `anything-but` and its nested forms |
| Filter.EvalNumeric | internal/filter/filter.go:397-425 | All comparison pairs hold of some number of the candidate; it fails exactly when a bad operand is reached before that is decided |
| Filter.WildcardIsGlob | internal/filter/filter.go:357-373 | The compiled wildcard matches exactly what the glob describes |
| Filter.ValidateObject | internal/filter/filter.go:117-149 | Accepts exactly the well-formed policies |
| Filter.ValidateOperator | internal/filter/filter.go:167-210 | Accepts exactly the well-formed operators |
| Filter.AttributeRoot | internal/filter/filter.go:56-78 | Each decodable message attribute, and only those |
| Filter.Matches | internal/filter/filter.go:15-43 | The answer is one that some order gives in the policy's scope, and the policy's meaning unless evaluation fails |
| Filter.SelectionDecides | internal/filter/filter.go:15-43 | What the answers can be, with no order |
| ServiceSpec.DecidesExactly | internal/service/service.go:573-582 | When a match, and when none, can come of it, failures counting as none |
| Filter.ValidatedPoliciesCanFail | internal/filter/filter.go:192-196 | Policies with a bad `cidr` or `numeric` operand pass validation and fail at evaluation in every order |
| Glob.WildcardRegexp | internal/filter/filter.go:491-506 | The builder emits the specified text |
| Glob.WildcardPreservesMeaning | internal/filter/filter.go:491-506 | Read back as a regular expression, that text accepts exactly the strings the glob describes |
| Delivery.RetryDelays | internal/delivery/policy.go:167-190 | The four loops build the specified schedule, or reject the policy |
| Delivery.BackoffDelay | internal/delivery/policy.go:192-221 | The linear and exponential delays |
| Delivery.ExponentialDelay | internal/delivery/policy.go:209-217 | The doubling loop with its early exit is min(max, min * 2^attempt) |
| Delivery.ScheduleShape | internal/delivery/policy.go:167-221 | Schedules do not decrease, and each entry is 0 or between the two targets |
| Delivery.ScheduleLength | internal/delivery/policy.go:167-190 | With nonnegative counts the length is the larger of the retries and the sum of the fixed phases |
| Delivery.EffectivePolicyIsFixedPoint | internal/delivery/policy.go:73-154 | Reading a stored effective policy again gives the same policy |
| RetryPolicies.OneLayer | internal/delivery/policy.go:42-105 | The policy in force where neither the topic nor the subscription sets one, and where only one does |
| RetryPolicies.DisabledOverrides | internal/delivery/policy.go:94-103 | A topic that disables overrides decides alone, even over a policy that cannot be read |
| RetryPolicies.SubscriptionReplaces | internal/delivery/policy.go:85-155 | Otherwise a subscription's policy replaces the topic's, defaults for what it leaves out included, all but the throttle |
| RetryPolicies.InForceUnlessUnreadable | internal/delivery/policy.go:85-105 | There is a policy in force unless the topic's, or a subscription's that is not overridden, cannot be read |
| RetryPolicies.ScheduleExists | internal/delivery/policy.go:167-174 | A policy gives a schedule if and only if the retries are 0 to 100 and the delays in order |
| RetryPolicies.DefaultSchedule | internal/delivery/policy.go:42-57 | The default is three retries, each after 20 seconds |
| RetryPolicies.SchedulePhases | internal/delivery/policy.go:175-190 | How long a schedule is, and which delays are none, the minimum and the maximum |
| RetryPolicies.LinearCurve | internal/delivery/policy.go:197-199 | The linear curve goes from the minimum to the maximum in even steps, rounded down |
| RetryPolicies.GeometricCurve | internal/delivery/policy.go:200-208 | The geometric curve adds the minimum each time, up to the maximum |
| RetryPolicies.ExponentialCurve | internal/delivery/policy.go:209-217 | The exponential curve doubles each time, up to the maximum |
| RetryPolicies.FlatCurve | internal/delivery/policy.go:193-220 | Any other curve, and one of a single retry, stays at the minimum |
| AccessPolicy.Evaluate | internal/policy/policy.go:127-149 | The answer is one that some choice of orders gives; for well-formed principals it is: owner or some matching Allow, and no matching Deny |
| AccessPolicy.PassExactly | internal/policy/policy.go:127-149 | What the pass can answer, with no order of statements or of principal entries |
| AccessPolicy.StatementOrderIsFree | internal/policy/policy.go:127-149 | The order of the statements changes neither what the policy means nor, with malformed principals, what the pass can answer |
| AccessDecisions.StatementDecides | internal/policy/policy.go:127-173 | Wherever it stands, a Deny refuses what it speaks of, an Allow gives it what the owner would get from the rest, and any other statement makes no difference |
| AccessDecisions.EmptyDecides | internal/policy/policy.go:127-149 | A policy without statements admits the owner alone |
| AccessDecisions.StarIsEveryone | internal/policy/policy.go:175-205 | For what the service asks: the principal "*", `{"AWS": "*"}`, none, the empty string and null are for every identity, so a Deny refuses even the owner |
| AccessDecisions.AccountIsNamed | internal/policy/policy.go:176-179 | Any other string is for that identity and no other |
| AccessDecisions.AccountsAreListed | internal/policy/policy.go:184-192 | A list of AWS principals without a star is for those identities, up to case, and no others |
| AccessDecisions.DefaultIsForOwner | internal/policy/policy.go:31-56 | Under the policy of a new topic the owner may do everything and, case aside, nobody else anything |
| AccessPolicy.PrincipalMatches | internal/policy/policy.go:175-205 | A principal map is scanned in some order; an answer is the declarative one |
| AccessPolicy.PrincipalOrderMatters | internal/policy/policy.go:175-205 | The scan is independent of the order if and only if the map does not hold both a bad and a matching entry |
| AccessPolicy.StatementMatches | internal/policy/policy.go:151-173 | Principal, action, resource and conditions all match |
| AccessPolicy.ConditionsMatch | internal/policy/policy.go:207-220 | Every known operator holds of every key |
| AccessPolicy.AddPermission | internal/policy/policy.go:74-104 | The new document, or a refusal for a used label |
| AccessPolicy.RemovePermission | internal/policy/policy.go:106-125 | The document without the label, or a refusal |
| AccessPolicy.RemoveUndoesAdd | internal/policy/policy.go:74-125 | With a fresh label removing undoes adding, up to re-marshalling, and exactly if and only if all statements are complete |
| AccessPolicy.AddGrants | internal/policy/policy.go:74-104 | Afterwards each listed account may perform each listed action on the topic unless a Deny matches |
| AccessPolicy.AddFrames | internal/policy/policy.go:74-104 | The answer changes for no request that the new statement does not match |
| AccessPolicy.AddExactly | internal/policy/policy.go:74-104 | For every request the service makes (case folding telling the empty string from its action and topic): allowed after adding a permission if and only if allowed before, or granted by the new statement with no Deny matching |
| AccessDecisions.ActionsAreStored | internal/policy/policy.go:84-94 | The actions of a permission are those listed and not blank, trimmed, with the service's name in front |
| AccessDecisions.PermissionAnswers | internal/policy/policy.go:74-125 | Adding is refused exactly for a label in use, removing for one that is not, both for an unreadable policy |
| AccessDecisions.RemovalKeepsOthers | internal/policy/policy.go:106-125 | Removing a label keeps every other statement, in number too |
| AccessPolicy.RemarshalCanGrant | internal/policy/policy.go:69-72 | Re-marshalling alone can turn a refusal into a grant for a request with an empty action |
| PageToken.PageTokenRoundTrip | internal/store/memory/store.go:532-549 | Decoding an encoded page token gives back the index, through decimal and unpadded base64url (RFC 4648 sections 3.2 and 5) |
| PageToken.GroupsOfThree | internal/store/memory/store.go:532-534 | Bytes are packed in groups of three, each into four symbols that make the same number (RFC 4648 section 4) |
| PageToken.LastGroup | internal/store/memory/store.go:532-534 | One or two bytes left over become two or three symbols, filled up with zero bits and without padding |
| PageToken.AlphabetIsBase64Url | internal/store/memory/store.go:532-534 | The symbols are those of RFC 4648 section 5, in this order |
| PageToken.ItoaIsDecimal | internal/store/memory/store.go:533 | The position is written in decimal |
| Paging.ListPage | internal/store/memory/store.go:400-423 | The requested page of the sorted keys |
| Paging.PageIsBounded | internal/store/memory/store.go:405-420 | A page is a stretch of the sorted keys from the token's position, of at most the page size, and exactly that if another follows |
| Paging.BelowIsLexicographic | internal/store/memory/store.go:405 | Keys are sorted by the first place where they differ, a prefix first |
| Paging.WalkIsComplete | internal/store/memory/store.go:400-482 | Following tokens from the empty one until the empty one lists every key exactly once, in order |
| Paging.ListingIsUnique | internal/store/memory/store.go:400-410 | A set of keys has one sorted listing |
| Paging.SomeListing | internal/store/memory/store.go:400-410 | Every set of keys has one |

## Left out

- HTTP serving, XML, form parsing, request signing and checking, certificates: plumbing around the core.
- The HTTP and SQS adapters: only their outcome is modelled. A queue delivery in the model is one call of `deliverToSQS`; whether the queue's policy and the queue accept it is one input.
- The SQLite store: its meaning is in SQL. Nothing is claimed about it.
- The text of envelopes, signatures, URLs, subjects and message attributes in payloads: a job carries its identifiers, message, policies and endpoint only.
- Error messages, and API errors by anything but their kind.
- Strings are sequences of characters, so lengths that the source measures in bytes are measured in characters.
- Go's distinction between nil and empty maps and slices, and the unused `nested` argument of the filter evaluator.
- Delivery.RetryDelays: does not model the overflow of delays beyond 292 years.
- Worker.AttemptsAreBounded: a job whose protocol has no adapter is put back every five seconds for ever.
- Queues.QueuesAlwaysDiffer: speaks of queues only; two pushed subscriptions of a topic can share an endpoint after a restore.
- The lock-level behaviour of single reads, and several workers at once.
