# Verified model of the localgcp stores

localgcp emulates several Google Cloud services in memory. Behind its gRPC and HTTP plumbing are stores that are
real state machines, and what they promise only shows over whole runs: that a resumed listener ends with the
current documents, that no message is lost or acknowledged by mistake, that a task is not attempted too often.
This project models those stores in Dafny and proves such promises for every input and every run.

| component | files | what is proved, in short |
|---|---|---|
| Firestore change feed | `FirestoreEvents`, `FirestoreFeed`, `FirestoreWatch`, `FirestoreLive`, `FirestoreChangeLog`, `FirestoreStore`, `FirestoreService`, `FirestoreReturn` | the bounded ring refines the unbounded history; resuming and watching bring a client to the present documents exactly under stated conditions; documents handed out are never changed by later in-place updates |
| Firestore queries | `Binary64`, `FirestoreValues`, `FirestoreFilter`, `FirestoreOrder`, `FirestoreQuery` | the value order is a total preorder; filter trees mean their Boolean reading over that order; a query ordered by name has one canonical result, rebuilt by its pages |
| Pub/Sub | `PubSubState`, `PubSubEffects`, `PubSubOrder`, `PubSubRuns`, `PubSubIndex`, `PubSubLeases`, `PubSubPush`, `PubSubLoop`, `PubSubStore`, `PubSubService`, `Dispatch` | conservation of messages, ack IDs that are never reused, leases, a delivery loop that tries each message exactly as often as it may, the order of pulls, the topic index, restart |
| Cloud Tasks | `CloudTasksState`, `CloudTasksAttempts`, `CloudTasksRuns`, `CloudTasksStore`, `CloudTasksService` | a task whose every dispatch fails is tried exactly as often as its queue allows, runs drain, the backoff loop has a closed form that is exact under a stated condition |
| Cloud Storage listing | `GcsListing`, `GcsStore` | the walk over pseudo-directories visits each object once, for every delimiter |
| Secret Manager | `SecretManagerState`, `SecretManagerFate`, `SecretManagerStore` | versions are an append-only log on which the linear scan agrees with the index, and the events alone decide what an access yields |

`Text` holds byte strings (a Go `string` or `[]byte` is a sequence of characters, one for each byte), `GoTime`
machine integers and times, `Wrappers` optional values, error returns and the arbitrary choice that a Go `range`
over a map makes.

Every store is a class whose methods update fields, maps and records in place as the Go methods do. A ghost field
holds the abstract state, `Valid()` ties it to the heap, and each method is proved to do to the heap what a function
on values does to the abstract state. The theorems are lemmas about those functions and about runs of them. A
Firestore mutation, with its sequence number and its place in the ring, is one step, and so is adding a listen
target up to its CURRENT message; Pub/Sub and Cloud Tasks operations are steps because the Go methods hold the
store's lock. Clock readings are parameters, one for each operation, and nothing assumes a clock unless a lemma says
so. The outcome of the network is a parameter too.

Where the code does not keep a promise, the model follows the code, and a lemma says exactly when the promise holds:

- The token sent with CURRENT is read after the snapshot (`LateTokenExact`, `LateTokenLosesAWrite`).
- A refused resume is answered by a snapshot without a reset (`ReturningClientExact`, `DeletedDocumentStays`).
- A live event is dropped when the listener's channel, of 64 places, is full (`LiveClientExact`,
  `TheSixtyFifthIsLost`).
- Two distinct integers above 2^53 may compare as equal (`IntegersCompareThroughDoubles`,
  `FirstIndistinguishableIntegers`), and all arrays, all maps and all geo points do (`TiesExactly`).
- A collection that a query names twice is listed twice (`RepeatedSources`).
- A topic may take the name that marks orphaned subscriptions (`IndexAgreesExactly`, `ReservedNameBreaksTheIndex`,
  `RestartRebuilds`, `RestartDropsASubscriber`).
- Pulls follow the decimal numerals of message IDs as strings, not the order of publication
  (`FirstInFirstOutExactly`, `TheTenthComesFirst`).
- The backoff of a retry is computed in 64 bits and may wrap (`BackoffExact`, `BackoffNeverWraps`, `BackoffWraps`).
- A task is looked up by what precedes the first `/tasks/` in its name (`NameLeadsToQueue`, `NestedNameIsLost`).
- Secret version numbers wrap at 32 bits (`ScanIsIndex`, `LatestIsLast`).
- The file does not tell an empty payload or a destruction at time zero from none (`ReloadIsIdentityExactly`).

`dafny verify dfyconfig.toml` checks the whole project.

## Model

| member | source | states |
|---|---|---|
| Text.AscendingUnique | internal/firestore/store.go:226 | sorting distinct names leaves no trace of the order in which a map was enumerated |
| Text.SortStrings | internal/gcs/store.go:295 | a set of strings is listed once each, in byte-wise ascending order |
| Text.CompareTransitive | internal/pubsub/store.go:316 | the string order composes, and is a tie only for equal strings |
| Text.CompareIsLexicographic | internal/firestore/query.go:285-288 | the sign is that of the dictionary order of bytes: a proper beginning comes first, and else the first byte that differs decides |
| Text.Index | internal/gcs/store.go:273 | the least index of an occurrence, or -1 exactly when there is none |
| Text.DecimalInjective | internal/pubsub/store.go:247 | two numbers with one decimal numeral are equal |
| Text.DecimalDenotes | internal/pubsub/store.go:247 | read digit by digit, a numeral is its number, without a leading zero |
| Text.DecimalsInOrder | internal/pubsub/store.go:316 | the numerals of two numbers are in the order of the numbers, as strings, exactly when the smaller number scaled to the length of the greater one does not exceed it |
| Text.SplitAtLast | internal/pubsub/store.go:260 | "sub:id" determines both parts when the id has no colon, whatever the subscription name contains |
| GoTime.Wrap64Doubled | internal/cloudtasks/store.go:282-285 | doubling in 64 bits step by step wraps to what doubling the exact value does |
| Binary64.RoundMonotone | internal/firestore/query.go:295-304 | converting integers to doubles never inverts their order |
| Binary64.RoundExact | internal/firestore/query.go:295-304 | the conversion is exact up to a magnitude of 2^53 |
| Binary64.RoundsToNearestEven | internal/firestore/query.go:295-304 | the model of the conversion is the one of section 4.3.1 of IEEE 754-2019: the result is a double, none is nearer, and ties go to an even multiple of the spacing |
| Binary64.FirstTie | internal/firestore/query.go:295-304 | 2^53 + 1 converts to 2^53 |
| FirestoreValues.CompareBytes | internal/firestore/query.go:365-381 | the loop computes the lexicographic order of byte strings |
| FirestoreValues.CompareValuesAntisymmetric | internal/firestore/query.go:252-293 | swapping the operands flips the sign, for all values including missing, NaN and mixed numbers |
| FirestoreValues.CompareValuesTransitive | internal/firestore/query.go:252-293 | the comparison is a total preorder: `<=` composes, and ties only when both parts tie |
| FirestoreValues.TiesExactly | internal/firestore/query.go:252-293 | two values tie exactly when they are equal, equal as doubles, or both geo points, both arrays or both maps |
| FirestoreValues.BelowExactly | internal/firestore/query.go:252-293 | one value compares below another exactly when its type has the lower rank, or within a type it is false before true, the smaller number with NaN first, the earlier moment, or first in dictionary order |
| FirestoreValues.TypesInOrder | internal/firestore/query.go:217-249 | missing, null, boolean, number, timestamp, string, bytes, reference, geo point, array, map, unset: each is below the next |
| FirestoreValues.IntegersCompareThroughDoubles | internal/firestore/query.go:271-274 | integers are never inverted, and compare as integers exactly when they are equal or round to different doubles; always up to 2^53 |
| FirestoreValues.FirstIndistinguishableIntegers | internal/firestore/query.go:271-274 | 2^53 and 2^53 + 1 compare as equal |
| FirestoreFilter.GetFieldValue | internal/firestore/query.go:118-139 | the loop over the dotted path finds the value nested under its parts, or nothing |
| FirestoreFilter.LookupFollowsThePath | internal/firestore/query.go:118-139 | a path finds a value exactly when a chain of nested maps under its parts leads there |
| FirestoreFilter.SplitCutsAtDots | internal/firestore/query.go:122 | the parts of a path have no dots, and joined with dots they are the path |
| FirestoreFilter.MatchesOp | internal/firestore/query.go:142-216 | the operators, and the loops over arrays behind four of them, decide what the relations below and tied say of the two values |
| FirestoreFilter.ApplyFieldFilter | internal/firestore/query.go:77-90 | the loop keeps exactly the documents whose value passes, in order |
| FirestoreFilter.EachByItself | internal/firestore/query.go:77-90 | a field filter decides on each document by itself |
| FirestoreFilter.WhereIntegers | internal/firestore/query.go:142-155 | for integers up to 2^53 the six comparisons keep a document as the numbers compare |
| FirestoreFilter.WhereStrings | internal/firestore/query.go:142-155 | for strings, as they come in dictionary order |
| FirestoreFilter.WhereBooleans | internal/firestore/query.go:142-155 | for booleans, false before true |
| FirestoreFilter.WhereTimestamps | internal/firestore/query.go:142-155 | for timestamps, chronologically |
| FirestoreFilter.WhereTypesDiffer | internal/firestore/query.go:252-257 | for values of different types, by the rank of the types |
| FirestoreFilter.WhereMissing | internal/firestore/query.go:217-220 | a document without the field is below every value |
| FirestoreFilter.WhereLists | internal/firestore/query.go:156-216 | IN keeps what some `=` keeps and NOT_IN the rest; ARRAY_CONTAINS keeps arrays with an element that ties, ARRAY_CONTAINS_ANY what some ARRAY_CONTAINS keeps; no operator keeps none |
| FirestoreFilter.ApplyCompositeFilter | internal/firestore/query.go:92-115 | AND filters in turn, OR merges without repeating a name |
| FirestoreFilter.ApplyFilter | internal/firestore/query.go:66-75 | the recursion over the tree computes the filtered documents that the next two rows are about |
| FirestoreFilter.FilteredMeansHolds | internal/firestore/query.go:66-115 | a document passes exactly when the tree, read as a Boolean formula, is true of it; no name is repeated; an empty AND keeps all and an empty OR none |
| FirestoreFilter.OrKeepsFirstOccurrences | internal/firestore/query.go:102-113 | OR lists what its filters keep one after the other, each name where it occurs first |
| FirestoreFilter.WithoutOrKeepsOrder | internal/firestore/query.go:92-101 | trees without OR keep the input order, even when names repeat |
| FirestoreFilter.ComparisonsPartition | internal/firestore/query.go:142-167 | for any field and operand, `<`, `=` and `>` split the documents into three parts |
| FirestoreOrder.CompareDocsTransitive | internal/firestore/query.go:385-409 | the multi-key comparison with its directions is a total preorder |
| FirestoreOrder.ApplyOrderBy | internal/firestore/query.go:384-410 | sorting the slice in place leaves the stable sort of its old contents: of two documents the earlier is below in the first key that differs, above if that key descends, or they tie in all keys and stay as they were |
| FirestoreOrder.OrdersBefore | internal/firestore/query.go:386-408 | the comparison's loop says before exactly when the first key that differs says so, in its direction |
| FirestoreOrder.CompareDocsMeans | internal/firestore/query.go:386-408 | the sign that orders documents is that of the first key that differs, in its direction |
| FirestoreOrder.NamesInOrder | internal/firestore/query.go:392-394 | ordered by name, documents come in dictionary order of their names, or in its reverse |
| FirestoreOrder.IntegersInOrder | internal/firestore/query.go:395-406 | ordered by a field of integers up to 2^53, they come in ascending or descending order of those |
| FirestoreOrder.StableSortIsStable | internal/firestore/query.go:385-409 | the result is sorted, a permutation, and keeps the order of ties |
| FirestoreOrder.AnyStableSortIsThisOne | internal/firestore/query.go:385-409 | a sequence is a stable sort of the input exactly when it is that result |
| FirestoreOrder.AtMostOneTie | internal/firestore/query.go:385-409 | ordering by name leaves no ties between documents of distinct names |
| FirestoreOrder.SortIgnoresInputOrder | internal/firestore/query.go:385-409 | ordering by name gives one result for one set of documents |
| FirestoreQuery.CollectFromSources | internal/firestore/query.go:49-63 | the sources' collections are concatenated, nameless ones left out |
| FirestoreQuery.CollectedCounts | internal/firestore/query.go:49-63 | each stored document is found as often as its collection is named among the sources, and nothing else is found |
| FirestoreQuery.RepeatedSources | internal/firestore/query.go:13-63 | a query ordered by name and without OR returns the one sorted sequence in which each satisfying document occurs as often as its collection is named |
| FirestoreQuery.ExecuteQuery | internal/firestore/query.go:13-46 | collecting, filtering, sorting and windowing over the store yield the pipeline of its documents |
| FirestoreQuery.QueryIsCanonical | internal/firestore/query.go:13-46 | an unpaged query ordered by name returns the strictly sorted sequence of exactly the satisfying documents, and no other sequence is that |
| FirestoreQuery.CanonicalResult | internal/firestore/query.go:13-46 | the order of the documents found and the way the filter is written cannot be seen in any page |
| FirestoreQuery.PageOfResult | internal/firestore/query.go:26-43 | a query skips as many documents of the unpaged result as its offset says, and returns at most its limit of the others |
| FirestoreQuery.PagesRebuildTheResult | internal/firestore/query.go:26-43 | concatenating offset and limit pages of any positive size rebuilds the unpaged result |
| FirestoreEvents.TestsAgree | internal/firestore/store.go:53-66 | the watcher's test and the snapshot's test agree on every name exactly for targets with a document name or a prefix |
| FirestoreEvents.CoverageMeans | internal/firestore/store.go:53-66 | a document target covers its document, a collection target the names that continue its prefix without a slash |
| FirestoreEvents.ChangesSinceExact | internal/firestore/store.go:179-203 | the log refuses exactly when more than its capacity has happened since the token, and else returns precisely the matching events since |
| FirestoreFeed.ApplyKeepsConsistent | internal/firestore/store.go:267-346 | after every mutation, replaying the history from the start gives the documents |
| FirestoreFeed.RunKeepsConsistent | internal/firestore/store.go:267-346 | so it is after every run, and histories only grow |
| FirestoreFeed.UpdateMeans | internal/firestore/store.go:290-332 | an update leaves the masked fields as in the input, those it lacks removed, and the others as they were; without a mask, or for a new document, the input's fields; the creation time is kept, the update time is now, and one event says so |
| FirestoreFeed.CreateMeans | internal/firestore/store.go:267-285 | a free name gets a document with the input's fields and both times now, and one event says so; a taken one changes nothing |
| FirestoreFeed.DeleteMeans | internal/firestore/store.go:335-346 | the document goes and one event says so; a missing one changes nothing |
| FirestoreFeed.ReplayOfView | internal/firestore/store.go:179-228 | replaying the matching events on a view is the view of replaying all events |
| FirestoreFeed.ResumeIsExact | internal/firestore/store.go:179-228 | in any run, the token of a past moment is refused exactly when too much has happened, and else its events turn the view of that moment into the present one |
| FirestoreFeed.WatchBeforeSnapshot | internal/firestore/service.go:425-487 | with the watcher registered before the snapshot, its events, some applied twice, bring the snapshot up to date |
| FirestoreFeed.LateTokenExact | internal/firestore/service.go:486 | a client that resumes with a token read later than its snapshot is right exactly when each covered document was rewritten since or did not change in between |
| FirestoreFeed.LateTokenLosesAWrite | internal/firestore/service.go:486 | a write between the snapshot and the token is lost to such a client |
| FirestoreChangeLog.SlotIsModulo | internal/firestore/store.go:136 | stepping around the ring is addition modulo the capacity |
| FirestoreChangeLog.RingAppend | internal/firestore/store.go:136-142 | writing behind the last slot keeps the ring holding the end of the history, full or not |
| FirestoreWatch.OfferOk | internal/firestore/store.go:143-150 | a watcher has received, in order, exactly the matching events since its registration for which its channel had room |
| FirestoreWatch.ReceivesAllExactly | internal/firestore/store.go:105-152 | in any run of events, takings, registrations and removals, a watcher has received all matching events exactly when its channel held fewer than 64 at each of them |
| FirestoreWatch.UnreadChannel | internal/firestore/store.go:143-150 | without a consumer, the channel holds the first matching events that fit, and all later ones are lost |
| FirestoreLive.LiveClientExact | internal/firestore/store.go:105-346 | in any run of mutations, listeners and consumers, a listener receives all that concerns it exactly when its channel has room each time; and then, on top of a snapshot of any moment since it joined, that is the present view |
| FirestoreLive.TheSixtyFifthIsLost | internal/firestore/store.go:131-152 | after 64 writes and a delete of one document, a listener that took nothing lacks the delete and keeps a document that is gone |
| FirestoreChangeLog.ChangeLog.constructor | internal/firestore/store.go:89-100 | an empty log, for any positive capacity |
| FirestoreChangeLog.ChangeLog.NotifyWatchers | internal/firestore/store.go:131-152 | the event gets the next sequence number, ends the history the ring refines, and is offered to every matching watcher: sent where the channel has room, dropped where it has none, and the watchers stay |
| FirestoreChangeLog.ChangeLog.ChangesSince | internal/firestore/store.go:179-203 | the loop over the ring returns what the retained end of the history gives |
| FirestoreChangeLog.ChangeLog.AddWatcher | internal/firestore/store.go:105-116 | a watcher with an empty channel replaces any of the same target ID |
| FirestoreChangeLog.ChangeLog.RemoveWatcher | internal/firestore/store.go:119-126 | the watcher is gone and the others stay |
| FirestoreChangeLog.ChangeLog.TakeEvent | internal/firestore/service.go:430-438 | the consumer takes the oldest event off the channel |
| FirestoreStore.Store.CopyFields | internal/firestore/store.go:254-263 | a fresh map with the same contents; nil for nil |
| FirestoreStore.Store.GetDocument | internal/firestore/store.go:233-250 | the document as stored, in a field map that the store will never edit |
| FirestoreStore.Store.CreateDocument | internal/firestore/store.go:267-285 | adds the document and announces it to the watchers, or refuses; everything handed out before keeps its contents |
| FirestoreStore.Store.UpdateDocument | internal/firestore/store.go:290-332 | edits the masked fields in place, replaces all without a mask, or inserts, and announces that to the watchers; everything handed out before keeps its contents |
| FirestoreStore.Store.DeleteDocument | internal/firestore/store.go:335-346 | removes the document and announces that to the watchers, or does nothing |
| FirestoreStore.Store.ApplyMaskInPlace | internal/firestore/store.go:310-324 | after the loop every masked field is as in the input, or absent if the input lacks it, and every other field is as before |
| FirestoreStore.Store.EditOne | internal/firestore/store.go:310-324 | an in-place edit changes one document, because no two share a field map |
| FirestoreStore.Store.SnapshotDocuments | internal/firestore/store.go:208-228 | copies of exactly the covered documents, by ascending name |
| FirestoreStore.Store.ListDocuments | internal/firestore/store.go:352-378 | exactly the direct children of the collection, by ascending name |
| FirestoreStore.Store.ChangesSince | internal/firestore/store.go:179-203 | the events on the heap denote the value events of the history since the token |
| FirestoreStore.Store.RemoveWatcher | internal/firestore/store.go:119-126 | the watcher is gone and the others stay |
| FirestoreStore.Store.TakeEvent | internal/firestore/service.go:430-438 | the consumer takes the oldest event off its channel; the documents and the other watchers stay |
| FirestoreStore.Store.StreamIsWhatFitted | internal/firestore/store.go:131-152 | on the heap too, what a watcher was sent denotes the matching events of the history that its channel had room for |
| FirestoreStore.Store.LiveStreamConverges | internal/firestore/service.go:425-487 | what a watcher was sent that has missed nothing, applied on any view since its registration, gives the present view |
| FirestoreService.ResumeTokenRoundTrip | internal/firestore/store.go:155-168 | encoding and decoding are inverse between 64-bit numbers and 8-byte tokens, and other tokens are rejected |
| FirestoreService.FirstByteCountsMost | internal/firestore/store.go:155-168 | the bytes of a token are in big-endian order |
| FirestoreService.AddTarget | internal/firestore/service.go:400-502 | registers the watcher, then sends ADD, the replayed events or the snapshot, and CURRENT with the present token; targets without prefix and document are ignored |
| FirestoreService.ClientReplays | internal/firestore/service.go:540-563 | sent events do to a client's cache what replay does to a view |
| FirestoreService.ResumedClientIsCurrent | internal/firestore/service.go:452-470 | a client holding the view its token names is brought up to date by the resume |
| FirestoreService.FreshClientIsCurrent | internal/firestore/service.go:471-487 | a client with an empty cache is brought up to date by the snapshot |
| FirestoreReturn.ListenAnswers | internal/firestore/service.go:400-502 | what adding a target sends for the token of a past moment is the changes since, or a snapshot if they are no longer in the log or the token is 0 |
| FirestoreReturn.ReturningClientExact | internal/firestore/service.go:452-487 | a client that holds the view its token names and returns is brought up to date exactly when the log still has what it missed, or none of the documents it holds has gone |
| FirestoreReturn.DeletedDocumentStays | internal/firestore/service.go:471-487 | for any capacity: a document is deleted while its listener is away and the log fills up; the listener is refused, and keeps the document after the snapshot |
| FirestoreService.FirestoreServer.Commit | internal/firestore/service.go:252-283 | a known transaction, or none, applies all writes in order as one run of mutations, announces their events to the watchers and closes the transaction; an unknown one changes nothing |
| FirestoreService.LastWriteComesLast | internal/firestore/service.go:252-283 | the last write of a commit is applied to what the writes before it have made; a transform does nothing |
| FirestoreService.FirestoreServer.ApplyWrite | internal/firestore/service.go:308-331 | an update or a delete is one mutation, announced to the watchers, anything else none, and later writes keep their contents |
| PubSubState.ExecOk | internal/pubsub/store.go:83-487 | every operation keeps the invariant: equal key sets, an index that lists a subscription under its topic only, positive ack deadlines, ack IDs issued by the counter |
| PubSubState.QueueOpOk | internal/pubsub/store.go:291-430 | pulls and deadline changes add, lose or alter no message; acknowledging only removes |
| PubSubEffects.PublishMeans | internal/pubsub/store.go:235-280 | each input becomes, on every subscription the topic lists, a message under the next number, free to be delivered, with its content and the time of publishing; nothing else changes |
| PubSubEffects.PullMeans | internal/pubsub/store.go:319-326 | what a pull takes is available again exactly when more than the ack deadline has passed; nothing else changes |
| PubSubEffects.AvailableMeans | internal/pubsub/store.go:311 | a message is available exactly when it was not delivered or its deadline lies before now |
| PubSubEffects.PullAllMeans | internal/pubsub/store.go:400-430 | a push tick does the same to all that is available, and counts one attempt |
| PubSubEffects.AcknowledgeMeans | internal/pubsub/store.go:333-352 | the listed messages of the subscription go, all others stay as they are |
| PubSubEffects.CanForwardMeans | internal/pubsub/store.go:434-462 | a message can be dead-lettered exactly when it waits in a subscription whose dead-letter topic exists |
| PubSubEffects.CreateSubscriptionMeans | internal/pubsub/store.go:151-186 | a new subscription keeps its settings, a positive ack deadline included, has no messages and is listed by its topic |
| PubSubEffects.DeleteSubscriptionMeans | internal/pubsub/store.go:210-229 | the subscription goes with its messages and its place in the index |
| PubSubEffects.DeleteTopicMeans | internal/pubsub/store.go:125-147 | the topic goes; its subscriptions keep their messages and settings and get the mark of a deleted topic |
| PubSubEffects.CreateTopicMeans | internal/pubsub/store.go:83-101 | a new topic has its labels and no subscriptions; a taken name changes nothing |
| PubSubState.AckIDInjective | internal/pubsub/store.go:260 | an ack ID names one subscription and one number |
| PubSubState.PullTakesTheFirst | internal/pubsub/store.go:308-326 | a pull takes as many available messages as it may, those whose IDs come first as strings |
| PubSubOrder.FirstInFirstOutExactly | internal/pubsub/store.go:308-326 | pulls of any size hand out the available messages in the order of publication exactly when every two of them, scaled to one length, are in the order of their numbers |
| PubSubOrder.TheTenthComesFirst | internal/pubsub/store.go:235-352 | after ten publishes and eight acknowledgements, a pull of one message takes the tenth and leaves the ninth |
| PubSubIndex.IndexAgreesExactly | internal/pubsub/store.go:83-609 | in any run with restarts, a topic's index is the set of its subscriptions, unless it has the reserved name and a live subscription was left behind by a deleted topic or a restart; those are exactly the subscriptions that no publish reaches |
| PubSubState.ReservedNameBreaksTheIndex | internal/pubsub/store.go:135-140 | a topic of the reserved name may have subscriptions that its index does not list |
| PubSubState.LoadedOk | internal/pubsub/store.go:553-609 | whatever is on disk loads to a well-formed state with the same messages and, but for the reserved name, the same index |
| PubSubState.RestartRebuilds | internal/pubsub/store.go:509-609 | saving and loading gives the same state with attempts reset, exactly when no subscription is attached to a topic of the reserved name |
| PubSubIndex.RestartDropsASubscriber | internal/pubsub/store.go:568-587 | a subscription of a topic of the reserved name is reached by publishing, and after a restart no longer |
| PubSubRuns.RunOk | internal/pubsub/store.go:83-609 | over every run with restarts, memory stays well formed and the disk never lags by more than leases and attempts |
| PubSubRuns.PublishAllOn | internal/pubsub/store.go:235-280 | publishing gives every subscription of the topic all the inputs under new ack IDs, and nobody else anything |
| PubSubRuns.ForwardMovesOneMessage | internal/pubsub/store.go:434-487 | a forward takes one message off and gives a new copy to each subscription of the dead-letter topic, its own included; a refused one changes nothing |
| PubSubRuns.Conservation | internal/pubsub/store.go:235-487 | in any run with restarts, a queue is exactly what was enqueued less what was acknowledged or dead-lettered |
| PubSubRuns.ConservationFromTheStart | internal/pubsub/store.go:235-487 | the same from an empty store on |
| PubSubRuns.AckIDsNeverReused | internal/pubsub/store.go:247-274 | across deleted and re-created subscriptions, dead letters and restarts, no ack ID is given to two messages, and what waits under one is what it was issued for |
| PubSubRuns.StaleAckIsHarmless | internal/pubsub/store.go:333-352 | acknowledging an old ack ID, at any time on any subscription, can only remove the message it was issued for |
| PubSubLeases.LeaseHolds | internal/pubsub/store.go:291-430 | a leased message is not delivered before its deadline has passed, whatever else happens |
| PubSubLeases.DeliveriesAreApart | internal/pubsub/store.go:291-430 | two deliveries of one message without a change of its lease are more than the ack deadline apart, and that is positive |
| PubSubLeases.DeliveriesAreBounded | internal/pubsub/store.go:291-430 | within a time T a message is delivered at most T / D + 1 times, where D is the ack deadline |
| PubSubLeases.DeadlineChange | internal/pubsub/store.go:369-379 | a zero deadline makes a message available at once; another keeps a delivered one leased exactly until it has passed |
| PubSubPush.PushStepBounds | internal/pubsub/service.go:93-98 | each step of push delivery, and anything that goes on beside it, keeps the attempts of waiting messages within the limit |
| PubSubPush.PushIsBounded | internal/pubsub/service.go:84-136 | at the end of every tick, every message left has attempts to spare |
| PubSubPush.PushedMeans | internal/pubsub/service.go:123-136 | an accepted push acknowledges; a failed one leaves the message as it is while it has attempts left, and else forwards it |
| PubSubPush.DispatchedExactly | internal/pubsub/service.go:84-136 | a message that nobody else takes off stays while it has attempts left, each dispatch being one of them, and is gone only when all have been dispatched |
| PubSubPush.DispatchesAreBounded | internal/pubsub/service.go:84-136 | a message is dispatched at most as often as it has attempts left, and one yet to be published at most as often as the limit says |
| PubSubPush.PostsAreBounded | internal/pubsub/service.go:114-136 | a message is POSTed at most the attempt limit times the requests of one dispatch |
| PubSubPush.BoundedFromCreation | internal/pubsub/service.go:84-136 | from the creation of a subscription on, every tick leaves only messages with attempts to spare, and none is POSTed more than the attempt limit times the requests of one dispatch |
| PubSubLoop.RoundIsDisciplined | internal/pubsub/service.go:92-99 | a tick over any list of subscriptions pushes each message that it pulled once and no other, and ends with no push pending |
| PubSubLoop.LoopIsBounded | internal/pubsub/service.go:84-136 | over any run of ticks and of requests between them, no message is left with its attempts used up, and none is POSTed more than MaxDeliveryAttempts * (MaxRetries + 1) times |
| PubSubLoop.FailsExactly | internal/pubsub/service.go:84-136 | a message whose every push fails is dispatched exactly as often as its subscription allows, and is gone once as many ticks have come to it when it was free |
| PubSubStore.Store.constructor | internal/pubsub/store.go:67-79 | a persistent store opens in the state that a restart leads to |
| PubSubStore.Store.Load | internal/pubsub/store.go:553-609 | the loops over records in any order rebuild topics, subscriptions, index, queues and counter |
| PubSubStore.Store.Persist | internal/pubsub/store.go:509-551 | the loops write every topic, subscription and message once each into the file |
| PubSubStore.Store.CreateTopic | internal/pubsub/store.go:83-101 | adds the topic with an empty index entry, or refuses |
| PubSubStore.Store.DeleteTopic | internal/pubsub/store.go:125-147 | removes the topic and marks its subscriptions in place, or refuses |
| PubSubStore.Store.CreateSubscription | internal/pubsub/store.go:151-186 | adds the subscription with defaults and an empty queue, or refuses |
| PubSubStore.Store.DeleteSubscription | internal/pubsub/store.go:210-229 | removes subscription, queue and index entry, or refuses |
| PubSubStore.Store.Publish | internal/pubsub/store.go:235-280 | the nested loops enqueue a new record for every recipient and input; the i-th returned ID is the next number and names the message of the i-th input on every recipient |
| PubSubStore.Store.Pull | internal/pubsub/store.go:291-330 | marks the pulled records in place and returns those very records, in order |
| PubSubStore.Store.Acknowledge | internal/pubsub/store.go:333-352 | removes the listed records of one subscription and no others |
| PubSubStore.Store.ModifyAckDeadline | internal/pubsub/store.go:355-383 | moves the deadlines of the listed records in place; zero makes them available at once |
| PubSubStore.Store.PushSubscriptions | internal/pubsub/store.go:386-396 | exactly the subscriptions with a push endpoint, once each |
| PubSubStore.Store.PullAllUndelivered | internal/pubsub/store.go:400-430 | marks every available record, counts an attempt for it, and writes nothing to disk |
| PubSubStore.Store.ForwardToDeadLetter | internal/pubsub/store.go:434-487 | moves the message as the abstract forward does, and leaves every other record in place |
| PubSubService.Service.PushMessage | internal/pubsub/service.go:114-136 | a message is acknowledged exactly when some allowed attempt is accepted; another is dead-lettered when its attempts are used up and else left; the number of requests is what the endpoint's answers make it |
| PubSubService.Service.PushTick | internal/pubsub/service.go:92-99 | a tick does exactly the steps of the loop: each push subscription is pulled once, and each message pulled is pushed once, in order; it leaves no waiting message of a dead-lettering subscription without attempts |
| Dispatch.Dispatch | internal/dispatch/dispatcher.go:74-123 | reports the verdict on the first attempt that is not retried, or that all were used up; makes the requests of the next row, and starts a timer, of the length the backoff says, before each later attempt it reaches |
| Dispatch.Posts | internal/dispatch/dispatcher.go:74-123 | the number of requests: one for each allowed attempt that is reached, whose wait is not cancelled and whose request can be built |
| Dispatch.SucceedsExactly | internal/dispatch/dispatcher.go:74-123 | succeeds exactly when some allowed attempt is accepted after only retried ones, and reports its number and status |
| Dispatch.RetriedMeans | internal/dispatch/dispatcher.go:79-117 | an attempt is retried exactly when it was not cut short and brought no response or one outside 2xx |
| Dispatch.ReportCounts | internal/dispatch/dispatcher.go:74-123 | the report counts the requests made, and the one that could not be built if that ended it, and has the status of the last response |
| Dispatch.BackoffCapped | internal/dispatch/dispatcher.go:85-88 | every wait but the first is capped, whatever the multiplier |
| Dispatch.BackoffClosedForm | internal/dispatch/dispatcher.go:76-88 | with a whole multiplier the waits are the geometric series up to the cap |
| CloudTasksState.ComputeBackoff | internal/cloudtasks/store.go:282-288 | the doubling loop computes the capped value of the 64-bit wrapped exponential |
| CloudTasksState.BackoffMeans | internal/cloudtasks/store.go:282-288 | the first retry waits the minimum, each further attempt doubles that as often as the queue allows, and the maximum caps it |
| CloudTasksState.BackoffExact | internal/cloudtasks/store.go:282-288 | all waits up to a count are the capped exponential exactly when the exponential of that count fits into 64 bits |
| CloudTasksState.BackoffNeverWraps | internal/cloudtasks/store.go:275-288 | no retry of a queue waits a wrapped time, and all wait a positive one, exactly when the exponential of its last retry, the one before MaxAttempts, fits into 64 bits |
| CloudTasksState.BackoffMonotone | internal/cloudtasks/store.go:282-288 | without wrapping, the wait does not shrink with the number of attempts |
| CloudTasksState.BackoffWraps | internal/cloudtasks/store.go:282-288 | after 35 attempts with enough doublings the wait is negative |
| CloudTasksState.ExecOk | internal/cloudtasks/store.go:69-293 | every operation, stale completions and retries included, keeps equal key sets and the attempts within the limit |
| CloudTasksState.ReachableStates | internal/cloudtasks/store.go:262-293 | in every reachable state a retry finds the queue of the task it finds, pending tasks have attempts left, and dispatching ones 1 to MaxAttempts |
| CloudTasksAttempts.RetryMeans | internal/cloudtasks/store.go:263-293 | a retry puts a task with attempts left back unchanged, as pending, scheduled for now plus its backoff, and drops any other; other tasks stay |
| CloudTasksAttempts.PollMeans | internal/cloudtasks/store.go:233-250 | a poll marks exactly the pending tasks whose time has come, and counts one attempt of each |
| CloudTasksAttempts.CreateQueueMeans | internal/cloudtasks/store.go:69-97 | a new queue keeps its positive settings and gets defaults for the others |
| CloudTasksAttempts.CreateTaskMeans | internal/cloudtasks/store.go:148-185 | a new task carries its request, with POST for no method, is pending without attempts, and waits for its schedule time or none |
| CloudTasksAttempts.TriesAreCounted | internal/cloudtasks/store.go:233-293 | in any run in which nobody removes it, a task counts every dispatch, and is gone only after as many as its queue allows |
| CloudTasksAttempts.TriedExactly | internal/cloudtasks/service.go:84-115 | a task whose every dispatch fails and is retried, and which is polled in time, is dispatched exactly MaxAttempts times and then gone, whatever else goes on |
| CloudTasksRuns.RankFalls | internal/cloudtasks/store.go:121-293 | every dispatch, removal and retry of a dispatching task lowers the rank by at least one |
| CloudTasksRuns.Drain | internal/cloudtasks/store.go:69-293 | in any run, the dispatches, removals and retries are no more than the starting rank and what new tasks add |
| CloudTasksRuns.DispatchesAreBounded | internal/cloudtasks/store.go:233-293 | a task is dispatched at most as often as it has attempts left |
| CloudTasksRuns.NewTaskIsDue | internal/cloudtasks/store.go:164-181 | a new task is dispatched by a poll exactly from its schedule time on, or its creation if it has none |
| CloudTasksRuns.RetriedTaskWaits | internal/cloudtasks/store.go:281-290 | a retried task is not dispatched before the retry time plus its backoff, even with stale retries |
| CloudTasksStore.Store.CreateQueue | internal/cloudtasks/store.go:69-97 | adds the queue with defaults, or refuses |
| CloudTasksStore.Store.DeleteQueue | internal/cloudtasks/store.go:121-132 | removes the queue with its tasks, or refuses |
| CloudTasksStore.Store.PurgeQueue | internal/cloudtasks/store.go:134-144 | removes the tasks and keeps the queue |
| CloudTasksStore.Store.CreateTask | internal/cloudtasks/store.go:148-185 | names, defaults and refusals, the counter moving even when the name is taken |
| CloudTasksStore.Store.GetTask | internal/cloudtasks/store.go:187-199 | a copy of the record |
| CloudTasksStore.Store.DeleteTask | internal/cloudtasks/store.go:216-229 | removes the task, or reports that there is none |
| CloudTasksStore.Store.DueTasks | internal/cloudtasks/store.go:233-250 | the nested loops mark every due record in place and return a copy of each once |
| CloudTasksStore.Store.CompleteTask | internal/cloudtasks/store.go:253-260 | removes the task if it is there |
| CloudTasksStore.Store.RetryTask | internal/cloudtasks/store.go:263-293 | puts the record back with its backoff and returns true exactly when the task is there with attempts left; drops it when they are used up |
| CloudTasksService.Service.DispatchTask | internal/cloudtasks/service.go:101-115 | one POST, or none if it cannot be built; a task accepted at that is completed, any other retried |
| CloudTasksService.NameLeadsToQueue | internal/cloudtasks/service.go:337-344 | a task is found by its name exactly when `/tasks/` does not start before the end of the queue name |
| CloudTasksService.NestedNameIsLost | internal/cloudtasks/service.go:337-344 | a queue with `/tasks/` in its name hides its automatically named tasks |
| GcsListing.ShownMeans | internal/gcs/store.go:265-283 | a listing shows exactly the names that continue the prefix without the delimiter in what follows |
| GcsListing.FoldedMeans | internal/gcs/store.go:270-279 | it folds a name into the prefix and what leads up to the first delimiter behind it, that included |
| GcsListing.PrefixesGrow | internal/gcs/store.go:270-279 | a pseudo-directory is longer than its prefix and no longer than the object name |
| GcsListing.UnderCommonPrefix | internal/gcs/store.go:270-279 | the names under a pseudo-directory are exactly those that were folded into it |
| GcsListing.SiblingsApart | internal/gcs/store.go:291-295 | no pseudo-directory of a listing is a prefix of another |
| GcsListing.ListingPartitions | internal/gcs/store.go:265-283 | each name under the prefix is shown, or is under exactly one pseudo-directory |
| GcsStore.Store.ListObjects | internal/gcs/store.go:253-298 | the shown objects by name, of which a positive limit keeps that many from the front, and all pseudo-directories in order; nothing for an unknown bucket |
| GcsStore.Store.Walk | internal/gcs/store.go:253-298 | listing a prefix and recursively its pseudo-directories ends, and visits each object under the prefix once and no other, for any non-empty delimiter |
| GcsStore.Store.PutObject | internal/gcs/store.go:151-184 | stores the object under its name with metadata that are true of its content, or refuses an unknown bucket |
| GcsStore.Store.CopyObject | internal/gcs/store.go:218-250 | stores a copy under the new name, whose metadata are true of it and new where they must be, or changes nothing |
| GcsStore.Store.DeleteObject | internal/gcs/store.go:201-216 | removes the object, or reports that there is none |
| GcsStore.Store.CreateBucket | internal/gcs/store.go:88-111 | adds an empty bucket with its record, or refuses |
| GcsStore.Store.DeleteBucket | internal/gcs/store.go:132-147 | removes an empty bucket; refuses others |
| SecretManagerState.RunKeepsLog | internal/secretmanager/store.go:51-404 | over any run with restarts, the versions are the payloads added, numbered in order; destroyed ones have none and the others keep their bytes |
| SecretManagerState.ScanIsIndex | internal/secretmanager/store.go:171-178 | scanning for the number of a version finds that version exactly as long as the number fits into 32 bits |
| SecretManagerState.LatestIsLast | internal/secretmanager/store.go:166-169 | "latest" is the version added last, and the scan for the length agrees exactly as long as it fits into 32 bits |
| SecretManagerState.AccessYieldsWhatWasAdded | internal/secretmanager/store.go:195-212 | in any run, accessing the n-th version yields the bytes added n-th, and fails exactly when it is not enabled |
| SecretManagerFate.AddedIsAccessible | internal/secretmanager/store.go:122-152 | right after an addition, "latest" yields what was added |
| SecretManagerFate.AddMeans | internal/secretmanager/store.go:122-152 | an addition appends one enabled version with the payload and the next number, and changes no other |
| SecretManagerFate.CreateMeans | internal/secretmanager/store.go:51-78 | a new secret has its labels and no versions; a taken name changes nothing |
| SecretManagerFate.ChangeMeans | internal/secretmanager/store.go:232-284 | enabling, disabling and destroying change one version, the one looked up; destroying notes the time and drops the payload |
| SecretManagerFate.AccessIsDecidedByEvents | internal/secretmanager/store.go:51-404 | in any run with restarts, the n-th version, n within 32 bits, yields its payload exactly when no destroy has hit it and the last enable or disable that hit it, if any, was an enable |
| SecretManagerState.EnableUndoesDisable | internal/secretmanager/store.go:232-267 | disabling bars access, and enabling again restores the store |
| SecretManagerState.DestroyedIsFinal | internal/secretmanager/store.go:241-276 | a destroyed version cannot be accessed, enabled or disabled |
| SecretManagerState.RunExtends | internal/secretmanager/store.go:122-284 | a secret's log only grows, and a destroyed version stays destroyed and empty |
| SecretManagerState.RestartIsInvisible | internal/secretmanager/store.go:308-404 | no access can tell that the store was restarted |
| SecretManagerState.ReloadIdempotent | internal/secretmanager/store.go:308-404 | a second restart changes nothing more |
| SecretManagerFate.ReloadIsIdentityExactly | internal/secretmanager/store.go:308-404 | a restart gives the same state back exactly when no version has an empty payload or was destroyed at time zero; names, times, labels, states, numbers and bytes are always kept |
| SecretManagerStore.Store.constructor | internal/secretmanager/store.go:39-48 | a persistent store opens in the state that a restart leads to |
| SecretManagerStore.Store.Load | internal/secretmanager/store.go:348-404 | the loops over records in any order rebuild every secret and its versions in order |
| SecretManagerStore.Store.Persist | internal/secretmanager/store.go:308-346 | the loops write every secret once, with its versions in order |
| SecretManagerStore.Store.CreateSecret | internal/secretmanager/store.go:51-78 | adds a secret without versions, or refuses |
| SecretManagerStore.Store.DeleteSecret | internal/secretmanager/store.go:109-119 | removes the secret with its versions |
| SecretManagerStore.Store.AddSecretVersion | internal/secretmanager/store.go:122-152 | appends an enabled version with the next number and the payload, which "latest" then yields |
| SecretManagerStore.Store.ResolveVersion | internal/secretmanager/store.go:156-179 | the scan returns the very record that the lookup names, or nothing |
| SecretManagerStore.Store.AccessSecretVersion | internal/secretmanager/store.go:195-212 | the payload of an enabled version, or why there is none |
| SecretManagerStore.Store.EnableSecretVersion | internal/secretmanager/store.go:232-248 | sets one version's state in place, unless it is destroyed |
| SecretManagerStore.Store.DisableSecretVersion | internal/secretmanager/store.go:251-267 | sets one version's state in place, unless it is destroyed |
| SecretManagerStore.Store.DestroySecretVersion | internal/secretmanager/store.go:270-284 | marks one version destroyed, clears its payload, and touches no other |

## Left out

- gRPC and HTTP serving, interceptors, the command line, logging and ports: input and output without a property of the stores.
- JSON, base64 and file writes inside persist and load: the codec is the identity on the persisted records; a corrupt file is not modelled.
- Firestore persistence: it goes through protojson and reads the map without its lock.
- Interleavings of a Firestore mutation's sub-steps, and of mutations with the sub-steps of adding a target: the code does not order them; the late token is treated separately.
- Several targets on one Listen stream, target IDs reused between streams, and tokens of an earlier process: events are tagged with every target of the stream, and the sequence starts again at zero.
- FirestoreStore.Store.CreateDocument: asks that the caller does not share the field map it hands over, which the store keeps; the same holds for updates and commits.
- FirestoreStore.Store.ListDocuments: promises no isolation, because the code returns the store's own field maps.
- FirestoreQuery.RepeatedSources: a tree with OR may merge repeated documents; for it, only membership is stated (`FilteredMeansHolds`).
- FirestoreQuery.ExecuteQuery: limits are not negative, since the slice expression would fail on one.
- Dotted update masks are literal keys, as in the code, and are not related to the dotted paths of queries.
- The sort library is modelled by an insertion sort for documents and by repeated selection for distinct strings; uniqueness of the sorted result is proved.
- Binary64.RoundsToNearestEven: covers the conversion of integers; other floating-point operations are not used by the comparison.
- Dispatch.BackoffClosedForm: computes backoff times multiplier in the reals, without the rounding of the product to a double.
- The Pub/Sub message counter is unbounded (64 bits in the code), and so is DeliveryAttempt (32 bits).
- Topics and the payload of a message are values; the code shares them by reference but never changes them. Field values of documents are values too.
- PubSubService.Service.PushTick: is taken as one step; what comes in during a tick is covered by `BoundedFromCreation`, which allows any other operation between two steps of the loop.
- PubSubPush.PushIsBounded: attempts are reset by a restart, so the bound is for runs without one.
- Cloud Tasks persistence: tasks saved as dispatching stay so and the name counter is not saved, so nothing is claimed across restarts.
- CloudTasksService.Service.DispatchTask: the goroutines of one poll are not modelled; runs allow completions and retries in any order and at any time instead.
- ResponseCount of tasks, and the constant fields of buckets and objects: never read by the logic. Digests of contents are arbitrary functions, and a bucket's etag is a parameter.
- Listing of topics, subscriptions, queues, tasks, buckets, secrets and versions by prefix: only easy members.
- SecretManagerState.AccessYieldsWhatWasAdded: is for version numbers that fit into 32 bits; beyond, the scan fails as stated for ScanIsIndex.
- KMS, Vertex AI, Cloud Run, Cloud Logging, the Docker orchestrator and authentication: foreign calls or thin translation.
