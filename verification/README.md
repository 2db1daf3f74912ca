# OpenVibe.Events in Dafny

A model of the durable event bus OpenVibe.Events, and proofs about it. The bus accepts events over HTTP, gives each a
position in one numbered log, fans deliveries out to subscriptions, moves old events from a hot table to a replay table and
from there to monthly objects, and lets readers resume from opaque cursors by pull or by a realtime stream.

`dafny verify dfyconfig.toml` checks everything.

## How it is modelled

A table is a map from primary key to row. A SQL transaction is one function from table contents to table contents, and the
class that owns the tables has a method with the source's loops that is proved equal to that function. A run is a sequence of
such steps by any number of publishers, workers, carriers, readers and operators; the main theorems hold of every run.
Between two statements of a reader any transactions may run.

The predicates that decide (which row may be claimed, who owns an event, what a subscription, a reader or a viewer may have) are
written twice: as the code computes them, and in the columns of the tables in the `Rules` modules and `ReadyRows`, where the
results of runs are stated without them.

| files | what they hold |
|---|---|
| `Deliveries`, `DeliverySafety`, `DeliveryOrder`, `DeliveryProgress`, `DeliveryReplay`, `DeliveryCaps` | the delivery lease protocol as a state machine: caps and per-key exclusion, order per key and what a replay does to it, no stranded row, retries end |
| `ClaimRanking`, `ReadyRows`, `DeliveryStore`, `ClaimRules`, `Worker` | the claim pass with its ranking and limits, the targeted claim, results, requeue; when a row is leased, in columns; the retry ladder and the dispatch loop's slots |
| `Archive`, `ArchiveColumns`, `Redaction`, `Envelopes`, `EventLog`, `EventStore` | rows of both tiers, the directive parser, validated envelopes, publish, redaction, the tier move and retention as functions and as methods |
| `PublishProofs`, `PublishRules`, `RepeatProofs`, `RedactionProofs`, `TierProofs`, `LoopGuard`, `LoopChains`, `Retention` | what publishing, redaction, moving, the loop guard and a prune guarantee over whole runs |
| `Topics`, `PatternRules`, `Apps` | topic patterns, their compiled expression and ILIKE form; what a developer app may name and receive |
| `Cursor`, `Scan`, `ReadRules`, `StoreReads`, `Pull`, `PullFeed` | cursors, the paged scan over both tiers, pulls and their gaps, repeated pulls |
| `Realtime`, `RealtimeRun`, `StreamRules`, `RealtimeStore` | the stream's catch-up, interleaved with commits and announcements, whom its events reach, and over runs of the store |
| `NatsFrames`, `NatsRequests` | the incremental frame reader and request and reply matching of the NATS client |
| `OrderedInbox`, `SubjectKeys` | the consumer's ordered inbox and its keys |
| `MonthArchive`, `MonthProofs` | the month export and restore |

Assumptions. Each SQL transaction is atomic and positions are handed out in commit order. A claim's `now` is never ahead of
the clock of the run. `locked` sets stand for rows that SKIP LOCKED passes over. Hashes are injective; gzip and JSON are
inverse pairs. Newly stored rows are announced to the realtime streams in position order.

## Where the code does not keep what its text promises

Each has a lemma that shows it fail, on one input or on a whole family, and beside it what the code does keep.

- The scan reads the head after its last page (`server/store.js:470`). A row committed between the two is passed by the
  cursor and never returned (`Scan.HeadReadLosesARow`); a scan misses a row exactly then (`Scan.ScanLosesIff`).
- The realtime handler says the rows that waited skip what the replay sent (`server/realtime.js:170-171`). A row committed
  after the head was read and before the scan is sent twice (`RealtimeRun.ReplayedAndSentAgain`); how often each event is sent,
  by when it was committed, is `RealtimeRun.SentByCommitTime`.
- The owner check of a result names a worker, not a claim (`server/store.js:644-647`). A late result of the same worker's
  earlier claim passes it (`DeliveryProgress.LateResultOfSameWorker`). After a claim every recorded result of the row uses up an attempt,
  in every continuation without new overlaps, exactly when no send of the row by that worker with a lower count is still under way
  (`DeliveryProgress.ResultsCountIff`); retries end in runs where a worker's send of a row is over before it claims the row again
  (`DeliveryProgress.RetriesEnd`).
- Requeue puts a delivered row back in front of later delivered ones of its key (`DeliveryOrder.ReplayGoesBack`) and leaves the lease
  columns as they are. A replay keeps what is still open behind the claims made so far exactly when none of its events stands, by its
  stored key and position, behind a claimed one of its key (`DeliveryOrder.ReplayKeepsOrderIff`), and only then is no later claim out of
  order (`DeliveryReplay.ReplayIsSafeIff`). Order per key is proved for all runs whose replays meet that; caps and exclusion for all runs.
- The worker's text promises at most `maxInflight` sends overall (`server/worker.js:19`). The carrier path starts sends that no slot
  counts. At most `maxInflight` and one for each consuming carrier are under way, some run reaches that (`Worker.MostSends`), and the
  promise holds of every run exactly when no carrier consumes (`Worker.LimitIsOverallIff`); the dispatch loop itself keeps both of its
  limits (`Worker.DispatchKeepsItsLimits`).
- The loop guard is to bound how deep services answer one another in a trace, but its queries count hot rows only
  (`server/store.js:139-143`). Once a row is moved to the replay tier by age the count starts again: two retained events of one trace and
  different sources with one hop each, under a limit of one (`LoopChains.MovedRowsAreNotCounted`). Over both tiers the bound holds of
  every run in which the moved rows of a trace are covered by hot ones whenever a first party publishes into it
  (`LoopChains.ChainsAreBounded`), so of every run that moves no first-party row of a trace before the trace's last publish
  (`LoopChains.OverIsCovered`), and the condition is exact (`LoopChains.StaysRisingIff`). Over the hot tier alone it holds of every run
  (`LoopGuard.HotChainsAreBounded`).
- App events do not change how a first-party publish is judged, unless it redacts: a directive that names an app's event by id is refused
  (`LoopGuard.NamedAppEventRefuses`). Acceptance agrees exactly as `LoopGuard.AppsDoNotMatter` says.
- An export deletes a row when its redaction marker did not move (`scripts/events-archive.js:117-126`). That tells every change the store
  can make, unless another event is published under an exported id and then moved to the replay tier (`MonthProofs.DeletedAsStored`); the
  export would then delete a row it never stored (`MonthProofs.ForgottenRowIsLost`). It takes a prune that forgets the id, with the row past
  the replay retention and the receipt past its own (`MonthProofs.PruneForgetsIff`), and an export that goes on for longer than the hot
  retention. While the ids are remembered (`MonthProofs.RememberedIsKept`), or when the export is shorter than that retention
  (`MonthProofs.ShortExportIsKept`), it cannot happen.
- `README.md:115` of the repository and `server/worker.js:19` say one delivery per subscription is in flight. That holds of every run
  exactly for a `max_inflight` of at most one, its default (`DeliveryCaps.OneInFlightIff`, with two live leases under any higher cap).
- `server/topics.js:39` says ILIKE compares exactly. It ignores case: it is the exact comparison of the text in lower case
  (`Topics.ILikeFolds`), so a capital letter alone tells the two apart and on lower-case texts, which event types are, they agree
  (`Topics.ILikeIsExactOnLower`).
- Over its line limit the NATS reader depends on how the stream is cut (`NatsFrames.LongLinesDependOnTheCut`): no way of cutting a stream
  destroys the connection exactly when every line of it is shorter than `MAX_LINE` (`NatsFrames.LinesFitIff`). A MSG line whose last word
  Number() reads as NaN is a state the loop cannot leave (`Jam`).
- When the store is empty as a pull reads its oldest position, an event committed before the head is read lies in the
  reported gap (`Pull.GapHidesIff`); otherwise a gap holds no event. What repeated pulls lack is exactly what their gaps or their head
  reads passed (`PullFeed.PullsMissExactly`).

## Model

| member | source | states |
|---|---|---|
| DeliverySafety.EveryRunIsSafe | server/store.js:539-633 | in every reachable state of every interleaving of fan-out, poll and targeted claims (lost, repeated or forged signals), results, expiry, requeue and prune, live leases stay within max_inflight and each key has at most one |
| DeliverySafety.LiveLeaseIsExclusive | server/store.js:579-581 | a live lease ends only by its holder's result, by expiry or with its row |
| DeliverySafety.LeaseKeepsCaps | server/store.js:577-581 | a claim whose clock lags still leaves the subscription within its cap at the true time |
| DeliveryOrder.EveryRunIsOrdered | server/store.js:546-553 | in runs without requeue a keyed row is touched only when every earlier row of its key is delivered or dead |
| DeliveryOrder.ClaimsFollowPublishOrder | server/store.js:546-553 | in every run whose replays take no event back behind a claim of its key, the claims of one subscription and key, over all workers and expiries, come in publish order |
| DeliveryOrder.FinishedIsFinal | server/store.js:546-553 | without requeue, delivered and dead rows never change again |
| DeliveryOrder.ReplayGoesBack | server/store.js:703-706 | a legal run with a requeue whose claims of a key go backwards |
| DeliveryOrder.ReplayKeepsOrderIff | server/store.js:703-718 | a requeue leaves all open rows behind the claims of their key exactly when no requeued event stands, by its stored key and position, behind one |
| DeliveryReplay.ReplayIsSafeIff | server/store.js:689-718 | from any state reached in order: no claim after a requeue can go back behind an earlier one of its key, in any continuation, if and only if no requeued event stands behind a claim of its key; an operator can check that first |
| DeliveryProgress.NothingIsStranded | server/store.js:546-555 | in every reachable state any open row of an enabled subscription has, once due times and leases pass, a claimable row of its key no later than it |
| DeliveryProgress.EveryOpenRowIsDue | server/store.js:659-662 | every pending or failed row has a due time in every reachable state |
| DeliveryProgress.RunStaysRetryable | server/worker.js:107-126 | pending or failed implies attempts left, in every run where a send ends before the same worker claims the row again |
| DeliveryProgress.RetriesEnd | server/store.js:640-665 | between requeues a row takes no more recorded results than it has attempts left |
| DeliveryProgress.LateResultOfSameWorker | server/store.js:644-647 | a legal run in which a late result of the same worker passes the owner check and the attempt count stands still |
| DeliveryProgress.LostLeaseChangesNothing | server/store.js:644-647 | a result after the lease was taken over changes no row |
| DeliveryProgress.ResultsCountIff | server/store.js:640-665 | after a claim every continuation without new overlapping claims, requeue or prune spends an attempt with each recorded result of the row, if and only if no send of it by the same worker with a lower count is under way |
| DeliveryCaps.OneInFlightIff | server/store.js:577-581 | every legal run keeps at most one live lease of a subscription if and only if its max_inflight is at most one |
| ClaimRules.LeasedIff | server/store.js:539-633 | in any state of any run a step gives a row a lease exactly when it is a claim that finds the row pending or failed, due by its clock, unleased and first of its key, in a subscription that is enabled, unlocked and under its cap; it changes owner and lease only |
| ClaimRules.RetryWaits | server/store.js:640-665 | after a failure recorded with a retry time no continuation that neither queues the row again nor removes it leases it before that time |
| ClaimRules.PicksAreFirst | server/store.js:555-596 | no ready row without a key that a pass left in a subscription goes, by priority and then position, before one it claimed there |
| ClaimRules.PassLeavesNothing | server/store.js:555-598 | a pass below its limits leaves no ready row in a subscription that is enabled, unlocked and under its cap |
| ClaimRules.PassedOverForEarlier | server/store.js:557-571 | a first-party subscription with a ready row is passed over only for ones that have a ready row no later by priority and position |
| ClaimRules.RequeueIsExact | server/store.js:703-718 | a requeue makes the rows of exactly the named events pending, without attempts and due at once, with key, position, priority and lease as they were, and changes no other row |
| DeliveryStore.Store.ClaimDeliveries | server/store.js:539-598 | one claim pass does what `DeliveryStore.Pass` says: distinct picks, within limit and app share, each the best claimable row of its subscription, work-conserving, and no first-party subscription passed over by rank; each pick was pending or failed, due, under no lease and first of its key (`ReadyRows.Ready`), in an enabled unlocked subscription under its cap |
| DeliveryStore.Candidates | server/store.js:557-569 | the candidate query: the best-ranked eligible unlocked subscriptions of one kind, each with its best row |
| DeliveryStore.Ranked | server/store.js:560-569 | ordering and limit: sorted, distinct, and nothing left out ranks before what is in |
| DeliveryStore.Merge | server/store.js:570-571 | first-party and app candidates in one list by rank, none lost |
| DeliveryStore.Store.ServeOne | server/store.js:582-596 | one subscription is served its best rows in turn until its budget, its cap or its claimable rows end |
| DeliveryStore.PassIsARun | server/store.js:539-598 | a claim pass is a run of single claims of the state machine, so all that holds of runs holds of it |
| DeliveryStore.PassKeepsCapsAndKeys | server/store.js:556-597 | a whole claim pass, wherever in a run it comes, keeps every cap and every exclusion per key |
| ClaimRanking.PicksAreDistinct | server/store.js:582-596 | rows leased one after the other in a pass are distinct |
| ClaimRanking.OthersDoNotMatter | server/store.js:555-581 | leasing rows of other subscriptions changes nothing a subscription's claim looks at |
| DeliveryStore.Store.ClaimDelivery | server/store.js:607-633 | the targeted claim takes its row exactly when the row is pending or failed, due, under no lease and first of its key with none of the key under a lease (`ReadyRows.Ready`), and its subscription is enabled, unlocked and under its cap |
| DeliveryStore.Store.RecordAttempt | server/store.js:640-665 | a result is written, and the lease given up, only while its worker holds the row |
| DeliveryStore.Store.QueueAgain | server/store.js:703-718 | requeue resets status, attempts and due time of each event's row and keeps its key, position and lease |
| Worker.PolicyOf | server/worker.js:59-66 | the policy in force is usable: at least one attempt and a step of back-off; stored attempts of 1 to 20 and stored steps of 0 to 86400000 ms are the ones in force |
| Worker.OutcomeIff | server/worker.js:104-126 | an answer delivers exactly when it is a 2xx, kills exactly when it is a permanent failure, the row is sent at most once or the attempts are used up, and is else due after the attempt's step |
| Worker.Ladder | server/worker.js:107-126 | failure n below the limit is due after backoff[min(n, length) - 1], and the last allowed one is dead for good |
| Worker.DispatchKeepsItsLimits | server/worker.js:142-177 | whatever passes, answers, ends, stops and carrier sends interleave, the loop keeps maxInflight and maxAppInflight |
| Worker.PassIsPossible | server/worker.js:155-161 | what the store's claim pass answers to the room and app share asked for always fits the free slots |
| Worker.MostSends | server/worker.js:215-216 | slots and carrier sends together are at most maxInflight plus one for each consuming carrier, and some run reaches that |
| Worker.LimitIsOverallIff | server/worker.js:19-20 | at most maxInflight sends overall holds of every run exactly when no carrier consumes |
| Worker.DispatchLoop.Dispatch | server/worker.js:142-162 | one pass at a time; a call during a pass queues one more; a pass asks for the free room and the apps' share of it |
| Worker.DispatchLoop.Claimed | server/worker.js:160-177 | every claimed delivery takes a slot, and a queued pass begins |
| Topics.MatchesIffSelects | server/topics.js:17-34 | the compiled expression matches exactly when every `*` can stand for one or more whole segments |
| Topics.LikeIsASuperset | server/topics.js:41-44 | the ILIKE form accepts everything the pattern matches |
| Topics.ILikeFolds | server/topics.js:36-44 | with a lower-case pattern ILIKE is the exact comparison of the text in lower case |
| Topics.ILikeIsExactOnLower | server/topics.js:36-44 | on lower-case texts ILIKE and the exact comparison agree; a capital letter alone tells them apart |
| PatternRules.ILikeIsGlob | server/topics.js:36-44 | on lower-case texts the ILIKE form of a valid pattern selects exactly what the pattern does with a star standing for any text, dots included |
| Topics.Compiler.Compile | server/topics.js:21-30 | the memo never changes what a pattern compiles to |
| PatternRules.ValidIff | server/topics.js:14-20 | a pattern is valid exactly when it has 1 to 200 characters and its segments are words of a-z, 0-9 and _ or `*`, no two `*` side by side |
| PatternRules.AllowedIff | server/apps.js:69-80 | an app may name a pattern exactly when it is valid and matches no app type outside the app's own project |
| Apps.AllowedPatternsStayInProject | server/apps.js:74-80 | an allowed pattern matches app types of its own project only |
| Apps.WildcardWouldLeave | server/apps.js:77-77 | why a leading wildcard is refused |
| Apps.DeliveriesStayInScope | server/apps.js:83-101 | a subscription receives only types its pattern selects; a first-party one only production events, an app's only its own project's in its environment or public production ones (both directions: `PublishRules.ReceivedIff`) |
| Apps.WildcardsSkipApps | server/apps.js:89-93 | a first-party pattern receives app events only when it starts with app. |
| Redaction.AcceptedIsWellFormed | server/redaction.js:34-60 | what the parser accepts names something, with distinct ids of the right shape, at most 1000 of each |
| Redaction.DirectiveRoundTrip | server/redaction.js:34-60 | every well-formed directive can be written and is read back as it is |
| Redaction.ParsedIff | server/redaction.js:34-60 | exactly which payloads ask for a redaction, field by field, and that the directive read names exactly the ids they list |
| PublishProofs.EveryRunIsConsistent | server/store.js:186-317 | in every run of publishes, redactions, moves and prunes an id is in one tier once, a position names one event and deliveries follow their events |
| PublishProofs.PositionsAreHandedOutInOrder | server/store.js:242-245 | one batch hands out the next positions in item order |
| PublishProofs.StoresIff | server/store.js:202-213 | an accepted publish stores a row exactly when its id is in neither tier and has no receipt |
| PublishProofs.RepeatChangesNothing | server/store.js:202-213 | publishing a remembered batch again changes no table and answers the positions now stored, or pruned |
| PublishProofs.StillRemembered | server/store.js:202-213 | one step that leaves an event its row or its receipt leaves it remembered |
| RepeatProofs.RunHolds | server/store.js:202-213 | through any run of publishes, redactions, moves and prunes that keeps its row or its receipt, an event stays at the position it was answered with, or is gone with its receipt kept |
| RepeatProofs.RepeatsAnswerAlike | server/store.js:202-213 | a batch published again after any such run changes no table and answers, event by event, the positions of the first time, or pruned |
| RepeatProofs.PositionsRise | server/store.js:242-245 | the positions of all batches of a run strictly increase, whatever is moved, redacted or pruned in between |
| PublishProofs.FanOutIsExact | server/store.js:284-294 | a new event gets one pending delivery, with its position and key, for exactly the enabled subscriptions `Apps.Deliverable` lets it to (in columns: `PublishRules.ReceivedIff`), and no other delivery changes |
| PublishRules.ReceivedIff | server/store.js:284-294 | a new event has a delivery for a subscription exactly when the subscription is enabled, its pattern selects the type segment by segment, and: a first-party one, the event is first-party, or a production app event and the pattern starts with app.; an app's one, the event is its own project's in its environment, or first-party and public; the delivery is pending, due at once, under no lease |
| PublishRules.RefusedIff | server/store.js:200-287 | exactly which publishes are refused and with what: a stored id of another source or type, a trace too deep or said too often, a malformed directive, or one that names a stored event of another source, project or environment; all in columns |
| PublishRules.StoredAsPublished | server/store.js:242-275 | a newly stored event reads back as the envelope that was published, at the next position, of its publisher's project and environment, received now, with its receipt |
| EventStore.Store.InsertBatch | server/store.js:186-317 | a batch is stored as the publish function says or leaves no trace, and the rows kept in memory are the stored rows of its new positions, in order |
| EventStore.Store.InsertOne | server/store.js:200-306 | one item: conflict, duplicate, pruned, loop, malformed directive, or stored; earlier rows of the batch it redacts are patched in memory |
| EventStore.Store.ApplyRedaction | server/store.js:324-359 | all named rows of both tiers become tombstones, or a foreign id refuses the whole directive (what is named and foreign, in columns: `PublishRules.RedactedExactly`, `PublishRules.DirectiveRefusedIff`) |
| EventStore.Store.RewriteRows | server/store.js:348-367 | each target is rewritten in the tier it is in, a replay row packed again |
| EventStore.Store.MoveBatch | server/store.js:777-786 | the oldest unlocked rows received before the cutoff and not of the sandbox, at most limit, all of them when fewer; moved with their epoch, their deliveries gone |
| RedactionProofs.RefusedIff | server/store.js:326-336 | a directive is refused exactly when it names by id a stored event of another owner (what an owner is: `PublishRules.DirectiveRefusedIff`) |
| PublishRules.DirectiveRefusedIff | server/redaction.js:62-67 | a directive is refused exactly when some id it names is stored, in either tier, with another source, project or environment |
| RedactionProofs.RedactionIsComplete | server/store.js:324-367 | every row named, hot or replay, is a tombstone afterwards, except the redacting event and rows that carry a directive |
| RedactionProofs.RedactionIsConfined | server/redaction.js:62-86 | rows of other owners, unnamed rows and directive rows do not change; id, position, type, subject and visibility never do (in columns: `PublishRules.RedactedExactly`) |
| PublishRules.RedactedExactly | server/store.js:324-367 | an accepted directive empties a row, in whichever tier, exactly when it is another event, never redacted, without a directive, and named by id or, with the directive's source, project and environment, by subject; every other row stays as it is |
| PublishRules.PublishChangesOwn | server/store.js:324-367 | whatever run came before, a row of either tier that a publish changes has the source, project and environment of an event of that publish |
| RedactionProofs.RedactionIsIdempotent | server/store.js:324-359 | a second redaction by the same directive changes nothing |
| RedactionProofs.TombstoneForgets | server/redaction.js:69-86 | a tombstone keeps nothing of the payload and never names a person |
| TierProofs.MoveIsInvisible | server/store.js:777-786 | a move changes no read: the same merged log and the same row under every id |
| TierProofs.MovesCombine | server/store.js:777-786 | moves of any batches, at any times, one after the other or at once, leave the same store but for the archived_at of the rows the second took |
| TierProofs.RedactionCommutesWithMove | server/store.js:324-367 | a redaction and a move give the same store in either order |
| ArchiveColumns.Pack | server/archive.js:17-21 | the packed body holds every body column, null where undefined |
| ArchiveColumns.Unpack | server/archive.js:24-31 | a replay row unpacks to its columns, its body and its epoch |
| ArchiveColumns.UnpackUndoesMove | server/archive.js:17-31 | a moved row unpacks to exactly the hot row it was, and its epoch |
| ArchiveColumns.StoreIsPacked | server/archive.js:17-31 | a row of the store, written out column by column, moved and unpacked is the row the tier proofs say |
| ArchiveColumns.SamePackedIff | server/archive.js:17-21 | two rows have equal packed bodies exactly when they have the same body |
| LoopGuard.HotRunsAreGuarded | server/store.js:214-226 | in every run hops of hot events stay within the limit and rise from a first-party one to every later hot one of another source in its trace |
| LoopGuard.HotChainsAreBounded | server/store.js:214-226 | no run has a source-alternating chain of hot events longer than maxHops |
| LoopChains.EveryRunIsGuarded | server/store.js:214-226 | over the retained events of both tiers: hops rise from a first-party event to every later one of another source in its trace, in every run whose first-party publishes find the moved rows of their trace covered by hot ones |
| LoopChains.ChainsAreBounded | server/store.js:214-226 | no such run has a source-alternating chain of retained events, in either tier, longer than maxHops |
| LoopChains.OverIsCovered | server/store.js:777-786 | a run that moves no first-party row of a trace before the trace's last publish is such a run |
| LoopChains.StaysRisingIff | server/store.js:136-143 | from any store whose hops rise every continuation by publishes, redactions and prunes of the replay tier keeps them rising if and only if each first-party replay row has, among hot first-party rows of its trace at least as deep, one of its own source or two of different sources |
| LoopChains.MovedRowsAreNotCounted | server/store.js:139-143 | a publish, a move by age and an answer leave a chain of two retained events under a limit of one, for any two validated events of one trace and different sources |
| LoopGuard.AppsDoNotMatter | server/store.js:139-143 | app events never change a first-party publish's hops or whether it is accepted, unless it redacts; then acceptance agrees exactly when its directive names another owner's event in both stores or in neither, or the receipt or the loop guard decides |
| LoopGuard.NamedAppEventRefuses | server/store.js:326-336 | a first-party directive accepted without it is refused once an app's event is stored under an id it names |
| Retention.Prune | server/store.js:797-830 | a prune does what `Retention.Pruned` says, moving batch after batch until a short one or its limit |
| Retention.LostIff | server/store.js:797-830 | exactly which rows a prune loses; every other row reads as before |
| Retention.PruneByAge | server/store.js:797-822 | in columns and ages: a sandbox event goes by the shorter age, an old event is deleted without a replay tier and moved with one unless locked, a replay row goes by age unless held, a receipt when older than both ages |
| Retention.NothingYoungIsLost | server/store.js:797-830 | no event younger than the retention of its tier is lost |
| Retention.HeldRowsStay | server/store.js:812-819 | a row held by a restore outlives any age |
| Retention.PruneIsARun | server/store.js:797-830 | a prune is a run of the store's transactions |
| Retention.PruneRemembers | server/store.js:821-822 | publishing an id within the receipt retention again after a prune stores nothing |
| Cursor.DecodeUndoesEncode | server/cursor.js:15-34 | every safe position is read back as printed exactly while its epoch has at most 15 digits |
| Cursor.AcceptsExactlyCursors | server/cursor.js:22-34 | a text is read as a position exactly when it is that position's one printed form, whatever Number() makes of other texts |
| Cursor.Base64PrintsBackIff | server/cursor.js:29-32 | the lenient base64url reader is undone exactly on canonical text (section 5 of RFC 4648) |
| Scan.Scan | server/store.js:453-475 | the page loop computes the scan function, each statement over its own snapshot (what it returns: `ReadRules.ScanReturns`) |
| Scan.Examine | server/store.js:460-465 | one page is examined row by row through the first at which a limit is reached |
| Scan.ScanIsComplete | server/store.js:453-475 | over any commits, prunes and redactions between statements the scan returns wanted rows in order and misses none its last page could see (what is wanted: `ReadRules.WantedIff`) |
| Scan.ScanIsExact | server/store.js:36-50 | over one snapshot the paged, narrowed scan equals filtering the one merged log up to its cursor (in columns: `ReadRules.ScanReturns`) |
| ReadRules.WantedIff | server/store.js:460-465 | a query wants a row exactly when one of its patterns selects the row's type and the reader's filter lets it through |
| ReadRules.ScanReturns | server/store.js:453-475 | over one snapshot a scan returns in order exactly the stored rows above its start up to its cursor whose type one of the patterns selects and that the filter lets through, at most its limit; it stops short of the end only at the limit or after passing as many rows as it may examine |
| Scan.ScanLosesIff | server/store.js:467-471 | a scan misses a row exactly when it is narrowed, reached the end, and a wanted row above its start was committed between its last page and the head it then read |
| Scan.HeadReadLosesARow | server/store.js:467-471 | a store and a query for which the cursor passes an event that no scan from it returns |
| StoreReads.StoresGrow | server/store.js:453-475 | whatever transactions run between a reader's statements, what it sees only grows, is emptied in place or is dropped |
| Pull.Pull | server/api/read.js:88-113 | the handler's branches compute the page function |
| Pull.GapIsExact | server/api/read.js:99-107 | the gap is exactly the positions above the cursor, from 1 for another epoch, and below the oldest stored event, or up to the head when nothing is stored; it holds no stored event |
| Pull.GapHidesIff | server/store.js:431-434 | a gap covers an event exactly when the store was empty as its oldest position was read |
| Pull.PullIsComplete | server/api/read.js:88-113 | every wanted event between two cursors is on the page or in its gap (what a reader wants: `ReadRules.PullWantsIff`) |
| ReadRules.PullWantsIff | server/api/read.js:53-57 | in columns: an app gets by its patterns its own project's events of its environment and public first-party production ones; a service production events, and app events only by a pattern that starts with app. |
| ReadRules.PullReturns | server/api/read.js:88-113 | a pull meeting no commit returns exactly the stored events above its cursor up to the next one that its reader may have in these columns, at most its limit, and leaves something only with a full page or after passing 5000 rows |
| PullFeed.PullsMissExactly | server/api/read.js:88-112 | whatever is committed, pruned or redacted between any two statements of any pull, the pulls return events in order, each once, and of those still stored lack exactly the ones a pull passed, in its gap or behind its head read |
| PullFeed.PullsMissNothing | server/api/read.js:88-112 | repeated pulls with no commit during a pull, over a store that changes in any way between pulls, miss no event still stored |
| PullFeed.PullsAreOneLogIff | server/api/read.js:88-112 | over a store that only grows, between any statements, repeated pulls are the one filtered log exactly when no pull passes a wanted event |
| Pull.PullMovesOn | server/api/read.js:108-112 | the cursor moves on, or nothing is stored above it |
| Pull.PullsNeverReveal | server/api/read.js:53-57 | a redaction never makes an event visible to a reader |
| Realtime.Connection.Publish | server/realtime.js:226-237 | an announced row waits, is sent, or is skipped: at or below the last sent position, by the topics, or because the viewer may not see it (whom it may reach, in columns: `StreamRules.SentMayReach`) |
| Realtime.Connection.StartReplay | server/realtime.js:178-193 | where a replay starts and the gap it sends first: another epoch, a cursor ahead, or retention |
| Realtime.Connection.SendReplay | server/realtime.js:203-211 | the replayed rows, the limit's gap, and the head as the last position |
| Realtime.Connection.GoLive | server/realtime.js:219-221 | the rows that waited follow, skipping what is at or below the last position |
| Realtime.StreamsNeverReveal | server/realtime.js:89-99 | a tombstone shows a viewer nothing its event did not (what a viewer may see: `StreamRules.SentMayReach`) |
| StreamRules.SentMayReach | server/realtime.js:89-99 | in every run, over any store, every event sent is one a topic selects, has no project, is of production, and is public, or the viewer is a service, or its visibility is subject and the viewer the user who acted in it or whom it is about |
| StreamRules.AnnouncedIsSentIff | server/realtime.js:226-237 | once live, an announced event above the head read was sent after the catch-up exactly when a topic selects it and it may reach the viewer, in those columns |
| StreamRules.GapsCover | server/realtime.js:178-211 | in positions, what the gaps of every live stream cover: another epoch, a cursor ahead, what lies below the oldest stored event, what lies before the public window, and after the replay's limit nothing it sent |
| StreamRules.ReplayKeepsWindow | server/realtime.js:196-206 | the replay is above the client's position and shows a browser no public event from before the window |
| RealtimeRun.NothingIsLostSilently | server/realtime.js:170-237 | for any interleaving of commits and announcements with the handler's awaits, every stored, matching, visible event above the client's position is sent or lies in a sent gap, given rows announced as they were committed |
| RealtimeStore.StoreIsSound | server/realtime.js:170-237 | runs of the store's transactions give the stream reads that only grow and announced rows no less visible than the stored ones, whatever is redacted, moved or pruned later |
| RealtimeStore.BatchAnnounces | server/api/publish.js:146-155 | the rows a batch announces are the committed rows of the positions it handed out |
| RealtimeStore.StreamsLoseNothing | server/realtime.js:170-237 | over every run of the store's transactions, whatever of the stream interleaves, no event is lost silently |
| RealtimeRun.LiveEventsIncrease | server/realtime.js:219-237 | after the hand-over only events are sent, strictly increasing, all above the head read first |
| RealtimeRun.SentExactly | server/realtime.js:170-237 | how often an event is sent: once if the replay had it, once more if it was announced above the head read first |
| RealtimeRun.SentByCommitTime | server/realtime.js:170-237 | how often by commit time: an event the scan's last page saw once within its reach, and once more if committed after the head read first; one committed later once, by announcement |
| RealtimeRun.ReplayedAndSentAgain | server/realtime.js:203-221 | a run in which one event is sent twice |
| RealtimeRun.EveryRunIsOk | server/realtime.js:170-237 | in every run an open stream was sent exactly its catch-up and then the announced rows above it |
| NatsFrames.Connection.Data | server/fabric/nats-core.js:102-160 | the data handler cuts every whole frame off the buffer, in order, whatever Number() makes of a last word |
| NatsFrames.ParseIsExact | server/fabric/nats-core.js:104-158 | what is handled and what is left are the bytes that came, and what is left is no whole frame |
| NatsFrames.ParseReadsBack | server/fabric/nats-core.js:109-125 | any sendable frames, with payloads full of line ends, are read back as they were sent |
| NatsFrames.ChunksDoNotMatter | server/fabric/nats-core.js:102-106 | however a stream is cut, frames and rest are those of the whole; the socket is destroyed exactly when a cut leaves an overlong line |
| NatsFrames.ShortLinesAreNeverCut | server/fabric/nats-core.js:106-106 | a stream whose lines fit is never destroyed, wherever its chunks end |
| NatsFrames.LinesFitIff | server/fabric/nats-core.js:106-106 | no way of cutting a stream destroys the socket exactly when every line of it is shorter than MAX_LINE |
| NatsFrames.LongLinesDependOnTheCut | server/fabric/nats-core.js:106-106 | whole frames in one chunk are always handled; some way of cutting them kills the connection exactly when a line has MAX_LINE bytes or more |
| NatsFrames.MessagesReadBack | server/fabric/nats-core.js:109-120 | subject, subscription, reply subject and every payload byte of any message are read back |
| NatsRequests.EveryRequestSettlesOnce | server/fabric/nats-core.js:191-234 | in every run each request's promise settles at most once, and a close leaves none waiting |
| NatsRequests.AnsweredByItsOwnReply | server/fabric/nats-core.js:191-197 | a request is answered only by a reply with its own token |
| NatsRequests.SettledIsFinal | server/fabric/nats-core.js:191-197 | late, repeated and foreign replies change nothing settled |
| NatsRequests.Requests.Close | server/fabric/nats-core.js:224-226 | a close rejects every waiting request |
| OrderedInbox.EveryRunIsSound | lib/client.js:246-269 | for any order, duplication and failures each event takes effect at most once, revisions of a key rise, and its head is the last and highest |
| OrderedInbox.HeadIsHighestDelivered | lib/client.js:246-269 | a key's final head is the highest revision delivered on it |
| OrderedInbox.HeadsConverge | lib/client.js:246-269 | the same events in any two orders leave the same heads |
| OrderedInbox.Inbox.ApplyEvent | lib/client.js:246-269 | receipt, head and handler are one transaction, undone together when the handler throws |
| SubjectKeys.SubjectsHaveTheirOwnKeys | lib/client.js:223-228 | distinct subjects never share a key, however long and whatever they hold |
| MonthArchive.Job.Export | scripts/events-archive.js:78-131 | the object holds its old lines overridden by the database's; exactly the rows received in the month, more than the given days ago and not redacted since they were read are deleted, any fault deletes nothing, and the report's four numbers count what was read, stored, deleted and left |
| MonthArchive.ReadMonth | scripts/events-archive.js:85-96 | page after page from a moving position reads every row of the month, each once |
| MonthArchive.Arrange | scripts/events-archive.js:99-101 | the merged lines, each once, ordered by epoch and position |
| MonthArchive.DeleteExported | scripts/events-archive.js:117-128 | chunk by chunk exactly the rows whose marker did not move are deleted and counted, and the rest counted as changed |
| MonthArchive.Job.Restore | scripts/events-archive.js:134-149 | lines go in where no row has their id, held |
| MonthArchive.ReadsBackWritten | scripts/events-archive.js:57-68 | an object reads back what was written, only that carries its digest, and only an object and manifest that a write of its lines for that month leaves are read at all |
| MonthProofs.DeletedAsStored | scripts/events-archive.js:116-128 | over every run of transactions meanwhile that moves no event published anew under an exported id, every deleted row equals its stored line |
| MonthProofs.ExportConserves | scripts/events-archive.js:78-131 | over every such run database and object hold together what they held before, the database copy winning |
| MonthProofs.RerunChangesNothing | scripts/events-archive.js:97-131 | a rerun finds nothing, keeps the lines and deletes nothing |
| MonthProofs.RerunTakesTombstones | scripts/events-archive.js:116-128 | a row redacted in such a run stays, and the next export takes its tombstone |
| MonthProofs.RestoreUndoesExport | scripts/events-archive.js:134-149 | after export and restore every row is back as it was, held, and rows of other months are untouched |
| MonthProofs.RestoreIsIdempotent | scripts/events-archive.js:134-149 | a second restore changes nothing |
| MonthProofs.RunEvolves | server/store.js:186-367 | whatever batches, redactions, moves and prunes run, an exported row stays, becomes a tombstone or goes, as long as no move takes an event published anew under its id |
| MonthProofs.RememberedIsKept | server/store.js:202-213 | while an exported id keeps its row or its receipt no event is published anew under it |
| MonthProofs.ShortExportIsKept | server/store.js:777-786 | when moves take only what was received before the export read, none takes an event published anew, whatever was forgotten |
| MonthProofs.ForgottenRowIsLost | scripts/events-archive.js:117-128 | once an unredacted exported id is forgotten, a validated event under that id and a move of it by age, both during the export, make it delete a row it never stored |
| MonthProofs.PruneForgetsIff | server/store.js:797-830 | a prune forgets a replay row's id exactly when the row is past the replay retention and not held, and its receipt past the longer of the receipt and hot retention |

## Left out

- Envelopes.Valid: the patterns of `server/openapi.js:237-246`; the schema package that checks them, with its length limits, is not part of this model.
- Publishing: project quotas, usage records, size_bytes, the revocation hook, and carrier, class and placement labels.
- The delivery policy: its ordering key is a parameter of a publish; `plan()` is not part of this model.
- Requeue's row selection (by position or by ids): the events to queue again are given.
- recordAttempt without an owner, and its last_status and last_error columns.
- Worker timers, drain and stop's waiting; request signing and the HTTP calls.
- The JetStream carrier's stream set-up and its one-at-a-time chain: to the store it is targeted claims, which runs include with lost, repeated and forged signals.
- Truncation and re-import of the store (bumpEpoch), so a run stays in one epoch; cursors of other epochs are handled by pull and realtime.
- verifyDeliveryV2, prepareEnvelope, the outbox and the inner `once`: receipt and handler commit together.
- Realtime: tickets, origins, heartbeats and connection counts; a slow client's close falls between steps. A publish announced out of position order is not modelled.
- NATS: handshake, TLS, permissions, reconnects and what a handler does with a frame; op names outside ASCII.
- PostgreSQL locking itself: transactions are atomic, waiting and deadlocks are not modelled.
- Cursor.Encode: an epoch of 10^21 or more, which JavaScript prints with an exponent, is printed in digits here; both are refused when read.
- SubjectKeys.SubjectKey: its 200-character limit counts characters here and UTF-16 units in JavaScript.
- MonthArchive.Job.Export: its pages see one snapshot and its delete chunks another, with a run of publishes, redactions, moves and prunes between the two but not inside either; a crash between the two object writes is not modelled.
- StoreReads.StoresGrow: the month restore is not among the transactions; it puts rows back below the head, which a reader already past them does not get.
- EventStore.Store.InsertBatch: project quotas, usage records and the revocation hook of the same transaction are not modelled.
- EventStore.Store.InsertOne: the quota refusals of the same loop are not modelled.
- Retention.Prune: nothing runs between its own transactions; a run of the store has them apart (`Retention.PruneIsARun`).
- RealtimeStore.BatchAnnounces: rows that another process announces, read again from the store or carried by a broker, are taken to be the committed rows too.
- NatsFrames.CountOf: counts that are negative or no whole number are not modelled; JavaScript takes its offsets from them.
- Worker.MostSends: each consuming carrier has one send under way at most (`server/fabric/carriers/jetstream.js:62`, `server/fabric/carriers/valkey.js:87`).
- RealtimeRun.Next: announcements between two statements of one read (oldest position, one scan) happen before or after it, which the handler cannot tell apart.
- HTTP routing, limits and problem documents; billing, checkpoints, account export and erasure.
