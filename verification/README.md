# Verified model of the alert path and the rule compiler

This project models, in Dafny, what the monitoring stack decides about alerts, rules and hosts, and proves properties
of whole runs of it. `dafny verify dfyconfig.toml` checks everything.

| file | what it models |
|---|---|
| `Common.dfy`, `Strings.dfy`, `TimeFormat.dfy` | cache faults and small facts; decimal numbers, joining, trimming, byte order; RFC 3339 text of an instant |
| `DedupKeys.dfy` | validation of an event and the two deduplication keys |
| `RedisStore.dfy` | a typed Redis key space with deadlines, and the two Lua scripts of the alert service |
| `AlertService.dfy`, `ExactlyOnce.dfy` | the store, the Kafka consumer, and at-least-once delivery refining an exactly-once fold |
| `Limiter.dfy` | the sliding-window limiter over a sorted set |
| `History.dfy`, `Webhook.dfy`, `EventFeed.dfy` | the history table, the webhook handler with its retries, the trimmed event stream |
| `WebsocketHub.dfy`, `FanOut.dfy` | the websocket hub, and the pipeline from the subscription through the pubsub hub into it |
| `RuleScanners.dfy`, `RuleRender.dfy`, `RuleSync.dfy` | duration and subquery scanners, the rule renderer, replacing the rule file |
| `HostOrder.dfy`, `HostMerge.dfy`, `HostList.dfy` | the host list: merged samples, filters, sorting, cache |

Code that changes state is a class or a method with loops, proved equal to a function of its inputs and the old state;
runs are folds of those functions over arbitrary lists of steps, faults included. A Redis call can be refused (no
effect), lose its reply (effect kept) or panic before or after its effect; a concurrent component is a state machine in
which every branch of a `select` is one step.

## Assumptions

- One clock. A Redis key is gone once the clock is past its deadline; at the deadline itself it still exists.
- The deduplication TTL is at least one millisecond. Without that the last `SET` of a script fails after the writes;
  `RedisStore.FiringAllOrNothing` and `ResolvedAllOrNothing` say exactly when.
- No counter of `alert:stats` reaches 2^63 - 1 during a run.
- Requests to the limiter under one key come in the order of the clock, the prefix of a member text is fixed for a
  process, and a run has fewer than 2^64 requests. Keys expire on a millisecond clock. The scores come from any
  monotone rounding; a non-negative exact one is needed only for the exact count.
- A webhook payload is sent again within the TTL of the keys that earlier attempts remembered. Keys that other calls
  remembered before may run out in between; `Webhook.NewsResume` says what that does to the order of the log.
- Each history transaction commits or rolls back as a whole. A write to a file happens whole or not at all.
- JSON encoding is injective and decodes to what was encoded. Which characters above ASCII `strconv.Quote`
  prints as they are, and their lower case, are parameters of the model (`Strings.Tables`).
- Library sorts are a stable insertion sort. A rule file's directory is taken as written, not cleaned.

## What the code does not do

These statements are proved, each with the inputs for which the code misses what one might expect:

- With a TTL below a millisecond the firing and the resolving script report an error and yet leave the alert changed
  (`RedisStore.FiringAllOrNothing`, `RedisStore.ResolvedAllOrNothing`), and the webhook appends the first new event of the
  payload at every attempt and never gets behind it (`Webhook.ShortTtlStops`, `Webhook.ShortTtlAppendsEveryTime`); with
  none at all it appends nothing (`Webhook.NoTtlStops`). A retry works exactly from a millisecond on
  (`Webhook.RetryWorksIff`). No deployment yields such a TTL: the webhook's is configured in whole seconds
  (server-web/config/config.go:253) and the alert service's is a constant (alert-service/main.go:87).
- The limiter's key is set to expire in whole seconds, so a window with a fraction above a second forgets requests too
  early and admits too many, whatever the limit; windows of whole seconds or under one second are safe, and no others
  (`Limiter.SafeIffKeyOutlivesWindow`). The configuration only yields whole seconds
  (server-web/config/config.go:262), so a deployed limiter is safe.
- A redelivery after the TTL is applied again: a firing event is counted again and puts back an alert that was
  resolved since (`ExactlyOnce.LateFiringCountsAgain`), a resolved one removes an alert that has fired since (`ExactlyOnce.LateResolvedRemoves`).
- A webhook retry never repeats a publish or a Kafka produce that failed, nor an archive that rolled back, nor any of
  the three when the reply of the append was lost (`Webhook.AnnouncedIffNothingLost`, `Webhook.HistoryConvergesIff`). A
  lost archive can be hidden by a later alert of the same occurrence (`Webhook.LostArchiveHidden`).
- A retry appends in another order when a key of the payload runs out between the calls (`Webhook.ExpiryReorders`).
- A request to leave that the hub handles while its connection still waits for registration has no effect, and the
  connection can get into the map afterwards (`WebsocketHub.LeaveWorksIff`). Once nobody takes its
  messages any more it stays for at most 33 broadcasts, the last of which finds its buffer full
  (`WebsocketHub.UnreadLeaves`).
- A panic while marking an offset counts its message twice (`AlertService.Accounting`).
- A rule file whose name is `.custom-alerts-`, a decimal number below 2^32 and `.yml` can be removed by the very sync
  that reports success (`RuleSync.SuccessInstallsIff`).
- Two samples of one instance in a vector can make the host list depend on their order
  (`HostMerge.OrderFreeIffAgreeing`), and two different hosts of one instance that tie make the sorted list depend on
  the order of its input (`HostOrder.OrderFreeIffNoTies`).

## Model

| member | source | states |
|---|---|---|
| TimeFormat.FormatInjective | alert-service/alert/processor.go:45-50 | Two instants with the same RFC 3339 text with nanoseconds are the same instant, trimmed fractions and odd years included |
| TimeFormat.StampIsClean | alert-service/alert/processor.go:45-50 | The text of an instant has exactly three colon-separated pieces, and none of them starts like a status word |
| TimeFormat.FormatExample | alert-service/alert/processor.go:49 | The layout itself, at an instant with whole seconds |
| TimeFormat.FractionIs | alert-service/alert/processor.go:49 | The fraction is the nine digits of the nanoseconds without the zeros at the end |
| Strings.TrimSpaceIs | alert-service/alert/processor.go:66 | Trimming takes away the white space around a text and nothing else |
| DedupKeys.CounterName | alert-service/alert/processor.go:65-71 | The counter goes by the trimmed alert name, and by the fingerprint when the label is missing or blank |
| DedupKeys.SetTimesAre | alert-service/alert/processor.go:36-41 | Of start and end exactly those count that are not the first instant of year 1, start before end |
| DedupKeys.DedupKeyMeaning | alert-service/alert/processor.go:19-43 | Two valid events share a key if and only if fingerprint, status and the sequence of set times agree, whatever colons the fingerprints hold |
| DedupKeys.DedupKeyApart | alert-service/alert/processor.go:29-43 | No event's key is the active hash or the counter hash, so the three script keys never coincide |
| DedupKeys.EventDedupeKeyInjective | server-web/alert/service.go:368-376 | The webhook's key separates fingerprint, status, start and end for every colon-free status |
| RedisStore.CounterText | alert-service/redis/client.go:39 | HINCRBY accepts as a counter exactly the canonical decimal texts of 64-bit numbers |
| RedisStore.Server.Tick | alert-service/redis/client.go:55 | Time passing removes exactly the keys past their deadline |
| RedisStore.Server.HGet | alert-service/redis/client.go:33 | Value, nil, or an error on a key of another type |
| RedisStore.Server.HSet | alert-service/redis/client.go:34 | Sets one field and changes nothing else, or fails on a wrong type and changes nothing |
| RedisStore.Server.HDel | alert-service/redis/client.go:47 | Removes one field, and the key with its last field; fails on a wrong type |
| RedisStore.Server.HIncrByOne | alert-service/redis/client.go:39 | Adds one, or fails unchanged on a wrong type, a non-counter or the largest 64-bit number |
| RedisStore.Server.SetPx | alert-service/redis/client.go:55 | Stores with a deadline; a life of zero or less is an error |
| RedisStore.UndoRestores | alert-service/redis/client.go:39-51 | Writing a field and undoing it by the old value, or by deletion when there was none, gives back the same key space, the empty old value and a missing hash included |
| RedisStore.Server.ApplyFiringScript | alert-service/redis/client.go:28-57 | The script with its hand-written rollback is one indivisible step, and the failing-store and failing-rollback branches are never taken |
| RedisStore.Server.ApplyResolvedScript | alert-service/redis/client.go:59-71 | The resolving script is one indivisible step |
| RedisStore.FiringAllOrNothing | alert-service/redis/client.go:28-57 | With a TTL of at least 1 ms every failed firing call leaves all keys as they were; below that, the failure of the last SET comes exactly for a new key with usable hashes, and then does change them |
| RedisStore.ResolvedAllOrNothing | alert-service/redis/client.go:59-71 | A failed resolving call has changed something if and only if the TTL is below 1 ms, the key is new, the active hash is usable and the alert was in it |
| AlertService.TtlReachesRedis | alert-service/alert/store.go:44-56 | After the default and the cut to milliseconds the scripts get a positive TTL exactly when none or at least a millisecond was configured |
| AlertService.LifeInMillis | alert-service/redis/client.go:115-118 | The life given to Redis is the configured one, or five minutes without one, in whole milliseconds and nothing else |
| AlertService.Store.Apply | alert-service/redis/client.go:111-154 | The effect and answer of one script call under each fault: refused, reply lost, panic before or after |
| AlertService.Store.Process | alert-service/alert/store.go:58-101 | New key space, outcome and metric for every event and fault: permanent for invalid, transient for refused, success for stored and duplicate |
| AlertService.OutcomeIs | alert-service/alert/store.go:58-101 | An outcome is permanent exactly for an event without fingerprint or with another status, a success exactly when a healthy call leaves the dedup key behind; stored means the key was not there before, deduped that it was |
| AlertService.OneCounterGrows | alert-service/alert/store.go:103-117 | A reported delivery raises the counter of its own status and tag by one, and no other |
| AlertService.HandleBalances | alert-service/kafka/consumer.go:157-226 | One message, under any fault and whether or not marking panics, keeps the three counter equations |
| AlertService.Consumer.ProcessMessage | alert-service/kafka/consumer.go:157-226 | One message's effect on Redis, both sets of counters and the marks |
| AlertService.Consumer.ConsumeClaim | alert-service/kafka/consumer.go:146-151 | A claim's loop is the run of its deliveries in order |
| AlertService.Accounting | alert-service/kafka/consumer.go:157-226 | Over any run the four message counters sum to the messages plus the panics while marking, processed is stored plus deduped, and the two error counters are failed plus the two kinds of panics |
| AlertService.MarkedIffFinished | alert-service/kafka/consumer.go:181-225 | Over any run an offset is marked if and only if some delivery of it ended as bad JSON, permanent error or success and the marker did not panic |
| AlertService.MarkedExactly | alert-service/kafka/consumer.go:181-225 | Over any run an offset is marked if and only if some delivery of it, its marker not panicking, was bad JSON, an unacceptable event, or one whose healthy call left its dedup key in Redis |
| AlertService.CountersCount | alert-service/kafka/consumer.go:181-225 | Over any run invalid_json, permanent_error and processed count exactly the bad messages, the unacceptable events and the answered calls, and stored counts the answered calls that found no key |
| ExactlyOnce.Applied | alert-service/redis/client.go:28-71 | One script application on real keys stands for one application on the ideal state without types, deadlines or rollback, failures included |
| ExactlyOnce.OneStep | alert-service/alert/store.go:58-101 | One delivery under any fault keeps the real server standing for the ideal state |
| ExactlyOnce.RunIsIdeal | alert-service/alert/store.go:58-101 | So does every run whose redeliveries come before their key runs out |
| ExactlyOnce.OnTimeIsNeeded | alert-service/redis/client.go:28-71 | For every arriving event, firing or resolved, the step stands for the ideal one if and only if it is on time or its counter is exhausted |
| ExactlyOnce.LateFiringCountsAgain | alert-service/redis/client.go:28-57 | A late firing event raises its counter once more and writes its alert again while the ideal state stays, so the active alerts stay right if and only if the alert is still active with this very payload |
| ExactlyOnce.LateResolvedRemoves | alert-service/redis/client.go:59-71 | A late resolved event removes its alert again, so the active alerts stay right if and only if the alert has not fired since; the counters stay |
| ExactlyOnce.IdealRunIsFold | alert-service/alert/store.go:58-101 | The ideal run is a plain fold over the first applied delivery of each key, a counter being a number of first firings |
| ExactlyOnce.ExactlyOnceEffect | alert-service/redis/client.go:28-71 | After any timely run, with any duplicates, refused calls, lost replies and panics, `alert:active` is the fold of the first deliveries and every counter is its start plus the number of first firings |
| ExactlyOnce.FoldTells | alert-service/redis/client.go:28-71 | In that fold the last event of each fingerprint decides: firing stores its payload, resolved removes, and other fingerprints are as before |
| ExactlyOnce.FiringsIs | alert-service/redis/client.go:39 | A counter's share is the number of first deliveries that are firings under its name |
| ExactlyOnce.Consume | alert-service/main.go:86-92 | The service as wired: a consumer over a store with any configured life leaves that fold whenever redeliveries come within the life in whole milliseconds |
| Limiter.MemberInjective | server-web/redis/client.go:172-174 | Members with different sequence numbers differ |
| Limiter.KeyOutlivesWindow | server-web/redis/client.go:157 | The whole-second EXPIRE covers the window exactly for whole-second windows and windows under a second |
| Limiter.KeyLifeIs | server-web/redis/client.go:157 | The key lives whole seconds: one for a window under a second, else the window less its fraction |
| Limiter.MembersDistinct | server-web/redis/client.go:172-174 | No two requests of a run are given the same member, whatever their times |
| Limiter.SlidingWindow.Transact | server-web/redis/client.go:150-159 | Members, count and deadline after the transaction |
| Limiter.SlidingWindow.AllowSlidingWindow | server-web/redis/client.go:136-170 | State and answer under each fault, the refusals for a bad limit or window included |
| Limiter.StillHolds | server-web/redis/client.go:150-159 | At any point of a run the set still holds every recorded request of the current window |
| Limiter.StillOnlyHolds | server-web/redis/client.go:150-159 | And nothing but recorded requests under their own scores |
| Limiter.CountCoversWindow | server-web/redis/client.go:150-169 | The count is never below the number of requests, admitted or denied, of the window that ends now, for any monotone rounding |
| Limiter.CountIsExact | server-web/redis/client.go:150-169 | With exact scores it is that number, so a request is admitted if and only if the window holds at most limit requests, itself included |
| Limiter.RemainingIsExact | server-web/redis/client.go:163-169 | With exact scores every answered request, admitted or denied, is told max(0, limit - requests of its window) |
| Limiter.RemainingIsSound | server-web/redis/client.go:163-169 | Under any rounding a denied request is told 0 and an admitted one at most limit - 1 |
| Limiter.FailureIs | server-web/redis/client.go:136-161 | A call fails exactly on an unusable configuration, which changes nothing, or when its answer does not come back; a refused one leaves the set alone |
| Limiter.WindowSafety | server-web/redis/client.go:136-170 | Every interval one window long contains at most limit admitted requests, in any run whose key outlives the window and for any monotone rounding |
| Limiter.ShortKeyLifeIsUnsafe | server-web/redis/client.go:157 | Whatever the limit, a key life shorter than the window lets limit + 1 requests through within one window |
| Limiter.SafeIffKeyOutlivesWindow | server-web/redis/client.go:136-170 | The window promise holds in every run if and only if the key outlives the window, that is for whole-second windows and windows under a second |
| History.Table.ArchiveHistory | server-web/alert/service.go:218-266 | The transaction updates the newest row of the occurrence or inserts one, or rolls back |
| History.HistoryFields | server-web/alert/service.go:293-317 | A built row holds fingerprint, start, labels and status of its alert, the trimmed name, instance and summary, the trimmed severity or warning, and the end of a resolved alert |
| History.HistoryTells | server-web/alert/service.go:218-266 | From an empty table, any sequence leaves one row per occurrence, descriptive fields from its last alert and the resolution from its last resolved one |
| History.Confluence | server-web/alert/service.go:218-266 | Whatever the order and repetition: a row exists exactly for archived occurrences, is resolved exactly when a resolved alert of it was archived, and has a resolution time exactly when resolved |
| History.ResolvedStays | server-web/alert/service.go:246-257 | On any table no row is moved, removed or turned back from resolved |
| History.SameTableIff | server-web/alert/service.go:218-266 | Two sequences leave the same table, row numbers included, if and only if they add the same occurrences in the same order and their last and last resolved alerts tell the same of each |
| Webhook.Service.AddAlertEventOnce | server-web/redis/client.go:194-229 | Look up, append, remember, under each fault, with the TTL errors |
| Webhook.EventKeyMeaning | server-web/alert/service.go:368-376 | Two alerts share an event key if and only if fingerprint, status, start and end agree |
| Webhook.RemembersUntil | server-web/redis/client.go:205-217 | A call sets the key of each event it appends to run out the TTL, in whole milliseconds, after its own time and leaves every other key alone; past that time the event is new again |
| Webhook.Service.HandleWebhook | server-web/alert/service.go:124-189 | Every store and the error after one call, wherever faults strike |
| Webhook.UnsupportedChangesNothing | server-web/alert/service.go:125-132 | A payload with an unsupported status on any named alert changes no store |
| Webhook.HowFar | server-web/alert/service.go:134-189 | Under any faults a call gets through a prefix of the payload, appends the new events of that prefix, announces those whose stage did not fail, writes at most one active entry more, and returns no error if and only if no cache call failed |
| Webhook.ErrorNames | server-web/alert/service.go:144-171 | The error of a call names the cache call that failed first: write for firing, removal for resolved, or the append |
| Webhook.CallStamped | server-web/alert/service.go:155-185 | Everything a call appends, publishes or produces carries its receipt time, and nothing earlier changes |
| Webhook.NoErrorMirrors | server-web/alert/service.go:144-153 | After a call without error the last alert of each named fingerprint decides: it is stored itself when firing and absent when resolved; other fingerprints are as before |
| Webhook.FoldResumes | server-web/alert/service.go:144-153 | Writing a beginning of the payload into the active hash first makes no difference once all of it is written |
| Webhook.SameEvents | server-web/redis/client.go:205-212 | An attempt and a later call within the TTL together append the same events as the later call alone, each once, keys running out in between or not |
| Webhook.NewsResume | server-web/redis/client.go:205-212 | They do so in the same order exactly when the attempt appended nothing behind an alert whose key runs out in between |
| Webhook.RetryConverges | server-web/alert/service.go:124-189 | After any number of attempts under any faults, once a call completes within the TTL the active hash is that of one faultless call, its last alert of each named fingerprint stored if firing and absent if resolved, and so is the event log: always as a collection, and in order if and only if no attempt appended behind a key that ran out before the last call |
| Webhook.AnnouncedIffNothingLost | server-web/alert/service.go:160-185 | The published, and likewise the produced, sequence is that of one faultless call if and only if the log is in order and no appended event of any call met a lost append reply or a failure of that stage |
| Webhook.HistoryConvergesIff | server-web/alert/service.go:218-266 | The history is that of one faultless call if and only if what was archived adds the same occurrences in the same order and tells the same of each; it is when no archive was lost and the log is in order |
| Webhook.LostArchiveHidden | server-web/alert/service.go:239-257 | A firing alert whose archive rolled back leaves no trace when the resolved one of its occurrence is archived next, and does otherwise |
| Webhook.SteadyInSequence | server-web/redis/client.go:205-212 | The log is in order whenever no key of the payload runs out during the calls |
| Webhook.ExpiryReorders | server-web/redis/client.go:205-212 | When the key of the first of two alerts runs out between two faultless calls, the log ends in the second and then the first |
| Webhook.ShortTtlStops | server-web/alert/service.go:134-172 | Under a positive TTL below a millisecond a faultless call appends the first new event, fails there with the key not remembered, and handles nothing behind it; without a new alert it goes through |
| Webhook.NoTtlStops | server-web/redis/client.go:201-203 | Without a TTL a faultless call fails at its first named alert and appends nothing |
| Webhook.ShortTtlAppendsEveryTime | server-web/redis/client.go:205-212 | Any number of faultless attempts at any payload with a new alert each fail and append one event more, and nothing is archived, published or remembered |
| Webhook.RetryWorksIff | server-web/alert/service.go:124-189 | After any attempts a completing prompt call takes every payload in, each new event once and with no error, if and only if the TTL is at least a millisecond |
| EventFeed.LimitWithinBound | server-web/alert/service.go:347-361 | For every raw text the limit is positive and within the trim bound, and a number in range is kept |
| EventFeed.LimitIs | server-web/alert/service.go:347-361 | A number from 1 to 200 is the limit, a larger one is cut to 200, none or less means 8 |
| EventFeed.ParseIntIs | server-web/alert/service.go:352-355 | Signed and unsigned digits read as their value when it fits 64 bits |
| EventFeed.NotANumber | server-web/alert/service.go:352-355 | A text with any other character means 8 |
| EventFeed.FilteredIs | server-web/alert/service.go:402-419 | An event stays exactly when each filter that is set names its own status or severity, and the order is kept |
| EventFeed.Stream.XAdd | server-web/redis/client.go:205-212 | Appends, and may drop any number of old entries as long as the bound's worth remain |
| EventFeed.Stream.XRevRangeN | server-web/redis/client.go:231-269 | The newest entries, newest first |
| EventFeed.Stream.AlertEvents | server-web/alert/service.go:207-216 | The newest entries ever stored, up to the parsed limit, then filtered; trimming never shows |
| EventFeed.RunIsKept | server-web/redis/client.go:205-212 | After any run the stream is a suffix of everything stored, whole or at least the bound long |
| EventFeed.FeedIsTrueSuffix | server-web/alert/service.go:207-216 | Reading the trimmed stream equals reading the untrimmed log for every raw limit |
| EventFeed.FeedAfterAnyRun | server-web/alert/service.go:207-216 | Position by position, after any run the feed is the newest min(limit, stored) events, newest first |
| WebsocketHub.StepKeeps | server-web/websocket/hub.go:67-121 | Each step of the hub, in any state satisfying the invariant, keeps the invariant |
| WebsocketHub.GaplessDelivery | server-web/websocket/hub.go:67-121 | In every reachable state a client was pushed exactly the broadcasts handled between its registration and its removal, without gap, and its buffer is within capacity |
| WebsocketHub.HubSafety | server-web/websocket/hub.go:48-135 | Over all interleavings each channel is closed at most once, mapped and queued clients have open channels, the map stays within the limit and the gauge equals its size |
| WebsocketHub.LeaveWorksIff | server-web/websocket/hub.go:81-97 | In every run, when the hub handles a request to leave, the client is in the map in no later state if and only if it is not still waiting for registration at that moment |
| WebsocketHub.EndedLeaves | server-web/websocket/hub.go:245-253 | In every run, a mapped or waiting client whose reader ended has its request in the queue, unless the request met a full queue or was handled while the client waited |
| WebsocketHub.LeaveGetsThrough | server-web/websocket/hub.go:92-97 | A request that finds room works: once the queue as it stands is handled, a client that does not wait is out for good |
| WebsocketHub.CanGetIn | server-web/websocket/hub.go:81-119 | From every state of a running hub a waiting client can still get into the map, room being made by broadcasts that overflow a mapped client |
| WebsocketHub.GoneForever | server-web/websocket/hub.go:67-121 | A client neither mapped nor waiting stays out over any continuation |
| WebsocketHub.AdmissionHandled | server-web/websocket/hub.go:81-91 | A waiting client whose turn comes gets into the map exactly when there is room, and is otherwise gone |
| WebsocketHub.UnreadLeaves | server-web/websocket/hub.go:111-119 | A mapped client nobody reads for is gone once more broadcasts were handled than its buffer has room for, 33 at most |
| WebsocketHub.Hub.HandleRegister | server-web/websocket/hub.go:81-91 | The register branch: turn away and close at the limit, else let in and report |
| WebsocketHub.Hub.HandleUnregister | server-web/websocket/hub.go:92-97 | The unregister branch: removes and closes a mapped client, ignores others |
| WebsocketHub.Hub.TrySend | server-web/websocket/hub.go:112-115 | The non-blocking send, only ever on an open channel |
| WebsocketHub.Hub.BroadcastMessage | server-web/websocket/hub.go:104-121 | The loop over the map in any order pushes to every client with room and drops every other |
| WebsocketHub.Hub.HandleBroadcast | server-web/websocket/hub.go:98-99 | The broadcast branch is one step of the machine and keeps its invariant |
| WebsocketHub.Hub.HandleShutdown | server-web/websocket/hub.go:68-80 | The deferred clean-up closes every mapped channel once, empties the map and reports zero |
| WebsocketHub.Hub.ServeWS | server-web/websocket/hub.go:171-207 | Refuses when the first look finds the hub closed; otherwise queues a new client, refuses a full queue, and on a hub closed in between either queues or refuses, and gives no other answer |
| WebsocketHub.Hub.ReadPumpEnds | server-web/websocket/hub.go:245-253 | Once for each connection: puts its request at the end of the queue, or drops it when the queue is full |
| WebsocketHub.Hub.WritePumpTakes | server-web/websocket/hub.go:276-286 | Takes the oldest message of the client's buffer, so that what was taken is always a beginning of what was pushed |
| WebsocketHub.Hub.TryEnqueue | server-web/websocket/hub.go:139-151 | On an open hub a broadcast is queued exactly when there is room; on a closed one with room it is queued or dropped; nothing else changes |
| WebsocketHub.Hub.BroadcastBlocking | server-web/websocket/hub.go:153-169 | Queues, reports a closed hub or a cancelled context, and waits exactly when none of the three is possible; on an open hub with room and a live context it queues |
| FanOut.PubSubHub.PublishLocal | server-web/pubsub/hub.go:27-47 | Fails on a closed hub, otherwise sends into free room, reports cancellation, or waits; nothing is queued unless it reports so |
| FanOut.PubSubHub.Close | server-web/pubsub/hub.go:49-57 | The channel is closed exactly once, however often this is called, and keeps its messages |
| FanOut.StepKeeps | server-web/pubsub/subscriber.go:66-88 | Each step of subscriber, pubsub hub, forwarder and websocket hub keeps the pipeline's invariant |
| FanOut.AlertConservation | server-web/main.go:281-293 | Before cancellation the received alerts are, in order, those fanned out, queued in the hub, held by the forwarder, buffered and being published; after it the hub has still got a prefix of them |
| FanOut.NeverSendsAfterClose | server-web/pubsub/hub.go:27-57 | Whenever a send is possible the channel is open, and a closed one stays closed |
| FanOut.ClientSeesBlock | server-web/websocket/hub.go:104-121 | In every reachable state the alerts pushed to a client are a contiguous block of those received from the subscription |
| FanOut.EveryAlertCanArrive | server-web/main.go:281-293 | From every reachable state before cancellation some run without any new message ends with all alerts received fanned out: no stage can be stuck |
| RuleScanners.ScannerIsGrammar | server-web/api/handlers/alert_rules.go:372-402 | The scanner's reading succeeds on a non-empty text if and only if it is a concatenation of digit runs with a non-zero digit, each followed by a unit |
| RuleScanners.UnitsAre | server-web/api/handlers/alert_rules.go:388-396 | The units of the grammar are ms, s, m, h, d, w and y |
| RuleScanners.ScanPrint | server-web/api/handlers/alert_rules.go:376-400 | Printing segments and scanning them gives them back |
| RuleScanners.PrintScan | server-web/api/handlers/alert_rules.go:376-400 | What the scanner reads is valid and prints back as the text |
| RuleScanners.UnitReads | server-web/api/handlers/alert_rules.go:388-399 | Reading `ms` greedily is right, since the end or a digit follows a unit |
| RuleScanners.UniqueDecomposition | server-web/api/handlers/alert_rules.go:376-400 | A text has one decomposition |
| RuleScanners.TotalPositive | server-web/api/handlers/alert_rules.go:372-402 | An accepted duration is positive |
| RuleScanners.HasNonZeroDigit | server-web/api/handlers/alert_rules.go:404-411 | Finds a digit from 1 to 9 if there is one |
| RuleScanners.ValidateDuration | server-web/api/handlers/alert_rules.go:372-402 | The index-advancing loop accepts exactly the grammar |
| RuleScanners.AutomatonFinds | server-web/api/handlers/alert_rules.go:543-565 | A one-pass automaton finds exactly the texts in which a '[' is followed by a ':' before the first ']' |
| RuleScanners.ContainsSubquery | server-web/api/handlers/alert_rules.go:543-565 | The restarting search agrees with the definition and with the automaton, and its start strictly increases |
| RuleRender.ValidateExpr | server-web/api/handlers/alert_rules.go:352-370 | The first problem of an expression: missing, too many bytes, a forbidden term after lower-casing, a subquery |
| RuleRender.AnyCaseRejected | server-web/api/handlers/alert_rules.go:360-365 | An expression holding a forbidden term, in any mixture of ASCII cases, is rejected |
| RuleRender.ValidateRule | server-web/api/handlers/alert_rules.go:457-474 | The first problem of a rule, in the order of the checks |
| RuleRender.AcceptedIff | server-web/api/handlers/alert_rules.go:352-370 | The bounds, words and severities of an acceptable rule |
| RuleRender.VerdictIs | server-web/api/handlers/alert_rules.go:457-474 | Each problem is reported exactly when its check is the first to fail |
| RuleRender.EscapesAre | server-web/api/handlers/alert_rules.go:476-478 | How each kind of character is quoted, as strconv.Quote documents it |
| RuleRender.DocumentIs | server-web/api/handlers/alert_rules.go:413-455 | The document of no rule and of one rule, line by line |
| RuleRender.QuoteReads | server-web/api/handlers/alert_rules.go:476-478 | A quoted text, any characters in it, has no newline and unquotes to itself |
| RuleRender.DocumentReads | server-web/api/handlers/alert_rules.go:413-455 | The line parser recovers exactly the rules a document was written from |
| RuleRender.RenderAlertRules | server-web/api/handlers/alert_rules.go:413-455 | The builder's loop yields the document of the enabled rules, or the first problem |
| RuleRender.RenderingReads | server-web/api/handlers/alert_rules.go:413-455 | A rendering reads back as the ordered enabled rules with all six fields |
| RuleRender.RenderingInjective | server-web/api/handlers/alert_rules.go:413-455 | Equal renderings come from equal enabled rules |
| RuleRender.DisabledLeavesNoTrace | server-web/api/handlers/alert_rules.go:419-422 | Inserting a disabled rule anywhere, however invalid, changes nothing |
| RuleRender.FailsIffProblem | server-web/api/handlers/alert_rules.go:423-425 | Rendering fails if and only if some enabled rule has a problem |
| RuleRender.FirstProblemIsFirst | server-web/api/handlers/alert_rules.go:419-425 | The problem reported is that of the first rule that has one |
| RuleSync.RuleFile.WriteTempAlertRulesFile | server-web/api/handlers/alert_rules.go:480-497 | The temporary file holds the whole text or, on an error, is removed if removal works |
| RuleSync.RuleFile.RestoreRulesFile | server-web/api/handlers/alert_rules.go:519-525 | Puts the old content back or removes the file, and says whether it did |
| RuleSync.RuleFile.SyncAlertRules | server-web/api/handlers/alert_rules.go:227-282 | All files and the whole report after a sync, for every combination of failing steps |
| RuleSync.ErrorIs | server-web/api/handlers/alert_rules.go:239-277 | Each error is reported exactly when its step is the first to fail, and none exactly on success |
| RuleSync.PathSplits | server-web/api/handlers/alert_rules.go:481 | A path is its directory, a slash and its base name |
| RuleSync.LiveStays | server-web/api/handlers/alert_rules.go:227-282 | While no sync of a run commits, the live file keeps its content or absence |
| RuleSync.LiveIsLastCommit | server-web/api/handlers/alert_rules.go:227-282 | Otherwise it holds the rendering of the last one to commit, and that passed the check |
| RuleSync.LiveReadsBack | server-web/api/handlers/alert_rules.go:227-282 | It then reads back as exactly that sync's enabled rules, each of them valid |
| RuleSync.RestoredIsExact | server-web/api/handlers/alert_rules.go:271-275 | A failed reload with a successful restore leaves every file as before |
| RuleSync.NoTempRemains | server-web/api/handlers/alert_rules.go:256 | When removals work, a run of syncs touches no file but the live one |
| RuleSync.SuccessInstallsIff | server-web/api/handlers/alert_rules.go:251-256 | Success always installs the rules if and only if the rule file's own name is not one that os.CreateTemp can draw in its directory |
| RuleSync.TempNameHasDigits | server-web/api/handlers/alert_rules.go:482 | A name of the pattern with anything but digits in the middle is never drawn |
| HostOrder.SortedIsSorted | server-web/host/service.go:371-396 | The sort is ordered and a permutation for each of the three orders |
| HostOrder.SortedIsStable | server-web/host/service.go:376-392 | Hosts that tie keep their order |
| HostOrder.OrderIsUnique | server-web/host/service.go:371-396 | Hosts that do not tie have one ordered arrangement |
| HostOrder.OrderFreeIffNoTies | server-web/host/service.go:371-396 | The input order does not matter if and only if no two different hosts tie |
| Strings.LessIsLexicographic | server-web/host/service.go:391 | Texts are ordered by the first character in which they differ, a beginning before the whole |
| HostOrder.PrecedesMeans | server-web/host/service.go:375-392 | Highest CPU or memory first, ties and the default by instance |
| HostMerge.LastScrapeIsMax | server-web/prometheus/client.go:360-370 | The last scrape of a host is the floored time of its last up sample or of some CPU or memory sample, and none of these is later |
| HostMerge.HostSays | server-web/prometheus/client.go:111-136 | A built host is up when the last up sample of its instance is at least 1, down when it is less, unknown without one; CPU and memory are those of the last samples, or 0 |
| HostMerge.SecondsIs | server-web/prometheus/client.go:117 | Times are cut to whole seconds |
| HostMerge.BuiltIsMerged | server-web/prometheus/client.go:109-130 | For any vectors the three loops build, for the union of instances, the host each one's last samples and measured times call for |
| HostMerge.MergeIgnoresOrder | server-web/prometheus/client.go:109-130 | Permuting the vectors changes nothing when repeated samples agree |
| HostMerge.OnePerInstanceAgrees | server-web/prometheus/client.go:109-130 | With one sample per instance and vector they do |
| HostMerge.OrderFreeIffAgreeing | server-web/prometheus/client.go:109-130 | Every order of the samples gives the same hosts if and only if two CPU or memory samples of an instance have the same value, and two of its up samples the same reading and the same last scrape once the later vectors are merged |
| HostMerge.StatusNeverEmpty | server-web/prometheus/client.go:133-136 | No host is built without a status, so the last check never applies |
| HostMerge.ListIgnoresOrder | server-web/prometheus/client.go:132-144 | Any order of samples that agree gives the same strictly ascending list |
| HostMerge.HostRecord.UpdateLastScrape | server-web/prometheus/client.go:360-370 | Replaces a missing or earlier last scrape and changes no other field |
| HostMerge.HostTable.GetOrCreateHost | server-web/prometheus/client.go:346-358 | Returns the instance's own record, made new when there was none |
| HostMerge.HostTable.AddUp | server-web/prometheus/client.go:111-118 | Changes status and last scrape of one host, through its record, and no other host |
| HostMerge.HostTable.AddCpu | server-web/prometheus/client.go:120-124 | Changes CPU and last scrape of one host only |
| HostMerge.HostTable.AddMemory | server-web/prometheus/client.go:126-130 | Changes memory and last scrape of one host only |
| HostMerge.GetHosts | server-web/prometheus/client.go:93-145 | A strictly ascending list of exactly the built hosts, or nothing when a query fails |
| HostList.FilterByInstances | server-web/host/service.go:266-278 | Keeps the group's hosts in order |
| HostList.FilterByStatus | server-web/host/service.go:280-298 | Keeps hosts by status; down means anything but up, an unknown filter keeps none |
| HostList.FilterByQuery | server-web/host/service.go:300-313 | Keeps hosts whose lower-cased instance contains the query |
| HostList.FilterByRisk | server-web/host/service.go:315-335 | Keeps hosts at or above 80 CPU or 85 memory; an unknown filter keeps none |
| HostList.FourPasses | server-web/host/service.go:337-339 | Four filters one after another keep what all four together want |
| HostList.ListingIs | server-web/host/service.go:123-127 | A listing holds each wanted host as often as the input, no other, and in the order asked for |
| HostList.ListingMembers | server-web/host/service.go:266-335 | Which hosts a listing holds, filter value by filter value |
| HostList.ListingOrder | server-web/host/service.go:371-396 | In which order, by the name of the sort |
| HostList.DistinctIsCanonical | server-web/host/service.go:123-127 | Every permutation of hosts with distinct instances gives the same listing |
| HostList.CanonicalIffSettled | server-web/host/service.go:123-127 | In general that holds if and only if no two different wanted hosts tie |
| HostList.Service.Hosts | server-web/host/service.go:103-144 | The answer and the cache after a call: empty group, hit, failed fetch, miss |
| HostList.SamplesToListing | server-web/host/service.go:103-144 | A cached list and a fetched one made from the same agreeing samples in any order answer alike |
| HostList.EmptyGroupListsNothing | server-web/host/service.go:104-106 | The early empty answer for an empty group is what the full path would give |

## Left out

- HTTP and gin routing, gorm and SQL text, the sarama, go-redis and websocket libraries, logging, tracing and metrics registries: only the decisions around them are modelled.
- Error values: an error is permanent or transient; the wrapping done by `Permanent` and `IsPermanent` is not modelled.
- Offset commits: marks are a set of offsets; which unmarked messages the broker redelivers is not claimed.
- Errors of the alert service without a Redis client or store, or with a disabled one: single early returns.
- Redis memory eviction, clock differences between servers, key expiry during a transaction.
- AlertService.Store.Process: the receive time and the full payload encoding are one text, since the store only forwards it.
- Limiter.WindowSafety: a run has fewer than 2^64 requests, since the member sequence wraps there.
- MySQL datetime precision, isolation between concurrent webhook calls, and read errors inside the history transaction beyond a rollback.
- JSON marshalling errors of the webhook, and corrupted or payload-free entries of the stream and the active hash, which the readers skip.
- The list of active alerts (`ActiveAlerts`): a filter and a sort.
- The unlocked read of the number of connections in `ServeWS`: the early refusal it gives is only advice, the hub checks again.
- WebsocketHub.Hub.ServeWS: clients are identities, not pointers, and the upgrade always works.
- Ping, deadlines and close frames of the websocket pumps; a failed write only stops a client from taking messages.
- The reconnect delay and its jitter in the subscriber; a step may reconnect at any time.
- Partial file writes, concurrent rule syncs, a crash between the steps of one, and the reading of rules from the database.
- RuleRender.QuoteReads: rule texts are sequences of Unicode characters, so invalid UTF-8 and its `\x` escapes above 0x7f are not covered.
- RuleRender.DocumentReads: the reader is a line parser for the rendered form, not a YAML parser.
- HostMerge.GetHosts: sample values are reals and times whole nanoseconds, so NaN, infinities and the parsing of Prometheus answers are not covered.
- Dashboard averages, range queries, request parsing and pagination, tokens, passwords, roles, CORS and URL checks, configuration, probes, front end and deployment files.
