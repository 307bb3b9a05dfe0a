# A model of the monitoring system's metric, alert and plugin pipeline

These Dafny modules model the stateful core of the monitoring system and prove what it keeps over whole runs.

- `LruCache`, `ProfileStats`, `CentralCollectors`, `CollectorRuns`: the central collector with its
  size-limited profile table and running aggregates. `DoubleCheckedCreation` takes the same code apart into the
  steps between its locks and lets threads interleave; `ThreadLocalBuffers` feeds the collector in batches.
- `PerformanceProfilers`: the profiler, whose table is also touched by reads, with a sliding window per operation.
- `Sorting`, `TagEncoding`, `TaggedMetrics`, `MetricHistory`: the metric store keyed by one string that stands for a
  name with tags.
- `AlertManagers`, `AlertRuns`, `AlertOutcomes`, `AlertRules`: alerts, silences, repeat notifications, cleanup, rule
  registration.
- `BufferStrategies`, `BufferContents`, `BufferManagers`, `BufferHistory`, `BufferLosses`, `Subsequences`: the
  buffering strategies and the manager that hands their items to storage.
- `CollectorRegistries`, `PluginOutcomes`: the life of plugins from registration or factory to destruction.
- `TraceTree`, `Histograms`, `MetricHash`, `AdaptiveMonitors`: the walk over a trace, cumulative histograms, the
  metric-name hash, and the choice of collectors under load.

Code that updates objects is written as classes whose methods are proved equal to a step on values (`Abs()`); the
theorems are about runs of those steps. Clock readings, answers of notifiers, factories and plugins, and the
enumeration order of hash maps are parameters, so the theorems hold for all of them.

Where code and documentation disagree, the code is followed:

- The table of profiles holds `max(1, limit - 1)` entries, not `limit`, because the new key is already in the map
  when its size is tested. The comment at tests/test_lock_free_collector.cpp:148 speaks of exactly `limit`.
- The average divides a signed total by an unsigned count, so it is the mean only for a non-negative total or one
  call (`AverageIsMean`, `NegativeAverageWraps`).
- Cleaning up silences also erases those that have not started yet; `CleanupKeepsVerdictsIff` says exactly when that
  changes which alerts are silenced (`ScheduledSilenceForgotten` is an instance).
- After a start that was suppressed by a silence, a repeat notification can still come in that firing episode if and
  only if an earlier episode left a notification time behind (`SuppressedStartRepeatsIff`, `NotedInEarlierEpisode`);
  without one the episode stays silent (`SilentStartStaysSilent`).
- The immediate strategy never hands anything over, and a ring asked for a power of two of items holds one less
  (`RingHoldsMaximumIff`); `HandedOverInFullIff` says exactly when nothing is lost.
- Clearing the plugin registry destroys plugins that are running if it was shut down before they were initialized
  (`ClearStopsAllIff`, `ClearAfterLateInitialize`).
- The walk over a trace does not end on every input: `WalkEndsIff` says on which it does. Unique non-empty ids are
  enough, acyclic parent links are not needed (`UniqueIdsNeverReturn`).
- Two different metrics can share a storage key; `KeySharedIff` says exactly when.
- A rule group with two rules of one name is accepted and keeps only the later one (`GroupStoredIffDistinct`).

## Model

| member | source | states |
|---|---|---|
| CollectorRuns.LruKeepsMostRecent | src/core/central_collector.cpp:35-108 | After any sequence of batches read with a strictly increasing clock, an operation is stored exactly when it is among the max(1, limit - 1) most recently sampled distinct ones, and no more than that many are stored. |
| LruCache.AccessKeepsCapacity | src/core/central_collector.cpp:48-60 | While all stamps are below the clock's maximum (ties and disorder included), an access never takes the table beyond max(1, limit - 1) entries. |
| CollectorRuns.NeverOverCapacity | src/core/central_collector.cpp:21-108 | Over any run of batches, at any readings below the clock's maximum, ties and disorder included, no more than max(1, limit - 1) profiles are ever stored. |
| LruCache.AccessRefinesPromote | src/core/central_collector.cpp:89-108 | Searching for the smallest stamp and erasing it is the same as moving to the front of a list and cutting its tail; it evicts exactly when a new name meets a full table. |
| LruCache.PromoteFollowsRecency | src/core/central_collector.cpp:48-66 | The listed names are the history's distinct names, latest first, cut at the capacity. |
| LruCache.RecencyRank | src/core/central_collector.cpp:62-66 | The place of a name in that order is the set of distinct names used after it: an independent definition of recency. |
| LruCache.RecencyPrefix | src/core/central_collector.cpp:62-66 | The first c names of the order are exactly the c most recently used distinct names. |
| CollectorRuns.NothingIsLost | src/core/central_collector.cpp:21-108 | Between batches, samples received = calls in stored profiles + calls in evicted profiles, profiles created = stored + evictions, and each stored profile is the aggregate of exactly the last samples received of its operation, as many as it has calls, for any clock at all. |
| CollectorRuns.StoredProfilesConsistent | src/core/central_collector.cpp:71-86 | Every stored profile has errors <= calls and min * calls <= total <= max * calls; with a non-negative total also min <= average <= max. |
| CollectorRuns.DeliveryMirrors | src/core/central_collector.cpp:21-33 | With a strictly increasing clock a run of batches, however cut, is the clockless run over all samples in order; the batch counter counts the non-empty batches. |
| CollectorRuns.CuttingDoesNotMatter | src/core/central_collector.cpp:21-33 | Two runs over the same samples, cut and timed differently, each with a strictly increasing clock, leave the same profiles, sample total and evictions. |
| CollectorRuns.ReorderingDoesNotMatter | src/core/central_collector.cpp:71-86 | With no more distinct operations than the capacity, any permutation of the samples leaves the same profiles, each the summary of its operation's samples, and nothing is evicted, at any clock readings, equal ones included. |
| ProfileStats.AggregatesAreExact | src/core/central_collector.cpp:71-86 | Calls, errors, total, minimum and maximum are what their names say about the samples, attained and not just bounds. |
| ProfileStats.ErrorsCountFailures | src/core/central_collector.cpp:72-75 | The error count is the number of positions whose sample did not succeed. |
| ProfileStats.TotalBracketed | src/core/central_collector.cpp:77-81 | min * calls <= total <= max * calls after any samples. |
| ProfileStats.AverageIsMean | src/core/central_collector.cpp:83-86 | The stored average is the rounded mean if and only if the total is non-negative or there was one call. |
| ProfileStats.AverageOfNegative | src/core/central_collector.cpp:83-86 | A negative total over two calls or more is read as unsigned 64 bits: the average is that number's rounded quotient. |
| ProfileStats.NegativeAverageWraps | src/core/central_collector.cpp:83-86 | Two calls of -1 ns give an average of 2^63 - 1. |
| ProfileStats.AverageBracketed | src/core/central_collector.cpp:77-86 | With a non-negative total that fits, min <= average <= max. |
| ProfileStats.OrderDoesNotMatter | src/core/central_collector.cpp:71-86 | Every operation's aggregates depend on the multiset of the samples alone. |
| CentralCollectors.ProfileData.Aggregate | src/core/central_collector.cpp:62-86 | Stores the access time and adds one sample to every aggregate. |
| CentralCollectors.CentralCollector.EvictLru | src/core/central_collector.cpp:89-108 | Erases a profile with the smallest access time below the clock's maximum, and counts it; passes over entries without an object; erases nothing only if no such profile exists. |
| CentralCollectors.CentralCollector.Create | src/core/central_collector.cpp:48-60 | The size is tested with the new key already entered; the result is the old table less the victim plus one empty profile. |
| CentralCollectors.CentralCollector.ProcessSample | src/core/central_collector.cpp:35-87 | One step of the value model, through profile objects owned by one name each. |
| CentralCollectors.CentralCollector.ReceiveSamples | src/core/central_collector.cpp:21-33 | An empty batch changes nothing; otherwise the counters move and the samples are processed in order. |
| CentralCollectors.CentralCollector.GetProfile | src/core/central_collector.cpp:110-123 | The stored aggregates, or nothing for an unknown operation. |
| CentralCollectors.CentralCollector.Clear | src/core/central_collector.cpp:138-144 | Back to the initial state, so theorems from the start are theorems since the last clear. |
| DoubleCheckedCreation.InvariantHolds | src/core/central_collector.cpp:38-86 | For any number of threads and any interleaving of lookup, creation, access-time store and update, with no more names than the capacity: one object per name, every held pointer is the stored one, the aggregates are those of the finished updates. |
| DoubleCheckedCreation.SafeUnderEveryInterleaving | src/core/central_collector.cpp:38-86 | When all threads are done, every operation's profile is the one that running the threads one after the other would build: no update is lost, none counted twice. |
| DoubleCheckedCreation.MoveKeepsNames | src/core/central_collector.cpp:48-60 | No step replaces or removes the object of a stored name. |
| DoubleCheckedCreation.StampsFollowTouches | src/core/central_collector.cpp:57-66 | The access time is stored in the profile in hand, and in no other; creation and update store none. |
| ThreadLocalBuffers.BatchingIsInvisible | src/core/thread_local_buffer.cpp:49-75 | With strictly increasing clocks, recording with automatic flush and a final flush leaves the same profiles, sample total and evictions as direct delivery, in exactly ceil(n / capacity) batches. |
| ThreadLocalBuffers.CutIsFaithful | src/core/thread_local_buffer.cpp:49-75 | Batches in order followed by the pending samples are the recorded samples; every automatic batch is a full buffer. |
| ThreadLocalBuffers.BatchCount | src/core/thread_local_buffer.cpp:49-75 | The batches concatenate to the samples, their number is ceil(n / capacity), none is empty or too long. |
| ThreadLocalBuffers.AcceptsAllIffCapacity | src/core/thread_local_buffer.cpp:49-57 | A connected buffer accepts every sample if and only if its capacity is at least 1. |
| ThreadLocalBuffers.AloneKeepsFirst | src/core/thread_local_buffer.cpp:33-62 | Without a collector a buffer keeps the first samples that fit and refuses exactly the others. |
| ThreadLocalBuffers.FleetConserves | src/core/thread_local_buffer.cpp:26-75 | At every moment of any mix of recordings, flushes by hand and buffers ending, what the collector has of a buffer followed by what the buffer holds is what was recorded there, in order. |
| ThreadLocalBuffers.InterleavingKeepsOrder | src/core/thread_local_buffer.cpp:26-75 | Once no buffer holds anything, what the collector received is an interleaving that keeps each buffer's samples, all of them, in order. |
| ThreadLocalBuffers.SeveralBuffersDeliver | src/core/thread_local_buffer.cpp:33-75 | Several buffers leave the collector's profiles, total and evictions as direct delivery of that interleaving does (strictly increasing clocks). |
| ThreadLocalBuffers.SeveralBuffersWithRoom | src/core/thread_local_buffer.cpp:33-75 | With room for every operation they leave the profiles of delivering each sample the moment it was recorded, at any clock readings. |
| ThreadLocalBuffers.ThreadLocalBuffer.Record | src/core/thread_local_buffer.cpp:33-47 | Appends and counts the sample unless the buffer is full, overwriting or growing the reused array. |
| ThreadLocalBuffers.ThreadLocalBuffer.RecordAutoFlush | src/core/thread_local_buffer.cpp:49-57 | Follows the batching protocol, hands the collector exactly the pending samples when it flushes, and keeps all three counters. |
| ThreadLocalBuffers.ThreadLocalBuffer.Flush | src/core/thread_local_buffer.cpp:59-75 | Hands over all pending samples as one batch and empties the buffer; without a collector it changes nothing. |
| ThreadLocalBuffers.ThreadLocalBuffer.Destroy | src/core/thread_local_buffer.cpp:26-31 | The pending samples reach the collector. |
| PerformanceProfilers.WindowMatchesCounters | src/core/performance_monitor.cpp:43-121 | In every state of every run of recording, reading, clearing and switching off, a stored operation's window is exactly the last min(calls, limit) durations since it was created or cleared, and its counters count those records. |
| PerformanceProfilers.ReadsKeepProfilesAlive | src/core/performance_monitor.cpp:43-141 | With a strictly increasing clock the stored operations are the most recently used ones, where the uses are the recordings while enabled and the reads of stored operations, read from the calls. |
| PerformanceProfilers.StampIsLatestUse | src/core/performance_monitor.cpp:95-141 | At any clock readings the access time of a stored operation is that of its latest recording or read. |
| PerformanceProfilers.ClearingEmpties | src/core/performance_monitor.cpp:440-463 | Clearing one or all leaves empty windows and zero counters, the same operations and their access times. |
| PerformanceProfilers.PerformanceProfiler.OldestProfile | src/core/performance_monitor.cpp:71-83 | The eviction search finds a smallest access time, or nothing only if all stamps are at the maximum. |
| PerformanceProfilers.PerformanceProfiler.RecordSample | src/core/performance_monitor.cpp:43-121 | One recording step of the value model; nothing happens while disabled. |
| PerformanceProfilers.PerformanceProfiler.GetMetrics | src/core/performance_monitor.cpp:123-171 | Returns counters and window and refreshes the access time; an unknown name changes nothing. |
| PerformanceProfilers.PerformanceProfiler.ClearSamples | src/core/performance_monitor.cpp:440-452 | Empties the window and counters of one operation and keeps its access time. |
| PerformanceProfilers.PerformanceProfiler.ClearAllSamples | src/core/performance_monitor.cpp:454-463 | The same for every operation. |
| TagEncoding.KeyIsInjective | src/core/performance_monitor.cpp:471-486 | Metrics whose names hold no ';', tag keys no ';' or '=', and tag values no ';' share a key if and only if they have the same name and the same tag map, however the maps are enumerated. |
| TagEncoding.KeyIgnoresEnumeration | src/core/performance_monitor.cpp:474-477 | The key does not depend on the enumeration order of the tags, for any characters. |
| TagEncoding.RoundTripIffClean | src/core/performance_monitor.cpp:471-486 | Cutting the key apart again gives back name and tags if and only if they avoid the delimiters. |
| TagEncoding.ListedNameIffNoSemicolon | src/core/performance_monitor.cpp:561-566 | The name listed for a metric is the recorded one if and only if it has no ';'. |
| TagEncoding.KeySharedIff | src/core/performance_monitor.cpp:471-486 | A named metric shares its key with another named one if and only if it has a tag, or its name has a '=' after a ';' at position 1 or later. |
| TagEncoding.DelimiterCollision | src/core/performance_monitor.cpp:471-486 | An instance: a name with a ';' takes the key of a tagged metric. |
| TagEncoding.MakeMetricKey | src/core/performance_monitor.cpp:471-486 | The loop builds the encoding of the sorted tags. |
| Sorting.SortUnique | src/core/performance_monitor.cpp:474-477 | Sorted sequences with the same elements are equal, so the key does not depend on the sorting algorithm. |
| TaggedMetrics.RecordRefines | src/core/performance_monitor.cpp:488-538 | One clean recording under the string key is the recording in a store keyed by (name, tag map). |
| TaggedMetrics.RunRefines | src/core/performance_monitor.cpp:488-579 | Over any run of clean recordings and clears the string-keyed table refines that store. |
| TaggedMetrics.ListingIsExact | src/core/performance_monitor.cpp:555-574 | After any such run a listing reports exactly the recorded metrics with their names, tags and data, each once. |
| MetricHistory.ListedAsRecorded | src/core/performance_monitor.cpp:488-574 | From the calls since the last clear: a metric is listed with the kind of its first call and the time of its latest; its value is what the latest gauge or histogram call set plus the counter calls since (the plain sum for a counter); its histogram holds the last 1000 histogram values. |
| MetricHistory.OnlyRecordedListed | src/core/performance_monitor.cpp:555-579 | Whatever is listed was recorded since the last clear. |
| TaggedMetrics.PerformanceMonitor.RecordMetric | src/core/performance_monitor.cpp:488-538 | Disabled and nameless calls change nothing; otherwise the entry is created with the type and tags of the first call and updated by the type of this call. |
| TaggedMetrics.PerformanceMonitor.GetAllTaggedMetrics | src/core/performance_monitor.cpp:555-574 | Every table entry is listed exactly once, under the name cut from its key. |
| TaggedMetrics.EveryMetricListed | src/core/performance_monitor.cpp:555-574 | The listing reports every recorded metric with its own name, tags and value. |
| TaggedMetrics.OnlyMetricsListed | src/core/performance_monitor.cpp:555-574 | The listing reports nothing else. |
| TaggedMetrics.ListedOnce | src/core/performance_monitor.cpp:555-574 | No (name, tags) pair is listed twice. |
| AlertManagers.AlertManager.UpdateAlertState | src/alert/alert_manager.cpp:374-440 | One evaluation: the step of the value model for a condition that holds or does not. |
| AlertManagers.AlertManager.SendNotifications | src/alert/alert_manager.cpp:442-462 | Counts delivered and rejected answers of the ready notifiers and stamps the alert. |
| AlertManagers.AlertManager.ResolveAlert | src/alert/alert_manager.cpp:193-207 | Resolves only what may be resolved, and notifies without asking the silences. |
| AlertManagers.AlertManager.CreateSilence | src/alert/alert_manager.cpp:209-219 | Accepted exactly while there are fewer silences than allowed. |
| AlertManagers.AlertManager.CleanupExpiredSilences | src/alert/alert_manager.cpp:464-475 | The erasing loop keeps exactly the silences active now. |
| AlertManagers.AlertManager.CleanupResolvedAlerts | src/alert/alert_manager.cpp:477-492 | The erasing loop removes exactly the alerts resolved longer ago than the timeout, with their notification times. |
| AlertRuns.FiringHasHistory | src/alert/alert_manager.cpp:383-422 | In every reachable state a firing alert was put into pending by one evaluation and made to fire by a later one at least the rule's duration after; every evaluation from the first on met the condition. |
| AlertRuns.FiringTakesTwoEvaluations | src/alert/alert_manager.cpp:384-406 | One evaluation never makes an alert fire, even with a zero duration. |
| AlertOutcomes.PendingFiresIff | src/alert/alert_manager.cpp:394-405 | The converse: an alert pending since call i fires at a later met evaluation if and only if the rule's duration is over by then; otherwise it stays pending. |
| AlertOutcomes.MetOutcome | src/alert/alert_manager.cpp:383-422 | The state after an evaluation that is met, from every state before. |
| AlertOutcomes.UnmetOutcome | src/alert/alert_manager.cpp:423-438 | The state after an evaluation that is not met, from every state before. |
| AlertOutcomes.HandOutcome | src/alert/alert_manager.cpp:193-207 | Resolving by hand changes a firing alert and no other. |
| AlertOutcomes.FieldsFollowCalls | src/alert/alert_manager.cpp:390-438 | A call keeps the labels; the value is that of the latest met evaluation, the update stamp that of the latest change of state, start and resolution stamps those of the first firing and the latest resolution. |
| AlertOutcomes.NewAlert | src/alert/alert_manager.cpp:384-389 | A new alert is pending, with the labels and value of the met evaluation that created it. |
| AlertRuns.FiringAccounted | src/alert/alert_manager.cpp:374-492 | Alerts firing now = moves from pending to firing minus moves from firing to resolved, over any run. |
| AlertRuns.ResolvedAccounted | src/alert/alert_manager.cpp:430-437 | alerts_resolved counts exactly the moves from firing to resolved, by evaluation or by hand. |
| AlertRuns.CreatedAccounted | src/alert/alert_manager.cpp:384-389 | alerts_created = alerts stored + alerts erased by cleanup. |
| AlertRuns.SuppressedAccounted | src/alert/alert_manager.cpp:398-404 | alerts_suppressed counts exactly the moves from pending to firing that sent nothing. |
| AlertRuns.FiringNotifiesOrIsSuppressed | src/alert/alert_manager.cpp:398-404 | Starting to fire sends one round or counts one suppression, never both, and the silences decide which. |
| AlertOutcomes.ResolutionAsksSilences | src/alert/alert_manager.cpp:423-438 | An evaluation that takes an alert from firing to resolved sends exactly one round, of the resolution, if no silence covers it, and none otherwise; no other unmet evaluation sends anything. The counters of sent and failed notifications follow. |
| AlertOutcomes.FiringAsksSilences | src/alert/alert_manager.cpp:394-416 | A met evaluation sends a round if and only if it starts the firing or the repeat interval is over, and no silence covers the alert. |
| AlertOutcomes.HandAsksNoSilence | src/alert/alert_manager.cpp:193-207 | Resolving a firing alert by hand sends exactly one round, silenced or not; any other sends none. |
| AlertOutcomes.SilencedIff | include/kcenon/monitoring/alert/alert_types.h:402-424 | Who is silenced and when: the window is half open, and a missing label counts as the empty string. |
| AlertRuns.OnlyExpiredErased | src/alert/alert_manager.cpp:477-492 | An alert disappears if and only if cleanup finds it resolved longer ago than the timeout; never a pending or firing one. |
| AlertOutcomes.ErasedIff | src/alert/alert_manager.cpp:477-492 | The same with the timeout spelled out: strictly longer ago; calls not aimed at an alert leave the stored ones as they are. |
| AlertRuns.NotificationTimesAreLatest | src/alert/alert_manager.cpp:442-462 | Notification times belong to stored alerts and are the time of the alert's latest round. |
| AlertOutcomes.NotedIff | src/alert/alert_manager.cpp:460-486 | A notification time is there after a call if and only if the call sent the round, or it was there and the alert is still stored. |
| AlertRuns.RoundsAreSpaced | src/alert/alert_manager.cpp:406-416 | Within one firing episode consecutive rounds are at least the repeat interval apart. |
| AlertRuns.RepeatRateLimited | src/alert/alert_manager.cpp:406-416 | Within one episode any span of length L holds at most floor(L / interval) + 1 rounds. |
| AlertRuns.RepeatStep | src/alert/alert_manager.cpp:406-416 | A call on a firing alert sends a round if and only if a notification time is noted, the interval is over and no silence matches. |
| AlertRuns.SilentStartStaysSilent | src/alert/alert_manager.cpp:406-416 | An alert firing without a notification time sends nothing for as long as it fires. |
| AlertRuns.SuppressedStartRepeatsIff | src/alert/alert_manager.cpp:398-416 | In any run, after a suppressed start, evaluations by the same rule can still send a round in the same firing episode if and only if a notification time was noted before that start. |
| AlertRuns.NotedInEarlierEpisode | src/alert/alert_manager.cpp:398-416 | An eight-call run in which a suppressed start is followed by a round in the same episode. |
| AlertRuns.CleanupKeepsVerdictsIff | src/alert/alert_manager.cpp:464-475 | Cleanup never changes whether any alert is silenced, then or later, if and only if every non-empty silence still waiting to start has an active one with no more matchers that lasts as long. |
| AlertRuns.CleanupKeepsVerdicts | src/alert/alert_manager.cpp:464-475 | In particular it never does when no silence is waiting to start. |
| AlertRuns.ScheduledSilenceForgotten | src/alert/alert_manager.cpp:464-475 | A silence announced for later is erased by an earlier cleanup and does not silence. |
| AlertRules.RuleBook.AddRule | src/alert/alert_manager.cpp:64-83 | A missing, invalid or duplicate rule is refused, in that order, and changes nothing. |
| AlertRules.RuleBook.AddRuleGroup | src/alert/alert_manager.cpp:118-139 | If a name of the group is taken nothing changes; otherwise its rules are entered one after the other. |
| AlertRules.GroupStoredIffDistinct | src/alert/alert_manager.cpp:125-135 | An accepted group keeps every stored rule; under each name of the group the last rule of that name is stored; the book grows by the size of the group if and only if its names are distinct. |
| BufferLosses.HandedOverInFullIff | src/utils/buffer_manager.h:164-352 | Over any run of add, flush, background check, reconfigure and remove without priority-based buffers: what storage got followed by what is buffered is what was given, in order, if and only if every addition found room and every emptying met a storage and no outdated item, with room and age limit of the configuration read from the calls. |
| BufferHistory.ConfigFollowsCalls | src/utils/buffer_manager.h:288-352 | A name has a buffer if and only if the calls say so; its configuration is that of the latest accepted configure since it was last removed, or the defaults if there is none; other calls change nothing. |
| BufferHistory.ReplacedIsEmpty | src/utils/buffer_manager.h:330-349 | After a configure, a flush or a removal of the name nothing is buffered under it. |
| BufferHistory.GivenFollowsCalls | src/utils/buffer_manager.h:288-312 | The items given under a name are, in order, its accepted additions with their metrics, priorities and times. |
| BufferHistory.FlushStatistics | src/utils/buffer_manager.h:224-254 | With additions and flushes only, the processed items are exactly those in storage, and only flushes that hand something over count. |
| BufferLosses.AccountedInFullIff | src/utils/buffer_manager.h:164-352 | For every strategy, priority-based ones too: what storage got and what is buffered are together the given items, in some order, if and only if every addition found room and every emptying met a storage and no outdated item. |
| BufferLosses.StepLoses | src/utils/buffer_manager.h:195-352 | The same for one call: exactly when it loses an item. |
| BufferManagers.ExactlyOnce | src/utils/buffer_manager.h:164-533 | Over any run every item given under a name is in exactly one of storage, the buffer and the losses, and total_buffers is the number of buffers. |
| BufferManagers.InOrderHandOver | src/utils/buffer_manager.h:164-352 | Without priority-based buffers, hand-over followed by the buffer keeps the order of arrival. |
| BufferManagers.CompleteIffNothingLost | src/utils/buffer_manager.h:195-255 | The surviving items are all the given ones, in order, if and only if the strategies reported no loss. |
| BufferManagers.BufferManager.AddToBuffer | src/utils/buffer_manager.h:288-312 | Creates the default strategy on first use, or fails if that cannot be built; then adds. |
| BufferManagers.BufferManager.FlushOne | src/utils/buffer_manager.h:195-255 | Empties one buffer to storage and counts non-empty flushes; an unknown name changes nothing. |
| BufferManagers.BufferManager.ConfigureMetricBuffer | src/utils/buffer_manager.h:317-352 | Hands over the old buffer before replacing it; an unusable configuration changes nothing. |
| BufferManagers.BufferManager.RemoveBuffer | src/utils/buffer_manager.h:510-533 | Hands over, then forgets the buffer. |
| BufferManagers.BufferManager.ForceFlushAll | src/utils/buffer_manager.h:364-383 | Flushes every buffer, in the order of a snapshot of the names. |
| BufferManagers.BufferManager.CheckAndFlushBuffers | src/utils/buffer_manager.h:164-190 | Flushes the due buffers, at most the allowed number of them, in order. |
| BufferStrategies.AddConserves | src/utils/buffering_strategy.h:339-677 | For every strategy an addition keeps or loses every item exactly once, loses one if and only if there is no room, and stays within its limits. |
| BufferStrategies.FlushConserves | src/utils/buffering_strategy.h:446-703 | A flush hands over or expires every item exactly once and leaves the buffer empty. |
| BufferStrategies.RingHoldsMaximumIff | src/utils/buffering_strategy.h:49-62 | The ring can hold the configured maximum if and only if that maximum is not a power of two. |
| BufferStrategies.OverflowCountedIff | src/utils/buffering_strategy.h:427-441 | The overflow statistic of an overwriting fixed-size buffer equals the loss at every fill level if and only if the configured size is the ring's limit. |
| BufferStrategies.PriorityDropsLowest | src/utils/buffering_strategy.h:656-677 | A full priority buffer drops an item of lowest priority, the latest of those. |
| BufferStrategies.PriorityFlushInOrder | src/utils/buffering_strategy.h:679-703 | A priority buffer hands over all it holds, by falling priority and rising number within a priority. |
| BufferStrategies.HistoryIsNumbered | src/utils/buffering_strategy.h:414-677 | In every reachable strategy that buffers, the i-th item to arrive has number i, and every item held is one that arrived and is held once. |
| BufferStrategies.PriorityFlushFollowsArrival | src/utils/buffering_strategy.h:656-703 | So a reachable priority buffer hands over by falling priority and, within one, strictly in order of arrival. |
| BufferContents.NewestKept | src/utils/buffering_strategy.h:394-444 | A buffer that makes room (time-based, adaptive, or fixed-size with an overwriting policy) holds the latest of the items that arrived since the last flush, in order. |
| BufferContents.OldestKept | src/utils/buffering_strategy.h:414-444 | A fixed-size buffer that drops new items holds the first of them. |
| BufferContents.ImmediateHoldsNothing | src/utils/buffering_strategy.h:339-353 | The immediate kind never holds an item nor hands one over. |
| BufferContents.FixedSizeFlushesByAge | src/utils/buffering_strategy.h:456-464 | A fixed-size flush hands over exactly the items not older than the maximal age and loses exactly the others. |
| BufferContents.LossesCounted | src/utils/buffering_strategy.h:414-442 | The refusing fixed-size kind and the priority-based one count exactly the items they lose. |
| BufferContents.SlotsAreLeastPower | src/utils/buffering_strategy.h:49-62 | The ring has the least power of two of slots that is not below the configured maximum. |
| BufferStrategies.Validate | src/utils/buffering_strategy.h:143-180 | The configuration checks, in order; none fails exactly for the stated ranges. |
| BufferStrategies.BufferStrategy.AddMetric | src/utils/buffering_strategy.h:414-444 | The new contents and losses of an addition for each strategy, and the overflow count of the fixed-size and priority ones. |
| BufferStrategies.BufferStrategy.FlushItems | src/utils/buffering_strategy.h:446-470 | What a flush returns and drops: outdated items of a fixed-size buffer go and are counted, the rest keeps its order. |
| CollectorRegistries.LifecyclesAlternate | src/plugins/collector_registry.cpp:83-239 | In every reachable state both maps have the same keys, and every plugin, stored or destroyed, was initialized and shut down in strict alternation, the flag telling whether it runs. |
| CollectorRegistries.NeverDestroyedRunningIff | src/plugins/collector_registry.cpp:298-307 | Over any run, no plugin was destroyed while running if and only if every clear met a registry that was not already shut down or had no running plugin. |
| CollectorRegistries.NeverDestroyedRunning | src/plugins/collector_registry.cpp:187-307 | In particular none is, if nothing is initialized between a shutdown and the next clear. |
| CollectorRegistries.ClearStopsAllIff | src/plugins/collector_registry.cpp:298-307 | Clearing destroys no running plugin if and only if the registry was not already shut down or nothing runs. |
| CollectorRegistries.ClearAfterLateInitialize | src/plugins/collector_registry.cpp:298-307 | A plugin initialized after a shutdown is destroyed running by the next clear. |
| PluginOutcomes.InitializeOutcome | src/plugins/collector_registry.cpp:187-210 | In any reachable state, after an initialization a name runs if and only if it ran before, or its initialization succeeds and it was stored or had a factory yielding a usable product; the stored names are the old ones and those products; exactly the factories of the products entered are gone. |
| PluginOutcomes.InitializeEvents | src/plugins/collector_registry.cpp:197-207 | A plugin is initialized exactly once when it is newly running, and otherwise not called; nothing is destroyed. |
| PluginOutcomes.GetOutcome | src/plugins/collector_registry.cpp:129-165 | Asking for one or all plugins enters exactly the usable products of the factories asked, not running. |
| PluginOutcomes.RegisterOutcome | src/plugins/collector_registry.cpp:83-107 | An available plugin under a new name is entered, not running; any other registration changes nothing. |
| PluginOutcomes.UnregisterOutcome | src/plugins/collector_registry.cpp:109-127 | A stored plugin is destroyed, shut down first exactly if it ran; everything else stays. |
| PluginOutcomes.ShutdownOutcome | src/plugins/collector_registry.cpp:212-239 | The first shutdown stops every running plugin, once, and keeps all plugins; a later one changes nothing. |
| PluginOutcomes.ClearOutcome | src/plugins/collector_registry.cpp:298-307 | Clearing leaves an empty registry that can be used again, and destroys every stored plugin. |
| CollectorRegistries.CollectorRegistry.RegisterPlugin | src/plugins/collector_registry.cpp:83-107 | Enters an available plugin under a new name, not initialized. |
| CollectorRegistries.CollectorRegistry.UnregisterPlugin | src/plugins/collector_registry.cpp:109-127 | Shuts a running plugin down, then destroys it. |
| CollectorRegistries.CollectorRegistry.InstantiateFromFactory | src/plugins/collector_registry.cpp:313-346 | A usable product is entered and its factory forgotten; a failed one leaves the factory. |
| CollectorRegistries.CollectorRegistry.InstantiateFactories | src/plugins/collector_registry.cpp:152-155 | Calling the factories one by one enters exactly the usable products. |
| CollectorRegistries.CollectorRegistry.Initialize | src/plugins/collector_registry.cpp:187-210 | Tries every plugin that is not running and returns exactly the number running afterwards. |
| CollectorRegistries.CollectorRegistry.Shutdown | src/plugins/collector_registry.cpp:212-239 | Stops every running plugin once; a second shutdown changes nothing. |
| CollectorRegistries.CollectorRegistry.Clear | src/plugins/collector_registry.cpp:298-307 | Shuts down, destroys all plugins, forgets the factories and the shutdown. |
| TraceTree.TreeIsComplete | examples/multi_service_tracing_example.cpp:291-359 | A span is displayed at a depth if and only if a path of parent links of that length leads to it from the root. |
| TraceTree.TreeHasNoRepeats | examples/multi_service_tracing_example.cpp:350-359 | No span is displayed twice. |
| TraceTree.TreeParentsFirst | examples/multi_service_tracing_example.cpp:350-359 | Every span but the root comes after its parent, one level deeper. |
| TraceTree.EnoughLevels | examples/multi_service_tracing_example.cpp:350-359 | With unique non-empty ids the walk is the one cut off after as many levels as there are spans. |
| TraceTree.WalkEndsIff | examples/multi_service_tracing_example.cpp:291-359 | For any spans at all, the recursion from the root comes to an end if and only if no path of parent links from the root comes back to a span already on it. |
| TraceTree.WalkUpToIsExact | examples/multi_service_tracing_example.cpp:350-359 | For any spans at all, the first levels of the walk display exactly the ends of the paths from the root of that length, at their distance. |
| TraceTree.UniqueIdsNeverReturn | examples/multi_service_tracing_example.cpp:350-359 | Unique non-empty ids rule such a return out, even if parent links form cycles elsewhere. |
| TraceTree.RepeatedIdNeverEnds | examples/multi_service_tracing_example.cpp:350-359 | An instance: a child with its parent's id makes the walk endless. |
| TraceTree.RepeatedLeafEnds | examples/multi_service_tracing_example.cpp:350-359 | An instance: two leaves with one id do not. |
| TraceTree.FindRoot | examples/multi_service_tracing_example.cpp:294-306 | The first span without a parent, if there is one. |
| Histograms.HistogramData.Add | src/utils/metric_types.h:263-272 | Every bucket whose bound is at least the value counts it, besides total and sum. |
| Histograms.BucketsCountSamples | src/utils/metric_types.h:263-272 | After any samples each bucket counts the samples at or below its bound, whatever order the bounds are in. |
| Histograms.BucketsCountPositions | src/utils/metric_types.h:267-271 | The count is the number of positions whose sample is at most the bound; a bucket without bound counts all. |
| Histograms.NeighboursDiffer | examples/custom_metric_types_example.cpp:82-91 | Neighbours with ascending bounds differ by the positions above the one bound and at most the other. |
| Histograms.TotalsCountSamples | src/utils/metric_types.h:263-265 | The total counts the samples and the sum adds them. |
| Histograms.DifferencesCountIntervals | examples/custom_metric_types_example.cpp:82-91 | With ascending bounds counts never decrease, and a printed difference counts the samples above one bound and at or below the next. |
| Histograms.PrintedSumsToTotalIff | examples/custom_metric_types_example.cpp:82-91 | The printed numbers add up to the total if and only if no sample is above the last bound. |
| Histograms.StandardBucketsAddUp | src/utils/metric_types.h:284-291 | The standard bounds ascend and end with infinity, so their printed numbers always add up. |
| MetricHash.OneCharacterSeparates | src/utils/metric_types.h:335-343 | Names that differ in exactly one character never share a hash. |
| MetricHash.SuffixKeepsCollisions | src/utils/metric_types.h:335-343 | A common suffix neither creates nor removes a collision. |
| MetricHash.StepInjective | src/utils/metric_types.h:339-340 | Each xor-multiply step is injective in the hash so far, and in the character. |
| MetricHash.StepOnto | src/utils/metric_types.h:339-340 | Each step takes exactly one hash to any given one, so it is a bijection of 32-bit words. |
| MetricHash.SignednessShows | src/utils/metric_types.h:338-339 | A name with one character from 0x80 up has different hashes where char is signed and where it is not; others have one. |
| MetricHash.HashMetricName | src/utils/metric_types.h:335-343 | The loop computes the fold of the steps. |
| MetricHash.KnownHashes | src/utils/metric_types.h:335-343 | The empty name and "a" have the published FNV-1a values, so the character is combined before the multiplication. |
| AdaptiveMonitors.AdaptiveMonitor.ActiveCollectors | src/impl/adaptive_monitor.cpp:259-302 | The active list is the front of the sorted names, and a true top-k for the clipped band of the average load: distinct, by falling priority, no omitted collector above a kept one. |
| AdaptiveMonitors.AdaptiveMonitor.CollectorsByPriority | src/impl/adaptive_monitor.cpp:70-90 | Every collector once, by falling priority, equal priorities as the given sort leaves them. |
| AdaptiveMonitors.PrefixIsTopK | src/impl/adaptive_monitor.cpp:296-299 | Any front of the sorted list is a top-k selection. |
| AdaptiveMonitors.SheddingIsMonotone | src/impl/adaptive_monitor.cpp:259-302 | For any priorities and any sort, while only loads change, what is active at a higher load is the front of what is active at a lower one, and is not empty when a collector exists. |
| AdaptiveMonitors.SheddingKeepsTopPriorities | src/impl/adaptive_monitor.cpp:287-302 | Even between selections that order equal priorities differently the list never grows with the load, and its priorities agree place by place. |
| AdaptiveMonitors.TopKUnique | src/impl/adaptive_monitor.cpp:296-299 | Where priorities are distinct there is only one selection of k collectors. |
| AdaptiveMonitors.AverageIgnoresOrder | src/impl/adaptive_monitor.cpp:275-285 | The average load does not depend on the order in which the map enumerates the collectors. |
| AdaptiveMonitors.LoadTimesCount | src/impl/adaptive_monitor.cpp:275-285 | Over any enumeration, the load taken once per collector is the sum of the reported usages, a missing collector object counting as 0. |
| AdaptiveMonitors.LoadBracketed | src/impl/adaptive_monitor.cpp:275-285 | The load lies between the smallest and the largest usage, so it is the usage when all report the same. |
| AdaptiveMonitors.BandsBySum | src/impl/adaptive_monitor.cpp:287-299 | The number of active collectors from the sum of the usages: more than 80, 60 or 40 per collector, and the clipped shares of each band. |
| AdaptiveMonitors.AdaptiveMonitor.SetCollectorPriority | src/impl/adaptive_monitor.cpp:304-320 | Changes the priority of a known collector only. |

## Left out

- Threads, locks and memory orders, other than the step model of `DoubleCheckedCreation`; that model is for runs without eviction or clear, because the code may then use a profile that was destroyed. Elsewhere a call is one step.
- Integer overflow of counters and totals, and rounding of floating-point numbers: integers and reals are unbounded. The hash and the conversion in the stored average are modelled at their width. NaN is excluded.
- PerformanceProfilers.PerformanceProfiler.RecordSample: does not model the profile records as separate objects; they are values in the map, so pointers into the map are not captured. Both window limits are taken as at least 1.
- PerformanceProfilers.PerformanceProfiler.GetMetrics: does not model the percentiles and other figures computed from the window.
- Changing the window limit of the profiler during a run.
- AlertManagers.AlertManager.UpdateAlertState: does not model how the fingerprint is built from name and labels; it is a field of the alert. A check of all silences reads the clock once.
- AlertManagers.AlertManager.CleanupResolvedAlerts: does not model a clock that moves between two alerts of one cleanup.
- Evaluation of triggers, the evaluation loop, notifiers, aggregation and inhibition of alerts.
- BufferManagers.BufferManager.AddToBuffer: does not model the creation time of a buffer; an exception of the strategy factory is the failed result.
- BufferManagers.BufferManager.FlushOne: does not model flush callbacks, the active-flush counter (it is not balanced), or failed flushes, since no strategy's flush can fail.
- BufferManagers.BufferManager.CheckAndFlushBuffers: does not model the strategies' answers to whether a flush is due; they are a parameter.
- BufferManagers.BufferManager.ForceFlushAll: does not model its failed-flush count, which is added twice.
- BufferStrategies.BufferStrategy.AddMetric: does not model the adaptive strategy's load factor, and so not its overflow count under high load; nor the forced-flush counters of the time-based and adaptive strategies, nor contention inside the ring buffer; a storage series is the tagged hand-over only.
- Clearing all buffers, and buffer statistics other than the overflow and expiry counts.
- CollectorRegistries.CollectorRegistry.InstantiateFactories: models the loops over a snapshot of the factory names, where the code erases from the map it walks.
- CollectorRegistries.NeverDestroyedRunning: does not model the destructor, which shuts down like clear.
- CollectorRegistries.CollectorRegistry.Shutdown: does not model the order of shutdown; the code's comment promises reverse registration order, but the map it walks has no order.
- CollectorRegistries.CollectorRegistry.RegisterPlugin: a missing plugin counts as unavailable. A plugin from a library is entered the same way, and always taken as available; the foreign calls of the loader are not modelled.
- TraceTree.TreeIsComplete: does not model the rendering of a span; the walk is the list of spans with their depths.
- Histograms.PrintedSumsToTotalIff: does not model the wrap-around of a printed difference when bounds do not ascend.
- Summaries, time series, timer data, the metric query engine, the aggregation processor, random ids, platform collectors, dynamic loading, logging and benchmarks.
