# A verified model of the moqx relay core

moqx is a relay for Media over QUIC Transport. This project models seven of its
in-memory components in Dafny and proves what they are relied on for. Network
code, executors and sessions appear only as parameters: what the upstream does to
the cache during a fetch, what a downstream consumer answers, which thread acts
next, how the clock advances.

| component | files | main results |
|---|---|---|
| object cache | `Locations`, `FetchRanges`, `CacheTrack`, `CacheStore`, `FetchIterator`, `FetchLoop` | Whatever upstream fetches leave in the cache in between, the jumping fetch loop serves only what was complete and fresh, asks only for what was missing, and accounts for every location; if upstream fetches change nothing but what they are asked for, it serves and asks for what a walk over single locations would, except perhaps behind a served object in a known gap. Writes, gaps, expiry and eviction keep the index, the high-water marks, the eviction lists and the byte count right. |
| top-N ranking | `RankedList`, `TopNGroup`, `PropertyRanking` | After every operation each group has exactly its first N tracks, viewers that replay their callbacks, which are only ever added, hold exactly these, and publisher-subscribers are sent their first N tracks of others, with the exceptions listed below. The fast path skips work only where nothing changes. |
| namespace tree | `NamespaceTree` | The tree behaves like a flat map from namespaces to content: counting and pruning never lose or invent anything. |
| cross-executor filters | `CrossExecFilter` | Over all interleavings: no queued call runs on a filter that is gone, and downstream sees the accepted calls in order, all of them while no error is stored. |
| subscription registry | `SubscriptionRegistry` | Over all interleavings: promises settle once, a waiting entry has exactly one token, a stale token stays stale and harmless for good. |
| service matcher, DcSBD estimator | `ServiceMatcher`, `DcSbd` | The priority index answers like a scan of the flat rules; the ring buffer summary is that of the plain history, tells rising from falling delays and does not depend on the clock offset. |

`Common` holds facts about sums, lists and options. Classes stand for the objects
whose methods update their fields; most of their methods hand the work to methods
on values, so that the proofs do not reason about the heap. Each class has a
predicate `Valid` that its constructor establishes and every method keeps, so what
`Valid` says holds after every run of operations.

Some properties that the code suggests are false of it. The model keeps the code's
behaviour, shows the failing family and proves exactly when the property holds:

* The newest-first tail request built from the location {0, 0} misses group 0, goes
  below the start of the range or past its end: `FetchRanges.SentinelTail`.
* A received object outside the fetched range marks locations outside it:
  `FetchRanges.GapRangesInsideRange`. Newest first, an object received at the last
  position of group 0 becomes a gap when another follows it there, as the iterator
  cannot go on: `FetchIterators.ReceiveTwo`.
* A newest-first jump over a gap loses the rest of a group whose gap ends early:
  `FetchIterators.DescendingJump`. The jump over uncached content can leave the
  range in its topmost group and go back to its start in the lowest one:
  `NextBoundaryDescendingLeavesRange`, `PrevGroupCachedAtMinimum`.
* Beginning a cached object again leaves its location indexed though it is a miss
  (`CacheTracks.CacheObject`, its last clause, and `FetchLoop.RestartObject`). A turn of
  the fetch loop at such a location changes nothing, so the loop never leaves it
  (`FetchLoop.StuckTurn`); a miss moves on exactly when its location is not of this
  kind (`FetchLoop.Look`).
* If the group of a served object is forgotten while the upstream fetch in front of it
  is awaited, the rest of the group is neither served nor asked for, and nothing else is
  lost: `FetchLoop.FetchImpl` with `Lost`, `FetchLoop.SlipsExactly`,
  `FetchLoop.ForgottenGroupIsLost` and `FetchIterators.AdvanceAscendingExact`, with
  `FetchLoop.ForgottenObject` as the example.
* An end of track that is rejected for its location or its extensions is recorded all
  the same, without the gaps behind it: `CacheTracks.PublishObject`, with
  `CacheTracks.OpenEnd` as the example.
* A subscription to zero tracks sends a publisher every track of others:
  `TopNGroups.WantedIsPersonalTop`. A removal leaves some publisher-subscribers out of
  date: `PropertyRankings.RemovalServed`.
* Callbacks to a publisher-subscriber stay in step with what it is taken to be sent
  exactly when no track is given up to it that it is still sent:
  `TopNGroups.RegisterInGroup`, `MoveIn`, `MoveOut`, and over all groups
  `PropertyRanking.RegisterTrack` and `UpdateSortValue`. `TopNGroups.PushedOutStaysWanted`
  shows the failing case of a publisher whose own track enters the first N.
* A viewer that replays select and evict callbacks alone goes wrong exactly when a track
  it still holds from an earlier registration is registered below the first N:
  `PropertyRankings.RegisterReplays`, with `PropertyRankings.HeldOver` as the example.
* The count of active children exceeds their number exactly once content is put on a
  node that is counted already: `NamespaceTrees.AddContent`, `ReplacePublisher`. The
  publisher lookup, documented as a longest-prefix match (src/NamespaceTree.h:130), asks
  only the deepest existing node; it is right exactly when no node hides the longest
  prefix: `NamespaceTrees.LookupIsLongest`, `LookupByContents`, with
  `NamespaceTrees.HiddenPublisher` as the example. The model follows the code.
* A waiter may be handed an entry that is itself still waiting, exactly when a token is
  out for that entry: `SubscriptionRegistries.ResumedEntryIsReady`, with
  `WaiterMayMeetPendingEntry` as the example.

## Model

| member | source | states |
|---|---|---|
| IntervalSets.Insert | src/MoqxCache.h:300-305 | Adding an interval gives the union, still as sorted maximal runs (the interval set itself is not part of the repository). |
| IntervalSets.Remove | src/MoqxCache.cpp:2316 | Taking an interval out gives the difference, still as sorted maximal runs. |
| FetchRanges.FetchIntervalsCover | src/MoqxCache.cpp:53-133 | Between an in-range miss and a later in-range hit, in either order, the requested intervals are non-empty, cover exactly the locations visited and follow each other in iteration order. |
| FetchRanges.AscendingTailCovers | src/MoqxCache.cpp:63-71 | The oldest-first tail is everything from the miss to the end of the range. |
| FetchRanges.SentinelTail | src/MoqxCache.cpp:73-133 | The newest-first tail built from {0, 0} covers the rest of the range, and only that, iff a condition on start, end and miss holds. |
| FetchRanges.EndRoundTrip | src/MoqxCache.cpp:1660-1665 | The end of an upstream request decodes to the exclusive end it was made from; the other way round except at the last group. |
| FetchRanges.GapRangesExact | src/MoqxCache.cpp:152-221 | The gap ranges hold exactly the in-range locations visited from the position up to the target, in either order. |
| FetchRanges.GapRangesDisjoint | src/MoqxCache.cpp:152-221 | The ranges are non-empty and pairwise disjoint. |
| FetchRanges.GapRangesAhead | src/MoqxCache.cpp:152-221 | Neither the target nor anything behind the start in iteration order is ever marked. |
| FetchRanges.GapRangesInsideRange | src/MoqxCache.cpp:152-221 | Nothing outside the fetched range is marked iff a condition on the target holds. |
| FetchIterators.DescendingJump | src/MoqxCache.cpp:26-48 | A newest-first jump moves to a lower group, and passes over gap locations only iff the gap reaches the last requested object of the current group. |
| FetchIterators.AfterGaps | src/MoqxCache.cpp:1926-1972 | Gap skipping terminates on the first non-gap location in iteration order, or at the end when only gaps are left (newest first: for gaps that close their group). |
| FetchIterators.PrevGroupCachedIsFirst | src/MoqxCache.cpp:2011-2045 | From any group above the minimum, the result is the first indexed location in a lower group, or none if there is none; the assertion inside never fails. |
| FetchIterators.PrevGroupCachedAtMinimum | src/MoqxCache.cpp:2027-2037 | In the minimum group the result is none, or the start of the range iff one run of cached content crosses into it. |
| FetchIterators.NextBoundary | src/MoqxCache.cpp:1979-1990 | The oldest-first jump passes no indexed location and stays where it is iff it is on one or at the end. |
| FetchIterators.NextBoundaryDescendingIsFirst | src/MoqxCache.cpp:1991-2008 | The newest-first jump goes to the first indexed location still ahead. |
| FetchIterators.NextBoundaryDescendingLeavesRange | src/MoqxCache.cpp:1995-1999 | It leaves the range iff the next indexed location of the topmost group lies at or past the end. |
| FetchIterators.AdvanceAscendingExact | src/MoqxCache.cpp:1884-1924 | A step passes over gaps only iff its group is known well enough or holds nothing but gaps behind it; otherwise it goes to the next group all the same; a group known to have ended is left at its last object. |
| FetchIterators.AdvanceDescendingExact | src/MoqxCache.cpp:1894-1923 | The newest-first step goes forward, and passes over gaps only iff its group is known well enough or holds nothing but gaps behind it; a group known to have ended is left at its last object, the lowest one further. |
| FetchIterators.FetchRangeIterator.constructor | src/MoqxCache.cpp:1784-1835 | The iterator starts at the first location of the range in its order that is not a gap. |
| FetchIterators.FetchRangeIterator.SkipGaps | src/MoqxCache.cpp:1926-1972 | The position moves past gaps only, to a non-gap or the end. |
| FetchIterators.FetchRangeIterator.SkipUncached | src/MoqxCache.cpp:1974-2009 | The position moves to the next indexed location in its order; newest first, none left is reported as {0, 0} and an invalid iterator. |
| FetchIterators.FetchRangeIterator.AdvanceOne | src/MoqxCache.cpp:1884-1924 | In either order the position becomes that of the step function, or the iterator ends below group 0. |
| FetchIterators.FetchRangeIterator.Next | src/MoqxCache.cpp:1876-1882 | Oldest first, only gaps lie between the old and the new position, provided the group is still known; newest first, only gaps lie between the step and the new position. |
| FetchIterators.FetchRangeIterator.AdvanceTo | src/MoqxCache.cpp:1846-1866 | Leaving the range ends the iteration; otherwise only gaps lie between the target and the position, in either order. |
| FetchIterators.FetchRangeIterator.End | src/MoqxCache.cpp:2112-2129 | The end is brought forward to the current position once that is past a known end of the track; newest first it follows what is known of the lowest group. |
| FetchIterators.FetchRangeIterator.MarkNonExistentTo | src/MoqxCache.cpp:1221-1241 | The gaps grow by exactly the gap ranges, for a target in range by exactly the locations passed on the way; neither the target nor anything behind the position becomes a gap. Afterwards the iterator stands at the target, or past the gaps there, and is valid iff it was and the target is inside the range; the index stays exact. |
| FetchIterators.InsertGaps | src/MoqxCache.cpp:1235-1237 | Inserting ranges one by one gives their union. |
| FetchIterators.Receive | src/MoqxCache.cpp:1243-1288 | One received object: what was passed over on the way becomes a gap, the object does not, and oldest first the iterator goes on behind it. |
| FetchIterators.ReceiveTwo | src/MoqxCache.cpp:1221-1288 | A second object makes no gap of the first if the iterator went on from there, inside the range iff it did; oldest first it always does, newest first not from the last position of group 0. |
| FetchIterators.ReceiveAll | src/MoqxCache.cpp:1125-1288 | Over a whole oldest-first upstream fetch no received object becomes a gap; while the groups of the objects are known, the gaps of the range are in the end exactly those there were and everything not received. |
| FetchLoop.FetchImpl | src/MoqxCache.cpp:1412-1605 | For every oldest-first range, first track and sequence of upstream replies without a stale location in the range: events go strictly forward inside the range; each hit was complete, fresh and before the end of the track in the cache as the replies before its lookup left it; each location asked for was missing there, or a gap the index has lost or past the end of the track; if no fetch fails every location is a gap or past the end of the track as the last reply left it, served, asked for or lost behind a hit whose group was forgotten, and the lost are neither served nor asked for; the end is signalled exactly once; the loop terminates. |
| FetchLoop.LoopAgreesWithScan | src/MoqxCache.cpp:1433-1562 | If upstream fetches change the scan only where they were asked, every location of the range that is not behind a hit in a known gap is sent or asked for exactly as a walk over single locations says; one that the walk skips is asked for only if, when asked, it was a gap the index has lost or past the end of the track. |
| FetchLoop.FetchAgreesWithScan | src/MoqxCache.cpp:1412-1605 | The same of the fetch itself, from the request alone; nothing is lost if no upstream fetch makes the cache forget a served group. |
| FetchLoop.FillingNeverSlips | src/MoqxCache.cpp:1461-1501 | While upstream fetches change the scan only where they are asked, no hit outside the known gaps loses its group. |
| FetchLoop.SlipsExactly | src/MoqxCache.cpp:2072-2080 | The rest of the group of a hit is passed over unseen iff a request was made in front of it and its reply left the group unknown. |
| FetchLoop.ForgottenGroupIsLost | src/MoqxCache.cpp:2072-2080 | If the reply to a request in front of a hit leaves its group unknown, every location behind the hit in that group is neither served nor asked for. |
| FetchLoop.ForgottenObject | src/MoqxCache.cpp:1448-1535 | The turns of the loop on a cache with {1, 0} and {1, 1} that is emptied by the first upstream fetch: {1, 1} was complete and fresh, is no gap, and is neither served nor asked for. |
| FetchLoop.SteadyLosesNothing | src/MoqxCache.cpp:1461-1466 | No location is lost if no upstream fetch makes the cache forget the group of an object it could serve. |
| FetchLoop.Look | src/MoqxCache.cpp:1448-1459 | A hit iff the object is complete and fresh; a miss stays where it is iff its location is indexed though neither a gap nor complete, and then nothing changes at all. |
| FetchLoop.StuckTurn | src/MoqxCache.cpp:1433-1459 | A turn at such a location, not past the end of the track, is followed by another from the same state. |
| FetchLoop.Lookup | src/MoqxCache.cpp:1448-1459 | A turn that misses extends the stretch of locations that may be asked for, and moves forward; a hit is decided by the cache as the last reply left it, and changes neither position nor account. |
| FetchLoop.LookAndJump | src/MoqxCache.cpp:1448-1459 | The same, and a miss goes on to the first indexed location behind it; no other location enters or leaves the index. |
| FetchLoop.Flush | src/MoqxCache.cpp:1473-1501 | At a boundary the missing stretch is asked for as one interval, and the loop goes on with exactly the track the reply leaves; it ends the fetch iff it fails. |
| FetchLoop.PassGap | src/MoqxCache.cpp:1503-1507 | A gap boundary is passed over and the loop moves forward. |
| FetchLoop.Serve | src/MoqxCache.cpp:1509-1535 | A hit looked up before is sent, and no more than that, marked final iff nothing follows; the track stays and the loop moves forward, to a later group if that of the hit is not known, with all accounts kept. |
| FetchLoop.Finish | src/MoqxCache.cpp:1537-1582 | The tail is asked for, or the consumer is told the end if no object did (if one did, nothing is added), and everything is accounted for. |
| FetchLoop.RestartObject | src/MoqxCache.cpp:336-345 | Beginning any complete cached object again with a first part of full length leaves exactly its location indexed, though neither a gap nor complete. |
| CacheTracks.InsertGap | src/MoqxCache.h:299-305 | A gap enters both sets, and the track invariant and an exact index are kept. |
| CacheTracks.ProcessGapExtensions | src/MoqxCache.cpp:452-549 | Extensions are accepted iff they fit the identifiers, agree with earlier ones and cover no object within the scanned distance; gaps grow by what they declare; no object changes. |
| CacheTracks.ProcessGroupGap | src/MoqxCache.cpp:457-507 | The same for the prior-group gap, which counts once per group: the first one that fits is remembered. |
| CacheTracks.InsertStatusGaps | src/MoqxCache.cpp:291-305 | End of group and end of track make gaps of exactly the later locations of the group, or of the track. |
| CacheTracks.CacheObject | src/MoqxCache.cpp:261-367 | A write is stored iff it contradicts nothing; the entry then has the size, status, time and flags of the write, a repeated one its first subgroup, and the high-water mark is the maximum; a rejected one changes no object; gaps grow by what it declares, and exactly an accepted end ends its group; an exact index stays exact iff no incomplete object replaces a complete one. |
| CacheTracks.StoreObject | src/MoqxCache.cpp:307-366 | A repeated write is stored iff status, payload size and forwarding preference agree. |
| CacheTracks.WrittenIndexExact | src/MoqxCache.cpp:336-362 | Storing an entry keeps an exact index exact iff it is complete or replaces no complete one. |
| CacheTracks.EndKnownAfterWrite | src/MoqxCache.cpp:406-427 | After a write every location past the end of the track is a known gap, unless an end of track was rejected for its location or extensions and some later location is not a gap (iff). |
| CacheTracks.PublishObject | src/MoqxCache.cpp:830-857 | A published object is stored iff it is not past a recorded end, an end of track is not below an earlier location, and the cache allows it; the largest location is then the maximum of those seen, also if the cache rejects it; no other object changes; the track invariant and an exact index are kept, and so is a known end iff no end of track was rejected too early. |
| CacheTracks.OpenEnd | src/MoqxCache.cpp:276-283 | An end of track at a known gap is rejected and yet leaves the end of the track recorded without gaps behind it. |
| CacheTracks.AppendPayload | src/MoqxCache.cpp:653-676 | Streamed bytes keep the track invariant; the object has grown by them and is complete after the last, and no other object changes. |
| CacheTracks.AppendIndexExact | src/MoqxCache.cpp:667-670 | Completing a streamed object keeps an exact index exact. |
| CacheTracks.Expire | src/MoqxCache.cpp:1625-1637 | Dropping an expired object takes exactly it and its bytes out of its group, and exactly its location out of the index. |
| CacheTracks.ExpireIndexExact | src/MoqxCache.cpp:1634-1635 | Expiry keeps an exact index exact. |
| CacheTracks.GetCachedObjectMaybe | src/MoqxCache.cpp:1608-1646 | A hit iff the object is complete and not older than the age limit of the track, or else the default; an expired one is dropped. |
| CacheTracks.DropGroup | src/MoqxCache.cpp:2300-2325 | Dropping a group takes exactly its locations out of the index and forgets no gap. |
| CacheTracks.DropIndexExact | src/MoqxCache.cpp:2315-2316 | Eviction keeps an exact index exact. |
| CacheStores.GroupIsGone | src/MoqxCache.cpp:2300-2325 | Evicting a group keeps the whole cache invariant; the group is gone from its track, the lists and the byte count, gaps and other tracks stay. |
| CacheStores.EvictTrack | src/MoqxCache.cpp:2226-2251 | Exactly the named track goes; both lists keep the order of what stays; the invariant is kept. |
| CacheStores.EvictOldestGroupsIfNeeded | src/MoqxCache.cpp:2281-2298 | A track is brought down to its group limit, and not below, from the old end of its list, or no unpinned group is left; pinned groups and the order of both lists stay. |
| CacheStores.EvictForByteLimitIfNeeded | src/MoqxCache.cpp:2327-2367 | Terminates, keeps the invariant, all pinned groups and the order of both lists. Over the limit it evicts from the old end until maxBytes less minEviction is reached or nothing is left to evict, and no group more than that takes; tracks it empties go iff they are idle; true iff within the limit. |
| CacheStores.PinIn | src/MoqxCache.cpp:2188-2200 | A pinned group is on no list; nothing else changes in any track and the invariant is kept. |
| CacheStores.UnpinIn | src/MoqxCache.cpp:2171-2186 | A group no longer pinned is in front of the global list; nothing else changes in any track and the invariant is kept. |
| CacheStores.MoqxCache.EvictOldestTrackIfNeeded | src/MoqxCache.cpp:2206-2224 | False iff the cache is full and the list of tracks, which names idle ones only, is empty; otherwise a full cache loses exactly the oldest track of the list, and one that is not full nothing. |
| CacheStores.MoqxCache.GetOrCreateGroupWithEviction | src/MoqxCache.cpp:437-450 | The group is there afterwards, a new one empty, unpinned and the most recent; for it a track over its group limit loses its oldest unpinned groups and no more than that takes; pinned groups, other tracks and the order of the lists stay as they were. |
| CacheStores.MoqxCache.MakeTrack | src/MoqxCache.cpp:1299-1308 | A new track is empty; a full cache loses exactly the oldest track of the list for it, if there is one, and every other track is as it was. |
| CacheStores.MoqxCache.BeginWriting | src/MoqxCache.cpp:764-775 | A track with a live writer is off the track list; an existing one gains a writer and nothing else changes, a new one starts empty and a full cache loses exactly the oldest track of the list for it. |
| CacheStores.MoqxCache.EndWriting | src/MoqxCache.cpp:782-787 | The track loses one writer and nothing else changes; once idle it is at the front of the track list. |
| CacheStores.MoqxCache.PinGroup | src/MoqxCache.cpp:562-567 | A subgroup being written pins its group and changes nothing else in any track. |
| CacheStores.MoqxCache.UnpinGroup | src/MoqxCache.cpp:574-578 | Its end unpins the group, which becomes the most recent; nothing else changes in any track. |
| CacheStores.MoqxCache.EvictForBytes | src/MoqxCache.cpp:2327-2367 | The byte limit on the cache object: the invariant and all pinned groups are kept, and over the limit the low watermark is reached, and not passed by more than it takes, unless nothing is left to evict. |
| CacheStores.MoqxCache.CacheObjectAndUpdateBytes | src/MoqxCache.cpp:2369-2406 | The write changes one track, the byte count stays the sum over all live groups, and a stored one is followed by an eviction down to the low watermark if the limit is exceeded; what was stored in a pinned group is there afterwards, and a rejected write changes no object. |
| CacheStores.MoqxCache.AppendObjectPayload | src/MoqxCache.cpp:653-676 | Streamed bytes are counted and change that object only, followed by an eviction as above; a pinned object has grown by them. |
| CacheStores.MoqxCache.GetCachedObject | src/MoqxCache.cpp:1608-1646 | A lookup takes an object it finds expired out of its group, with its bytes, and changes nothing else. |
| RankedLists.TopInsert | src/relay/PropertyRanking.cpp:60-70 | A new entry above the cut pushes the last of the first n out; below it changes nothing. |
| RankedLists.TopRemove | src/relay/PropertyRanking.cpp:172-189 | A removal above the cut lets the next one in. |
| RankedLists.TopMove | src/relay/PropertyRanking.cpp:415-475 | A move across the cut swaps one track; on one side of it nothing changes. |
| RankedLists.InsertKeepsOrder | src/relay/PropertyRanking.h:28-55 | Inserting at the position of its key keeps the list sorted by rank key. |
| RankedLists.PersonalTopPrefix | src/relay/PropertyRanking.cpp:491-496 | The first n tracks of others lie among the first n + own tracks. |
| RankedLists.PositionSplits | src/relay/PropertyRanking.h:28-55 | The position of a key separates the better from the worse keys. |
| RankedLists.NonSelfOwnMove | src/relay/PropertyRanking.cpp:430-446 | Moving a session's own track leaves its list of others' tracks alone. |
| TopNGroups.ComputeWaterlineKey | src/relay/PropertyRanking.cpp:598-616 | The key of the n-th track of others, or none if there are fewer (or n is zero). |
| TopNGroups.NowSelected | src/relay/PropertyRanking.cpp:626-632 | The tracks of others at or above the waterline are the first n of them. |
| TopNGroups.ReconcilePublisherSelection | src/relay/PropertyRanking.cpp:618-649 | The session's tracks become the wanted ones and its waterline the key of the last of them; it alone is sent anything, exactly the difference, after what was sent before. |
| TopNGroups.WantedIsPersonalTop | src/relay/PropertyRanking.cpp:598-632 | A publisher-subscriber is sent its first n tracks of others iff n is positive or there are none. |
| TopNGroups.VisitSessions | src/relay/PropertyRanking.cpp:582-596 | All publisher-subscribers but one are reconciled and told the difference, and viewers are told of a track if asked; what was sent before stays. |
| TopNGroups.TrimDeselectedQueue | src/relay/PropertyRanking.cpp:509-526 | Exactly the overflow of the queue is forgotten, and every session told to drop it. |
| TopNGroups.DemoteTrack | src/relay/PropertyRanking.cpp:552-556 | The track joins the queue; exactly the overflow of the queue, which is the track itself if no queue is kept, is forgotten and every session told to drop it. |
| TopNGroups.DemoteTrackAtRank | src/relay/PropertyRanking.cpp:536-550 | The same for the track at rank n, if it was selected. |
| TopNGroups.PromoteNextAvailableTrack | src/relay/PropertyRanking.cpp:558-575 | The best ranked track not selected yet is selected and announced; publisher-subscribers are told the difference, and no viewer to drop anything. |
| TopNGroups.RegisterInGroup | src/relay/PropertyRanking.cpp:60-82 | A registration serves every publisher-subscriber, and an exact group with exact viewers stays so; with any queue, the selection, the queue and what viewers hold change by exactly the new track and the one it pushes out; callbacks are only added, below the first n only to publishers, and stay right for a publisher-subscriber iff no track it wants is given up. |
| TopNGroups.RecomputeGroup | src/relay/PropertyRanking.cpp:415-476 | A move serves every publisher-subscriber but possibly the mover, and an exact group with exact viewers stays so; with any queue, the selection, the queue and what viewers hold change by exactly the track that moves and the one it changes places with; callbacks stay right for a publisher-subscriber always on one side of the cut, and otherwise iff no track is given up that it is still to be sent. |
| TopNGroups.MoveIn | src/relay/PropertyRanking.cpp:421-458 | The same for a move into the first n: callbacks stay right iff no track is given up that it wants, for the mover none that it was sent. |
| TopNGroups.MoveOut | src/relay/PropertyRanking.cpp:421-475 | The same for a move out of the first n: iff no track is given up that it was sent and still wants; the mover keeps what it was sent unless the track that follows was not selected. |
| TopNGroups.PushedOutStaysWanted | src/relay/PropertyRanking.cpp:519-524 | A track pushed out by a publisher's own track stays among its first n tracks of others, so the callback to drop it is wrong. |
| TopNGroups.GivenUpIsPushedOut | src/relay/PropertyRanking.cpp:536-550 | Without a deselected queue an exact group gives up exactly the track that a registration pushes to rank n. |
| TopNGroups.RemoveFromGroup | src/relay/PropertyRanking.cpp:160-190 | An exact group with exact viewers stays so; with any queue, the place of a selected track goes to the oldest deselected track, or else to the best ranked free one, which viewers are sent; publisher-subscribers are then served and left alone otherwise; their callbacks stay right but for the ended track; no viewer is told to drop anything. |
| TopNGroups.NewGroup | src/relay/PropertyRanking.cpp:193-209 | A new group has exactly the first n tracks selected. |
| TopNGroups.JoinGroup | src/relay/PropertyRanking.cpp:211-248 | A joining publisher is served and told so, a joining viewer holds exactly the first n tracks also by replay alone; the forward flag is stored and nobody else is sent anything. |
| TopNGroups.UpgradeInGroup | src/relay/PropertyRanking.cpp:655-683 | A viewer that becomes a publisher is served and told exactly the difference to the shared first n, one that was a publisher before the difference to what it was sent; nobody else is sent anything. |
| TopNGroups.SweepGroup | src/relay/PropertyRanking.cpp:698-725 | Nothing happens if no selected track is idle. Otherwise, while the queue names deselected tracks only, the tracks that are not idle stay selected, at least one idle track goes, and a single one gives way to the best ranked track not selected; publisher-subscribers stay served and callbacks are only added. |
| TopNGroups.SweepOne | src/relay/PropertyRanking.cpp:720-723 | In place of one selected track exactly the best ranked track that is not selected becomes selected, if there is one. |
| TopNGroups.RegisterReplay | src/relay/PropertyRanking.cpp:60-82 | A registration keeps a viewer's replay of select and evict callbacks right iff the viewer is told of the track or does not still hold it from before. |
| TopNGroups.ReplayKept | src/relay/PropertyRanking.cpp:134-191 | A move, or the end of a track, keeps that replay right. |
| PropertyRankings.CrossesThreshold | src/relay/PropertyRanking.cpp:339-405 | True iff a rank is below the stored thresholds and the move crosses the outermost cut, that of a group, or, if anybody publishes, touches the window of a group; false only for a move on one side of every cut and below every publisher-subscriber's window. |
| PropertyRankings.HarmlessMove | src/relay/PropertyRanking.cpp:116-121 | Such a move changes no group's first n and no publisher-subscriber's tracks. |
| PropertyRankings.MaxExtended | src/relay/PropertyRanking.cpp:491-507 | The largest n + own tracks over all publisher-subscribers. |
| PropertyRankings.SortThresholds | src/relay/PropertyRanking.cpp:479-489 | All n in ascending order, and the largest. |
| PropertyRankings.RebuildRankCache | src/relay/PropertyRanking.cpp:315-328 | Every cached rank is the position in the ranking. |
| PropertyRankings.OwnMove | src/relay/PropertyRanking.cpp:430-446 | A publisher's tracks of others do not depend on where its own tracks stand. |
| PropertyRankings.WantedAfterRemove | src/relay/PropertyRanking.cpp:160-164 | A removal changes what a publisher-subscriber wants iff it held the track. |
| PropertyRankings.RemovalServed | src/relay/PropertyRanking.cpp:134-191 | A removal keeps the publisher-subscribers served iff each of them did not hold the track or is in a group where another takes its place. |
| PropertyRankings.RegisterReplays | src/relay/PropertyRanking.cpp:28-83 | Over all groups, a registration keeps every viewer's replay right iff no viewer still holds the track from before while it is registered below its first n. |
| PropertyRankings.ReplaysKept | src/relay/PropertyRanking.cpp:85-191 | A move or a removal keeps every viewer's replay right. |
| PropertyRankings.GroupsAfterMove | src/relay/PropertyRanking.cpp:113-131 | On the fast path, taken iff the move does not cross, nothing changes. On both paths exact groups, viewers and publisher-subscribers stay exact, the selection and what viewers hold follow the move with any queue, and callbacks to publisher-subscribers stay right iff no track is given up that they are still to be sent. |
| PropertyRankings.PropertyRanking.RegisterTrack | src/relay/PropertyRanking.cpp:28-83 | The track enters behind all others of at least its value; exact stays exact (no queue), with any queue every group changes by exactly the new track and the one it pushes out, every publisher-subscriber is served afterwards and the window is exact; callbacks are only added, below the first n only to publishers; those of a publisher-subscriber stay right, and those of a new one become so, iff no track it wants is given up, and replays of viewers iff none still holds the track from before. |
| PropertyRankings.PropertyRanking.UpdateSortValue | src/relay/PropertyRanking.cpp:85-132 | An unknown track or the same value changes nothing. Otherwise the track moves behind those of higher value and, among equals, of earlier arrival; exact and replays stay right (no queue, no sweep), served stays served, callbacks are only added; every group follows the move as above and stays as it is if the move does not cross; a sweep follows iff it does and idle eviction is due. |
| PropertyRankings.PropertyRanking.RemoveTrack | src/relay/PropertyRanking.cpp:134-191 | The track goes; exact and replays stay right (no queue), with any queue every group fills the place as above, served stays served iff the removal is covered, the window is exact, callbacks are only added, and no viewer is told to drop anything. |
| PropertyRankings.PropertyRanking.AddSessionToTopNGroup | src/relay/PropertyRanking.cpp:211-248 | The session is in the group with its forward flag, a viewer holds its first n tracks; other sessions and groups are untouched, exact, served and replays are kept, callbacks are only added, and the stored cut and window follow. |
| PropertyRankings.PropertyRanking.RemoveSessionFromTopNGroup | src/relay/PropertyRanking.cpp:250-275 | Exactly that session is gone; the group goes iff nobody else is in it, and otherwise keeps its other sessions, selection, queue and callbacks, as do all other groups; exact, served and replays are kept, and the stored cut and window follow. |
| PropertyRankings.PropertyRanking.UpdateSessionForward | src/relay/PropertyRanking.cpp:277-298 | Only the forward flag of a known session changes, an unknown one changes nothing; exact, served and replays are kept. |
| PropertyRankings.PropertyRanking.SweepIdle | src/relay/PropertyRanking.cpp:685-726 | Nothing happens unless idle eviction is on and due; then every group is swept as above, served is kept and callbacks are only added. |
| PropertyRankings.HeldOver | src/relay/PropertyRanking.cpp:28-191 | The operations join, register, register above, remove, register below lead to a viewer that holds the first track but, from its callbacks alone, also the ended one that is registered again. |
| NamespaceTrees.NothingBelow | src/NamespaceTree.cpp:52-64 | Below a node with neither content nor active children there is no content at any depth. |
| NamespaceTrees.IncrementActiveChildren | src/NamespaceTree.cpp:14-21 | Counting a child that became active restores "count at least active children" up to the root. |
| NamespaceTrees.CountIsPositive | src/NamespaceTree.cpp:40-42 | The count that pruning is about to decrement is positive. |
| NamespaceTrees.TryPruneChild | src/NamespaceTree.cpp:24-65 | Pruning keeps the counts right, exact ones exact, and loses no publisher, publish, subscriber or handle anywhere. |
| NamespaceTrees.AddContent | src/NamespaceTree.cpp:67-71 | Content enters at its namespace and nowhere else; exact counts stay exact iff the node was not counted already. |
| NamespaceTrees.ReduceContent | src/NamespaceTree.cpp:73-77 | Content leaves at its namespace and nowhere else; a node left with nothing is pruned, and exact counts stay exact. |
| NamespaceTrees.ReplacePublisher | src/NamespaceTree.cpp:94-117 | The publisher is replaced; exact counts stay exact iff the node was not counted already or has other content. |
| NamespaceTrees.FindOrCreate | src/NamespaceTree.cpp:235-269 | Exactly the missing nodes on the way are created, empty, and the subscribers of all proper prefixes collected. |
| NamespaceTrees.FindPublisher | src/NamespaceTree.cpp:79-82 | The publisher of the deepest existing node on the way; the root answers for the empty namespace only. |
| NamespaceTrees.LookupIsLongest | src/NamespaceTree.cpp:79-82 | The lookup gives the publisher of the longest prefix iff no node on the way lies below that prefix and it is not the root. |
| NamespaceTrees.LookupByContents | src/NamespaceTree.cpp:79-82 | While the counts are exact: iff nothing is held on the way below the longest prefix that publishes. |
| NamespaceTrees.NodesAreHeld | src/NamespaceTree.cpp:24-65 | While the counts are exact, every node is there because something is held at it or below. |
| NamespaceTrees.HiddenPublisher | src/NamespaceTree.cpp:79-82 | A subscriber at a/b hides the publisher at a from the lookup of a/b/c. |
| NamespaceTrees.NamespaceTree.SetPublisher | src/NamespaceTree.cpp:84-121 | Only the publisher at that namespace changes; the replaced one and all listening sessions are returned; exact counts stay exact iff the node was not counted already or has other content. |
| NamespaceTrees.NamespaceTree.UnpublishNamespace | src/NamespaceTree.cpp:123-152 | Only the owner can; only that namespace loses its publisher and handles. |
| NamespaceTrees.NamespaceTree.UnpublishTrack | src/NamespaceTree.cpp:154-163 | Only that track of that namespace goes. |
| NamespaceTrees.NamespaceTree.AddPublish | src/NamespaceTree.cpp:165-194 | Only that track of that namespace is added; all listening sessions are returned; exact counts stay exact iff the node was not counted already without content. |
| NamespaceTrees.NamespaceTree.AddNamespaceSubscriber | src/NamespaceTree.cpp:201-210 | Only that subscriber is added; exact counts stay exact iff the node was not counted already without content. |
| NamespaceTrees.NamespaceTree.RemoveNamespaceSubscriber | src/NamespaceTree.cpp:212-233 | Only that subscriber goes; both error cases change nothing. |
| NamespaceTrees.NamespaceTree.AddLegacyHandle | src/NamespaceTree.h:86-91 | A handle put on a node without the guard still keeps all counts right. |
| CrossExecFilters.CallsOutliveNothing | src/relay/CrossExecFilter.h:71-107 | In every interleaving each queued call that holds a bare pointer is covered by the guard, in the filter or in a release queued behind it. |
| CrossExecFilters.ClosedIsReleased | src/relay/CrossExecFilter.h:60-70 | Once the source has closed the stream, a drained queue means the guard is gone. |
| CrossExecFilters.DeliveredInOrder | src/relay/CrossExecFilter.cpp:32-242 | In every interleaving downstream has seen a prefix, in order, of the calls the source was told succeeded, and took all of them but possibly the last; while no error is stored the rest is queued, so a drained queue has delivered everything. |
| CrossExecFilters.RefusalIsStored | src/relay/CrossExecFilter.cpp:232-246 | In every interleaving an error is stored once downstream refused to open or refused an object, and it is disconnected for no other reason. |
| CrossExecFilters.ErrorSticks | src/relay/CrossExecFilter.h:32-49 | Once an error is stored no later call is accepted. |
| CrossExecFilters.LateCallHasNoGuard | src/relay/CrossExecFilter.h:68-70 | A call after the terminal one has run would have nothing to keep the filter alive. |
| CrossExecFilters.StepKeeps | src/relay/CrossExecFilter.cpp:322-515 | Each source call and each job keeps both invariants. |
| CrossExecFilters.StepMeans | src/relay/CrossExecFilter.cpp:32-246 | What each source call and each job does, field by field: accepted calls are queued, refused ones change only guard and queue; a job delivers iff downstream is connected, and its answer decides error and connection. |
| CrossExecFilters.Filter.Send | src/relay/CrossExecFilter.cpp:32-60 | A call succeeds, and is queued behind the others, iff no error is stored; otherwise it changes nothing but the guard, which is on its way out. |
| CrossExecFilters.DeactivateCovers | src/relay/CrossExecFilter.h:85-89 | Deactivating lets the guard go, loses no queued call, leaves a release behind each of them, and does nothing a second time; once an error is stored the lifetime invariant is kept. |
| CrossExecFilters.Filter.Reset | src/relay/CrossExecFilter.cpp:169-179 | A reset stores its error and queues a job of its own, and changes nothing else. |
| CrossExecFilters.Filter.RunNext | src/relay/CrossExecFilter.cpp:43-58 | The job at the front runs while the filter is alive: opening connects downstream or stores its error, a call is delivered iff downstream is connected, a refused object disconnects it and stores the error. |
| SubscriptionRegistries.SettledOnce | src/SubscriptionRegistry.cpp:83-111 | In every interleaving a settled promise keeps its outcome. |
| SubscriptionRegistries.OneTokenPerPendingEntry | src/SubscriptionRegistry.cpp:36-67 | In every interleaving a waiting entry has exactly one live token, and every waiter that still waits has one to wake it. |
| SubscriptionRegistries.StaleTokenHarmless | src/SubscriptionRegistry.cpp:83-111 | A token whose entry was replaced or removed is never current again in any continuation, and using it changes no entry, promise or waiter. |
| SubscriptionRegistries.ReplacedTokenIsStale | src/SubscriptionRegistry.cpp:113-147 | A publisher that replaces a waiting entry breaks its promise for good and leaves a ready entry; the replaced token is harmless in every continuation. |
| SubscriptionRegistries.PublishedIsReady | src/SubscriptionRegistry.cpp:113-147 | Whatever was under the name, a publisher leaves a new ready entry with its session and handle; exactly the pending promise of an entry it replaces breaks, and nothing else changes. |
| SubscriptionRegistries.ResumedEntryIsReady | src/SubscriptionRegistry.cpp:69-81 | The entry a fulfilled waiter is given is ready iff no token is out for it, as whenever it is the one waited for or made by a publisher. |
| SubscriptionRegistries.WaiterMayMeetPendingEntry | src/SubscriptionRegistry.cpp:69-81 | The failing case: a waiter whose entry was removed and subscribed to anew is handed an entry that still waits. |
| SubscriptionRegistries.StepKeeps | src/SubscriptionRegistry.cpp:36-232 | Every operation keeps the registry invariant. |
| SubscriptionRegistries.SubscriptionRegistry.Subscribe | src/SubscriptionRegistry.cpp:36-67 | The first subscriber gets a live token of a new waiting entry, a later one waits for the promise of the entry there is; nothing else changes. |
| SubscriptionRegistries.SubscriptionRegistry.Complete | src/SubscriptionRegistry.cpp:13-26 | True iff the entry is still the token's own, which is then filled in and its promise fulfilled; otherwise nothing but the token changes. |
| SubscriptionRegistries.SubscriptionRegistry.Abandon | src/SubscriptionRegistry.cpp:102-111 | Exactly the token's own entry is erased and its promise failed, if it is still there. |
| SubscriptionRegistries.SubscriptionRegistry.Publish | src/SubscriptionRegistry.cpp:113-147 | The name has a new ready entry with that session and handle, a waiting one it replaces breaks its promise, nothing else changes, and the evicted entry is returned. |
| SubscriptionRegistries.SubscriptionRegistry.OnTerminated | src/SubscriptionRegistry.cpp:195-209 | Without subscribers the entry is erased and a pending promise of it breaks; otherwise it stays without session and handle and is returned; nothing else changes. |
| SubscriptionRegistries.SubscriptionRegistry.RemoveIf | src/SubscriptionRegistry.cpp:215-232 | Exactly the picked entries go, and exactly their pending promises are broken. |
| SubscriptionRegistries.SubscriptionRegistry.Resume | src/SubscriptionRegistry.cpp:69-81 | A waiter gets an error, "gone", or the forwarder now under its name, which is ready iff no token is out for it. |
| ServiceMatchers.BestIsUnique | src/ServiceMatcher.h:24-27 | Without duplicate rules the best match is one rule. |
| ServiceMatchers.OrderIrrelevant | src/ServiceMatcher.cpp:52-85 | Then the answer does not depend on the order of services or of equally long prefixes. |
| ServiceMatchers.MatchPath | src/ServiceMatcher.cpp:35-50 | Within one authority, the best rule: an exact path, else the longest prefix. |
| ServiceMatchers.Finalize | src/ServiceMatcher.cpp:29-33 | The prefixes are permuted into descending length. |
| ServiceMatchers.BuildIndex | src/ServiceMatcher.cpp:52-75 | Every rule is found under its key and path; of equal exact paths the first is kept. |
| ServiceMatchers.AnswerIsConfigured | src/ServiceMatcher.cpp:52-124 | In terms of the configuration, where "*" and a suffix admit exactly one label in front of that suffix: the answer is the service of a most specific entry that fits, exact before wildcard before any authority, then exact path, then longest prefix; none iff none fits. |
| ServiceMatchers.ServiceMatcher.constructor | src/ServiceMatcher.cpp:52-85 | The finished index holds exactly the rules of the services. |
| ServiceMatchers.ServiceMatcher.Match | src/ServiceMatcher.cpp:87-124 | The service of a best rule of the flat list, and of a most specific configured entry that fits, with "/" for no path; none iff no rule matches. |
| DcSbd.SummaryBounds | src/sbd/DcSbd.cpp:70-100 | Over the reals, skew is in [-1, 1], variation not negative, frequency in [0, 1). |
| DcSbd.WeightsFade | src/sbd/DcSbd.cpp:11-13 | The newest F intervals weigh the same, older ones less and less. |
| DcSbd.DriftIsReported | src/sbd/DcSbd.cpp:44-82 | If every sample lies above the mean of the intervals before, skew is negative, and -1 once the history is full; below, positive and 1. |
| DcSbd.NoCrossing | src/sbd/DcSbd.cpp:90-99 | No crossing is counted iff no two means lie on different sides of the band. |
| DcSbd.SteadyIsQuiet | src/sbd/DcSbd.cpp:36-105 | A delay that never changes shows as no skew, no variation and no oscillation. |
| DcSbd.OffsetIsIrrelevant | src/sbd/DcSbd.cpp:36-105 | A constant clock offset moves the delays of the summary and leaves skew, variation and frequency alone. |
| DcSbd.StoreRing | src/sbd/DcSbd.cpp:57-58 | Writing the next interval keeps the ring holding the last N. |
| DcSbd.NextInterval | src/sbd/DcSbd.cpp:36-56 | The statistics of an interval relative to the last M means read off the ring. |
| DcSbd.WeightedSums | src/sbd/DcSbd.cpp:70-78 | The three weighted sums over the last M intervals. |
| DcSbd.CountCrossings | src/sbd/DcSbd.cpp:90-99 | The crossings over the last N intervals, oldest first. |
| DcSbd.CloseInterval | src/sbd/DcSbd.cpp:36-105 | The summary off the ring is that of the plain list with the new interval, and within its bounds. |
| DcSbd.DcEstimator.FinishInterval | src/sbd/DcSbd.cpp:30-105 | The summary is that of all intervals since the last reset; an interval without samples resets. |
| DcSbd.DcEstimator.Reset | src/sbd/DcSbd.cpp:26-28 | The history is empty. |

## Left out

- The interval set and the location type belong to another library and are not part of the repository; they are modelled as sorted maximal intervals and as pairs bounded by the largest 62-bit integer.
- Oldest-first `fetchImpl` is modelled without waiting on another fetch in progress, back-pressure and errors of the consumer, and cancellation.
- FetchLoop.FetchImpl: no location of the range may be stale in the first track or one that an upstream fetch leaves, since the loop does not leave such a location, which FetchLoop.StuckTurn states; and no upstream fetch may make the cache forget a known gap.
- FetchLoop.FetchAgreesWithScan: says nothing of locations behind a served object that is also a known gap, whose group an upstream fetch may drop without a change to the scan.
- Newest-first `fetchImpl` as a whole: only its range computations and jumps are modelled.
- The iterator's cached group pointer is not modelled: the group is looked up in the track each time.
- Tracks and groups are values inside the cache object, so sharing of evicted groups and tracks with open writers is not captured; at most one writer pins a group, and no purge or expiry hits an object being written.
- `MoqxCache::clear`, the purge functions, statistics, cache durations from extensions, and the fetch writeback apart from its gap marking.
- Payload contents are their sizes, extensions the two gap values; time is a parameter.
- TopNGroups.SweepGroup: does not state which tracks are selected in the end, which depends on the order of the sweep: a later replacement may select an idle track again that an earlier one gave up. Each replacement is stated by TopNGroups.SweepOne.
- PropertyRankings.PropertyRanking.SweepIdle: the same.
- PropertyRankings.PropertyRanking.RegisterTrack: selection is exact without a deselected queue only; with one, a removal promotes the oldest deselected track instead of the best ranked.
- The tree names nodes by path; nodes detached from the tree, namespace rankings and callbacks are not modelled. The session of a new publisher is never null.
- The track-level cross-executor filter and the payload byte tracker; error codes are opaque.
- Rules are compared on their normalised authority, so two wildcard patterns that differ in the first character only count as one.
- Doubles are reals; the clusterer, the bottleneck test and the passive detector are not modelled.
- `MoqxRelay`, servers, upstream provider, configuration, admin handlers, metrics and all of moqlab.
