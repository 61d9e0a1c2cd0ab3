# A verified model of the A2A mesh node's state machines

This Dafny project models the parts of the mesh node whose correctness is about whole runs:
what the mesh is told about a peer, who reports to whom, which messages a queue loses, when a
token is good, which records point at each other. Every file holds one component. What the
source updates in place is a class with its fields. A method that is one atomic step there,
from one await to the next, is proved equal to a step of a small state machine (`State`,
`Event`, `Enabled`, `Step`); a loop, a helper or a whole coroutine is proved against a function
of its inputs. The theorems are about every run of the machine. Where the source awaits between
reading and writing shared state, the steps of different coroutines interleave freely.

| file | component |
|---|---|
| `Presence.dfy` | grace tasks, offline and online debounce, the set of peers announced offline |
| `UpdateDriver.dfy` | poll ticks and MQTT triggers of the update check, suspended at their awaits |
| `AgentTeam.dfy`, `Forest.dfy` | the `reports_to` hierarchy, its cycle check and its edits |
| `BoundedQueue.dfy`, `Sorting.dfy` | the oldest-drop priority queue; what a stable sort promises |
| `AckTracker.dfy` | retries of unacknowledged messages, with ACKs arriving inside a monitor tick |
| `Base64Url.dfy`, `AuthTokens.dfy` | the token codec (section 5 of RFC 4648) and the session rows behind it |
| `LoginLimiter.dfy` | five login attempts a minute |
| `UserMirror.dfy` | the local mirror of the shared user table |
| `Capsules.dfy` | records, links, and one promotion or batch that nothing interrupts |
| `CapsuleTasks.dfy` | promotions, retrievals and updates that interleave at their awaits |
| `Topology.dfy` | the tree printer over arbitrary parent addresses |
| `Alerts.dfy` | the two sweeps over the alert rules |
| `Versions.dfy` | version keys, tag selection, the update decision |
| `UpdateRuns.dfy` | the versions that interleaved update checks install |
| `Wrappers.dfy` | `Option` and map lookup |

`dafny verify dfyconfig.toml` checks the project.

Clocks are real-valued inputs that do not go back where a theorem needs that. Databases are
maps, similarity is a number the search returns, JSON, UTF-8 and the HMAC are functions with
the stated laws.

## Where the code and its comments differ

The model follows the code. These are the places where a comment, a docstring or a first
reading promises something else; each has a lemma.

- The branch of the connect callback that forgets an offline peer without announcing it
  online (node.py:3838-3840) cannot be taken: `SuppressionIsDead`, `NothingIsSuppressed`.
- Offline broadcasts about a peer are 30 s apart, but not always 60 s: a grace task cancelled
  in its sleep drops the debounce entry (node.py:3960). An expiring task without an active
  link announces if and only if the last broadcast that was not dropped is 60 s ago:
  `ExpiryAnnouncesExactly`, `OfflineNoticesAreJustified`, `DebounceCanBeCutShort`.
- The guard of the update check is not a lock. It excludes a second check exactly as long as
  no poll check fails to close its session while another check is in flight
  (node.py:6580-6582 then overwrites the state word): `StepKeepsExclusive`,
  `FailingCloseBreaksExclusion`. A check whose body returned and whose session is still being
  closed does not count as in flight: the word is free, and the next check may overlap it.
  With two checks in flight one tag can be applied twice: `OverlappingChecksApplyATagTwice`.
- Updates can stop for good. The word stays "checking" or "updating" in every continuation if
  and only if all that is left are MQTT checks closing their sessions: `BusyForeverExactly`.
  With the word busy and all other checks such, a step leads there exactly when the body of an
  MQTT check raises or is cancelled, or a poll check leaves without an error, a cancelled one
  for example: `StepGetsStuckExactly`, `TwoWaysToGetStuck`.
- `update_node_role` keeps the hierarchy a forest if and only if it does not create a node
  under "Nova" that "Nova" already reports to, directly or not; with all references known
  that is "Nova" itself, created to report to itself: `UpdateKeepsAcyclic`,
  `UpdateOfClosedKeepsAcyclic`, `CreatingANodeCanCloseACycle`.
- `cleanup_team_references` keeps the hierarchy a forest exactly when the leader is the
  removed node or not below it: `CleanupOfNamedKeepsAcyclic`, `CleanupCanCloseACycle`. A
  removed leader inherits its own members: `CleanupLeavesNoReference`.
- Failed ACK entries are not "kept for 5 min then removed" (core/ack.py:242). An entry is
  considered once, at the end of the tick in which it fails. It is removed if and only if that
  end is reached and the message is more than five minutes old then; otherwise no later tick
  removes it: `FailedEntriesAreRemovedExactly`, `FailedEntryOutlivesFiveMinutes`.
- "Not already promoted" is a documented condition of promotion (core/capsules.py:433) that
  only the batch checks. Promotion keeps the links exactly when the capsule is unpromoted, or
  merged again where it was merged: `PromotionKeepsInv`, `PromotingTwiceBreaksLinks`.
- Every writer of a record's metadata reads the object and writes it back after an await. A
  write-back loses links if and only if a link of the row was written in between, and a
  promotion links twice if and only if its capsule was linked in between: `StepKeepsSound`. A
  retrieval can so drop a merged capsule from its engramm (`StaleRetrievalLosesAMerge`), or
  make a batch promote a capsule again (`StaleTagsPromoteTwice`). With promotions one at a time
  only the other writers can lose links: `OnlyWriteBacksLoseLinks`.
- "rc < release" (core/auto_updater.py:957) is false. A release candidate's key extends that
  of its release and compares greater: `CandidateIsBelowExactly`.
- The user mirror is exact if and only if every remote username is in lower case, because
  names are pulled in lower case and pruned as they are: `SyncMirrorsExactly`. A row replaced
  by its username can change its id and orphan a session: `RekeyedSessionsLoseTheirUser`.
- "FIFO order is maintained" within a priority (core/bounded_queue.py:116) needs a clock that
  does not step back between puts of one priority. A get takes the earliest put of the highest priority if and only if no
  waiting entry of that priority has an earlier time: `PickIsOldestExactly`,
  `ClockStepBackBreaksFifo`.
- `put_sync` and `get_sync` leave the event alone, so the event follows the queue exactly
  until a `put_sync` finds it empty or a `get_sync` finds one entry: `EventFollowsQueue`,
  `SyncOperationsStray`.

## Model

| member | source | states |
|---|---|---|
| Presence.PresenceNode.constructor | node.py:286-292 | no peer has a grace task, a debounce time or an announcement |
| Presence.PresenceNode.CancelTask | node.py:3802-3803 | a cancellation is a request on a task that is not done; nothing else changes until it is delivered |
| Presence.PresenceNode.OnPeerConnected | node.py:3801-3840 | the whole new state after a connect: entry popped and cancelled, and for an announced-offline peer the debounced online broadcast |
| Presence.PresenceNode.OnPeerDisconnected | node.py:3945-4020 | the whole new state after a disconnect: the old grace task cancelled, a fresh one in its place |
| Presence.PresenceNode.GraceStarts | node.py:3954-3957 | a created task goes to sleep at the current time |
| Presence.PresenceNode.GraceExpires | node.py:3963-3986 | after the sleep: skipped when the link is active or the last broadcast is under 60 s old, otherwise recorded and announced |
| Presence.PresenceNode.SendReturns | node.py:4006-4017 | once the send returned, the grace task removes the entry of its peer and ends |
| Presence.PresenceNode.CancellationArrives | node.py:3956-3961 | a cancelled sleeper drops the offline debounce entry of its peer and nothing else |
| Presence.StepKeepsAgreement | node.py:3813-3840 | every step keeps: a peer is in the offline set exactly when the latest broadcast about it was offline |
| Presence.StepKeepsInv | node.py:3757-4020 | every step of every handler and task keeps the presence invariant |
| Presence.RunKeepsInv | node.py:3757-4020 | the invariant holds in every reachable state |
| Presence.SuppressionIsDead | node.py:3813-3840 | at every connect an announced-offline peer is past the online debounce |
| Presence.NothingIsSuppressed | node.py:3813-3840 | no run ever took the suppressing branch |
| Presence.LocalStateAgreesWithMesh | node.py:3813-3840 | in every run the offline set is what the mesh was last told, and after a connect the latest broadcast about the peer is not offline |
| Presence.ConnectAnnouncesExactly | node.py:3813-3840 | in every run a connect announces its peer if and only if the mesh was last told that it is offline |
| Presence.StepKeepsOnline | node.py:3813-3819 | every step keeps: the online debounce table holds the last online broadcast about a peer |
| Presence.OnlineNoticesAreSeparated | node.py:3813-3840 | between two online broadcasts about a peer there is an offline one |
| Presence.OnlineNoticesAreSpaced | node.py:3816-3819 | two online broadcasts about a peer are 30 s apart |
| Presence.OneLiveTaskPerPeer | node.py:3945-4020 | a peer has at most one grace task that is not cancelled, and it is the peer's map entry |
| Presence.StepKeepsKept | node.py:3956-3985 | every step keeps: the debounce table holds the last offline broadcast about a peer that no cancelled sleep dropped |
| Presence.ExpiryAnnouncesExactly | node.py:3963-3986 | in every run an expiring task announces its peer if and only if the link is not active and the last broadcast that was not dropped is 60 s ago |
| Presence.OfflineNoticesAreJustified | node.py:3956-3985 | every offline broadcast follows a disconnect by at least 30 s with no connect since, comes 30 s after every earlier one, and 60 s after the last one that was not dropped, so after all since which no sleeping grace task of the peer was cancelled |
| Presence.OfflineNoticesNeedDisconnects | node.py:3945-4020 | between two offline broadcasts about a peer it disconnected |
| Presence.NoTaskExpiresTwice | node.py:3963-3982 | no grace task expires twice: one that found the link active, or was debounced, never announces |
| Presence.DisconnectLeadsToNotice | node.py:3945-4020 | from every reachable state, a disconnect and a grace period without anything else lead to an announcement exactly when the debounce allows it |
| Presence.DebounceCanBeCutShort | node.py:3956-3961 | a run in which two offline broadcasts about a peer are 30 s apart |
| UpdateDriver.Driver.constructor | node.py:1126-1126 | the state word starts idle with no check suspended |
| UpdateDriver.Driver.RunUpdateCheck | node.py:6486-6497 | a check starts exactly when the word is not busy, and marks it "checking" |
| UpdateDriver.Driver.CheckForUpdateReturned | node.py:6497-6533 | the whole state after the awaited check: idle, available, or updating with the apply awaited |
| UpdateDriver.Driver.ApplyUpdateReturned | node.py:6518-6527 | the whole state after the awaited apply |
| UpdateDriver.Driver.BodyRaised | node.py:6534-6535 | an exception leaves the word as it is and goes to the close |
| UpdateDriver.Driver.CloseEnded | node.py:6534-6582 | after the close only a poll check turns an exception into "error"; a cancellation, in the body or in the close, leaves the word |
| UpdateDriver.StepKeepsExclusive | node.py:6478-6582 | a step keeps "at most one check in flight, and the word says so" if and only if it is not a poll check's failing close beside another check in flight |
| UpdateDriver.WordIsLatestReport | node.py:6486-6582 | in every run the word is the one the latest reporting event calls for: checking, idle, available, updating, updated, failed or error |
| UpdateDriver.AtMostOneCheckInFlight | node.py:6478-6582 | exclusion in every run of poll ticks, MQTT triggers and failing checks without such a close |
| UpdateDriver.RunIsExclusiveExactly | node.py:6478-6582 | exclusion holds throughout a run if and only if the run has no such close |
| UpdateDriver.FailingCloseBreaksExclusion | node.py:6577-6582 | a run with two checks in flight |
| UpdateDriver.StepGetsStuckExactly | node.py:6534-6582 | with any overlaps, a step leads to a state that can never free the word if and only if the word is busy, all other checks are closing MQTT checks, and an MQTT body raises or a poll check leaves without an error |
| UpdateDriver.RunGetsStuckExactly | node.py:6534-6582 | so it is at the end of every run |
| UpdateDriver.StuckIsForever | node.py:6486-6489 | from such a state no sequence of events starts a check or changes the word |
| UpdateDriver.OthersGetFree | node.py:6497-6582 | from every other busy state some continuation frees the word |
| UpdateDriver.BusyForeverExactly | node.py:6486-6582 | a busy word stays busy in every continuation if and only if only closing MQTT checks are left |
| UpdateDriver.TwoWaysToGetStuck | node.py:6534-6582 | two runs into such a state: an MQTT check that raises, and a poll check that is cancelled |
| Forest.RetargetKeepsAcyclic | core/agent_team.py:228-230 | giving a set of nodes one new parent keeps a parent graph acyclic if and only if none of them is that parent or above it |
| Forest.RemovalKeepsAcyclic | core/agent_team.py:228-230 | clearing parents keeps a graph acyclic |
| AgentTeam.ReportsToCreatesCycle | core/agent_team.py:141-159 | on any configuration, cyclic and dangling ones included, the walk ends and is true exactly when the node is the proposed parent or above it |
| AgentTeam.CheckIsExact | core/agent_team.py:141-159 | on an acyclic hierarchy that is exactly when the new edge closes a cycle |
| AgentTeam.CleanDelegatesAreExactly | core/agent_team.py:181-192 | the surviving delegates are exactly the known others that were given, without duplicates |
| AgentTeam.CleanDelegatesKeepOrder | core/agent_team.py:181-192 | they are in the order of their first occurrences |
| AgentTeam.Sanitize | core/agent_team.py:162-199 | the parent survives unless it is the node itself, unknown, or closes a cycle; the delegates are the cleaned ones |
| AgentTeam.StaleReadIsHarmless | core/agent_team.py:86-95 | sanitizing the stored configuration, where a new node is still missing, decides the same as with its entry there |
| AgentTeam.TeamFile.UpdateNodeRole | core/agent_team.py:79-109 | the whole new configuration after an update with any of its arguments absent |
| AgentTeam.UpdateSetsFields | core/agent_team.py:86-106 | every field of the updated node: an argument given wins, an absent one leaves the field of the node or of a new member under "Nova", an empty role counts only without a parent or delegates |
| AgentTeam.LastRoleWins | core/agent_team.py:79-109 | after any sequence of updates a node has the last role it was given |
| AgentTeam.UpdateKeepsAcyclic | core/agent_team.py:79-109 | on any forest, dangling references included, an update keeps the forest if and only if it does not create a node, without a parent of its own, that is "Nova" or above it |
| AgentTeam.UpdateOfClosedKeepsAcyclic | core/agent_team.py:79-109 | when all references are known, that node can only be a missing "Nova" |
| AgentTeam.CreatingANodeCanCloseACycle | core/agent_team.py:86-87 | two forests that such an update turns into cycles: the empty one, and one whose "Nova" reports to an unknown node |
| AgentTeam.UpdateKeepsHierarchy | core/agent_team.py:79-109 | an update keeps the hierarchy acyclic, closed and containing "Nova" |
| AgentTeam.UpdatesKeepHierarchy | core/agent_team.py:79-109 | so does every sequence of updates |
| AgentTeam.ProposedParentIsTakenExactly | core/agent_team.py:79-109 | on any forest a proposed parent is taken if and only if it is known and the new edge closes no cycle; otherwise the node keeps its parent |
| AgentTeam.UpdatesTouchNamedNodesOnly | core/agent_team.py:79-109 | no sequence of updates changes the entry of a node it does not name, and new nodes come after the old ones |
| AgentTeam.CleanEntry | core/agent_team.py:229-234 | one entry without references to the removed node, and whether it had any |
| AgentTeam.TeamFile.CleanupTeamReferences | core/agent_team.py:220-238 | the whole new configuration, and true exactly when some entry mentioned the removed node |
| AgentTeam.LeaderIsFirst | core/agent_team.py:226-226 | the leader is the first node with that role, and there is none exactly when no node has it |
| AgentTeam.WithoutIsFilter | core/agent_team.py:232-233 | dropping the removed node distributes over lists in a row, so the others keep their order and number |
| AgentTeam.CleanupTouchesReferencesOnly | core/agent_team.py:228-234 | roles, flags, positions and references to others stay |
| AgentTeam.CleanupKeepsAcyclic | core/agent_team.py:220-238 | cleaning up keeps the forest if and only if there is no leader or the leader is not a member of the removed node or below one |
| AgentTeam.CleanupOfNamedKeepsAcyclic | core/agent_team.py:220-238 | for a removed node with a name: if and only if there is no leader, the leader is that node, or that node is not above the leader |
| AgentTeam.CleanupKeepsHierarchy | core/agent_team.py:220-238 | under that condition, and only then, the hierarchy stays acyclic, closed and containing "Nova" |
| AgentTeam.EditsKeepHierarchy | core/agent_team.py:79-238 | updates and safe cleanups in any order keep the hierarchy |
| AgentTeam.CleanupLeavesNoReference | core/agent_team.py:226-234 | nobody delegates to the removed node afterwards, and somebody reports to it exactly when somebody did and it is the leader |
| AgentTeam.CleanupUnderRootLeader | core/agent_team.py:220-238 | with a root leader other than the removed node the hierarchy is kept and no entry mentions the removed node |
| AgentTeam.CleanupCanCloseACycle | core/agent_team.py:226-230 | a leader below the removed node ends up reporting to itself |
| BoundedQueue.BoundedQueue.constructor | core/bounded_queue.py:44-51 | an empty queue with zero counters |
| BoundedQueue.BoundedQueue.Put | core/bounded_queue.py:53-78 | the whole new state: oldest dropped when full, entry appended, event set; fails exactly on capacity 0 |
| BoundedQueue.BoundedQueue.PutSync | core/bounded_queue.py:80-94 | the same with the event left alone |
| BoundedQueue.PutsAreTheOperations | core/bounded_queue.py:63-78 | in every run the entries put are those of its put operations, in order, with their items, priorities and times; none on capacity 0 |
| BoundedQueue.PutAppends | core/bounded_queue.py:63-78 | after a put its entry is the last, behind those that were waiting, without the first one of a full queue |
| BoundedQueue.CountersCountOperations | core/bounded_queue.py:53-179 | in every run the counters count its puts, the gets that found an entry and the puts that found the queue full |
| BoundedQueue.BoundedQueue.TakeBest | core/bounded_queue.py:101-105 | the head of the sorted copy and the first equal entry of the deque are the same entry, and only that one goes |
| BoundedQueue.BoundedQueue.GetSync | core/bounded_queue.py:96-110 | the item and the whole new state; nothing on an empty queue |
| BoundedQueue.BoundedQueue.GetNowait | core/bounded_queue.py:162-179 | the same, clearing the event when the queue becomes empty; also what `get` does with an entry there |
| BoundedQueue.PickIsOldestExactly | core/bounded_queue.py:131-138 | a get takes the earliest put of the highest priority, as the abstract priority queue does, if and only if no entry of that priority has an earlier time |
| BoundedQueue.PickIsOldestOfHighest | core/bounded_queue.py:131-138 | so it does whenever the entries are in time order |
| BoundedQueue.ClockStepBackBreaksFifo | core/bounded_queue.py:131-138 | two puts of one priority with a clock step back between them: the later one is handed out first |
| BoundedQueue.StepKeepsAccounts | core/bounded_queue.py:53-179 | every operation, whatever the clock, keeps the size bound, conservation and the age of drops |
| BoundedQueue.StepKeepsOrder | core/bounded_queue.py:53-179 | with a put no earlier than the waiting entries of its priority, every operation keeps time order and FIFO within a priority |
| BoundedQueue.RunKeepsAccounts | core/bounded_queue.py:53-179 | every run, whatever its clock, keeps the accounts |
| BoundedQueue.RunKeepsOrder | core/bounded_queue.py:53-179 | every run in which put times of one priority do not decrease keeps the order |
| BoundedQueue.NothingIsLostSilently | core/bounded_queue.py:53-179 | in every run, whatever its clock, size is within capacity, enqueued = dequeued + dropped + size, dropped = overflow count, and the entries put are those waiting, handed out and dropped, as multisets |
| BoundedQueue.GetsArePriorityThenFifo | core/bounded_queue.py:112-148 | in every run in which put times of one priority do not decrease, a get takes the first put entry of the highest priority, and each priority is handed out in put order |
| BoundedQueue.DroppedEntriesAreOld | core/bounded_queue.py:64-74 | in every run, whatever its clock, at least `capacity` puts come after a dropped entry |
| BoundedQueue.EventFollowsQueue | core/bounded_queue.py:53-179 | an operation keeps "event set exactly when not empty" if and only if it is not a sync put on an empty queue of positive capacity or a sync get on a queue of one entry |
| BoundedQueue.SyncOperationsStray | core/bounded_queue.py:80-110 | a sync put on a new queue, and a sync get after an async put, leave the event wrong |
| BoundedQueue.EventFollowsQueueInAsyncRuns | core/bounded_queue.py:53-179 | over the async operations alone the event is set exactly when the queue has entries |
| Sorting.StableSortIsStable | core/bounded_queue.py:134-136 | the sort gives a sorted sequence that keeps tied elements in order, which is what `list.sort` promises |
| Sorting.HeadOfStableSort | core/bounded_queue.py:136-137 | the head of any stable sort is the first least element |
| AckTracker.AckManager.constructor | core/ack.py:88-95 | nothing is tracked |
| AckTracker.AckManager.Track | core/ack.py:106-114 | a new pending tracker is mapped; a tracker already mapped for the message lives on unmapped |
| AckTracker.TrackersAreTracks | core/ack.py:106-114 | in every run the trackers are the messages tracked, in order, with their priorities and times, and a message is mapped to its last one |
| AckTracker.AckManager.ProcessAck | core/ack.py:134-174 | the mapped tracker is acknowledged and unmapped, and returned; unknown messages change nothing |
| AckTracker.AckStopsRetries | core/ack.py:150-212 | after an ACK, whatever follows, the tracker is not retried or given up, not even by a tick that has it in its snapshot |
| AckTracker.AckManager.MonitorWakes | core/ack.py:205-208 | a tick starts with a copy of the mapped trackers |
| AckTracker.AckManager.MonitorVisits | core/ack.py:208-240 | one entry of the snapshot: retried, given up, or left; the retry number handed to the callback |
| AckTracker.AckManager.MonitorCleansUp | core/ack.py:242-249 | the whole state after the clean-up: unmapped are exactly the messages that failed in this tick and are older than five minutes |
| AckTracker.AckManager.MonitorAborts | core/ack.py:251-254 | a raising callback ends the tick, and nothing else changes |
| AckTracker.AckManager.GetStats | core/ack.py:256-266 | nothing tracked is acknowledged, and pending + failed = total |
| AckTracker.StatsAddUp | core/ack.py:256-266 | the sets of pending and failed messages split the tracked ones |
| AckTracker.StepKeepsInv | core/ack.py:106-254 | every event, inside or outside a tick, keeps the tracker invariant |
| AckTracker.RunKeepsInv | core/ack.py:106-254 | so does every interleaving |
| AckTracker.TrackedMessagesArePendingOrFailed | core/ack.py:208-221 | in every run a mapped tracker is its message's, and pending with retries to go or failed with none |
| AckTracker.UrgentMessagesTimeOutSooner | core/ack.py:40-54 | the ten timeouts, falling with the priority, and a minute for any other priority |
| AckTracker.RetriesCountLateVisits | core/ack.py:208-222 | in every run the retries of a tracker are the visits that found it pending and past its timeout |
| AckTracker.TicksCountLateTicks | core/ack.py:208-249 | in every run the late ticks of a tracker are the completed ticks that had it past its timeout |
| AckTracker.CallbacksCountUp | core/ack.py:212-240 | the callbacks of a tracker carry 1, 2, ... in order, below the maximum |
| AckTracker.LateTrackersSettle | core/ack.py:208-221 | a tracker that was late in as many completed ticks as there are retries is no longer pending |
| AckTracker.FailedEntriesStay | core/ack.py:242-249 | an entry that outlived the tick it failed in stays, whatever the later events, until its own message is tracked or acknowledged |
| AckTracker.TickSettlesFailures | core/ack.py:242-254 | at the end or the abort of a tick a failed entry leaves if and only if it failed in this tick, the tick completed and the message is more than five minutes old |
| AckTracker.FailedEntriesAreRemovedExactly | core/ack.py:242-254 | after any continuation without an event about it the message is tracked if and only if that tick did not remove it |
| AckTracker.FailedEntryOutlivesFiveMinutes | core/ack.py:242-249 | a run in which a message that failed ten seconds after it was sent is still tracked by a tick at 1000 s |
| Base64Url.Decode | core/auth.py:763-764 | the one-pass lenient decoder computes the decoding that the round trip is about |
| Base64Url.AlphabetOfStandard | core/auth.py:733-733 | the URL-safe alphabet of table 2 in section 5 of RFC 4648 |
| Base64Url.VectorsOfStandard | core/auth.py:733-733 | test vectors of section 10 of RFC 4648 |
| Base64Url.EncodingIsPadded | core/auth.py:733-733 | the encoding fills groups of four with fewer than four padding characters |
| Base64Url.DecodeSkips | core/auth.py:764-764 | the decoder skips a character outside the alphabet wherever it stands |
| Base64Url.UnpaddedDecodesExactly | core/auth.py:763-764 | without padding exactly whole groups of four decode |
| Base64Url.LonePadIsSkipped | core/auth.py:764-764 | padding that completes no group is skipped before more characters |
| Base64Url.TextAfterPaddingIsIgnored | core/auth.py:764-764 | complete padding ends the decoding, whatever follows |
| Base64Url.BodyIsClean | core/auth.py:733-733 | the encoded characters hold no "=" and no ":", and their number modulo four is never one |
| Base64Url.PadUndoesStrip | core/auth.py:763-763 | re-padding by length restores exactly the padding that was stripped |
| Base64Url.ShiftAllUndoesSextets | core/auth.py:764-764 | decoding the six-bit groups of any bytes writes those bytes |
| Base64Url.RoundTrip | core/auth.py:733-764 | every byte string comes back from encoding, stripping, re-padding and decoding, and its text has no ":" |
| AuthTokens.AuthManager.GenerateToken | core/auth.py:716-753 | the token of the payload with its expiry, and exactly one session row written under its signature |
| AuthTokens.FreshTokenIsGood | core/auth.py:716-753 | from any state, a token just generated gives its user for exactly its hours, or for ever when they are 0 or negative |
| AuthTokens.GeneratingTouchesOneSession | core/auth.py:735-742 | generating a token leaves every token with another signature as it was |
| AuthTokens.AuthManager.Unpack | core/auth.py:758-772 | old and new token formats, undecodable ones and texts without ":" give payload text and signature, or nothing |
| AuthTokens.AuthManager.VerifyToken | core/auth.py:755-801 | the user, nothing on a failure, or the TypeError of comparing a signature text that is not ASCII, in the order of the source |
| AuthTokens.OldFormatIsJudgedAlike | core/auth.py:758-772 | a token in the old format is verified and logged out like the encoded one |
| AuthTokens.ForeignSignatureRaises | core/auth.py:783-786 | a good payload, not expired, with a signature text that is not ASCII makes verification raise |
| AuthTokens.AuthManager.LogOut | core/auth.py:803-820 | the row of the token's signature goes, and nothing else |
| AuthTokens.AuthManager.RevokeSession | core/auth.py:706-714 | the row of the signature goes |
| AuthTokens.RevokingIsLoggingOut | core/auth.py:706-714 | revoking a signature is logging out with its token |
| AuthTokens.DroppingAUser | core/auth.py:925-937 | deleting a user ends exactly its sessions and leaves other users alone |
| AuthTokens.SplitUndoesJoin | core/auth.py:772-772 | splitting at the last ":" recovers payload and signature, whatever colons the payload has |
| AuthTokens.GeneratedTokenParses | core/auth.py:716-772 | a generated token unpacks to exactly its payload text and signature |
| AuthTokens.RowsComeFromTokens | core/auth.py:735-742 | in every run a session row belongs to a generated token and carries its user and expiry |
| AuthTokens.GeneratedTokenVerifies | core/auth.py:755-801 | in every run a generated token gives its user exactly while its expiry is 0 or in the future, its row exists and the user exists |
| AuthTokens.GeneratedTokensDoNotRaise | core/auth.py:783-786 | verifying a generated token never raises |
| AuthTokens.OnlyIssuedTokensVerify | core/auth.py:755-801 | in every run a token that verifies has the text of a generated one |
| AuthTokens.LogoutEndsOneSession | core/auth.py:803-820 | after a logout the token is worth nothing and every token with another signature what it was |
| LoginLimiter.LoginLimiter.Admit | core/auth.py:572-581 | admitted exactly with fewer than five recent attempts; a rejection stores nothing |
| LoginLimiter.LogIsAdmitted | core/auth.py:575-581 | in every run the history of a username holds exactly the attempts whose verdict was to admit |
| LoginLimiter.RecentOfStored | core/auth.py:576-577 | pruning the stored list finds the recent attempts of the whole history |
| LoginLimiter.RunKeepsKey | core/auth.py:572-581 | in every run the stored list is the end of the history, and what was pruned is out of every later window |
| LoginLimiter.SixAttemptsSpanAMinute | core/auth.py:572-581 | in every run six consecutive attempts of a username that were admitted span 60 s |
| LoginLimiter.LimiterIsExact | core/auth.py:578-579 | in every run an attempt is admitted if and only if there were fewer than five or the fifth-last is 60 s old |
| UserMirror.LocalTables.PullUsers | core/auth.py:419-429 | the table after replacing by id or name, row by row, and the remote names |
| UserMirror.LocalTables.RemoveGone | core/auth.py:436-441 | the users with those names leave, with the sessions under their ids |
| UserMirror.LocalTables.SyncFromPg | core/auth.py:404-450 | the whole tables after a sync from any table with unique names |
| UserMirror.UpsertAllKeepsUnique | core/auth.py:423-427 | replacing on either key keeps usernames unique |
| UserMirror.SyncMirrorsExactly | core/auth.py:404-450 | from any local table the sync leaves every remote user, and nobody else, under its name as id and username with its fields, if and only if every remote username is in lower case |
| UserMirror.UpsertsSplit | core/auth.py:420-427 | under each id the upserts leave an untouched old row or what an empty table would get: what they write does not depend on what was there |
| UserMirror.SyncIsIdempotent | core/auth.py:404-450 | syncing twice is syncing once, sessions included, for any tables and names |
| UserMirror.PrunedUsersLoseTheirSessions | core/auth.py:434-441 | a session goes if and only if its id named a user that is absent remotely |
| UserMirror.RekeyedSessionsLoseTheirUser | core/auth.py:423-427 | a session whose user is replaced under another id stays without a user |
| Capsules.PromotionCounts | core/capsules.py:474-579 | such a promotion keeps the engramms' weights equal to the promoted capsules, and adds one exactly for a new capsule |
| Capsules.PromotionKeepsInv | core/capsules.py:427-579 | a promotion that nothing interrupts keeps all links right if and only if the capsule is unpromoted or merged again where it was merged |
| Capsules.PromotionMergesExactly | core/capsules.py:474-579 | a promotion adds no row if and only if its conclusion is embedded and the nearest engramm is at least 0.9 similar; it links that engramm or the new row and touches no other |
| Capsules.BatchKeepsInv | core/capsules.py:821-854 | a batch that nothing interrupts keeps the links, leaves promoted capsules with their engramm, and counts its promotions |
| Capsules.PromotingTwiceBreaksLinks | core/capsules.py:427-459 | a promoted capsule promoted again outside a batch is listed by two engramms |
| CapsuleTasks.Memory.StoreCapsule | core/capsules.py:217-298 | a new unpromoted capsule under a fresh id |
| CapsuleTasks.Memory.ReadMetadata | core/capsules.py:767-773 | a writer holds a copy of the row; likewise in retrieve_capsules, check_and_generate_skills, the retrieval counter and version updates |
| CapsuleTasks.Memory.WriteMetadata | core/capsules.py:774-779 | the whole new table: the metadata held, changed, beside the embedding as it is now; likewise in those functions |
| CapsuleTasks.Memory.WriteEmbedding | core/capsules.py:1149-1158 | only the embedding of the row changes |
| CapsuleTasks.Memory.PromoteReads | core/capsules.py:441-461 | a promotion goes on exactly for an existing capsule that is old enough, holding its row |
| CapsuleTasks.Memory.PromoteSearches | core/capsules.py:466-486 | it then holds the near-duplicate as the search returned it, if there is one |
| CapsuleTasks.Memory.PromoteWrites | core/capsules.py:487-570 | the whole new table: the held engramm with the capsule merged in, or a new row |
| CapsuleTasks.Memory.PromoteLinks | core/capsules.py:503-579 | the whole new table: the held capsule with its link |
| CapsuleTasks.Memory.PromoteCapsule | core/capsules.py:427-579 | with nothing in between: nothing for a missing or young capsule; otherwise the engramm it merged into or a new one, and the promoted table |
| CapsuleTasks.Memory.CheckAndPromote | core/capsules.py:821-854 | with nothing in between: the table after the batch, and the number of mature capsules in it |
| CapsuleTasks.Memory.CountReferences | core/capsules.py:764-779 | with nothing in between: one reference more for every engramm returned, counted with multiplicity |
| CapsuleTasks.Memory.UpdateVersion | core/capsules.py:1085-1160 | with nothing in between: the version of any record goes up by one and no link changes |
| CapsuleTasks.ReferencedCounts | core/capsules.py:764-779 | each engramm gets as many references as it was found times, and nothing else changes |
| CapsuleTasks.VersionedCounts | core/capsules.py:1096-1158 | the version goes up by one, the embedding may be marked, and nothing else changes |
| CapsuleTasks.PromotionStartsExactly | core/capsules.py:441-461 | a promotion starts if and only if the capsule exists, has a creation time and is at least an hour old |
| CapsuleTasks.EmbeddingChangesExactly | core/capsules.py:497-502 | however stale the object written back, only the statement of the embedding column changes whether an engramm is embedded |
| CapsuleTasks.FreshKeepsSound | core/capsules.py:368-579 | a fresh step keeps all links, loses none, and promotes a capsule exactly when it is the last write of a promotion |
| CapsuleTasks.StaleWriteBackBreaksLinks | core/capsules.py:774-779 | a write-back over a link written since it was read breaks the links |
| CapsuleTasks.StalePromotionBreaksLinks | core/capsules.py:487-570 | so does a promotion over such a link, or of a capsule linked since |
| CapsuleTasks.StepKeepsSound | core/capsules.py:368-1158 | under any interleaving a step keeps the links right if and only if it is fresh: no link of the row, or of the capsule promoted, was written since it was read |
| CapsuleTasks.RunIsSoundExactly | core/capsules.py:368-1158 | the links are right throughout a run if and only if none of its writes is stale |
| CapsuleTasks.LinksAgree | core/capsules.py:474-579 | without stale writes a capsule points to an engramm, or is about to, if and only if it is its source or merged into it; no other engramm lists it; and with no promotion under way the table alone has these links |
| CapsuleTasks.LinksAreKept | core/capsules.py:474-579 | without stale writes a promoted capsule keeps its engramm for good, and an engramm its capsules |
| CapsuleTasks.WeightsCountPromotedCapsules | core/capsules.py:474-579 | without stale writes the sum of 1 + merged over the engramms is the number of capsules promoted or about to be, merged ids are distinct, and references are at least 1 + merged |
| CapsuleTasks.ReportsAddUp | core/capsules.py:836-854 | without stale writes the promotions reported are the capsules promoted: none is reported twice or goes unreported |
| CapsuleTasks.OnlyWriteBacksLoseLinks | core/capsules.py:821-854 | with promotions one at a time, each of an unpromoted capsule, a run has no stale write if and only if the write-backs of the other writers are fresh |
| CapsuleTasks.StaleRetrievalLosesAMerge | core/capsules.py:764-779 | a run after which a capsule points to an engramm that does not list it |
| CapsuleTasks.StaleTagsPromoteTwice | core/capsules.py:368-378 | a run in which a capsule is promoted, forgotten by a retrieval and promoted again: two engramms list it |
| Topology.BuildTree | cli.py:969-997 | under each key the rows with that effective parent in list order, and the root: last coordinator or first orphan |
| Topology.ParentsAreExactly | cli.py:979-987 | a row has exactly its own parent, unless that is its own address or the address of no row |
| Topology.ChildrenKeepOrder | cli.py:987-990 | children are in the order of the rows |
| Topology.RootIs | cli.py:991-995 | the root is the last coordinator or, without one, the first row with no such parent; there is none exactly when there is neither |
| Topology.Printer.PrintTree | cli.py:1004-1018 | the recursion with the shared visited set appends exactly the lines of the depth-first printout, and terminates on any child lists |
| Topology.BuiltTreeIsParentGraph | cli.py:973-991 | with unique addresses the child lists are exactly those of the parent graph |
| Topology.PrintedIsRight | cli.py:1004-1018 | what printing one node adds: every new node once, all below it, all children visited, markers only for the root |
| Topology.PrintoutIsExact | cli.py:942-1018 | for any parents each node below the root is printed exactly once without a marker and no other is; there is one marker, for the root, exactly when the root is below itself |
| Topology.ListIsOutline | cli.py:1016-1018 | the printout of a list of children has them, in order, at their indentation, and everything else under one of them |
| Topology.PrintoutIsOutline | cli.py:1004-1018 | the printout reads as the tree: the root alone at the left, and every other line one step to the right of its parent's, with nothing as far left in between |
| Topology.RootIsListed | cli.py:992-997 | the chosen root is one of the rows |
| Topology.ShowTopology | cli.py:969-1002 | the command prints that exact printout in that shape, or nothing when there is no root |
| Alerts.AlertManager.Evaluate | core/alert_manager.py:187-215 | the rules after the sweep and the rules that fired, in order |
| Alerts.AlertManager.UpdateMetrics | core/alert_manager.py:183-185 | the metrics are replaced and no rule changes |
| Alerts.AlertManager.EvaluateRule | core/alert_manager.py:247-284 | one turn of the background loop, up to the await of its callback: the same transition and fire decision as in the synchronous sweep, for every rule, value and time |
| Alerts.AlertManager.EvaluateAll | core/alert_manager.py:245-284 | a background sweep with nothing between its turns does what the synchronous sweep does |
| Alerts.RunIsSeenSweeps | core/alert_manager.py:187-284 | under any interleaving of new metrics, synchronous sweeps and turns of background sweeps, a rule goes through exactly the evaluations it sees |
| Alerts.InterleavedFiresAreACooldownApart | core/alert_manager.py:187-284 | so under any such interleaving its fires in an episode are a cooldown apart, and the last is the one it remembers |
| Alerts.WatchKeepsEpisode | core/alert_manager.py:187-284 | under any mix of the sweeps an episode is the fires since the rule began firing, and its last is `last_fired` |
| Alerts.FiresAreACooldownApart | core/alert_manager.py:81-86 | fires within an episode are a cooldown apart |
| Alerts.OperatorsMean | core/alert_manager.py:65-79 | what each of the seven operators calls a violation below, at and above the threshold |
| Alerts.FiresExactly | core/alert_manager.py:187-206 | after any sweeps a rule fires if and only if it is enabled, its metric violates it, and no fire of the episode is less than a cooldown ago |
| Alerts.OkUntilFirstFire | core/alert_manager.py:187-206 | a rule is OK until its first fire, and from then on firing or resolved |
| Alerts.EpisodeFiresAreBounded | core/alert_manager.py:81-86 | an episode has at most 1 + floor(duration / cooldown) fires |
| Alerts.InterleavedFiresAreBounded | core/alert_manager.py:187-284 | so has it under any interleaving of sweeps, turns and new metrics |
| Alerts.StateFollowsValue | core/alert_manager.py:187-284 | after a sweep an enabled rule is firing exactly when its value violates it, and the counter counts its fires |
| Versions.VersionKey | core/auto_updater.py:942-961 | the loop computes the key part by part, with the partial appends its exception handler leaves |
| Versions.KeyInvertsPrint | core/auto_updater.py:942-961 | the key of any dotted version number, with or without "v", is its list of numbers |
| Versions.PartKeyOfWord | core/auto_updater.py:951-960 | a part without digits counts as 0, and a candidate without a number as number 0 |
| Versions.UnderscoresInNumbers | core/auto_updater.py:950-950 | a single underscore before a digit is skipped, and none is allowed elsewhere |
| Versions.LessIsStrictTotal | core/auto_updater.py:371-371 | comparing keys is a strict total order |
| Versions.LessIsLexicographic | core/auto_updater.py:371-371 | it is lexicographic: by the first difference, or by length without one |
| Versions.KeyOfCandidate | core/auto_updater.py:951-958 | the key of a release candidate is its version's, then -1, then its number |
| Versions.CandidateIsBelowExactly | core/auto_updater.py:953-958 | a candidate is below a release if and only if its version is below it, and always above the release it precedes |
| Versions.LatestTag | core/auto_updater.py:331-352 | a version tag with the greatest key of the list, or none exactly when there is no version tag |
| Versions.AutoUpdater.CheckForUpdate | core/auto_updater.py:357-378 | an offer is a latest tag above the running version; no offer means no listed tag is above it |
| UpdateRuns.InstalledKeysIncrease | core/auto_updater.py:357-378 | over every run of interleaved checks without an overwriting close, a check compares with the version that runs, and the installed keys strictly increase |
| UpdateRuns.VersionIsLastInstalled | core/auto_updater.py:357-378 | in every run the version compared with is the last installed tag without its "v" |
| UpdateRuns.NoTagTwice | core/auto_updater.py:357-378 | in such a run no tag is applied twice |
| UpdateRuns.UpdatesAreBounded | core/auto_updater.py:357-378 | while the lists come from a fixed set of tags, there are at most as many updates as it has tags |
| UpdateRuns.OverlappingChecksApplyATagTwice | node.py:6497-6582 | with an overwriting close, a run that applies any newer tag twice |

## Left out

- Transports, HTTP handlers, subprocesses, the file system, LLM and embedding calls, dashboards: input and output without a property of their own.
- Coordinator election, routing, deduplication, message hops, the offline queue: their modules are not part of this model.
- Presence: a connect while `peer_discovery` is missing returns before touching presence (node.py:3761-3762) and is no event; the discovery table, GossipSub, plugin, health-score and skill announcements of the handlers change nothing modelled.
- Presence: whether the link looks active at the end of a grace period (node.py:3969-3977) is an input of the step.
- Presence: the journal records the decision to announce, at the time the tables change; building the message may still fail and is only logged, and a cancelled send may not reach the mesh.
- Presence: no progress is claimed; a debounced offline notice is never rescheduled.
- Update driver: the configuration guards, the MQTT publication, the paho thread and the sleep of the poll loop; a poll tick may come whenever no poll check is suspended, even after a cancellation ended the loop, and `state` is modelled from node.py:1126 on.
- Team: the JSON file and the shared default it falls back to, the warnings of sanitizing, `can_split_tasks` and the security profile; a stored configuration is one with a `role` in every entry.
- Queue: the waiting loop and timeouts of `get`, wait times, logging; the deque's own `maxlen` never evicts because room is made first. Serial numbers and the three lists of entries put, handed out and dropped are history.
- BoundedQueue.GetsArePriorityThenFifo: assumes that put times of one priority do not decrease; without that the order is exact per get only, as `PickIsOldestExactly` states.
- ACK tracker: `next_retry_at` and its backoff, which nothing reads; the ACK type and the on-ack callback, which runs as a task of its own; the unused `cutoff`; a `max_retries` of 0, under which a tracker fails with one retry. Tracker objects are numbered so that aliasing between a tick's snapshot and the dictionary stays visible.
- ACK tracker: exceptions other than the callback's in the middle of one visit.
- Tokens: JSON payloads that are not objects or lack `user_id`, the creation time of sessions, the PostgreSQL copy, password hashing; a payload has the three fields that are generated.
- AuthTokens.GeneratedTokenVerifies: assumes that no token generated in the run has the signature of another text, because HMAC signatures of fixed length cannot be collision-free outright.
- AuthTokens.OnlyIssuedTokensVerify: assumes the same of the token's own text.
- Login: what follows the limiter; lower-casing is any function.
- User mirror: rows that violate NOT NULL and are skipped one by one, an unreachable database, `last_login or 0`; lower-casing is any function.
- Capsules: topics, agents, consensus, trust, tags, embeddings and texts; retrieval counts, whose threshold is 0; the order in which a batch picks its capsules and the text filter that may leave out more of them, so a batch is any at most 20 unpromoted ones.
- Capsules: rows deleted by maintenance scripts. A coroutine that fails takes no further step; a promotion that fails after writing its engramm stays about to link its capsule.
- Topology: names, roles and icons in the printed lines, and the query.
- Alerts: names, severities, callbacks and their errors, autonomy, adding and removing rules, which would break a suspended background sweep; NaN values; a metrics dictionary shared with its caller. The turns of background sweeps may come in any order.
- Versions: blanks around numbers, non-ASCII digits and numbers beyond Python's digit limit in `int()`; fetching the tag list and its anonymous retry; what applying an update does, except that an applied tag becomes the running version, and a failed or raising one does not.
