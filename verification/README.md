# Kotoconn: a verified model of the proxy daemon's hand-written core

Kotoconn is a proxy daemon. This project models the code it does not delegate to libraries: the
byte-weighted queue and its feedback capacity, the revocable I/O slot, the resource manager and the
daemon's shutdown, AnyTLS session multiplexing, the Hysteria2 and Naive codecs, and the byte movers
of the relay, the duplex pipe and the TUN writer.

How the model is built:

- Concurrent code (`queue.rs`, `scoped.rs`, `control.rs`, `resources.rs`, `lib.rs`, the wakers of
  `stream_buffer.rs`, the AnyTLS actor and pool) is a step machine. One step is one atomic operation, one lock section or one move of an
  actor. `Next` is total: a step that is not enabled changes nothing. A run is therefore any sequence
  of steps, and a theorem about `Exec(Init(), steps)` is about every interleaving. Memory is
  sequentially consistent.
- Code that updates its own fields is a class (`Capacity`, `Table`, `SharedPool`, `Session`,
  `Reassembler`, `ServerAssociations`, `Codec`, `Direction`, `Pipe`, `Transmitter`, `Pool`,
  `Storage`). Each method is proved against a function on values, and the promises are proved about
  that function, or against the promise itself.
- Time, randomness, I/O outcomes and library calls are inputs: `now`, padding lengths, scripts of
  pending, partial and failing I/O, the actions of the AnyTLS engine, the text form of socket
  addresses, the UDP packet encoder.

Where a promise does not hold as one would like, the exact condition is proved:

- A sender whose cost overflows `usize` is told Full and parks for a notification nobody owes it:
  `NoSenderStranded` is an if-and-only-if.
- `try_recv` may report Closed with an item still queued: with n senders left when it looks at the
  queue, no run overlooks an item if and only if n is zero (`TryRecv.TrustedExactly`).
- Polling the capacity more often can yield a lower target than one late poll. An extra poll is
  harmless for every load exactly for gaps that depend on what may happen around it:
  `ExtraPollWhilePendingExactly` when nothing more is completed,
  `ExtraPollAmongCompletionsExactly` when completions refresh before they count, as `complete` does,
  and `ExtraPollAmongCountsExactly` when counts may come without a refresh, as in the shared queue.
  Without completions polling is always harmless (`StalledPollingNeverLowers`).
- The concurrent completion counter refines the sequential one exactly while it does not wrap.
- A domain target reads back from its text exactly when the text is not a socket address.
- The arena's two-block bound is for first-in-first-out consumption. Of the views from i to j among
  n, it holds for every sequence of lengths if and only if i is at most 1, the window holds at most
  one view, or at most one view follows it (`TwoBlocksExactly`); three blocks always suffice
  (`InnerWindowBound`).
- The policy's hooks finish before anything drains if and only if the daemon's owner lives, no failed
  worker was seen and the deadline has not struck: each of the three, alone or together, has a run
  that overtakes them (`HooksFirstExactly`).
- A fragmented packet whose parts arrive once each is delivered if and only if what was collected of
  it is never evicted or expired (`DeliveredExactlyWhenKept`).
- Closing a scope closes exactly the scopes made from it (`CloseIsExact`); being tracked by it only
  delays its `wait` (`WaitIsExact`).

## Model

| member | source | states |
|---|---|---|
| ByteQueueProofs.RunKeepsInv | crates/protocol/src/queue.rs:107-143 | every run of senders, permits, drops, receives, replays and close keeps the ledger, the borrow, delivery, waiter and reader invariants |
| ByteQueueTheorems.CreditsAreExact | crates/protocol/src/queue.rs:134-143 | in every run `bytes` is the cost of queued items plus unresolved permits plus popped but unreleased items, never wraps in either direction of `usize`, and stays within the largest target or request |
| ByteQueueTheorems.CloseReturnsEveryCredit | crates/protocol/src/queue.rs:265-291 | once the receiver is gone and every permit is resolved, the queue is empty and `bytes` is zero, whatever publications raced with the close |
| ByteQueueTheorems.ReservationWithinTarget | crates/protocol/src/queue.rs:209-236 | a reservation is admitted exactly when the queue was empty or the sum stays within the target it loaded, and the sum fits `usize`; a refused one changes nothing |
| ByteQueueTheorems.NoSenderStranded | crates/protocol/src/queue.rs:242-252 | in every run a parked sender has an item, a permit or a notification ahead of it, if and only if its cost fits `usize` |
| ByteQueueTheorems.OversizedRequestStrands | crates/protocol/src/queue.rs:214-216 | a concrete run in which an overflowing request waits for a notification nobody owes |
| ByteQueueTheorems.NoReceiverStranded | crates/protocol/src/queue.rs:323-347 | a sleeping receiver has its waker registered, and whoever published or dropped the last sender since still has to wake it |
| ByteQueueTheorems.DeliveryOrder | crates/protocol/src/queue.rs:293-347 | what was handed out and not replayed is a prefix of the publication order; `poll_recv` ends only when no sender remains and everything published was delivered |
| TryRecv.TrustedExactly | crates/protocol/src/queue.rs:353-367 | with n senders left when `try_recv` looks at the queue, no run of the senders lets it report Closed over a queued item, if and only if n is zero |
| TryRecv.MissesAnItem | crates/protocol/src/queue.rs:353-367 | for every positive number of senders a run in which `try_recv` reports Closed although a published item is queued |
| TryRecv.ClosedMeansTheEnd | crates/protocol/src/queue.rs:353-367 | with no sender left when `try_recv` looks, Closed means everything published was consumed |
| AdaptiveQueue.QueueRuns | crates/protocol/src/queue.rs:209-236 | senders, receiver and refreshes together: every run of the whole queue is a run of the byte queue whose tasks load the published target |
| AdaptiveQueue.TargetFollowsConsumption | crates/protocol/src/queue.rs:20-23 | from any settled point of any run on, the published target stays at least the initial allowance and rises above where it stood to at most 4/125 of what the receiver gave back since, however senders fill the queue and refresh |
| AdaptiveQueue.BytesFollowConsumption | crates/protocol/src/queue.rs:157-158 | in every run `bytes` is at most the initial allowance, 4/125 of all the receiver ever took, or the largest single request |
| ByteQueueTheorems.Replay | crates/protocol/src/queue.rs:296-305 | the loop of `prepend` puts the items in order before the earlier prefix |
| FeedbackCapacity.Capacity.Target | crates/protocol/src/queue.rs:41-54 | reading the target leaves the state of the sequential refresh |
| FeedbackCapacity.Capacity.Complete | crates/protocol/src/queue.rs:56-60 | a completion refreshes, then counts with saturation |
| FeedbackCapacity.TargetNeverBelowInitial | crates/protocol/src/queue.rs:41-60 | over every run of polls and completions the target stays at least the initial allowance and fits `usize` |
| FeedbackCapacity.SampleBound | crates/protocol/src/queue.rs:44-46 | a sample is the exact quotient, never clamped, and at most completed times 4/125 |
| FeedbackCapacity.RefreshBound | crates/protocol/src/queue.rs:43-52 | a refresh never exceeds the largest of the initial value, the decayed target and completed times 4/125, and decays at least once |
| FeedbackCapacity.StalledNeverRaises | crates/protocol/src/queue.rs:41-54 | polls without completions never raise the target |
| FeedbackPolling.StalledPollingNeverLowers | crates/protocol/src/queue.rs:41-54 | without completions any schedule of extra polls ends with a target at least that of one late poll |
| FeedbackPolling.ExtraPollWhilePendingExactly | crates/protocol/src/queue.rs:41-54 | with any completions pending and none to come, an extra poll never lowers the final target if and only if one of the two gaps is below the interval or the last gap is at least the first and below two intervals |
| FeedbackLoads.ExtraPollAmongCompletionsExactly | crates/protocol/src/queue.rs:41-60 | whatever `complete` calls come before and after it, an extra poll never lowers the final target if and only if one of the two gaps is below the interval |
| FeedbackLoads.ExtraPollAmongCountsExactly | crates/protocol/src/queue.rs:316-321 | whatever polls and counts come before and after it, counts without a refresh included, an extra poll never lowers the final target if and only if it refreshes nothing |
| FeedbackLoads.SpreadsTheLoad | crates/protocol/src/queue.rs:44-49 | completions shortly before the last poll that an extra poll spreads over a longer time |
| FeedbackLoads.DecaysOnce | crates/protocol/src/queue.rs:48-49 | two intervals and a late completion with which an extra poll decays the sample |
| FeedbackPolling.SampleDecays | crates/protocol/src/queue.rs:44-49 | outside those gaps a concrete load ends with a lower target |
| SharedRefresh.AdvanceRefines | crates/protocol/src/queue.rs:108-132 | a refreshing thread polls the sequential capacity exactly once, at the swap of `completed`; its other steps are invisible |
| SharedRefresh.FetchAddRefines | crates/protocol/src/queue.rs:316-321 | the atomic counter refines the saturating one exactly while it does not wrap |
| SharedRefresh.RunRefines | crates/protocol/src/queue.rs:108-132 | every concurrent run is a run of the sequential capacity, its refreshes and counts in one order, and with no refresh in progress the atomic fields are its fields |
| SharedRefresh.LoadedTargetNeverBelowInitial | crates/protocol/src/queue.rs:108-132 | no interleaving, wrapping included, publishes a target below the initial allowance |
| ScopedSlotProofs.RunKeepsInv | crates/protocol/src/scoped.rs:28-103 | every interleaving of setup, polls and closes keeps ownership, tokens and the sentinel |
| ScopedSlotProofs.SingleOwner | crates/protocol/src/scoped.rs:49-89 | the boxed value has exactly one owner from creation to its single drop, and the occupied-slot assertion never fails |
| ScopedSlotProofs.ClosedMeansFreed | crates/protocol/src/scoped.rs:79-103 | once closed and quiet, the value was dropped as often as created and every token is back |
| ScopedSlotProofs.NoOperationAfterClose | crates/protocol/src/scoped.rs:28-60 | a call that starts after the close never operates on the value |
| ScopedSlotProofs.ClosedForever | crates/protocol/src/scoped.rs:62-89 | the sentinel is never replaced |
| ScopedSlotProofs.WaitCoversValue | crates/protocol/src/scoped.rs:107-152 | whenever no token is outstanding, so that `wait` may finish, the value is freed and nobody owns it |
| ScopedSlotProofs.SlotIsFreeForItsOwner | crates/protocol/src/scoped.rs:62-77 | whoever puts the value back meets an empty slot or the sentinel, never a second value |
| ScopeTracking.Merge | crates/protocol/src/control.rs:49-63 | the loop of `tracked_by` computes the merged tracker list |
| ScopeTracking.MergedTrackers | crates/protocol/src/control.rs:49-63 | the merged list holds both scopes' trackers without duplicates and keeps the scope's own tracker last |
| ScopeTracking.RunKeepsInv | crates/protocol/src/control.rs:36-122 | over every run each tracker counts exactly the tokens taken on it, those of a `track` that has not checked for the close yet included, and a scope's work is counted on the scopes above it and no other |
| ScopeTracking.WaitIsExact | crates/protocol/src/control.rs:79-122 | in every run `wait` on a scope may complete if and only if no work of the scope, of a descendant or of a scope tracked by one of them is registered |
| ScopeTracking.CloseIsExact | crates/protocol/src/control.rs:47-72 | in every run closing a scope closes exactly the scopes made from it at any depth, and nothing merely tracked by it |
| ScopeTracking.NothingReopens | crates/protocol/src/control.rs:65-72 | no later step takes a cancellation back |
| Registry.Table.Reserve | crates/daemon/src/resources.rs:287-308 | reserving succeeds exactly on an open, live dialer and then adds one user to it and changes nothing else; otherwise nothing changes |
| Registry.Table.Register | crates/daemon/src/resources.rs:250-270 | registration fails exactly when creation stopped and otherwise adds a fresh entry |
| Registry.Table.EndEntry | crates/daemon/src/resources.rs:624-647 | ending closes the entry and no other, takes one user from what it stands on exactly if it was open, sets the deadline only then, aborts only itself, and changes nothing else |
| Registry.Table.TerminateEntry | crates/daemon/src/resources.rs:609-621 | policy's close is refused exactly while the entry has users and otherwise leaves it closed |
| Registry.Table.Drain | crates/daemon/src/resources.rs:651-664 | ending the open entries of a tier one by one, in any order, stops exactly those and takes one user per dependent from what they stand on |
| Registry.StopOneMore | crates/daemon/src/resources.rs:651-664 | ending one more open entry is the same as stopping it together with the others |
| Registry.EndingTwice | crates/daemon/src/resources.rs:623-647 | a later drain changes nothing, a later abort only fires the abort token |
| ResourceManagerProofs.RunKeepsInv | crates/daemon/src/resources.rs:224-315 | every interleaving of creations, failures, closes, drains, supervisors and aborts keeps identities, counts and standing |
| ResourceTheorems.UsersAreExact | crates/daemon/src/resources.rs:117-123 | until the abort `users` is the number of open dependents plus in-flight reservations, in every run |
| ResourceTheorems.OpenStandsOnOpen | crates/daemon/src/resources.rs:224-315 | until the abort whatever an open resource was created on is an open, live dialer with an uncancelled scope |
| ResourceTheorems.CloseRefusedExactlyWhileUsed | crates/daemon/src/resources.rs:609-621 | policy's close is refused if and only if something open stands on the resource or reserves it |
| ResourceTheorems.UsesAreReleasedOnce | crates/daemon/src/resources.rs:310-315 | every release finds its use still counted and takes exactly one off, for failed creations and for endings |
| ResourceTheorems.ReleasedMeansDestroyed | crates/daemon/src/resources.rs:594-606 | a signalled release means the entry is gone, and an entry goes only after its native state was dropped |
| ResourceTheorems.NothingRegistersLater | crates/daemon/src/resources.rs:250-254 | once creation stopped, no later run adds an entry |
| Shutdown.RunKeepsInv | crates/daemon/src/lib.rs:373-493 | drain task, serve loop and resource manager together keep the phase invariant in every run |
| Shutdown.ServicesDrainLast | crates/daemon/src/lib.rs:373-401 | when the ordered drain reaches the services, no entry point is registered, no policy call is in progress and none can start |
| Shutdown.HooksFirstExactly | crates/daemon/src/lib.rs:306-310 | over every run that comes to a given state of owner, failure and deadline, the policy's hooks have finished before anything drains, if and only if the owner lives, no failed worker was seen and the deadline has not struck |
| Shutdown.HooksRunFirst | crates/daemon/src/lib.rs:435-443 | the half of it that the source promises: with none of the three, draining means the hooks have finished |
| Shutdown.Overtaken | crates/daemon/src/lib.rs:322-366 | for every other combination of dropped owner, failed worker and deadline a run that drains before the hooks have finished |
| Shutdown.ReleasedMeansEmptyForever | crates/daemon/src/lib.rs:387-401 | signalling `released`, forced or not, means an empty registry that stays empty in every continuation |
| SessionPool.SharedPool.PruneIdle | crates/anytls/src/client.rs:39-47 | pruning keeps the idle list exact and leaves what `Prune` describes |
| SessionPool.SharedPool.ReuseIdle | crates/anytls/src/client.rs:49-57 | reuse never finds an idle identity without its session or with `idle_since` unset |
| SessionPool.SharedPool.Mark | crates/anytls/src/client.rs:59-67 | marking a busy session idle keeps the list exact; a draining pool drops it instead |
| SessionPool.SharedPool.DrainIdle | crates/anytls/src/client.rs:220-226 | draining forgets every idle session and keeps the busy ones |
| SessionPool.ReuseTakesTheNewest | crates/anytls/src/client.rs:39-57 | reuse takes the most recently idle session that is neither closed nor expired, and fails exactly when there is none |
| SessionPool.PruneKeepsValid | crates/anytls/src/client.rs:39-47 | after pruning the idle list holds exactly the former idle sessions that are live and not expired |
| SessionPool.MarkIdleKeepsValid | crates/anytls/src/client.rs:59-67 | marking adds exactly the session, unless the pool is draining or no longer has it |
| ClientSession.Session.Open | crates/anytls/src/session.rs:277-312 | a free session gives the stream an identity no stream had and shows the peer exactly that one open; a busy or exhausted one ends; earlier streams keep their state |
| ClientSession.Session.TakeMessage | crates/anytls/src/session.rs:275-333 | whatever the message, the session stays valid, and a stream that stays open has the same bytes sent or queued in the same order |
| ClientSession.Session.TakeDropped | crates/anytls/src/session.rs:328-351 | a dropped stream is closed afterwards and its FIN was taken exactly once |
| ClientSession.Session.CloseEntry | crates/anytls/src/session.rs:343-351 | an open stream gets its first and only FIN; for any other nothing is sent |
| ClientSession.Session.Perform | crates/anytls/src/session.rs:353-452 | an engine action opens nothing, and a stream it ends has exactly one FIN, ours or the peer's |
| ClientSession.EndsOnce | crates/anytls/src/session.rs:335-351 | on frames a peer accepts every stream but the open one ended exactly once |
| SessionActorProofs.StepKeepsInv | crates/anytls/src/session.rs:275-351 | every step of an actor and of its stream holders keeps exclusivity, identities, the wire and the flow of data |
| SessionActorProofs.FreeStaysFree | crates/anytls/src/session.rs:335-351 | a session nobody uses stays free until somebody publishes an Open to it |
| AnyTlsProofs.RunKeepsInv | crates/anytls/src/client.rs:134-226 | openers, pool and every actor together keep the invariant in every run |
| AnyTlsProofs.IdleListIsExact | crates/anytls/src/client.rs:38-68 | in every run the idle list has no duplicates, names exactly the pooled sessions with `idle_since` set, and is empty while draining |
| AnyTlsProofs.DrainedStaysEmpty | crates/anytls/src/client.rs:220-226 | after a drain the idle list is empty in every continuation |
| AnyTlsProofs.HandedOutOnce | crates/anytls/src/client.rs:134-142 | a session held, being opened, serving or closing is not idle, and no two openers hold one session |
| AnyTlsProofs.OpenNeverMeetsBusy | crates/anytls/src/session.rs:282-285 | the busy check never fails: an Open that reaches an actor finds no entry |
| AnyTlsProofs.StreamsStayApart | crates/anytls/src/session.rs:313-332 | what is sent under a stream's identity is a prefix of what its own holder wrote, complete up to the queue while it is open, whatever late data of earlier streams arrives, and the frames follow the protocol |
| AnyTlsProofs.LateMessagesCloseNothing | crates/anytls/src/session.rs:328-351 | in every run a queued close or drop that ends the open stream was sent by that stream's own holder, so late ones of earlier streams end nothing |
| AnyTlsDelivery.ShutdownSendsEverything | crates/anytls/src/stream.rs:159-221 | in every run, when a holder's shutdown closes its stream, all the holder ever wrote was sent before the FIN, and in every continuation exactly that stays sent under the stream's identity |
| AnyTlsDelivery.RunKeepsLast | crates/anytls/src/stream.rs:203-221 | in every run no data of a stream is queued behind its close |
| AnyTlsProofs.OneStreamPerOpener | crates/anytls/src/session.rs:53-81 | each opener is served by at most one stream of one session |
| AnyTlsProofs.NoSessionLeaks | crates/anytls/src/client.rs:154-209 | a live session is pooled, about to be inserted, or being closed |
| AnyTlsClaims.NoSessionLost | crates/anytls/src/session.rs:53-81 | in every run a live session that no stream, queued Open or callback uses is idle, held by an opener or being closed, so none is lost to reuse |
| SessionActorProofs.BusyStaysBusy | crates/anytls/src/session.rs:335-351 | a session in use stays in use until its idle callback, unless it ends |
| AnyTlsProofs.MarkedSessionsWereBusy | crates/anytls/src/client.rs:59-67 | at every idle callback the pooled session's `idle_since` is unset |
| HysteriaText.PortRoundTrip | crates/hysteria2/src/wire.rs:36-57 | a printed port parses back |
| HysteriaText.AddressRoundTrip | crates/hysteria2/src/wire.rs:27-59 | printed text is UTF-8 within the limit, and parses back to the target if and only if the target is an IP or the text is no socket address |
| HysteriaText.LiteralReadsAsAddress | crates/hysteria2/src/wire.rs:42-46 | a name whose text is a socket address reads back as that address |
| HysteriaText.AddressOkExactly | crates/hysteria2/src/wire.rs:27-40 | printing succeeds exactly for IP targets and for permitted names whose text fits |
| HysteriaText.ParsedIsWellTyped | crates/hysteria2/src/wire.rs:42-59 | parsing yields a UTF-8 name that may be printed and a 16-bit port |
| HysteriaWire.LengthRoundTrip | crates/hysteria2/src/wire.rs:66-72 | every varint encoding, minimal or not, decodes to its value and leaves the rest |
| HysteriaWire.VarintRoundTrip | crates/hysteria2/src/wire.rs:61-72 | encoding succeeds exactly below 2^62 and decodes back |
| HysteriaWire.Emit | crates/hysteria2/src/wire.rs:178-190 | the loop emits each piece behind the header with its own index |
| HysteriaWire.Fragments | crates/hysteria2/src/wire.rs:164-192 | success and errors as planned, one datagram per piece, each within the MTU |
| HysteriaWire.FragmentRoundTrip | crates/hysteria2/src/wire.rs:136-161 | decoding undoes the encoding of a fragment whose target reads back |
| HysteriaWire.PiecesCover | crates/hysteria2/src/wire.rs:174-186 | the pieces, concatenated, are the payload |
| ReassemblyProofs.Reassembler.RemoveKey | crates/hysteria2/src/wire.rs:212-218 | removal takes the entry, its place in the order and its bytes |
| ReassemblyProofs.Reassembler.ExpireOld | crates/hysteria2/src/wire.rs:224-231 | the expiry loop ends and leaves what `Expire` describes |
| ReassemblyProofs.Reassembler.EvictOld | crates/hysteria2/src/wire.rs:250-257 | the eviction loop ends with room for the fragment |
| ReassemblyProofs.Reassembler.StorePart | crates/hysteria2/src/wire.rs:259-302 | storing a fragment keeps the invariant and yields what `Store` describes |
| ReassemblyProofs.Reassembler.ReceivePart | crates/hysteria2/src/wire.rs:220-302 | one call keeps the invariant and yields what `Receive` describes |
| ReassemblyProofs.ExpireIsFullScan | crates/hysteria2/src/wire.rs:221-231 | looking at the oldest packet only removes exactly the packets a full scan for age would |
| ReassemblyProofs.EvictMakesRoom | crates/hysteria2/src/wire.rs:250-257 | eviction always ends with the fragment fitting both limits |
| ReassemblyProofs.EvictIsMinimal | crates/hysteria2/src/wire.rs:250-257 | eviction removes the oldest packets first and no more than needed |
| ReassemblyProofs.RemoveKeepsInv | crates/hysteria2/src/wire.rs:212-218 | a removal never underflows `bytes` and keeps order and sums |
| ReassemblyProofs.ReceiveKeepsInv | crates/hysteria2/src/wire.rs:220-302 | every call keeps `order` a duplicate-free, creation-sorted list of the pending keys, `bytes` their exact sum, at most 64 entries and 256 KiB, and each entry incomplete with exact counters within 65507 bytes |
| ReassemblyProofs.NothingStaleSurvives | crates/hysteria2/src/wire.rs:221-231 | nothing pending after a call is 10 seconds old |
| ReassemblyProofs.RunKeepsInv | crates/hysteria2/src/wire.rs:194-302 | the same over every run of calls, whatever the fragments |
| ReassemblyDelivery.DecodedParts | crates/hysteria2/src/wire.rs:136-192 | the datagrams of a packet decode to exactly its parts when its target reads back |
| ReassemblyDelivery.DeliversOnce | crates/hysteria2/src/wire.rs:220-302 | parts in any order with repeats, among other traffic that neither evicts nor expires them, yield nothing until the last missing index and then the packet |
| ReassemblyDelivery.PacketRoundTrip | crates/hysteria2/src/wire.rs:164-302 | for every packet, session, identity and MTU on which `fragments` succeeds and the target reads back, its datagrams, in any order with repeats and among others, decoded and received, yield exactly the original session, target and payload |
| ReassemblyExact.DeliveryIsExact | crates/hysteria2/src/wire.rs:220-302 | whatever arrives, is evicted or expires, the buffer holds of a packet exactly the indices that came since they were last dropped, and the packet comes out exactly at a call that completes them |
| ReassemblyExact.DeliveredExactlyWhenKept | crates/hysteria2/src/wire.rs:220-302 | when every part arrives once, in any order and among any traffic, the packet comes out if and only if what was collected of it is never evicted or expired |
| Associations.ServerAssociations.Insert | crates/hysteria2/src/udp.rs:39-43 | inserting or replacing keeps the activity set the mirror of the map |
| Associations.ServerAssociations.Remove | crates/hysteria2/src/udp.rs:45-50 | what leaves the map was in the set and leaves it too |
| Associations.ServerAssociations.Touch | crates/hysteria2/src/udp.rs:52-59 | touching moves exactly one pair |
| Associations.ServerAssociations.NextExpiry | crates/hysteria2/src/udp.rs:61-63 | the exact minimum of activity plus retention, none exactly when empty |
| Associations.ServerAssociations.Expire | crates/hysteria2/src/udp.rs:65-74 | expiring from the front removes exactly what a full scan would, and both collections end equally long |
| Associations.SameSize | crates/hysteria2/src/udp.rs:31-36 | a mirrored set has as many members as the map |
| NaivePadding.Codec.Decode | crates/naive/src/padding.rs:53-79 | one call yields the next piece of what draining the buffer yields, skips empty frames, and yields nothing only when nothing more can be decoded |
| NaivePadding.Codec.EncodeInto | crates/naive/src/padding.rs:85-109 | encoding fails exactly above 65535 bytes and otherwise appends one frame or raw bytes |
| NaivePadding.Codec.PollWrite | crates/naive/src/padding.rs:143-149 | the clamp makes encoding infallible and accepts all of a shorter buffer |
| NaivePadding.DrainSplit | crates/naive/src/padding.rs:53-79 | draining a prefix and then the leftover with more bytes is draining the whole |
| NaivePadding.ReadsDoNotMatter | crates/naive/src/padding.rs:53-79 | any cut of the wire into reads gives the same output, mode and leftover |
| NaivePadding.RoundTrip | crates/naive/src/padding.rs:49-109 | for all writes, paddings and reads the decoder returns the input, agrees on the mode and keeps nothing back |
| NaivePadding.RawAtTheSameByte | crates/naive/src/padding.rs:55-58 | after any prefix of the wire the decoder is raw exactly when the prefix reaches the byte at which the encoder went raw |
| NaivePadding.IncompleteYieldsNothing | crates/naive/src/padding.rs:59-68 | a strict prefix of a frame yields nothing and stays buffered |
| Relay.PollRead | crates/protocol/src/chunk.rs:197-207 | read-ahead is handed out before native bytes, layer by layer, and nothing is lost or credited by reading |
| Relay.Consume | crates/protocol/src/chunk.rs:215-219 | the native stream gets credit exactly for bytes it gave itself |
| Relay.Direction.PollOnce | crates/protocol/src/chunk.rs:232-270 | under every schedule accepted plus held bytes are the bytes read, `transferred` is the accepted count, credit is exact, shutdown follows the last accepted byte, and a poll makes at most 32 writes |
| Relay.CopyBidirectional | crates/protocol/src/chunk.rs:274-285 | when both directions complete, each side accepted exactly the other's read-ahead and bytes, got its credit back and was shut down; otherwise the flow invariants hold |
| Relay.DoneIsFinished | crates/protocol/src/chunk.rs:254-258 | a finished direction has moved everything |
| StreamBuffer.Pipe.Read | crates/protocol/src/stream_buffer.rs:99-134 | reads bytes in writing order, fills the buffer when it can, and reports the end only when the writer closed and everything was read |
| StreamBuffer.Pipe.Write | crates/protocol/src/stream_buffer.rs:164-205 | an accepted prefix is appended, stays within the target just read, is never empty, and an empty pipe never refuses |
| StreamBuffer.Pipe.CloseReader | crates/protocol/src/stream_buffer.rs:208-218 | dropping the reader discards what is buffered |
| StreamBuffer.ExtendBack | crates/protocol/src/stream_buffer.rs:181-200 | adding to the last chunk appends to the contents |
| PipeWakers.NobodyStranded | crates/protocol/src/stream_buffer.rs:96-218 | under every interleaving of the two ends a sleeping reader has its waker registered and nothing to read, a sleeping writer has its waker registered and a full pipe ahead, or the other end is about to wake it |
| PipeWakers.NeverBothAsleep | crates/protocol/src/stream_buffer.rs:96-218 | the two ends of a pipe never sleep at the same time |
| PipeWakers.BytesInOrder | crates/protocol/src/stream_buffer.rs:96-205 | under every interleaving bytes are read in writing order, and a read that finds nothing sleeps or has read everything up to the close |
| Transmit.Gather | crates/tun/src/endpoint.rs:360-368 | an aggregate takes equal-size datagrams in order, at most 64 and within 65507 bytes, and stops only for one of these reasons |
| Transmit.HeaderFits | crates/tun/src/endpoint.rs:369-373 | the header of a gathered aggregate always exists |
| Transmit.RowUnits | crates/tun/src/endpoint.rs:354-387 | an aggregate carries exactly the datagrams in its row |
| Transmit.Transmitter.SendAfterPackets | crates/tun/src/endpoint.rs:374-382 | waiting packets go out first, so order is kept |
| Transmit.Transmitter.SendDatagrams | crates/tun/src/endpoint.rs:348-393 | each datagram is offloaded, encoded or dropped in input order |
| Transmit.Transmitter.SendItems | crates/tun/src/endpoint.rs:326-401 | a batch reaches the device completely, or a prefix of all traffic does when a call fails |
| Transmit.Run | crates/tun/src/endpoint.rs:314-409 | flattening all device calls gives the queued traffic in order, each unit once; every aggregate is legal; the counters count packets and bytes on the link |
| BlockPool.ClassIsTight | crates/protocol/src/pool.rs:80-85 | every admissible length has a class that fits it, no smaller class does, and above the smallest size less than half the block is wasted |
| BlockPool.Pool.Acquire | crates/protocol/src/pool.rs:80-96 | a block of exactly the length's class, cached or new |
| BlockPool.Pool.Release | crates/protocol/src/pool.rs:34-40 | a dropped block returns to its own class unless the cache is full |
| PacketArena.Storage.EncodePacket | crates/tun/src/storage.rs:31-45 | a view gets a range inside its block that no earlier view shares, and the arena becomes what `Encode` describes |
| PacketArena.ViewsNeverOverlap | crates/tun/src/storage.rs:29-45 | for every sequence of lengths every view lies inside its block and no two views share a byte |
| PacketArena.ViewsAreImmutable | crates/tun/src/storage.rs:29-45 | however many packets are encoded later, every published view still reads the packet it was published for |
| PacketArena.MemoryBound | crates/tun/src/storage.rs:29-56 | for every sequence of lengths and every point of first-in-first-out consumption, live views and tail retain at most the charged bytes plus two blocks |
| PacketArena.InnerWindowBound | crates/tun/src/storage.rs:29-56 | for every window that ends early, three blocks suffice |
| ArenaWindows.TwoBlocksExactly | crates/tun/src/storage.rs:29-56 | the two-block bound holds for the views from i to j of every n packets if and only if i is at most 1, the window holds at most one view, or at most one follows it |
| ArenaWindows.ThirdBlockNeeded | crates/tun/src/storage.rs:48-53 | for every other window a sequence of lengths that needs a third block |

## Left out

- TLS, QUIC, HTTP/2, HTTP/3, Cronet, Shadowsocks cryptography and smoltcp: libraries outside the repository.
- System calls, device I/O and the QuickJS bindings: kernel and engine behaviour, not logic of the daemon.
- Weak memory orderings, cooperative budgets and tracing: the step machines are sequentially consistent.
- Capacities of the bounded channels between tasks: senders may always enqueue, which only adds runs.
- The AnyTLS engine: any sequence of its client-side actions; incoming streams, which only servers get, are not modelled.
- AnyTLS receive credits and handshake acknowledgement: a full receive queue is an arbitrary event that closes the stream.
- The pairing of the duplex pipe's two directions: one direction is modelled, as an object under its lock and as two ends with their wakers.
- The hand-over of a relay to a native worker (`take_over`): a contract between trait implementations.
- Fragment encoding of single UDP datagrams in the TUN encoder: a parameter; only its headers' admission rule is modelled.
- The text of IP addresses: a print and parse pair that round-trips.
- Allocation sizes: the arena's small blocks have exactly the requested capacity; chunks of the duplex pipe may be larger.
- 64-bit counters of relayed and transmitted bytes: unbounded here.
- SOCKS5, HTTP CONNECT and DNS listeners, configuration and command line: I/O around library parsers.
- ReassemblyDelivery.PacketRoundTrip: speaks of runs in which the collected fragments are neither evicted nor expired, because both make the code drop the packet by design; `ReassemblyExact` says what happens then.
- ByteQueueTheorems.NoReceiverStranded: states which wake-up is still owed, not that the executor delivers it, because scheduling is outside the model.
