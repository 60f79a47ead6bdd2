# Wangle, modelled and proved in Dafny

Wangle is a C++ library for building servers and clients on an event loop. This
project models the parts of it whose correctness depends on the order of events,
on several callbacks nesting, or on machine arithmetic, and proves what they
promise for every input, every run or every interleaving.

| component | modules |
|---|---|
| connection manager: list, two cursors, graceful drain, idle shedding | `CursorList`, `Repetition`, `ManagedConnections`, `ConnectionManagers`, `IdlePartition`, `IdleShedding`, `ManagerRuns`, `Membership`, `GracefulDrain`, `DrainCoverage`, `ForcedDrain`, `SkippedConnections`, `DrainPasses`, `DropDuringDrain`, `PartialDrain`, `ConnectionManagerClass` |
| handshake on another thread | `EvbHandshake` |
| acceptor and the life of its connection manager | `AcceptorDrain`, `AcceptorClass` |
| frame codecs over a byte stream | `Bytes`, `StreamDecoding`, `LengthFieldCodec`, `LineCodec` |
| persistent LRU cache | `LruCache`, `LruHistory`, `PersistentCache` |
| pipelined dispatchers | `Pipelining` |
| TLS server state | `SessionLookups`, `SessionReplies`, `TicketKeys`, `SniIndex` |
| file regions sent through a pipe | `FileRegions` |

A component that the source updates in place is a class, and each of its methods
is proved to compute a step function on values. The main results are lemmas about
runs of those step functions: `IsRun(states, es)` says that `states[i + 1]` is
what event `es[i]` makes of `states[i]`. Clocks, the kernel, the service behind a
dispatcher, the hash function and what a callback chooses to do are parameters of
the events, so a result holds whatever they do.

Where the code does not have a property that one would expect of it, the model
keeps the code and the lemma states exactly when the property holds:

- A connection that becomes active while a pass has yet to reach it is moved in
  front of the drain cursor. If it was the notify pass the connection never
  hears of the shutdown, and if it was the close pass it is never told to close
  (`ActivateCoveredIff`, `SkippedConnectionIsNeverClosed`; any pass over more
  than 65 connections has one, `LastIsAtRisk`).
- Deactivating the first of several idle connections takes the idle cursor to
  the back with it (`DeactivatePartitionedIff`, `ParkFirstOfTwo`).
- Dropping a share of the connections leaves a queued loop callback whose CHECK
  fails (`LoopCallbackFindsAPassIff`; after the shutdown of more than 64,
  `DropAfterShutdown`), and keeps the acceptor from ever finishing its drain
  (`DrainEndsIff`, `StuckDrain`).
- Turning a partial drain into a full one can leave a loop callback whose CHECK
  fails, too (`ConversionKeepsCheckIff`, `ConversionCanFail`).
- An acceptor that was forced to stop and still accepts a TLS connection uses a
  manager that is gone (`LateAcceptFaultsIff`, `LateAccept`).
- The length-field prepender truncates a length to 32 bits before it checks it,
  so that a message can go out under a wrong length (`WriteMisframesIff`,
  `OversizedMessageIsMisframed`), and a decoder adjustment below minus the
  field's end makes the frame length wrap (`FrameLengthIsExactIff`,
  `FrameLengthWraps`).
- A terminated line of exactly the maximum length is refused, because the scan
  stops before its delimiter (`ReadLinesIff`, `LineOfMaximumLengthIsRefused`).
- `clear(true)` is not atomic with respect to the syncer
  (`ClearKeepsAgreementIff`, `ClearRace`), and a syncer without retries never
  stops if its medium keeps failing (`LoopEndsIff`, `NoRetriesNoEnd`).
- Responses can be sent out of order exactly when more than 2^32 requests are
  outstanding (`OrderCanBreakIff`, `ResponseOvertakes`).
- A session lookup that is answered with an empty buffer restarts nobody, and
  all who wait for that session wait for good (`WaiterHasAnAnswerIff`,
  `SwallowedWaiterIsStuck`, `TwoWaitForNothing`).
- A rotation of ticket seeds that counts as valid can turn ticket handling off
  (`RotationKeepsTicketsIff`, `ValidRotationCanDisableTickets`).
- A certificate name that starts with a dot is filed like a wildcard and can
  take the place of one (`LookupIsTheRuleIff`, `IntruderTakesOver`,
  `IntruderExample`).
- A file region that has been sent reports completion exactly if the counter of
  the write request can hold its size (`CompleteIff`, `SentButNotComplete`).

## Model

| member | source | states |
|---|---|---|
| `CursorList.ErasePos` | wangle/acceptor/ConnectionManager.cpp:111-120 | a cursor advanced off the member about to be unlinked stands where it stood, less one if the member was before it |
| `CursorList.NextAfterErase` | wangle/acceptor/ConnectionManager.cpp:194-209 | a cursor moved past a member survives that member's unlinking, with the same members before it |
| `ManagedConnections.ManagedConnection.FireNotify` | wangle/acceptor/ManagedConnection.h:78-83 | notifies only a connection that was never signalled, and says whether it did |
| `ManagedConnections.ManagedConnection.FireClose` | wangle/acceptor/ManagedConnection.h:91-96 | closes a connection only after it was notified, unless forced |
| `ConnectionManagers.AddWellFormed` | wangle/acceptor/ConnectionManager.cpp:40-89 | adding keeps both cursors at the end or at a linked member, and the list free of repetitions |
| `ConnectionManagers.RemoveWellFormed` | wangle/acceptor/ConnectionManager.cpp:105-129 | removing unlinks exactly that connection and repairs both cursors |
| `ConnectionManagers.ActivateWellFormed` | wangle/acceptor/ConnectionManager.cpp:305-313 | activating keeps membership and both cursors valid |
| `ConnectionManagers.DeactivateWellFormed` | wangle/acceptor/ConnectionManager.cpp:315-331 | deactivating keeps membership and both cursors valid |
| `ConnectionManagers.SignalledCursor` | wangle/acceptor/ConnectionManager.cpp:194-209 | the drain cursor survives a connection that unlinks itself from inside its callback, with one less to visit |
| `ConnectionManagers.VisitWellFormed` | wangle/acceptor/ConnectionManager.cpp:184-218 | a batch visits min(budget, remaining) connections, whichever of them leave, and touches no other part of the drain state |
| `IdlePartition.LinkPartitioned` | wangle/acceptor/ConnectionManager.cpp:41-60 | linking keeps "busy before the idle cursor, idle behind it by decreasing idle time" |
| `IdlePartition.RemovePartitioned` | wangle/acceptor/ConnectionManager.cpp:106-120 | so does removing |
| `IdlePartition.ActivatePartitioned` | wangle/acceptor/ConnectionManager.cpp:305-313 | so does activating |
| `IdlePartition.DeactivatePartitionedIff` | wangle/acceptor/ConnectionManager.cpp:315-331 | so does deactivating, if and only if the connection is not the first of several idle ones |
| `IdlePartition.ParkFirstOfTwo` | wangle/acceptor/ConnectionManager.cpp:315-331 | a list of two idle connections for which it does not |
| `ManagerRuns.StepWellFormed` | wangle/acceptor/ConnectionManager.cpp:40-361 | every call, loop callback, timer expiry, delayed close, drop and shedding keeps list and cursors well formed |
| `ManagerRuns.StepPartitioned` | wangle/acceptor/ConnectionManager.cpp:40-361 | and the partition, if connections alternate between active and idle |
| `ManagerRuns.PartitionInEveryRun` | wangle/acceptor/ConnectionManager.h:263-269 | in every run in which connections alternate between active and idle, the members before the idle cursor are exactly the busy ones and the rest are idle in order of decreasing idle time |
| `Membership.StepMembers` | wangle/acceptor/ConnectionManager.cpp:40-361 | who is linked after each step: an addition links one, a removal unlinks one, a batch or a delayed close loses only those that leave when signalled, a drop takes those at the front, activity changes nothing, and a shedding, which `ShedSomeIsShed` is about, adds none |
| `Membership.RemoveFrontIsSuffix` | wangle/acceptor/ConnectionManager.cpp:255-303 | dropping n connections leaves the list without its first min(n, size) |
| `Membership.IdleSinceNext` | wangle/acceptor/ConnectionManager.cpp:40-361 | since when a connection has been idle after each step: since the time of its deactivation, until it is activated or added, whatever else happens |
| `Membership.LinkedWasAdded` | wangle/acceptor/ConnectionManager.cpp:40-60 | in every run a linked connection was added and has been linked ever since |
| `GracefulDrain.PhaseStep` | wangle/acceptor/ConnectionManager.cpp:169-248 | a step of a graceful drain keeps the phase protocol, moves forward, and starts the close pass only on the second of its two triggers |
| `GracefulDrain.ShutdownMovesForward` | wangle/acceptor/ConnectionManager.h:174-184 | in every run the shutdown state never moves back |
| `GracefulDrain.TableStep` | wangle/acceptor/ConnectionManager.cpp:131-248 | every step but a drop by share keeps the table of which event source each phase waits for, with grace or without |
| `GracefulDrain.LoopCallbackFindsAPass` | wangle/acceptor/ConnectionManager.cpp:184-193 | in every run without a drop by share a pending loop callback finds a notify or a close pass, so the CHECK holds |
| `GracefulDrain.ClosePassStart` | wangle/acceptor/ConnectionManager.cpp:217-248 | the close pass starts once, after both the end of the notify pass and the grace timer, in either order |
| `DrainCoverage.ActivateCoveredIff` | wangle/acceptor/ConnectionManager.cpp:305-313 | activation keeps the drain's coverage if and only if the pass was not still to come to that connection |
| `DrainCoverage.CoveredStep` | wangle/acceptor/ConnectionManager.cpp:66-88 | every step of a graceful drain, additions included, leaves each connection as far as the running pass requires |
| `DrainCoverage.CoveredInEveryRun` | wangle/acceptor/ConnectionManager.cpp:184-248 | so at every moment of every run |
| `DrainCoverage.DrainReachesEveryConnection` | wangle/acceptor/ConnectionManager.cpp:184-248 | when the drain is complete and delayed closes have run, each managed connection was notified and then told to close, each exactly once, despite additions, removals and deactivations between batches |
| `ForcedDrain.OnwardStep` | wangle/acceptor/ConnectionManager.cpp:66-88 | every step of a shutdown without grace, unless it activates the connection ahead of the pass or drops a share, leaves it ahead of the close pass, queued for a delayed close, or told to close, and sends it nothing else |
| `ForcedDrain.ForcedInEveryRun` | wangle/acceptor/ConnectionManager.cpp:169-182 | in every run whose drain starts so, it is under way from that shutdown on, and never notifies |
| `ForcedDrain.ForcedDrainClosesEveryConnection` | wangle/acceptor/ConnectionManager.cpp:169-234 | when a shutdown without grace is complete and delayed closes have run, each managed connection that was not activated ahead of the pass was told to close since it was added, and was sent nothing else |
| `SkippedConnections.SkippedConnectionIsNeverClosed` | wangle/acceptor/ConnectionManager.cpp:305-313 | a connection activated ahead of the notify or the close pass never receives a signal again and is never closed, whatever is added, removed, moved, shed or closed elsewhere, as long as no activation at the cursor makes the pass start over |
| `SkippedConnections.LastIsAtRisk` | wangle/acceptor/ConnectionManager.cpp:169-248 | after the event that starts a notify or a close pass over more than 65 connections that all need it, the last one would be skipped if it became active |
| `DrainPasses.PassLength` | wangle/acceptor/ConnectionManager.cpp:169-248 | an undisturbed pass over n connections takes exactly the number of batches of 64 that n needs, the first in the shutdown or timer event that starts it, though connections leave when visited |
| `DrainPasses.RestOfPass` | wangle/acceptor/ConnectionManager.cpp:184-209 | so does the part of a pass that loop callbacks run, from any cursor |
| `DropDuringDrain.LoopCallbackFindsAPassIff` | wangle/acceptor/ConnectionManager.cpp:250-303 | in every run a pending loop callback finds a pass, as its CHECK demands, if and only if no connections were dropped by share since it was queued |
| `DropDuringDrain.DropAfterShutdown` | wangle/acceptor/ConnectionManager.cpp:184-218 | a shutdown queues a loop callback if and only if there are more than 64 connections, and dropping any number of them then makes the CHECK fail |
| `PartialDrain.PartialQueuesIff` | wangle/acceptor/ConnectionManager.cpp:142-156 | a partial drain queues a loop callback if and only if it is to visit more than 64 connections |
| `PartialDrain.PartialConcernsLast` | wangle/acceptor/ConnectionManager.cpp:142-156 | a partial drain of n connections leaves all but the last n as they are, and tells the last n, to close if there is no grace, as far as one batch reaches |
| `PartialDrain.ConversionKeepsCheckIff` | wangle/acceptor/ConnectionManager.cpp:158-182 | after converting a partial drain into a full one the CHECK of a pending loop callback holds if and only if none was queued or the full pass does not end with its first batch |
| `PartialDrain.ConversionCanFail` | wangle/acceptor/ConnectionManager.cpp:151-182 | a partial drain of 65 connections of which one leaves, then converted, fails it |
| `IdleShedding.ShedNext` | wangle/acceptor/ConnectionManager.cpp:341-357 | dropping the first idle connection extends the dropped set by the next longest idle one and keeps the partition |
| `IdleShedding.SheddableIsFront` | wangle/acceptor/ConnectionManager.cpp:346-353 | stopping at the first connection within the threshold misses none beyond it |
| `IdleShedding.SheddableIff` | wangle/acceptor/ConnectionManager.cpp:341-353 | those beyond the threshold are the linked ones parked earlier than the present time less the threshold |
| `IdleShedding.LongestIdleIsLongest` | wangle/acceptor/ConnectionManager.cpp:333-361 | what is dropped was idle at least as long as every idle connection that is kept |
| `IdleShedding.ShedSomeIsShed` | wangle/acceptor/ConnectionManager.cpp:333-361 | as a step of a run, shedding drops exactly the min(num, k) longest idle of the k idle beyond the threshold |
| `ConnectionManagerClass.ConnectionManager.AddConnection` | wangle/acceptor/ConnectionManager.cpp:40-89 | links the connection as busy, notifies it if a drain is under way, and defers its close if the close pass has begun |
| `ConnectionManagerClass.ConnectionManager.RemoveConnection` | wangle/acceptor/ConnectionManager.cpp:105-120 | in place, the removal that `RemoveWellFormed` and `RemovePartitioned` are about |
| `ConnectionManagerClass.ConnectionManager.OnActivated` | wangle/acceptor/ConnectionManager.cpp:305-313 | in place, the move to the front |
| `ConnectionManagerClass.ConnectionManager.OnDeactivated` | wangle/acceptor/ConnectionManager.cpp:315-331 | in place, the move to the back with both cursors |
| `ConnectionManagerClass.ConnectionManager.VisitBatch` | wangle/acceptor/ConnectionManager.cpp:189-209 | the loop of one batch computes the recursive visit, though connections unlink themselves while it runs |
| `ConnectionManagerClass.ConnectionManager.DrainConnections` | wangle/acceptor/ConnectionManager.cpp:184-234 | one batch in place, including the choice of the next phase |
| `ConnectionManagerClass.ConnectionManager.InitiateGracefulShutdown` | wangle/acceptor/ConnectionManager.cpp:131-182 | in place, starts the notify pass and the timer if there is grace, which `DrainReachesEveryConnection` is about, the close pass if there is none, which `ForcedDrainClosesEveryConnection` is about, and nothing if a shutdown is under way |
| `ConnectionManagerClass.ConnectionManager.IdleGracefulTimeoutExpired` | wangle/acceptor/ConnectionManager.cpp:236-248 | starts the close pass only if the notify pass is complete |
| `ConnectionManagerClass.ConnectionManager.DropAllConnections` | wangle/acceptor/ConnectionManager.cpp:255-287 | drops every connection in list order and leaves list, cursors and callbacks empty |
| `ConnectionManagerClass.ConnectionManager.DropConnections` | wangle/acceptor/ConnectionManager.cpp:289-303 | leaves the list without its first min(n, size) connections and the records of all as they were, and marks the drain complete |
| `ConnectionManagerClass.ConnectionManager.DropIdleConnections` | wangle/acceptor/ConnectionManager.cpp:333-361 | drops exactly the min(num, k) longest idle of the k idle beyond the threshold, returns that number, touches no busy one, keeps the partition, and does nothing if the threshold reaches the timeout |
| `EvbHandshake.InvInEveryRun` | wangle/acceptor/EvbHandshakeHelper.h:78-210 | the case analysis of the drop and result race holds at every moment of every interleaving |
| `EvbHandshake.OutcomeExactlyOnce` | wangle/acceptor/EvbHandshakeHelper.cpp:42-157 | the outer callback is invoked at most once, and once as soon as a drop or a delivered result has run |
| `EvbHandshake.OutcomeIsTheWinners` | wangle/acceptor/EvbHandshakeHelper.cpp:42-157 | what the outer callback is told: an error if a drop told it, and otherwise the outcome, transport or error, of the result that found the handshake running |
| `EvbHandshake.OnlyOneWins` | wangle/acceptor/EvbHandshakeHelper.cpp:84-157 | at most one result of a run is that one |
| `EvbHandshake.TransportIsHandedOver` | wangle/acceptor/EvbHandshakeHelper.cpp:20-157 | the transport is on at most one event base, each thread touches it only while its own base holds it, and the inner drop finds it on the handshake base unless a successful handshake that lost the race destroyed it |
| `EvbHandshake.NeverBothScheduled` | wangle/acceptor/EvbHandshakeHelper.cpp:159-165 | a drop task and a result task are never both scheduled |
| `EvbHandshake.NothingRunsAfterDeletion` | wangle/acceptor/EvbHandshakeHelper.h:63-68 | the guard is released only by the last task that touches the object: nothing is queued or can run once it is deleted |
| `EvbHandshake.QuietMeansReleased` | wangle/acceptor/EvbHandshakeHelper.cpp:42-157 | when both threads are quiet the outcome was reported, the guard cleared as often as set, and the helper deleted |
| `AcceptorDrain.UnlinkHoldsManager` | wangle/acceptor/AcceptorHandshakeManager.cpp:29-63 | removing a handshake never releases the manager, even if it was the last connection, because its count is still held |
| `AcceptorDrain.DropAllEnds` | wangle/acceptor/Acceptor.cpp:450-465 | dropping everything satisfies both CHECKs and leaves no handshake and no session |
| `AcceptorDrain.InvStep` | wangle/acceptor/Acceptor.cpp:241-479 | every step keeps the acceptor's invariant, unless it accepts a TLS connection when done |
| `AcceptorDrain.StepManages` | wangle/acceptor/Acceptor.cpp:241-479 | who is managed after each step that accepts no TLS connection when done: an accepted one as a handshake unless over the limit, a ready one as a session unless draining, and one that failed, was dropped or went away no longer |
| `AcceptorDrain.DropsFromFront` | wangle/acceptor/Acceptor.cpp:467-479 | dropping n connections takes the first n off the list, handshakes and sessions alike |
| `AcceptorDrain.PendingCount` | wangle/acceptor/Acceptor.cpp:340-367 | in every run the count is the number of handshakes begun and not reported, each of them linked in a manager that still exists, and no CHECK fails |
| `AcceptorDrain.DoneMeansDrained` | wangle/acceptor/Acceptor.cpp:403-420 | the acceptor is done only when no handshake is pending and no session is managed |
| `AcceptorDrain.LateAcceptFaultsIff` | wangle/acceptor/Acceptor.cpp:241-289 | accepting a TLS connection uses a released manager if and only if the acceptor is done and the limit on handshakes lets it through |
| `AcceptorDrain.LateAccept` | wangle/acceptor/Acceptor.cpp:446-465 | a run that does: a forced stop, then a connection |
| `AcceptorDrain.DrainEndsIff` | wangle/acceptor/Acceptor.cpp:378-479 | a stopped acceptor with nothing left is done if and only if connections were not dropped by share before |
| `AcceptorDrain.StuckDrain` | wangle/acceptor/Acceptor.cpp:467-479 | a run that ends stopped and empty but still draining |
| `AcceptorDrain.DrainedOnce` | wangle/acceptor/Acceptor.cpp:403-465 | onConnectionsDrained is called once on becoming done, and again for each forced stop after that |
| `AcceptorClass.Acceptor.AcceptTls` | wangle/acceptor/Acceptor.cpp:241-289 | counts the handshake, reports it dropped at once when over the limit, and fails exactly if the manager is gone by then |
| `AcceptorClass.Acceptor.OnHandshakeReady` | wangle/acceptor/AcceptorHandshakeManager.cpp:29-50 | unlinks, counts down, hands the transport on unless draining, and checks whether the drain is over, without ever using a released manager |
| `AcceptorClass.Acceptor.OnHandshakeError` | wangle/acceptor/AcceptorHandshakeManager.cpp:52-63 | the same for a failed handshake |
| `AcceptorClass.Acceptor.AcceptStopped` | wangle/acceptor/Acceptor.cpp:378-393 | starts draining, and ends at once if nothing is there |
| `AcceptorClass.Acceptor.DropAllConnections` | wangle/acceptor/Acceptor.cpp:450-465 | drops each connection while handshakes report back into the acceptor, and finishes |
| `AcceptorClass.Acceptor.DropConnections` | wangle/acceptor/Acceptor.cpp:467-479 | unlinks and drops the given number from the front while they report back |
| `AcceptorClass.Acceptor.OnSessionGone` | wangle/acceptor/Acceptor.cpp:395-420 | the last session to go ends the drain from inside its own removal |
| `Bytes.UintRoundTrip` | wangle/codec/LengthFieldPrepender.cpp:58-97 | an unsigned number that fits its width is read back from either byte order |
| `Bytes.UintSignificance` | wangle/codec/LengthFieldBasedFrameDecoder.cpp:101-143 | a byte put on the significant end of a field counts 256 to the power of the number of bytes it had |
| `StreamDecoding.ReadLoop` | wangle/codec/ByteToMessageDecoder.h:56-66 | the loop terminates because a success consumes bytes, and fires the frames of the recursive reading |
| `StreamDecoding.ReadInTwo` | wangle/codec/ByteToMessageDecoder.h:56-66 | reading a front piece stops only for want of bytes, and reading on gives what reading the whole gives |
| `StreamDecoding.ChunkIndependence` | wangle/codec/ByteToMessageDecoder.h:56-66 | for any decoder whose frames do not depend on later bytes, frames and leftover of a clean stream do not depend on how it was cut into reads |
| `LengthFieldCodec.WriteAnatomy` | wangle/codec/LengthFieldPrepender.cpp:40-101 | what is written is a length field, which reads back as the computed length, and then the message |
| `LengthFieldCodec.LengthIsTruncated` | wangle/codec/LengthFieldPrepender.cpp:40-45 | the computed length is the true length truncated to 32 bits, for every size and adjustment |
| `LengthFieldCodec.WriteIsFaithfulIff` | wangle/codec/LengthFieldPrepender.cpp:40-101 | a message is framed under its true length if and only if that length is below the field's limit and not negative |
| `LengthFieldCodec.WriteMisframesIff` | wangle/codec/LengthFieldPrepender.cpp:40-101 | a message is refused if and only if its true length modulo 2^32 is beyond the limit, so it never goes out under a wrong length if and only if its length fits or what truncation leaves of it does not |
| `LengthFieldCodec.OversizedMessageIsMisframed` | wangle/codec/LengthFieldPrepender.cpp:40-48 | 2^32 + 5 bytes are sent under the length 5 |
| `LengthFieldCodec.FrameLengthIsExactIff` | wangle/codec/LengthFieldBasedFrameDecoder.cpp:43-98 | for any bytes in the field the unsigned computation equals the mathematical one if and only if neither sum leaves its range |
| `LengthFieldCodec.FrameLengthWraps` | wangle/codec/LengthFieldBasedFrameDecoder.cpp:56-59 | a decoder for which a length of 4 becomes 2^32 + 4 |
| `LengthFieldCodec.DecodeCases` | wangle/codec/LengthFieldBasedFrameDecoder.cpp:43-98 | for any offset, header, length field and rest: a frame of length + adjustment + end of field, less the bytes to strip, or the exact error, or the exact reason to wait |
| `LengthFieldCodec.DecodeInPlace` | wangle/codec/LengthFieldBasedFrameDecoder.cpp:43-143 | decodes on the queue in place as `DecodeCases` says, error branches included, among them an offset that is negative as an int |
| `LengthFieldCodec.DecodeIsStable` | wangle/codec/LengthFieldBasedFrameDecoder.cpp:43-98 | a frame once decodable does not change with more bytes, and consumes some |
| `LengthFieldCodec.DecodeFramed` | wangle/codec/LengthFieldBasedFrameDecoder.cpp:43-143 | for a length field anywhere in the header, any front piece of a frame and what follows decodes to the frame less its stripped bytes exactly when it is complete, and to nothing before |
| `LengthFieldCodec.FramesUnderFragmentation` | wangle/codec/LengthFieldBasedFrameDecoder.cpp:43-143 | any such frames, fed in any chunks, come out in order, stripped, with nothing left over |
| `LengthFieldCodec.DecodeEncoded` | wangle/codec/LengthFieldBasedFrameDecoder.cpp:43-98 | any front piece of an encoded message and what follows decodes to the message exactly when it is complete, and to nothing before |
| `LengthFieldCodec.DecodeUndoesWriteIff` | wangle/codec/LengthFieldBasedFrameDecoder.cpp:25-143 | for matching settings a message comes back if and only if its lengths fit |
| `LengthFieldCodec.RoundTripUnderFragmentation` | wangle/codec/LengthFieldBasedFrameDecoder.cpp:43-143 | any messages, encoded and fed in any chunks, come back in order with nothing left over |
| `LineCodec.FixedLengthFrames` | wangle/codec/FixedLengthFrameDecoder.h:44-55 | the frames of a stream in any chunks are its consecutive pieces of the given length |
| `LineCodec.PiecesRejoin` | wangle/codec/FixedLengthFrameDecoder.h:44-55 | those pieces, each of that length, and less than one more make up the stream |
| `LineCodec.FindEndOfLine` | wangle/codec/LineBasedFrameDecoder.cpp:113-131 | the scan finds the first newline among the first maxLength bytes, or none |
| `LineCodec.LineFaultlessIff` | wangle/codec/LineBasedFrameDecoder.cpp:33-104 | no prefix of a stream makes the decoder give up if and only if its first line is short enough |
| `LineCodec.ReadLinesIff` | wangle/codec/LineBasedFrameDecoder.cpp:33-104 | a stream is read without faults if and only if every line is shorter than the maximum, and then yields its lines |
| `LineCodec.LinesRejoin` | wangle/codec/LineBasedFrameDecoder.cpp:33-84 | the lines, none with a newline inside, put together again with their delimiters and the leftover make up the stream |
| `LineCodec.LineOfMaximumLengthIsRefused` | wangle/codec/LineBasedFrameDecoder.cpp:113-131 | a line of exactly the maximum length is a fault |
| `LineCodec.LineFrames` | wangle/codec/LineBasedFrameDecoder.cpp:33-84 | so whatever the chunks |
| `LineCodec.LineBasedFrameDecoder.Decode` | wangle/codec/LineBasedFrameDecoder.cpp:33-104 | the decoder in place, with its discarding mode |
| `LruCache.SetValid` | wangle/client/persistence/LRUInMemoryCache-inl.h:34-39 | a put keeps order and contents in step and the size within capacity, holds its pair, and evicts only when full |
| `LruHistory.OrderIsByUse` | wangle/client/persistence/LRUInMemoryCache-inl.h:23-66 | in every run of gets, puts, removes and clears the keys held are in the order of their last use |
| `LruHistory.HeldNext` | wangle/client/persistence/LRUInMemoryCache-inl.h:23-66 | who is held after each operation and with what value: a put of a new key into a full cache evicts exactly the key used longest ago, and nothing else evicts |
| `LruHistory.HeldIff` | wangle/client/persistence/LRUInMemoryCache-inl.h:23-66 | a key is held if and only if it was put, not discarded since, and the cache has not been full since of keys used later |
| `LruHistory.ValueIsLastPut` | wangle/client/persistence/LRUInMemoryCache-inl.h:23-66 | the value held is that of the last put of the key |
| `LruHistory.LoadIsPuts` | wangle/client/persistence/LRUInMemoryCache-inl.h:74-101 | a load is a run of puts |
| `LruCache.PairsRoundTrip` | wangle/client/persistence/LRUInMemoryCache-inl.h:103-118 | serialising a cache loses nothing of its contents |
| `LruCache.LoadOnTop` | wangle/client/persistence/LRUInMemoryCache-inl.h:74-101 | a load on top of any cache overrides what it held, if everything fits |
| `LruCache.LoadAgreesIff` | wangle/client/persistence/LRUInMemoryCache-inl.h:74-101 | a load takes over everything stored if and only if the distinct keys fit the capacity |
| `LruCache.LRUInMemoryCache.Get` | wangle/client/persistence/LRUInMemoryCache-inl.h:23-32 | returns the value held and makes the key the most recent, without a new version |
| `LruCache.LRUInMemoryCache.Put` | wangle/client/persistence/LRUInMemoryCache-inl.h:34-39 | holds the value under the key as a new version, with the eviction that `HeldNext` is about |
| `LruCache.LRUInMemoryCache.Remove` | wangle/client/persistence/LRUInMemoryCache-inl.h:41-50 | removes a key, and counts a version only if it was there |
| `LruCache.LRUInMemoryCache.Clear` | wangle/client/persistence/LRUInMemoryCache-inl.h:58-66 | empties the cache, and counts a version only if it was not empty |
| `LruCache.LRUInMemoryCache.LoadData` | wangle/client/persistence/LRUInMemoryCache-inl.h:74-101 | sets the pairs in front of the first that does not convert, as a single version |
| `LruCache.LRUInMemoryCache.ConvertToKeyValuePairs` | wangle/client/persistence/LRUInMemoryCache-inl.h:103-118 | returns pairs that make up the contents, with the version they belong to |
| `PersistentCache.InvStep` | wangle/client/persistence/LRUPersistentCache-inl.h:82-162 | every step of the cache's users and of the syncer keeps the agreement of cache and store |
| `PersistentCache.CacheFollowsOps` | wangle/client/persistence/LRUPersistentCache.h:154-174 | the users' calls do to the cache what `LruHistory` says, the syncer does nothing to it, and the version changes exactly if the contents were written to |
| `PersistentCache.ReplacedContents` | wangle/client/persistence/LRUPersistentCache-inl.h:149-181 | a new persistence layer's pairs override what is cached, if everything fits, and the result is to be synced |
| `PersistentCache.LoadAgreesWithStoreIff` | wangle/client/persistence/LRUPersistentCache-inl.h:149-181 | loading starts in agreement if and only if the stored keys fit |
| `PersistentCache.StoreAgreesInEveryRun` | wangle/client/persistence/LRUPersistentCache-inl.h:82-171 | in every interleaving, if the persisted version is the in-memory one and the syncer has not given up, the stored pairs are exactly the cache, whatever failed persists left behind and even if the persistence layer is replaced under a syncer at work |
| `PersistentCache.ClearKeepsAgreementIff` | wangle/client/persistence/LRUPersistentCache.h:166-174 | in every run between the two halves of clear(true), the agreement survives if and only if the cache is empty by then or the version it holds was not stored since |
| `PersistentCache.ClearRace` | wangle/client/persistence/LRUPersistentCache.h:166-174 | such a run: a put and a sync slip in between, and the cached value is missing from a store that counts as current |
| `PersistentCache.SyncerStops` | wangle/client/persistence/LRUPersistentCache-inl.h:82-140 | in every run without writers the syncer makes at most its remaining retries of attempts, is done after a bounded number of steps, and is done with cache and store equal, or after giving up: before, or now that all of those attempts failed |
| `PersistentCache.RoundIsSteps` | wangle/client/persistence/LRUPersistentCache-inl.h:98-107 | one pass through the loop is what the syncer's separate steps make of a state |
| `PersistentCache.SyncAfterStop` | wangle/client/persistence/LRUPersistentCache-inl.h:82-140 | the loop after stop, which does such rounds: at most the remaining retries, and cache and store equal at the end unless it gave up, before or now |
| `PersistentCache.LoopEndsIff` | wangle/client/persistence/LRUPersistentCache-inl.h:98-107 | in every run without writers against a medium that keeps failing, the version has been forced if and only if the failures have used up a positive number of retries |
| `PersistentCache.NoRetriesNoEnd` | wangle/client/persistence/LRUPersistentCache-inl.h:98-107 | without retries a failure leads back to the same state but for the count |
| `Pipelining.IdsAreDistinct` | wangle/service/ServerDispatcher.h:80-84 | within 2^32 outstanding requests a 32-bit id names one request, across wrap-around |
| `Pipelining.CompleteInv` | wangle/service/ServerDispatcher.h:61-67 | filing a response in any order keeps the map at exactly the completed, unwritten ids |
| `Pipelining.BeginWriteInv` | wangle/service/ServerDispatcher.h:69-78 | what is written next is the answer to the first unwritten request |
| `Pipelining.ReentryFindsNothing` | wangle/service/ServerDispatcher.h:69-78 | a sendResponses entered from inside a write finds nothing to send |
| `Pipelining.SentAllThatCanBeSent` | wangle/service/ServerDispatcher.h:69-78 | when the loop ends, the first unwritten request is unanswered |
| `Pipelining.OrderCanBreakIff` | wangle/service/ServerDispatcher.h:61-84 | while there is nothing to send, inside a write or not, another response can overtake the next if and only if more than 2^32 requests are outstanding |
| `Pipelining.ResponseOvertakes` | wangle/service/ServerDispatcher.h:61-84 | with 2^32 + 1 requests read, the answer to the last goes out as the answer to the first |
| `Pipelining.PipelinedServerDispatcher.Read` | wangle/service/ServerDispatcher.h:61-67 | gives the request the id of its number modulo 2^32, and keeps the ids unambiguous as long as fewer than 2^32 are outstanding |
| `Pipelining.PipelinedServerDispatcher.OnResponse` | wangle/service/ServerDispatcher.h:63-66 | files the response and sends all that can be sent in order |
| `Pipelining.PipelinedServerDispatcher.SendResponses` | wangle/service/ServerDispatcher.h:69-78 | appends to the responses written, keeps them the answers in request order, and stops only at an unanswered request |
| `Pipelining.SystemInvInEveryRun` | wangle/service/ClientDispatcher.h:106-121 | in every run the client's promises, the bytes in flight and the server's state name the same requests in order |
| `Pipelining.PromisesMatchRequests` | wangle/service/ClientDispatcher.h:106-121 | the n-th promise receives the answer that the service gave to the n-th request, and a response always finds a promise waiting |
| `Pipelining.RequestsArriveInOrder` | wangle/service/ClientDispatcher.h:106-121 | the server reads the requests in the order in which they were sent |
| `Pipelining.AllPromisesFulfilled` | wangle/service/ServerDispatcher.h:61-78 | when every request was answered and nothing is under way, every promise has been fulfilled |
| `SessionLookups.InvStep` | wangle/ssl/SSLSessionCacheManager.cpp:205-436 | every step, those from inside a restart included, keeps lookups coalesced and references counted |
| `SessionReplies.GetReturns` | wangle/ssl/SSLSessionCacheManager.cpp:270-355 | every call returns the session last stored for the id and not pruned since, else, during the restarts of an answer for that id, the session of that answer, else nothing |
| `SessionReplies.GetBlocksIff` | wangle/ssl/SSLSessionCacheManager.cpp:290-328 | it tells its socket to wait if and only if the socket can, the session is neither cached nor being answered, there is an external cache, and someone waits for it already or the request went out |
| `SessionReplies.GetTakesAReference` | wangle/ssl/SSLSessionCacheManager.cpp:327-355 | it takes a reference on the session it returns and on no other |
| `SessionReplies.CachedIffStored` | wangle/ssl/SSLSessionCacheManager.cpp:90-130 | a session is cached if and only if it was the last stored for its id and not pruned since |
| `SessionReplies.AnswerIsCached` | wangle/ssl/SSLSessionCacheManager.cpp:402-414 | so after an answer was handled, whoever asks for its id is given its session |
| `SessionLookups.OneRequestPerId` | wangle/ssl/SSLSessionCacheManager.cpp:295-400 | in every run at most one external request per session id is outstanding, and its answer finds its lookup |
| `SessionLookups.EveryWaiterIsRestartedOnce` | wangle/ssl/SSLSessionCacheManager.cpp:369-436 | each socket is restarted exactly as often as it was told to wait, its current wait excepted, and nobody waits on an id whose answer was handled |
| `SessionLookups.WaiterHasAnAnswerIff` | wangle/ssl/SSLSessionCacheManager.cpp:385-436 | a socket that waits has an answer to come or being handled if and only if the answer for its id was not an empty buffer |
| `SessionLookups.SwallowedWaiterIsStuck` | wangle/ssl/SSLSessionCacheManager.cpp:422-430 | otherwise it waits for good and is never restarted, those that come later included |
| `SessionLookups.TwoWaitForNothing` | wangle/ssl/SSLSessionCacheManager.cpp:422-430 | a run in which two sockets do |
| `SessionLookups.ReferenceCounts` | wangle/ssl/SSLSessionCacheManager.cpp:90-130 | a session's reference count is its cache entry plus the references handed out, plus one while its answer is handled |
| `TicketKeys.TLSTicketKeyManager.InsertNewKey` | wangle/ssl/TLSTicketKeyManager.cpp:253-285 | keeps an existing key of the same name and activates a current one |
| `TicketKeys.TLSTicketKeyManager.SetTLSTicketKeySeeds` | wangle/ssl/TLSTicketKeyManager.cpp:156-200 | rebuilds all keys from old, current and new seeds in that order, and says whether tickets can be handled |
| `TicketKeys.EncryptionKeyIsCurrent` | wangle/ssl/TLSTicketKeyManager.cpp:320-333 | a key that may encrypt was made from a current seed, and no old seed has its name |
| `TicketKeys.UsableIff` | wangle/ssl/TLSTicketKeyManager.cpp:156-200 | setting seeds succeeds if and only if some current seed decodes and no old seed has its name |
| `TicketKeys.DecryptionKeys` | wangle/ssl/TLSTicketKeyManager.cpp:298-344 | a name can be decrypted if and only if some seed that decodes has it, with that seed's key |
| `TicketKeys.DecodesIff` | wangle/ssl/TLSTicketKeyManager.cpp:298-318 | a seed decodes if and only if it is an even number of hexadecimal digits, and then to half as many bytes |
| `TicketKeys.SeedRoundTrip` | wangle/ssl/TLSTicketKeyManager.cpp:201-225 | any bytes written as a seed are read back |
| `TicketKeys.KeyNameIs` | wangle/ssl/TLSTicketKeyManager.cpp:240-251 | a key name is the first four bytes of the hash of the seed's hash and the number 1 |
| `TicketKeys.IssuedIsOpened` | wangle/ssl/TLSTicketKeyManager.cpp:70-154 | a ticket issued under any key and salt is opened with the very keys it was issued with |
| `TicketKeys.SameKeysIff` | wangle/ssl/TLSTicketKeyManager.cpp:70-154 | two tickets have the same keys if and only if they share key source and salt, where the hash does not collide |
| `TicketKeys.RotationsAreValid` | wangle/ssl/TLSTicketKeySeeds.h:35-71 | a first configuration, no change, and every list moving up by one are valid rotations |
| `TicketKeys.RotationKeepsKeys` | wangle/ssl/TLSTicketKeySeeds.h:35-71 | a key that encrypted before a valid rotation is found by its name afterwards with the same source, absent hash collisions |
| `TicketKeys.RotationKeepsTicketsIff` | wangle/ssl/TLSTicketKeyManager.cpp:156-200 | so a ticket issued before is opened with the keys it was issued with if and only if some current seed decodes and no old seed has its key name, since otherwise no ticket is looked at |
| `TicketKeys.ValidRotationCanDisableTickets` | wangle/ssl/TLSTicketKeySeeds.h:35-46 | a valid rotation after which no key can encrypt |
| `SniIndex.SSLContextManager.InsertSSLCtxByDomainName` | wangle/ssl/SSLContextManager.cpp:691-759 | accepts only names with a leading "*." or no star, and files them under both crypto classes as the two overwrite rules say |
| `SniIndex.AcceptedIff` | wangle/ssl/SSLContextManager.cpp:706-725 | a name is accepted if and only if it is not a lone dot and its only star, as far as strchr looks, is that of a leading "*." with something behind it |
| `SniIndex.FiledAlikeIff` | wangle/acceptor/SSLContextSelectionMisc.h:29-93 | two names are filed alike if and only if they differ in nothing but the case of ASCII letters |
| `SniIndex.CaseDoesNotMatter` | wangle/ssl/SSLContextManager.cpp:765-810 | hosts that differ in nothing else get the same context |
| `SniIndex.EntriesArePicked` | wangle/ssl/SSLContextManager.cpp:691-759 | after any insertions a name's best-crypto entry is the last best-crypto context, or else the first weak one, and its weak entry the last weak one |
| `SniIndex.SuffixIsFromFirstDot` | wangle/ssl/SSLContextManager.cpp:775-795 | the suffix looked up is the host without its first label |
| `SniIndex.LookupIsTheRule` | wangle/ssl/SSLContextManager.cpp:765-810 | for every host, the two hash lookups agree with "an exact name regardless of case, else a wildcard for exactly one leading label" (section 3.1 of RFC 2818), as long as no name that starts with a dot lies where a wildcard for the host would |
| `SniIndex.LookupIsTheRuleIff` | wangle/ssl/SSLContextManager.cpp:765-810 | for any insertions and every host, they agree if and only if the insertion that wins the host's suffix is one the rule would choose or has the same context |
| `SniIndex.IntruderTakesOver` | wangle/ssl/SSLContextManager.cpp:691-795 | inserted after a wildcard for a host, a name that starts with a dot takes its place, so that they do not |
| `SniIndex.IntruderExample` | wangle/ssl/SSLContextManager.cpp:706-729 | *.a.c and .a.c are such names for x.a.c |
| `FileRegions.FileWriteRequest.PerformWrite` | wangle/channel/FileRegion.cpp:50-70 | starts the reader first, then moves bytes from the pipe to the socket and takes them off the count |
| `FileRegions.FileWriteRequest.OnMessage` | wangle/channel/FileRegion.cpp:80-86 | adds an announced piece, and asks to write if there was nothing before |
| `FileRegions.FileWriteRequest.HandlerReady` | wangle/channel/FileRegion.cpp:183-217 | moves file bytes into the pipe and announces them, or fails |
| `FileRegions.ByteConservation` | wangle/channel/FileRegion.cpp:50-86 | in every interleaving the bytes to read, spliced, queued, announced and sent add up to the request, the announced count never exceeds the pipe's contents, and no counter wraps |
| `FileRegions.CompleteMeansSent` | wangle/channel/FileRegion.cpp:76-78 | a request that says it is complete has sent exactly the requested bytes of the file in order, and nothing is left in pipe or queue |
| `FileRegions.FailedIff` | wangle/channel/FileRegion.cpp:183-217 | a request has failed if and only if the kernel or the queue has, and bytes are lost only by the queue |
| `FileRegions.PiecesArePositive` | wangle/channel/FileRegion.cpp:80-86 | announced pieces are never empty, so that after one there is something to write |
| `FileRegions.CompleteIff` | wangle/channel/FileRegion.cpp:76-78 | it says so if and only if all was sent and its counter can hold the size |
| `FileRegions.SentButNotComplete` | wangle/channel/FileRegion.cpp:76-78 | a run that sends everything and does not |

## Left out

- ConnectionManagers.AddWellFormed: a connection comes from no other manager; its removal from one is `RemoveWellFormed` there.
- ConnectionManagerClass.ConnectionManager.AddConnection: likewise.
- ConnectionManagerClass.ConnectionManager.InitiateGracefulShutdown: starts from no drain; the conversion of a running partial drain is `PartialDrain.ConvertToFull`.
- PartialDrain.PartialQueuesIff: takes the number to drain as given, because the source computes it as a floating-point product.
- ConnectionManagerClass.ConnectionManager.DropConnections: takes the number to drop as given, for the same reason.
- AcceptorClass.Acceptor.DropConnections: takes the number to drop as given, for the same reason.
- ManagerRuns.PartitionInEveryRun: partial drains are not among its events; `PartialDrain` has them as single steps.
- DrainCoverage.DrainReachesEveryConnection: is about drains with a positive grace; `ForcedDrain.ForcedDrainClosesEveryConnection` is about those without, in which a connection can be told to close more than once.
- PartialDrain.PartialConcernsLast: reaches the last n only as far as the first batch, because partial drains are single steps.
- ConnectionManagers.VisitWellFormed: a callback may unlink its own connection, not others.
- EvbHandshake and SessionLookups are state machines on values, not classes, because their steps belong to several threads or nest through callbacks.
- LengthFieldCodec.WriteMisframesIff: takes the conversion of an oversized length to int, and an overflow of the sum, as two's complement truncation, which C++ leaves to the implementation.
- LengthFieldCodec.FramesUnderFragmentation: takes frames whose length field ends below 2^31, as the decoder's own check of a negative offset demands.
- LineCodec.LineFrames: newline mode only; lone carriage returns and the discarding mode depend on how the bytes were cut.
- LineCodec.LineBasedFrameDecoder.Decode: newline mode only, for the same reason.
- PersistentCache.StoreAgreesInEveryRun: a store with items that do not convert, which a load would leave out of the cache, and a version counter of 2^64 puts are not modelled.
- SessionLookups.OneRequestPerId: answers are asynchronous; the shards of the local cache are one map, from which any entry may be evicted at any time.
- TicketKeys.RotationKeepsKeys: the hash is any function, and key names are assumed not to collide among the seeds in use.
- AcceptorDrain.PendingCount: a session is whatever connection the application adds; sockets, TLS itself and load shedding are parameters.
- FileRegions.CompleteIff: the modulus of the base class's byte counter is a parameter, since that class is not part of this model.
- The client dispatcher is modelled inside `Pipelining.System` and not as a class of its own.
- Serial and multiplexed dispatchers forward each request without keeping state, bootstrap and pipeline classes wire handlers together, and SSL configuration, statistics, file polling and the example programs read files and call other libraries: none of them has state to speak about here.
