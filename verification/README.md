# Nrynet: verified models of its state machines and parsers

Nrynet is a NAT-traversal server with agents behind it. This project models the parts of it where the logic is
hard: state that many goroutines change under locks, counters that fence stale work, a handshake over a lossy
network, and hand-written parsing and allocation. Each module names the files it follows.

Two forms stand side by side in most modules. A class has the fields of the original object, and its methods are
the original's critical sections and loops, with their branches and error cases; their contracts tie the new state
to the old one through functions. A machine, `Next` over a `Step` type, lets every critical section happen at any
moment. It uses the class's functions where the class's state is made of values; `PendingVisitors`, `VisitorStreams`
and `UdpSessions`, whose classes hold objects, state the same sections again over handles. Each outstanding goroutine
is a counter or a set element, so a `Run` over an arbitrary sequence of steps covers every interleaving, and some that
the scheduler would not produce. A step that is not enabled, or would block, leaves the state as it is. Theorems are
about every run from the initial state. Sockets, transports and timers are handles; clocks are integers; integers are
unbounded except where the original counts in uint64, which is written out modulo 2^64.

| file | subject |
|---|---|
| HubSessions.dfy | the hub's session registry and the stored client status |
| PendingVisitors.dfy | visitors waiting for a data channel |
| ClientConnections.dfy | the generation fence and the pool of idle work connections |
| ControlLanes.dfy, ServerControlQueue.dfy, AgentControlQueue.dfy | the control write queues |
| PunchHandshake.dfy | the two-party punch and ready handshake |
| P2PFrames.dfy | sealed, numbered datagrams between server and agent |
| VisitorStreams.dfy | slot accounting of visitor streams |
| UdpSessions.dfy | UDP session tables and direct paths |
| ServerName.dfy | the host name of a TLS ClientHello, and the replayed prefix |
| Letters.dfy, Decimals.dfy, Slugs.dfy, Domains.dfy, AutoDomains.dfy | subdomains for tunnels |
| RendezvousTable.dfy | matching of registered peers |
| RelayRegistry.dfy | relay nodes, their load and assignments |
| ReconnectCleanup.dfy | the grace timer after a disconnect |
| EventLimiter.dfy | the fixed-window event limiter |
| Options.dfy | option and result types |

## What the proofs found

- `server/tunnel/traffic_events.go:19-20` and `server/relay/broker_rejections.go:35-36`: the limiters read the clock
  before they take the lock, so a call can be overtaken by one with a later reading. Then a third window can let calls
  of the same second through: with overtaking below a second up to 148 under the limit 50 and up to 58 under the limit
  20, instead of twice the limit (`EventLimiter.TwiceHoldsExactly` and `EventLimiter.SharedBoundIsReached` are exact,
  `EventLimiter.OvertakenByOne` is a run).
- `server/tunnel/udp_runtime.go:128-140,254-260`: after a runtime is closed a worker may still take a queued packet, and
  the session it makes stays counted as active (`UdpSessions.LatePacketLeaks`, `UdpSessions.ShareAfterShutdown`).
  `server/tunnel/p2p_udp.go:74`: a session that outlives its runtime charges its direct path to the tunnel's next one
  (`UdpSessions.CountedWhereFound`).
- `server/client/client_status.go`: the stored status of a client is only corrected by a session of that client.
  The column is not reset when the server starts, so a client that was online before and never returns stays
  "online" (`HubSessions.StatusAgreesWhenQuiet` has the exact statement).
- `internal/advanced/rendezvous_client.go:60-62` says that the ready acknowledgement prevents one peer from sending
  application data while the other still consumes handshake packets. That holds for packets that arrive; with the
  last ready-ack lost the one peer has returned and answers nothing more
  (`PunchHandshake.TheOtherNeedsOneReadyAck`, `PunchHandshake.OneSideMayFinishAlone`).
- `internal/advanced/relay_registry.go:183-186`: assigning a tunnel to the node it already holds adds one to that
  node's count, because the node was copied before the decrement. The count is then too high until the node's next
  heartbeat (`RelayRegistry.NextSlack`, `RelayRegistry.RunSlack`).
- `server/tunnel/reconnect_cleanup.go:40-49`: an expiry can disconnect the streams of a session that registered
  after the hub was asked and whose notification has not cancelled yet (`ReconnectCleanup.ConnectedCanBeHit`), and
  only such a session (`ReconnectCleanup.ConnectedIsHitOnlyWhileOwed`).
- `server/gateway/sniff.go:55`: the upper guard on the record length can never fire, a uint16 being at most 65535;
  records longer than 65531 bytes fail because the read buffer cannot hold them with their header
  (`ServerName.SniffedRecord`).
- `internal/advanced/rendezvous_server.go:122`: the eviction loop would not end with a bound of 0
  (`RendezvousTable.PruningEnds`); the constructor sets 10000.
- `internal/storage/domains.go:67`: candidates for different attempts differ because slugs are cut to 48
  characters. A label of 62 or 63 characters can collide with a later attempt (`AutoDomains.CandidatesDiffer`).
- `internal/storage/domains.go:79-92`: a slug that is a number up to 255, joined to a base domain of three such
  numbers, gives an address, which the tunnel's validation then refuses (`Domains.JoinedIsDomain`, `Domains.JoinedCanBeAddress`).

## Model

| member | source | states |
|---|---|---|
| HubSessions.SessionHub.Register | server/client/hub_transport.go:125-132 | One map update under the hub lock: all three maps now hold the new session, everything else is as before; the caller gets exactly the transport and queue that were replaced, to close them and report the disconnect |
| HubSessions.SessionHub.Unregister | server/client/hub_transport.go:147-157 | Removes the three entries together, and only when the transport is still the current one of the client; a late call of an older session changes nothing and reports so |
| HubSessions.SessionHub.DropQueue | server/client/hub_transport.go:43-46 | Deletes the queue entry only if it is this session's queue |
| HubSessions.SessionHub.Disconnect | server/client/hub.go:138-148 | With nothing between its two critical sections, removes the current session of a client whole, hands out exactly that session's queue to be closed, and tells whether there was one; the machine takes the second section alone, for any connection read before |
| HubSessions.SessionHub.MarkClientOnline | server/client/client_status.go:10-17 | Stores "online" exactly when the transport is still current |
| HubSessions.SessionHub.MarkClientOffline | server/client/client_status.go:19-26 | Stores "offline" exactly when the client has no connection |
| HubSessions.UninterruptedMarks | server/client/client_status.go:10-26 | The check and the write of a mark, taken as two steps of the machine with nothing in between, are the two methods |
| HubSessions.RunInv | server/client/hub_transport.go:29-60 | Over every interleaving of hello, register, replacement, unregister and the two-lock marks: map agreement, teardown accounting and the owed-mark condition hold for every client |
| HubSessions.MapsBelongTogether | server/client/hub_transport.go:125-157 | In every reachable state the three maps have the same keys and a client's entries all come from its one live session |
| HubSessions.TeardownSparesOthers | server/client/hub_transport.go:36-60 | Tearing down one session by any of the three ways, however late, leaves another live session exactly in place |
| HubSessions.DropKeepsMaps | server/client/hub_transport.go:41-47 | The deferred queue cleanup of a session never changes the maps: by then its own queue is gone from them |
| HubSessions.TeardownCompletes | server/client/hub_transport.go:133-165 | When nothing is owed, each session that stopped being current was reported exactly once and its queue is closed; no other session was reported |
| HubSessions.UninterruptedDisconnect | server/client/hub.go:138-148 | From every reachable state, disconnecting a connected client with nothing in between leaves no entry of it and owes exactly one close of its live queue, one notification of that session and one offline mark |
| HubSessions.DisagreementIsOwed | server/client/client_status.go:10-38 | Whenever the stored status disagrees with the hub, the correcting mark is still to come: the mark of the live session, an offline mark, or a registration after a hello |
| HubSessions.StatusAgreesWhenQuiet | server/client/client_status.go:10-38 | At every quiescent point a client that ever said hello is stored "online" exactly when the hub holds its connection; a client that never did keeps its stored row |
| PendingVisitors.Broker.RegisterPending | server/relay/broker.go:147-171 | Refuses an empty or duplicate request id without a change; otherwise adds exactly one new entry |
| PendingVisitors.Broker.ClaimPendingForClient | server/relay/broker.go:243-257 | Removes the entry, gives it the captured generation, closes `paired` once and leaves its visitor open, only for the owning client; unknown and foreign requests are refused without a change |
| PendingVisitors.Broker.CancelPending | server/relay/broker.go:259-267 | Wins exactly when the entry itself is still in the map, and removes only it |
| PendingVisitors.Broker.WaitTimesOut | server/relay/broker.go:121-136 | The timer branch of Wait closes the visitor and gives up exactly when it still wins the entry; otherwise it changes nothing and goes on to receive |
| PendingVisitors.Broker.Fail | server/relay/connection_failures.go:5-26 | Only the owning client's entry is removed, its visitor closed and its cause delivered |
| PendingVisitors.Broker.FailPendingClient | server/relay/client_connections.go:125-143 | Removes exactly the client's entries; each gets the disconnect error and a closed visitor, all others are untouched |
| PendingVisitors.PendingConn.TrySend | server/relay/connection_failures.go:23-27 | A non-blocking send keeps the value that is already there |
| PendingVisitors.RunInv | server/relay/broker.go:121-267 | Over every interleaving of register, claim, fail, admin disconnect, timeout and completion, the books of every entry balance: claimed or failed entries owe, hold or have delivered exactly one value |
| PendingVisitors.OneFate | server/relay/broker.go:243-267 | An entry leaves the map once: its first claim, failure or timeout is final in every continuation, even when request ids are used again |
| PendingVisitors.PairedClosedOnlyByTheClaim | server/relay/broker.go:243-257 | `paired` is closed at most once, and exactly when the entry was claimed |
| PendingVisitors.VisitorClosedExactly | server/relay/broker.go:121-257 | In every reachable state the visitor of an entry is closed exactly when it was failed or timed out; pairing hands it over open |
| PendingVisitors.SendsFindRoom | server/relay/work_connections.go:86-107 | No send on `done` finds it full: the blocking send of a relay never blocks and a failure's value is never dropped |
| PendingVisitors.LosingWaitIsOwed | server/relay/broker.go:121-136 | A Wait that lost the cancel race, or saw the pairing, has exactly one completion coming |
| PendingVisitors.WaitReportsTheFate | server/relay/broker.go:121-136 | What Wait returns is what happened: a deadline only for the entry it cancelled, the cause for a failed one, and for a claimed one the result of its own relay |
| PendingVisitors.WaitCanReturn | server/relay/broker.go:121-136 | No Wait is stuck: from every reachable state the timer, or the owed send and the receive, end it |
| ClientConnections.Connections.Register | server/relay/client_connections.go:36-54 | Admits a connection exactly when the captured generation is the current one, and then adds just it |
| ClientConnections.Connections.Remove | server/relay/client_connections.go:71-78 | Takes one connection out, and the client's entry with the last one |
| ClientConnections.Connections.Disconnect | server/relay/client_connections.go:80-90 | Raises the generation as a uint64, empties the client's active set and closes both sockets of every connection in it |
| ClientConnections.Connections.CloseRequest | server/relay/client_connections.go:56-69 | Closes the sockets of the client's connections with that request id and no others |
| ClientConnections.WorkConnectionPool.Add | server/relay/work_connection_pool.go:31-40 | Pushes a worker unless the client has the maximum idle |
| ClientConnections.WorkConnectionPool.Take | server/relay/work_connection_pool.go:42-59 | Pops the most recent worker of the client, if it has any; other clients' stacks are unchanged |
| ClientConnections.WorkConnectionPool.CloseClient | server/relay/work_connection_pool.go:61-69 | Empties the client's stack and closes every transport in it |
| ClientConnections.WorkConnectionPool.Assign | server/relay/work_connections.go:68-84 | The retry loop over idle workers computes the specified assignment: chosen worker, what stays idle, what is closed, how many workers are asked for, and the fallback to a fresh data path exactly when none starts |
| ClientConnections.AssignedIsTheTopmost | server/relay/work_connections.go:68-84 | The topmost worker that starts is chosen; exactly those above it are dropped, all below stay, and none is chosen only when none starts |
| ClientConnections.RunInv | server/relay/client_connections.go:36-107 | In every reachable state each active stream of a client carries the client's current generation |
| ClientConnections.AdmittedExactly | server/relay/client_connections.go:36-54 | A captured stream can be registered exactly when the disconnects of its client since the capture are a multiple of 2^64 |
| ClientConnections.StaleStreamStaysOut | server/relay/work_connections.go:35-51 | A stream captured before a disconnect is in no active set and cannot enter one, whatever the pool did with it, for fewer than 2^64 disconnects |
| ClientConnections.BumpedCounts | server/relay/client_connections.go:80-84 | The stored generation is the number of disconnects modulo 2^64 |
| ControlLanes.PutIsConsistent | server/client/control_write_queue.go:70-95 | Accepting a message keeps the count and byte counters exact and the non-critical backlog within both limits |
| ControlLanes.PoppedIsConsistent | server/client/control_write_queue.go:127-156 | So does taking one out, whichever lane it comes from |
| ControlLanes.LanesAreFifo | server/client/control_write_queue.go:127-156 | Over every run, each lane is first in, first out and loses nothing: taken plus left equals there plus added |
| ControlLanes.CriticalIsNext | server/client/control_write_queue.go:127-156 | Over every run, a critical message with i critical ones ahead is taken within i+1 dequeues, whatever else waits or arrives: no urgent or normal one goes before it |
| ControlLanes.BudgetCounts | client/agent/control_write_queue.go:147-177 | Over every run the budget is the number of urgent messages taken since the last normal one |
| ControlLanes.BoundedWaiting | client/agent/control_write_queue.go:147-177 | A normal message with i ahead of it is the (i+1)-th normal one taken, within 33*(i+1) non-critical dequeues, whatever arrives and however large the budget counter had grown |
| ControlLanes.NormalIsTakenInTime | server/client/control_write_queue.go:127-156 | The sharper bound that depends on how much of the urgent budget is already used |
| ControlLanes.UrgentIsTakenInTime | server/client/control_write_queue.go:127-156 | An urgent message with i urgent ones ahead waits for at most one normal message per 32 urgent ones |
| ControlLanes.WaitingBoundIsReached | server/client/control_write_queue.go:127-156 | The bound is exact: from an empty queue, with every message accepted within the limits, for every i that leaves room for an urgent message besides i+1 normal ones, there is a run in which one dequeue less is not enough |
| ServerControlQueue.WriteQueue.Enqueue | server/client/control_write_queue.go:70-95 | Closed and full queues (131072 messages or 512 MiB) refuse without a change, critical messages are never refused for space; otherwise the message is last in the lane of its kind |
| ServerControlQueue.WriteQueue.Next | server/client/control_write_queue.go:127-156 | Takes the first critical message if there is one; else the first urgent one exactly while fewer than 32 went ahead or no normal one waits; else the first normal one; an empty queue waits, a closed one stops |
| ServerControlQueue.WriteQueue.Close | server/client/control_write_queue.go:97-110 | Hands over everything queued, in lane order, and empties lanes and counters |
| ServerControlQueue.WriteQueue.Fail | server/client/control_write_queue.go:158-178 | The first failure drains the queue, later ones or one after close drain nothing |
| ServerControlQueue.CountersAreExact | server/client/control_write_queue.go:70-196 | In every reachable state the counters equal the lanes, the backlog is within both limits, and the error handler ran at most once |
| ServerControlQueue.CompletedExactlyOnce | server/client/control_write_queue.go:97-190 | Over every interleaving of callers, writer, failure and close no accepted item is completed twice, and once the queue is closed and drained each was completed exactly once: written, closed or failed |
| AgentControlQueue.QueuedConn.WriteJson | client/agent/control_write_queue.go:55-90 | As the server's queue with half its limits, but a heartbeat that finds one waiting is dropped and reported as sent |
| AgentControlQueue.QueuedConn.TakeNext | client/agent/control_write_queue.go:147-177 | Critical first, then urgent within the budget of 32, then normal; taking a heartbeat clears the flag |
| AgentControlQueue.QueuedConn.Close | client/agent/control_write_queue.go:92-104 | Empties lanes, counters and flag |
| AgentControlQueue.QueuedConn.Fail | client/agent/control_write_queue.go:179-195 | Shuts the queue unless it was closed already |
| AgentControlQueue.RunInv | client/agent/control_write_queue.go:55-104 | In every reachable state the counters are exact, the limits hold, and `heartbeatQueued` is true exactly when one heartbeat is queued; never two |
| AgentControlQueue.OneHeartbeatWaits | client/agent/control_write_queue.go:70-76 | After a heartbeat was written to an open queue exactly one waits: dropping the duplicate loses nothing |
| PunchHandshake.Handshake | internal/advanced/rendezvous_client.go:63-122 | Succeeds exactly when after some clean rounds a punch, a punch-ack, a ready and a ready-ack have all arrived; the loop sends exactly the specified packets, with every early exit of the original |
| PunchHandshake.OneMoreRound | internal/advanced/rendezvous_client.go:78-120 | What one more round adds to any history: it sends a ready once a punch and a punch-ack were heard, else a punch; answers a punch with a punch-ack and a ready with a ready-ack; succeeds with the fourth kind; fails with a failed write or read |
| PunchHandshake.SuccessExactly | internal/advanced/rendezvous_client.go:63-122 | The specified outcome is success exactly when some prefix of the rounds has no failed write or read and brings all four kinds |
| PunchHandshake.HandshakeInMachine | internal/advanced/rendezvous_client.go:63-122 | The method is one side of the two-party machine: the steps its rounds stand for end with the same outcome and the same packets sent, and leave the other side alone |
| PunchHandshake.RunInv | internal/advanced/rendezvous_client.go:63-122 | Two peers over a network that loses, repeats and reorders: what a side has sent says what it has seen, and what it has seen was sent |
| PunchHandshake.SuccessIsMutual | internal/advanced/rendezvous_client.go:63-122 | If one side succeeds, the other has seen its punch, punch-ack and ready, both are in the ready phase, and the ready-ack the other may still need has been sent |
| PunchHandshake.TheOtherNeedsOneReadyAck | internal/advanced/rendezvous_client.go:109-119 | After one side returned, the other succeeds exactly when a ready-ack already on the wire reaches it while it runs |
| PunchHandshake.BothCanFinish | internal/advanced/rendezvous_client.go:63-122 | No history of losses keeps two running sides from finishing together |
| PunchHandshake.OneSideMayFinishAlone | internal/advanced/rendezvous_client.go:60-63 | What the comment on the function claims does not hold in general: with the last ready-ack lost, one side succeeds and the other gives up |
| P2PFrames.PutUint64 | internal/advanced/p2p_auth.go:32 | The in-place write leaves the big-endian form of the number and everything around it unchanged |
| P2PFrames.P2pNonce | internal/advanced/p2p_auth.go:71-76 | The filled buffer is the nonce of direction and sequence |
| P2PFrames.EncodeP2pFrame | internal/advanced/p2p_auth.go:22-39 | The buffer-filling encoder yields the specified frame, with the key and size errors |
| P2PFrames.FrameLayout | internal/advanced/p2p_auth.go:22-39 | The bytes of header and nonce one by one: NLP2, the direction, and the sequence most significant byte first |
| P2PFrames.ValueOfBigEndian | internal/advanced/p2p_auth.go:32 | Reading back a big-endian number gives the number |
| P2PFrames.BigEndianOfValue | internal/advanced/p2p_auth.go:48 | Every byte string is the big-endian form of its value |
| P2PFrames.NonceIsInjective | internal/advanced/p2p_auth.go:71-76 | Two nonces are equal exactly when direction and sequence are |
| P2PFrames.DecodeOfSealed | internal/advanced/p2p_auth.go:41-61 | A sealed frame is accepted exactly with the same key, in the same direction and above the last sequence, and then yields its payload and sequence |
| P2PFrames.DecodedIsSealed | internal/advanced/p2p_auth.go:41-61 | Whatever is accepted is, byte for byte, the frame that sealing its payload under its sequence gives |
| P2PFrames.EncodedIsDecoded | internal/advanced/p2p_auth.go:22-61 | Encoding is refused exactly for another key size or above 65478 bytes; otherwise the other end gets the same payload and sequence |
| P2PFrames.DirectSession.Send | server/tunnel/p2p_udp.go:186-200 | Uses up one sequence, wrapping as a uint64, even when the payload is refused |
| P2PFrames.DirectSession.ReadResponse | server/tunnel/p2p_udp.go:202-230 | Returns the first datagram that decodes, moves the received sequence to it, and skips exactly the ones that do not |
| P2PFrames.DatagramProxy.Handle | client/agent/p2p_udp.go:136-155 | Undecodable frames change nothing; an accepted one moves the received sequence even when the local round trip fails, and its answer goes out under the next sequence |
| P2PFrames.ReplyIsAccepted | client/agent/p2p_udp.go:136-155 | A reply is accepted by a server that has seen less and carries the answer; there is none exactly when the local service fails or answers more than fits |
| P2PFrames.AnsweredInMachine | client/agent/p2p_udp.go:136-155 | What the machine's agent does with a request is what the class answers |
| P2PFrames.RunInv | client/agent/p2p_udp.go:115-155 | Over every adversarial delivery of sealed boxes, junk and frames under other keys, before the server's sequence wraps, both directions stay in order |
| P2PFrames.DatagramsAreHandledAtMostOnce | server/tunnel/p2p_udp.go:186-230 | Accepted sequences strictly increase and each accepted payload is the one sent under that sequence in that direction; hence each is handled at most once, never reflected, and a request is answered at most once |
| P2PFrames.NoncesAreFresh | internal/advanced/p2p_auth.go:71-76 | No nonce is used for two different boxes under the session key |
| VisitorStreams.DataSession.ReserveSlotLocked | client/agent/visitor_stream.go:153-166 | Takes a slot of both semaphores or of neither |
| VisitorStreams.DataSession.ReserveSlot | client/agent/visitor_stream.go:144-151 | As before, and never on a closed session |
| VisitorStreams.DataSession.ReleaseSlot | client/agent/visitor_stream.go:168-171 | Gives back one slot of each |
| VisitorStreams.DataSession.Start | client/agent/visitor_stream.go:118-142 | The four refusals in order and without a change; otherwise one empty request that holds a slot of each semaphore |
| VisitorStreams.DataSession.Chunk | client/agent/visitor_stream.go:173-193 | Appends to the body up to 16 MiB; an undecodable or too large chunk removes the request with its slots, an unknown id changes nothing |
| VisitorStreams.DataSession.Remove | client/agent/visitor_stream.go:223-232 | Removes the request and its slots if it is there, else nothing |
| VisitorStreams.DataSession.End | client/agent/visitor_stream.go:195-213 | The request leaves the table and its slot stays with the worker |
| VisitorStreams.DataSession.Close | client/agent/visitor_stream.go:60-76 | Returns one slot per open request to both semaphores, once |
| VisitorStreams.UninterruptedReserve | client/agent/visitor_stream.go:153-166 | The two sends of a reservation, taken as two steps of the machine with nothing in between, are the class's reservation |
| VisitorStreams.UninterruptedRelease | client/agent/visitor_stream.go:168-193 | From every reachable state, removing a request and receiving from both channels gives back one slot of each and changes nothing else |
| VisitorStreams.SlotsAreConserved | client/agent/visitor_stream.go:60-213 | Over every interleaving of all sessions a session's slots are its requests plus workers plus the reservation under way, the global count is the sum, and both stay within 4096 and 16384 |
| VisitorStreams.ReceivesNeverBlock | client/agent/visitor_stream.go:60-76 | Whoever is to receive from a semaphore finds a value there |
| VisitorStreams.ClosedAndDrainedIsZero | client/agent/visitor_stream.go:60-76 | Closed sessions whose workers ended hold nothing, and when all are the global count is zero |
| UdpSessions.Runtime.SessionFor | server/tunnel/udp_runtime.go:165-183 | Finds and touches the session of an address, refuses at 65536, else adds one new session to both indexes; no other session is touched |
| UdpSessions.Runtime.FindSession | server/tunnel/udp_runtime.go:214-222 | Looks up by id and touches that session alone |
| UdpSessions.Runtime.RemoveSession | server/tunnel/udp_routing.go:34-46 | Removes one session from both indexes and closes its direct path and no other |
| UdpSessions.Runtime.RemoveIdle | server/tunnel/udp_runtime.go:237-252 | Removes exactly the sessions last seen before the cutoff and closes exactly those |
| UdpSessions.Runtime.ClearSessions | server/tunnel/udp_runtime.go:262-276 | Empties both indexes, closes every session and takes the table size off the active counter |
| UdpSessions.IndexesAreInverse | server/tunnel/udp_runtime.go:165-276 | In every reachable state, before and after the runtime is unlinked and shut down, the address index and the id index are inverse to each other |
| UdpSessions.RemovedExactly | server/tunnel/udp_runtime.go:237-276 | In every reachable state a removal by id takes that session, the idle removal those last seen before the cutoff, a clearing all; for exactly those one close of the path becomes due, and no other session changes |
| UdpSessions.SeenExactly | server/tunnel/udp_runtime.go:165-222 | Only a packet from its address or a lookup of its id moves the time at which a session was last seen, to the time of the call |
| UdpSessions.DirectPathsAreCounted | server/tunnel/p2p_udp.go:31-98 | The count is the direct paths charged to this runtime, by its own sessions or by those of the tunnel's other runtimes: installed, being opened and being closed; so the zero guard of a release never hides one |
| UdpSessions.LinkedCountsAll | server/tunnel/p2p_udp.go:60-98 | A runtime that the manager always found under its tunnel counts every path: installed, being opened and being closed |
| UdpSessions.CountedWhereFound | server/tunnel/p2p_udp.go:73-87 | A session of an unlinked runtime opens a path that its runtime does not count, and one of an earlier runtime charges the present one |
| UdpSessions.PathIsReturned | server/tunnel/p2p_udp.go:60-98 | From every reachable state, opening a path and failing, at once or in the first round trip, gives back exactly what was charged; success leaves one path and one count |
| UdpSessions.CloseWaitsForTheTrip | server/tunnel/p2p_udp.go:45-52 | The close of a session waits while its path is opened or used; then it and the release take exactly that path and its charge |
| UdpSessions.ClosedHoldsNoPath | server/tunnel/p2p_udp.go:45-98 | A closed session never holds a direct path nor is one being opened for it |
| UdpSessions.AtRestNothingLeaks | server/tunnel/udp_runtime.go:237-276 | At rest every direct path belongs to a session in the tables or of another runtime, the count equals the paths charged here, and the runtime's share of the active counter is its table size |
| UdpSessions.ShareAfterShutdown | server/tunnel/udp_runtime.go:254-276 | After a shutdown, its decrements done, a runtime's share of the active counter is the sessions that late packets made and nothing removed; with nobody left to visit the table it is zero exactly when no late packet made a session |
| UdpSessions.LatePacketLeaks | server/tunnel/udp_runtime.go:128-147 | A worker that takes one more packet after the shutdown leaves such a session |
| ServerName.FindServerName | server/gateway/sniff.go:113-126 | The loop over extensions computes the specified search |
| ServerName.ParseServerName | server/gateway/sniff.go:68-96 | Stays in bounds and ends on every byte string, and computes the specified parse with its errors |
| ServerName.ParsePrinted | server/gateway/sniff.go:68-137 | For every ClientHello built from its fields the host name of the first server_name extension is returned, whatever surrounds it |
| ServerName.ParsedIsPrinted | server/gateway/sniff.go:68-137 | Whatever is accepted is the printed form of a well-formed ClientHello with the returned name |
| ServerName.ParseIsInverseOfPrint | server/gateway/sniff.go:68-137 | A name is returned exactly for the byte strings that print a ClientHello with that name |
| ServerName.HelloByBytes | server/gateway/sniff.go:68-137 | A whole family of messages given byte by byte, by position and length fields, is read to its host name |
| ServerName.SniffTls | server/gateway/sniff.go:49-66 | Captured prefix plus what is left unread equals the original stream, in success and in every failure; the length is read most significant byte first, and which of the four outcomes it is is told by the bytes alone; the name is the parsed one without a final dot and lower-cased |
| ServerName.OneDotIsDropped | server/gateway/sniff.go:139-141 | A name with and without one final dot gives the same, a name without one is only lower-cased, and of two dots one stays |
| ServerName.SniffedRecord | server/gateway/sniff.go:49-66 | A ClientHello in one record is named exactly when record and header fit the 65536-byte read buffer; longer records fail as unreadable, not by the length guard |
| ServerName.PrefixedConn.Read | server/gateway/sniff.go:148-154 | Reads deliver prefix then tail: each chunk followed by what remains is what remained before |
| Slugs.ValidateSlug | internal/storage/domains.go:36-50 | Accepts exactly the labels of 1 to 63 characters from letters, digits and inner hyphens |
| Slugs.SlugFromName | internal/storage/domains.go:52-77 | The single pass yields the words of the trimmed, lower-cased name joined by hyphens, cut to 48 characters, or "tunnel"; the validation at the end never fails |
| Slugs.WordsSplit | internal/storage/domains.go:54-67 | The words are what stands between the other characters: a separator anywhere splits them |
| Slugs.LettersAreOneWord | internal/storage/domains.go:54-67 | Letters and digits alone are one word |
| Slugs.SlugByLength | internal/storage/domains.go:68-74 | Up to 48 characters the joined words are the slug; longer ones are cut there, or one before when a hyphen would be last; without words it is "tunnel" |
| Slugs.SlugIsTidy | internal/storage/domains.go:52-77 | Every slug is a valid label of at most 48 characters without double hyphens |
| Slugs.SlugsAreFixed | internal/storage/domains.go:52-77 | The strings that are their own slug are exactly the tidy labels of at most 48 characters |
| Slugs.SlugIsIdempotent | internal/storage/domains.go:52-77 | Making a slug of a slug keeps it, trimming and lower-casing included |
| Domains.ValidIsNormal | internal/storage/domains.go:9-34 | Every valid domain is its own normal form |
| Domains.ValidExactly | internal/storage/domains.go:17-34 | A dotted name is a domain exactly when it has two or more labels, all valid, at most 253 characters, and is not four numbers up to 255 |
| Domains.NormalizesVariants | internal/storage/domains.go:9-15 | Spaces around a valid domain, any letters as capitals and one final dot are normalized away; two final dots are an error |
| Domains.NormalizingTwice | internal/storage/domains.go:9-15 | A normalized domain normalizes to itself, so joining with a base that was normalized before changes nothing |
| Domains.JoinsExactly | internal/storage/domains.go:79-92 | Under a valid base a valid slug is put in front with a dot, an invalid one refused, and the result refused exactly above 253 characters |
| Domains.JoinedIsDomain | internal/storage/domains.go:17-34 | A joined domain passes the domain validation except exactly when slug and base together are four numbers up to 255, which read as an address |
| Domains.JoinedCanBeAddress | internal/storage/domains.go:79-92 | The exception exists: slug 1 under base 2.3.4 |
| Domains.RejectedNames | internal/storage/domains_test.go:15-21 | The names that the repository tests as unsafe are no domains |
| AutoDomains.CandidateIsSlug | server/api/auto_domains.go:65-80 | Every candidate of a valid slug is a valid label, for every attempt |
| AutoDomains.CandidateIsNumbered | server/api/auto_domains.go:65-80 | A later candidate is the slug, a hyphen and the number of the attempt counted from one; when that exceeds 63 characters the slug is cut to fit and before the hyphens at the cut |
| Decimals.NumberOfDecimal | server/api/auto_domains.go:68-74 | The number in a suffix reads back as the attempt it was written for, without a leading zero |
| AutoDomains.CandidatesDiffer | server/api/auto_domains.go:65-80 | Two attempts give the same candidate exactly when one is the first and the slug, of 62 or 63 characters, already ends in the other's suffix |
| AutoDomains.LongSlugCollides | server/api/auto_domains.go:73-80 | Such a slug exists, so the cap of 48 characters is what keeps the candidates apart |
| AutoDomains.SlugsFailByLength | server/api/auto_domains.go:65-71 | Under a valid base a candidate of a tunnel name fails to join only when the domain is longer than 253 characters |
| AutoDomains.TakenAreRows | server/api/auto_domains.go:33-48 | Candidates that are all taken are as many different rows of the protocol |
| AutoDomains.Store.CreateTunnel | internal/storage/tunnels.go:16-37 | Invalid exactly when the other fields or the domain are; a conflict exactly when they are valid and the row of lower-case protocol and canonical domain is there; otherwise exactly that row is added, and a failure changes nothing |
| AutoDomains.ConflictIsTaken | internal/storage/auto_domain.go:60-70 | A valid domain is stored as it is, and the lookup after a conflict finds its row |
| AutoDomains.FirstFreeIsCreated | server/api/auto_domains.go:33-49 | A retry that ends meets the first free candidate: it neither stops before it nor goes past it |
| AutoDomains.CreateTunnel | server/api/auto_domains.go:24-49 | Nothing is attempted under an invalid base; otherwise the unbounded loop makes at most one attempt more than there are rows of the protocol, and if some candidate is valid and free and all earlier ones are taken and can be looked up, it creates exactly the first such; on any success the domain was free and is the only new row |
| RendezvousTable.RendezvousServer.PruneLocked | internal/advanced/rendezvous_server.go:116-132 | Drops exactly the peers older than the ttl and, when the table would be full, those that no kept one is older than, down to one below the bound; the eviction loop ends by the table size |
| RendezvousTable.RendezvousServer.Oldest | internal/advanced/rendezvous_server.go:123-129 | Finds a peer that no other is older than |
| RendezvousTable.RendezvousServer.Register | internal/advanced/rendezvous_server.go:94-114 | Incomplete packets change nothing. Otherwise, if the pruned table holds the wanted peer and it wants the sender, three datagrams go out: the sender's own address to it, the stored address to the sender under the wanted name, the sender's address to the stored one under the sender's name; and the pair is removed. Else the sender learns its own address and is stored |
| RendezvousTable.PruningEnds | internal/advanced/rendezvous_server.go:116-132 | Pruning has an outcome exactly when the bound is positive |
| RendezvousTable.SettledHasNoPairs | internal/advanced/rendezvous_server.go:105-109 | A match is made exactly when the table with the new registration has a reciprocal pair, and then none is left |
| RendezvousTable.TableIsBounded | internal/advanced/rendezvous_server.go:94-132 | In every reachable state no two stored registrations want each other and the table is within its bound |
| RendezvousTable.ExchangesAreMutual | internal/advanced/rendezvous_server.go:94-141 | Every exchange joins registrations of one session that want each other and came at most the ttl apart; each registration is used by at most one exchange and is then no longer stored |
| RendezvousTable.ExchangesAreTold | internal/advanced/rendezvous_server.go:94-114 | Over every run, with the datagrams kept in the state: in each exchange each registration was sent the other one's logged address under the other one's name, and a registration in no exchange its own address only |
| RelayRegistry.RelayRegistry.Register | internal/advanced/relay_registry.go:47-62 | Sets the node afresh, or refuses without a change |
| RelayRegistry.RelayRegistry.Heartbeat | internal/advanced/relay_registry.go:64-76 | Sets count, health and time of a known node only |
| RelayRegistry.RelayRegistry.ExpireLocked | internal/advanced/relay_registry.go:204-212 | A node is healthy afterwards exactly when it was and was seen within the timeout; nothing else changes |
| RelayRegistry.RelayRegistry.PickLocked | internal/advanced/relay_registry.go:190-202 | Yields the one among the healthy, non-excluded nodes that has fewer connections than every other or as many and the smaller id, and nothing exactly when there is none |
| RelayRegistry.RelayRegistry.Assign | internal/advanced/relay_registry.go:175-188 | Expires first; on success the picked node counts one more, even when it is the holder, another holder one less unless at zero, and every other node as before; a failure leaves assignments and loads |
| RelayRegistry.RelayRegistry.AssignTunnel | internal/advanced/relay_registry.go:78-80 | Assigns without an excluded node, with the whole resulting state |
| RelayRegistry.RelayRegistry.ReassignTunnel | internal/advanced/relay_registry.go:82-87 | Assigns with the holder excluded, so never to the node that holds the tunnel, with the whole resulting state |
| RelayRegistry.RelayRegistry.ReleaseTunnel | internal/advanced/relay_registry.go:136-142 | Decrements the holder and drops the assignment |
| RelayRegistry.SortNodes | internal/advanced/relay_registry.go:223-233 | A sorted permutation under (healthy, connections, id) |
| RelayRegistry.LexIsByFirstDifference | internal/advanced/relay_registry.go:223-233 | The order of ids is decided by the first character that differs, a prefix before what it begins |
| RelayRegistry.RunInv | internal/advanced/relay_registry.go:136-188 | In every reachable state every assignment names a registered node |
| RelayRegistry.AssignmentGoesToTheLeast | internal/advanced/relay_registry.go:175-202 | An assignment succeeds exactly when an eligible node exists and then goes to the least one; a failed one changes no assignment and no load |
| RelayRegistry.NextSlack | internal/advanced/relay_registry.go:175-221 | Between its own reports, count minus assigned tunnels of a node changes exactly when a tunnel is assigned again to the node it holds, or when the floor at zero swallows a decrement; then by one |
| RelayRegistry.RunSlack | internal/advanced/relay_registry.go:136-221 | From a report that covers a node's tunnels to its next report the count covers them, and the difference grows by exactly one per assignment of a tunnel to its own holder |
| RelayRegistry.ReassigningDoesNotLeak | internal/advanced/relay_registry.go:82-87 | Reassigning with an up-to-date exclusion never leaks; plain assigning does exactly when the holder is itself the least loaded node |
| ReconnectCleanup.Manager.ScheduleReconnectCleanup | server/tunnel/reconnect_cleanup.go:7-18 | Stops exactly the client's previous timer, raises its epoch by one, wrapping as a uint64, and installs a new timer that carries it |
| ReconnectCleanup.Manager.CancelReconnectCleanup | server/tunnel/reconnect_cleanup.go:20-28 | Stops and forgets exactly the client's timer and raises its epoch by one, wrapping as a uint64 |
| ReconnectCleanup.Manager.ExpireChecksEpoch | server/tunnel/reconnect_cleanup.go:30-36 | Tells whether the expiry's epoch is the current one |
| ReconnectCleanup.Manager.ExpireDisconnects | server/tunnel/reconnect_cleanup.go:43-50 | Disconnects the client and drops its timer exactly when the epoch is still current |
| ReconnectCleanup.StoppedExactly | server/tunnel/reconnect_cleanup.go:7-28 | Before the epoch wraps, in every reachable state a timer that has not fired was stopped exactly when its client was scheduled again or cancelled since; if not, it is the one the next schedule or cancel stops |
| ReconnectCleanup.DisconnectsOnlyUndisturbed | server/tunnel/reconnect_cleanup.go:30-51 | After any history, an expiry in its last section disconnects exactly when the schedules and cancels of its client since its own scheduling are a multiple of 2^64; below that many, when there were none |
| ReconnectCleanup.OneEffectEach | server/tunnel/reconnect_cleanup.go:43-50 | Each schedule disconnects at most once |
| ReconnectCleanup.ConnectedIsHitOnlyWhileOwed | server/tunnel/reconnect_cleanup.go:40-49 | Before the epoch wraps, a client that is connected again is hit only while the notification of its new session is still to cancel |
| ReconnectCleanup.ConnectedCanBeHit | server/tunnel/reconnect_cleanup.go:40-49 | That does happen: a session that registers after the hub was asked and before its notification loses its streams |
| EventLimiter.Limiter.Allow | server/tunnel/traffic_events.go:18-31 | The part of a call under the lock, for a reading taken before it: a second after the window began a new one begins at the reading, and a call is let through and counted exactly below the limit |
| EventLimiter.EnteredIsTheRun | server/tunnel/traffic_events.go:18-31 | With reading the clock and entering the lock as two steps, over every interleaving the limiter is what the readings, in the order of entering, make of it |
| EventLimiter.SharedLimiterIsBounded | server/tunnel/traffic_events.go:18-31 | Over every interleaving, any closed one-second interval lets through at most the bound for the longest time by which a call is overtaken |
| EventLimiter.AdmittedAtMost | server/tunnel/traffic_events.go:18-31 | The bound for readings in any order: the larger of 2n + (n-1)*floor(d/s) and n + (n-1)*(1 + ceil(d/s)), for limit n, overtaking of at most d and the second s; below a second that is max(2n, 3n-2) |
| EventLimiter.SharedBoundIsReached | server/tunnel/traffic_events.go:18-31 | The bound is exact: for every limit and every overtaking a shared limiter reaches it, with a clock that never goes back |
| EventLimiter.TwiceHoldsExactly | server/relay/broker_rejections.go:34-47 | Twice the limit is kept by all runs with overtaking of at most d exactly when nothing is overtaken, or the limit is at most 1, or it is 2 and d is below a second |
| EventLimiter.OvertakenByOne | server/tunnel/traffic_events.go:18-31 | Nine calls with limit 3, the last two overtaken by one nanosecond: seven pass within a second |
| EventLimiter.BoundsInUse | server/relay/broker_rejections.go:34-47 | Below a second of overtaking the limits 50 and 20 let up to 148 and 58 calls through |
| EventLimiter.AtMostTwiceTheLimit | server/tunnel/traffic_events.go:18-31 | When calls enter the lock in the order of their readings, any closed one-second interval lets through at most twice the limit |
| EventLimiter.TwiceTheLimitIsReached | server/relay/broker_rejections.go:34-47 | In that order too, for every limit some run reaches twice the limit |
| EventLimiter.PromptCallsAreBounded | server/tunnel/traffic_events.go:18-31 | If each call enters within d of its reading, the bound for d holds |
| EventLimiter.AnyOrderHappens | server/tunnel/traffic_events.go:18-31 | The clock alone promises nothing: every order of readings happens in some run |

## Left out

- Sockets, WebSocket, QUIC, WebRTC, TLS, HTTP handlers, SQLite, JSON and base64: only handles, decoded messages and an
  abstract table of rows remain.
- AES-GCM: an ideal box that opens only with the key, nonce and header it was sealed with. HMAC, bcrypt, JWT and
  certificates are not modelled.
- Real time: timeouts and deadlines are steps that may happen at any moment; nothing is promised about latency.
- Ids from the uuid library are taken to be fresh.
- HubSessions.StatusAgreesWhenQuiet: does not cover a disabled client in acceptHello, nor database writes that fail.
- PendingVisitors.Broker.Fail: ends before the call to closeRequest, which is `ClientConnections.Connections.CloseRequest`.
- PendingVisitors.RunInv: the broker's Cancel, which has no caller, is not modelled; it would remove an entry without
  completing it.
- PunchHandshake.Handshake: the read of a round is one arrival; the check of the source address is part of it.
- ServerName.SniffTls: what the library's lower-casing does with the bytes of a name is a parameter; the HTTP sniffer is
  not modelled.
- Domains.NormalizingTwice: text is a sequence of characters, and what the library takes for spaces and small letters
  beyond ASCII is a parameter; of its address parser the dotted form is modelled, since a domain with colons is refused
  before.
- AutoDomains.CreateTunnel: the validation of the tunnel's other fields is one truth value; the switch that turns
  automatic subdomains off, and requests that change the table at the same time, are not modelled. It asks for fewer
  than 2^63 - 1 rows, since the attempt counter is a Go int.
- RendezvousTable.RendezvousServer.PruneLocked: asks for a positive bound, without which the loop does not end.
- RendezvousTable.ExchangesAreMutual: the key of a peer is a pair; session ids that contain a NUL byte could make the
  original's joined key ambiguous.
- RelayRegistry.SortNodes: stands for the library's sort, whose algorithm does not matter here.
- ReconnectCleanup.DisconnectsOnlyUndisturbed: covers runs up to shutdown, which resets all epochs.
- UdpSessions.DirectPathsAreCounted: the tables of the tunnel's other runtimes, the worker queue of incoming packets and the
  packet contents are not modelled.
- VisitorStreams.SlotsAreConserved: a request's method, headers and path are not interpreted; a body is its length in the
  machine and its bytes in the class.
- ClientConnections.WorkConnectionPool.CloseClient: closing the pools of all clients is a step of the run only.
- Retries around sendOpenConnection, the relay authentication cache, traffic totals, the bandwidth meter, reconnect
  backoff, the dashboard, the desktop application, the updater and configuration: they would add only easier members.
