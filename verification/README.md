# naia in Dafny

A model of the state machines and indexes at the core of naia, a game-networking library, and proofs about
them. `dafny verify dfyconfig.toml` checks everything.

Most of naia's core is small mutable structures keyed by wrapping `u16` numbers and kept in step by hand. Each
mutable structure is a class whose methods follow the source step by step and are proved against a value-level
specification; the promises are lemmas about that specification, most of them over every run of it. Ticks and
indices are `u16` in the classes and unbounded integers in the specifications: a class carries the unbounded
values as ghost state, and the window within which the `u16` values can be told apart is stated where it is needed.

| files | what they cover |
|---|---|
| `Options`, `Wrapping`, `BitCodec` | optional values; the `u16` comparison and difference; variable-length numbers on a bit stream |
| `TickBufferWire`, `TickBufferSender`, `TickBufferReceiver`, `TickBufferChannel` | the tick-buffered input channel, from the client's push to the server's delivery |
| `ServerHandshake`, `MainServer`, `UserPhases`, `ClientHandshake`, `HandshakeProtocol` | the simple handshake: both ends, the server's user tables and the one map they amount to, and the protocol over a network that loses, copies and reorders |
| `ReliableSenders`, `ReliableReceivers`, `ReliableChannel` | the ordered reliable channel end to end, on its `u16` indices |
| `Rooms`, `RoomStore`, `RoomHistories`, `EntityScope` | rooms, their scope-check cache, removal queues and redundant indexes, told from their history; explicit scope settings |
| `Authority`, `DelegatedEntities` | authority over delegated entities, in its two layers, and what they amount to for one entity |
| `SequenceLists`, `CommandHistories`, `TickQueues`, `KeyGenerators` | structures on wrapping numbers, and the recycling key allocator |
| `GameTime`, `ClientClocks` | time modulo 2^22; the client's clocks and its tick events |

## What the proofs found

Where the code does not do what its documentation or its name promises, the model follows the code; a lemma gives
an input, and another the exact condition.

- `collect_messages` sets `never_sent` to true and never clears it, so every call collects. When groups are left over,
  one more collect makes the next `write_messages` panic on a negative difference exactly when it lists a tick newer
  than the oldest group left over (`SecondCollectPanicsIff`; `CarryOverPanics` is a run).
- The server's acceptance window is exact if and only if the tick-buffer capacity is at most 32768
  (`AcceptanceExactIff`); above 32769 the very next tick is always refused, at 32769
  in half of the cases (`NextTickRefused`).
- A connect response that reaches a client in one of its two earlier states destroys the handshake
  (`ConnectResponseLosesHandshakeIff`); within one session that cannot happen (`NoHandshakeIsLost`).
- The handshake can be completed as long as the server runs, and the server does not outlive a caller that answers for
  a user twice or one ping without a readable index from any client that has identified (`CompletesIff`, `AliveIff`,
  `OneEventCutsOff`).
- An identity token handed out while another user has it locks a user out, at once or when a user is disconnected
  (`LocksOutIff`, `RepeatedTokenLocksOut`).
- A client that despawns a private entity of its own takes away only the entity's names: if it is still in a room,
  the room, its index and the scope-check cache keep it (`UnmappedAgreesIff`, `LeftBehindStaysCached`).
- Destroying a room drops its removal queue with it: users that shared it with an entity are not told to let go of the
  entity (`PartingIsOwedIff`, `DestroyedRoomOwesNothing`).
- Despawning a delegated entity leaves its authority registration behind (`DelegatedAndDespawned`). With keys never
  reused nothing breaks in the world server (`CallersNeverBreak`); republishing a delegated client entity, which would
  break, is a misuse of the component the world server never commits (`RepublishingBreaksDelegation`,
  `OnlyDespawningIsCareless`).
- Taking one entity from a user empties its whole list in `user_to_entity_map` (`ListsCompleteIff`), which is what a
  disconnect goes by: a user that held two, gave one back and left keeps the other from everyone
  (`LeavesNothingIff`, `LeavingKeepsTheOther`).
- A message of an ordered reliable channel that is dropped while it waits for entities blocks the channel as long as
  the indices are told apart (`CatchUpIff`, `OneDropSilences`); once 2^16 others have passed, the next message takes
  its place, as it does for one that still waits (`PlacedIff`, `HeldBackIsOvertaken`). A per-tick cap loses messages
  exactly when a batch exceeds it (`HandedOverIff`, `CappedChannelLoses`).
- New messages are never taken for old ones if and only if `max_queue_depth` is set and at most 32768
  (`NewArrivalsPassIff`); above it, or without it as for entity commands, a message can be dropped, acknowledged and so
  lost for good unless a copy of it is still under way (`DeepQueueLoses`, `NeverSentAgain`, `GoneForGood`).
- `KeyGenerator` panics with "all u16 keys are in use" while key 65535 is never issued (`LastKeyNeverIssued`).
- `time_since` is one millisecond short after a wrap (`TimeSinceExactIff`), and at exactly half a period each of two
  instants is later than the other (`BothLaterIff`).

## Assumptions

- Tick buffer: the configured capacities and the packet delay stay within half the range, the receivable tick does not
  run backward, a tick carries at most 256 messages (their index is a `u8`), and the payload codec reads back what it
  writes. Any tick may be pushed at any time within half the range of the buffered ones.
- Handshake: one session of the client, its user accepted once, its token not issued to anyone else; strangers may do
  anything but use its address or present its token. Tokens come from the environment. What makes the server panic ends
  it; of the world server's panics only the one on a ping is modelled.
- Reliable channel: any `max_queue_depth`, or none. The promises are about runs in which the residues tell the indices
  apart (`Told`, an explicit hypothesis). `StepIsIdealIff` says when a step does, `NearIsTold` gives a window that is
  enough, and `NotStaleIsTold` a wider one for a queue of at most 32768, which is where new arrivals cannot fail it.
- Key allocator: time does not run backward, and only keys in use are freed; without the latter the partition fails
  (`RecycleKeepsIff`, `FreeingTwiceIssuesTwice`).
- Clocks, random tokens, sockets and what the source computes in `f32` are parameters.

## Model

| member | source | states |
|---|---|---|
| `Wrapping.WrappingDiff` | shared/src/wrapping_number.rs:38-64 | `wrapping_diff` never reaches its panic; the result is the one `i16` that leads from `a` to `b` modulo 2^16 |
| `Wrapping.WindowOrder` | shared/src/wrapping_number.rs:5-23 | for unbounded ticks less than 32768 apart the wrapped comparison is integer order, and equal residues mean equal ticks |
| `Wrapping.WindowDiff` | shared/src/wrapping_number.rs:38-64 | `wrapping_diff` of two residues is the integer difference if and only if that difference lies in [-32768, 32767] |
| `Wrapping.GreaterByDistance` | shared/src/wrapping_number.rs:5-7 | the comparison in terms of the forward distance: 1 to 32767, or exactly 32768 with the larger raw value |
| `Wrapping.Trichotomy` | shared/src/wrapping_number.rs:5-7 | any two values are equal or ordered one way, never both |
| `Wrapping.OrderHasCycles` | shared/src/wrapping_number.rs:5-7 | the comparison is not transitive: 0 < 30000 < 60000 < 0 |
| `Wrapping.TransitiveIff` | shared/src/wrapping_number.rs:5-7 | chaining two comparisons is sound if and only if the two distances still add up inside the half range |
| `Wrapping.SignDisagreesIff` | shared/src/wrapping_number.rs:5-64 | `sequence_greater_than` and the sign of `wrapping_diff` disagree exactly at distance 32768, for the raw-larger operand |
| `BitCodec.LowPlusHigh` | shared/serde/src/number.rs:278-313 | cutting the low bits off a number and keeping the rest loses nothing |
| `BitCodec.ThresholdTest` | shared/serde/src/number.rs:278-313 | `value >= 1 << bits` tells exactly whether something is left above the chunk |
| `BitCodec.DecodeEncode` | shared/serde/src/number.rs:278-396 | decoding a variable-length number gives it back and leaves exactly the bits that followed it, for every number and chunk width |
| `BitCodec.PrefixFree` | shared/serde/src/number.rs:278-396 | no encoding is a proper prefix of another |
| `BitCodec.BitWriter.WriteBit` | shared/serde/src/bit_writer.rs:112-123 | appends one bit, or panics exactly when the writer is full |
| `BitCodec.BitWriter.WriteLowBits` | shared/serde/src/number.rs:278-313 | the inner writing loop appends the low bits, least significant first, and returns what is left above them; panics exactly when they do not fit |
| `BitCodec.BitWriter.WriteVariable` | shared/serde/src/number.rs:278-313 | the writing loop appends exactly the encoding of the number, or panics exactly when it does not fit |
| `BitCodec.BitReader.ReadBit` | shared/serde/src/bit_reader.rs:39-53 | takes one bit off the front or fails on an empty buffer |
| `BitCodec.BitReader.ReadLowBits` | shared/serde/src/number.rs:315-396 | the inner reading loop consumes one chunk and rebuilds its value, failing if and only if the buffer is too short |
| `BitCodec.BitReader.ReadVariable` | shared/serde/src/number.rs:315-396 | the accumulating reading loop computes the recursive decoding and leaves the same rest, errors included |
| `TickBufferWire.WriteGroup` | client/src/connection/channel_tick_buffer_sender.rs:128-165 | writes one tick: backward tick difference, message count, then the delta-encoded messages |
| `TickBufferWire.WriteMessageList` | client/src/connection/channel_tick_buffer_sender.rs:143-165 | the message loop writes index differences and payloads in order |
| `TickBufferWire.ReadBackMessages` | server/src/connection/tick_buffer_receiver_channel.rs:74-114 | reading undoes writing for the messages of one tick, whatever follows |
| `TickBufferWire.ReadBackGroup` | server/src/connection/tick_buffer_receiver_channel.rs:44-114 | reading one written group yields its tick and messages and continues with the rest |
| `TickBufferWire.ReadBack` | server/src/connection/tick_buffer_receiver_channel.rs:44-114 | reading a whole written list yields exactly the written (tick, index, payload) sequence and stops at the terminator, for any payload codec that can read back what it writes |
| `TickBufferSender.PushKeepsOrder` | client/src/connection/channel_tick_buffer_sender.rs:247-273 | pushing keeps the buffer strictly descending and within capacity |
| `TickBufferSender.OutgoingMessages.constructor` | client/src/connection/channel_tick_buffer_sender.rs:239-245 | an empty buffer with its capacity |
| `TickBufferSender.OutgoingMessages.Push` | client/src/connection/channel_tick_buffer_sender.rs:247-273 | push into the capped deque of `u16` ticks refines push into the log of unbounded ticks; the oldest tick is dropped at capacity |
| `TickBufferSender.OutgoingMessages.PopBackUntilExcluding` | client/src/connection/channel_tick_buffer_sender.rs:275-287 | popping from the back drops exactly the ticks at or before the bound |
| `TickBufferSender.OutgoingMessages.RemoveMessage` | client/src/connection/channel_tick_buffer_sender.rs:289-326 | the early-exit scan clears exactly the acknowledged (tick, index) slot, or nothing if the tick is gone |
| `TickBufferSender.ChannelTickBufferSender.CollectMessages` | client/src/connection/channel_tick_buffer_sender.rs:28-48 | drops what the server can no longer receive and appends every buffered tick, unless the newest one lies past the sending tick; then nothing |
| `TickBufferSender.ChannelTickBufferSender.SendMessage` | client/src/connection/channel_tick_buffer_sender.rs:50-52 | a sent message is pushed under the host tick |
| `TickBufferSender.ChannelTickBufferSender.NotifyMessageDelivered` | client/src/connection/channel_tick_buffer_sender.rs:167-169 | an acknowledgement clears its slot |
| `TickBufferSender.ChannelTickBufferSender.WriteMessages` | client/src/connection/channel_tick_buffer_sender.rs:60-124 | writes the groups that fit, returns the (tick, index) of every message written and leaves the other groups queued; ends in one of the two panics exactly where the specification says |
| `TickBufferSender.PackTakesMaximalPrefix` | client/src/connection/channel_tick_buffer_sender.rs:60-124 | a packet holds, encoded, the longest prefix of the queue that fits; the next group would not |
| `TickBufferSender.NegativeDiffIff` | client/src/connection/channel_tick_buffer_sender.rs:128-142 | the negative-number panic happens if and only if the packet gets as far as a group newer than the one before it |
| `TickBufferSender.TooBigIff` | client/src/connection/channel_tick_buffer_sender.rs:128-142 | the other panic happens if and only if nothing has been written and the first group does not fit |
| `TickBufferSender.ReceiptsAreArrivals` | client/src/connection/channel_tick_buffer_sender.rs:128-165 | what an acknowledgement of the packet will name is exactly what its receiver reads from it, in the same order |
| `TickBufferSender.DropKeepsLater` | client/src/connection/channel_tick_buffer_sender.rs:275-287 | dropping through a bound keeps exactly the later ticks |
| `TickBufferSender.UnacknowledgedSound` | client/src/connection/channel_tick_buffer_sender.rs:203-221 | the list for a tick names only unacknowledged slots, each with its own message |
| `TickBufferSender.UnacknowledgedComplete` | client/src/connection/channel_tick_buffer_sender.rs:203-221 | and every unacknowledged slot is in the list |
| `TickBufferSender.UnacknowledgedAscends` | client/src/connection/channel_tick_buffer_sender.rs:203-221 | its indices ascend, so the index difference never underflows |
| `TickBufferSender.FreshCollectChains` | client/src/connection/channel_tick_buffer_sender.rs:28-48 | one collect from an empty queue gives non-increasing ticks, so no difference in it is negative |
| `TickBufferSender.CarryOverIff` | client/src/connection/channel_tick_buffer_sender.rs:28-124 | collecting again while groups are left over keeps the queue writable if and only if no buffered tick is newer than the oldest left over |
| `TickBufferSender.RoomyPanicIff` | client/src/connection/channel_tick_buffer_sender.rs:60-142 | with room for the whole queue, writing it raises the negative-number panic exactly if some group is newer than the one before it, and writes all of it otherwise |
| `TickBufferReceiver.AcceptanceWindow` | server/src/connection/tick_buffer_receiver_channel.rs:148-153 | the two wrapped comparisons accept exactly the ticks strictly between host and host + capacity, for capacities up to half range |
| `TickBufferReceiver.AcceptanceExactIff` | server/src/connection/tick_buffer_receiver_channel.rs:148-153 | they do so for every host and tick if and only if the capacity is at most 32768 |
| `TickBufferReceiver.NextTickRefused` | server/src/connection/tick_buffer_receiver_channel.rs:148-153 | with a larger capacity the very next tick is refused: always above 32769, and at 32769 exactly for residues from 32768 on |
| `TickBufferReceiver.IncomingMessages.Insert` | server/src/connection/tick_buffer_receiver_channel.rs:136-210 | the scan from the back refines insertion into a plain map tick, index to message: sorted, first copy wins, and the result says whether it was new |
| `TickBufferReceiver.InsertedExact` | server/src/connection/tick_buffer_receiver_channel.rs:136-210 | after an insert a message waits exactly if it did before or is the one inserted and within reach; none is replaced, and the answer is true exactly for what is new |
| `TickBufferReceiver.IncomingMessages.InsertAt` | server/src/connection/tick_buffer_receiver_channel.rs:185-205 | a new tick goes where the deque stays strictly ascending |
| `TickBufferReceiver.IncomingMessages.AddTo` | server/src/connection/tick_buffer_receiver_channel.rs:172-184 | a known tick gets one more index |
| `TickBufferReceiver.IncomingMessages.PruneOutdated` | server/src/connection/tick_buffer_receiver_channel.rs:213-227 | pops exactly the ticks before the host tick |
| `TickBufferReceiver.IncomingMessages.PopFront` | server/src/connection/tick_buffer_receiver_channel.rs:213-250 | the front slot is the earliest pending tick |
| `TickBufferReceiver.IncomingMessages.Collect` | server/src/connection/tick_buffer_receiver_channel.rs:230-250 | returns exactly the messages pending for the host tick, each once, and leaves only later ticks |
| `TickBufferReceiver.Drain` | server/src/connection/tick_buffer_receiver_channel.rs:230-250 | draining the index map lists every message exactly once |
| `TickBufferReceiver.BufferBound` | server/src/connection/tick_buffer_receiver_channel.rs:136-250 | after a collect the deque holds at most capacity - 1 ticks |
| `TickBufferReceiver.TickBufferReceiverChannel.ReadList` | server/src/connection/tick_buffer_receiver_channel.rs:74-114 | messages are inserted one by one as they decode; after an error the earlier ones stay |
| `TickBufferReceiver.TickBufferReceiverChannel.ReadMessages` | server/src/connection/tick_buffer_receiver_channel.rs:44-114 | reading a packet decodes the list and inserts its arrivals in order, errors included |
| `TickBufferReceiver.ArriveConcat` | server/src/connection/tick_buffer_receiver_channel.rs:44-114 | inserting a sequence of arrivals is inserting its parts in turn |
| `TickBufferChannel.PushStep` | client/src/connection/channel_tick_buffer_sender.rs:247-273 | any push: one that can still reach the server gets a (tick, index) never used before; the others leave the history as it is |
| `TickBufferChannel.CollectedGroups` | client/src/connection/channel_tick_buffer_sender.rs:28-48 | the queue of the object is the wrapped form of the batches collected in the run |
| `TickBufferChannel.RunKeeps` | server/src/connection/tick_buffer_receiver_channel.rs:44-250 | the joint invariant of client buffer, packets in flight and server buffer holds over every run with loss, copies and reordering |
| `TickBufferChannel.DeliveredOnceAtItsTick` | server/src/connection/tick_buffer_receiver_channel.rs:136-250 | in every run each (tick, index) is delivered at most once, exactly when the host reaches that tick, with the payload the client pushed under it |
| `TickBufferChannel.AcceptedIsDelivered` | server/src/connection/tick_buffer_receiver_channel.rs:136-250 | a message that an insert answered with true is delivered once its tick is collected |
| `TickBufferChannel.ArrivedExactly` | server/src/connection/tick_buffer_receiver_channel.rs:74-210 | after the arrivals of a packet exactly what waited and what they bring within reach waits; those answered with true are what is new |
| `TickBufferChannel.AcceptedIff` | server/src/connection/tick_buffer_receiver_channel.rs:136-210 | in every run a message has been accepted if and only if some packet that lists it arrived while its tick was still to come and within reach |
| `TickBufferChannel.DeliveredIff` | server/src/connection/tick_buffer_receiver_channel.rs:44-250 | in every run, once the server has collected at a tick, a message was delivered for it if and only if some packet that lists it arrived in time |
| `TickBufferChannel.PushRecorded` | client/src/connection/channel_tick_buffer_sender.rs:247-273 | whether a push counts, and the index it gets, in terms of the pushes before it |
| `TickBufferChannel.BufferedIff` | client/src/connection/channel_tick_buffer_sender.rs:247-285 | a pushed message is still buffered if and only if fewer than `capacity` newer ticks have been pushed |
| `TickBufferChannel.CollectsExactly` | client/src/connection/channel_tick_buffer_sender.rs:28-48 | in every run a collect lists a message if and only if it was pushed in time, is not acknowledged, its tick is past the receivable one and fewer than `capacity` newer ticks have been pushed |
| `TickBufferChannel.AcknowledgedIsNeverCollected` | client/src/connection/channel_tick_buffer_sender.rs:28-48 | an acknowledged message never enters the queue again |
| `TickBufferChannel.CollectListsUnacknowledged` | client/src/connection/channel_tick_buffer_sender.rs:28-48 | a collect lists exactly the messages whose tick is still buffered and later than the receivable tick and that are not acknowledged |
| `TickBufferChannel.ReceiverPreconditionsHold` | server/src/connection/tick_buffer_receiver_channel.rs:136-250 | in every reachable state the window the server methods rely on holds |
| `TickBufferChannel.SecondCollectPanicsIff` | client/src/connection/channel_tick_buffer_sender.rs:28-142 | after collects from an empty queue and packets that left groups over, one more collect makes the next roomy write panic if and only if it lists a tick newer than the oldest group left over |
| `TickBufferChannel.CarryOverPanics` | client/src/connection/channel_tick_buffer_sender.rs:28-142 | a run that gets there: two ticks buffered and collected, a packet with room for one, and a second collect |
| `ServerHandshake.HandshakeManager.AuthenticateUser` | server/src/handshake/simple_handshaker.rs:23-28 | records the token both ways |
| `ServerHandshake.HandshakeManager.DeleteUser` | server/src/handshake/simple_handshaker.rs:31-39 | forgets the user in all three maps |
| `ServerHandshake.HandshakeManager.MaintainHandshake` | server/src/handshake/simple_handshaker.rs:41-114 | the whole dispatch on a handshake packet: identify, reject, disconnect, forward or ignore |
| `ServerHandshake.HandshakeManager.VerifyDisconnectRequest` | server/src/handshake/simple_handshaker.rs:162-180 | a disconnect is honoured only from the address of the user that owns the token |
| `MainServers.MainServer.AcceptConnection` | server/src/server/main_server.rs:133-156 | takes the auth address once, issues the token and registers it |
| `MainServers.MainServer.RejectConnection` | server/src/server/main_server.rs:160-179 | answers the request and deletes the user |
| `MainServers.MainServer.FinalizeConnection` | server/src/server/main_server.rs:181-191 | sets the data address and the connection, and announces the user |
| `MainServers.MainServer.UserDelete` | server/src/server/main_server.rs:270-284 | removes the user, its connection and its handshake entries |
| `MainServers.MainServer.ReceiveAuthRequest` | server/src/server/main_server.rs:291-322 | creates a user under a new key, or ignores an unreadable request |
| `MainServers.MainServer.ReceiveSocketPacket` | server/src/server/main_server.rs:335-413 | routes one packet: world data, connected users, handshakes |
| `MainServers.MainServer.MaintainSocket` | server/src/server/main_server.rs:289-449 | drains auths, then packets, then deletes the users whose pending authentication timed out |
| `MainServers.MainServer.DrainAuths` | server/src/server/main_server.rs:291-332 | the auth loop handles every request in order up to the first panic |
| `MainServers.MainServer.DrainPackets` | server/src/server/main_server.rs:335-423 | the packet loop handles every packet in order up to the first panic |
| `MainServers.MainServer.DropTimedOut` | server/src/server/main_server.rs:425-448 | visiting the timed-out users in any order removes exactly those |
| `MainServers.PacketKeeps` | server/src/server/main_server.rs:335-413 | no packet, whatever it claims, reaches the "shouldn't be possible" panic or finalises an unknown user |
| `MainServers.PanicsExactlyWhen` | server/src/server/main_server.rs:133-284 | the exact condition, visible to the caller, under which each call panics |
| `MainServers.MaintainedIsRun` | server/src/server/main_server.rs:289-449 | handling all a socket holds is a run of the events in it: every auth request, every packet, then the timeouts |
| `UserPhases.HearsAlike` | server/src/server/main_server.rs:334-404 | a packet does to the tables, the events and the replies what it does to one map from users to phases |
| `UserPhases.AdvanceAlike` | server/src/server/main_server.rs:133-449 | so does every call and event, panics included, as long as no two users share a token |
| `UserPhases.EveryRunIsTheBook` | server/src/server/main_server.rs:133-449 | in every run in which no token is handed out while in use, the five tables are that one map, and the events reported are its events |
| `UserPhases.DisconnectQueuedIff` | server/src/handshake/simple_handshaker.rs:160-180 | a packet queues the disconnect of a user if and only if it comes from the user's address and carries the user's token |
| `UserPhases.StaysIff` | server/src/server/main_server.rs:133-284 | a user is there after an event if and only if it was and was not rejected, disconnected, timed out before identifying or reset, or has just asked to be let in; the connections of all others stay |
| `MainServers.TimeoutStep` | server/src/server/main_server.rs:425-448 | deleting one more timed-out user extends deleting a set of them |
| `MainServers.AnnouncesFresh` | server/src/server/main_server.rs:181-191 | a step announces at most one user, never one announced before |
| `MainServers.EveryRunAgrees` | server/src/server/main_server.rs:133-449 | in every run: `user_connections[a] = u` iff u exists with data address a, it equals the identified map, every waiting token belongs to an existing unidentified user and is the one recorded, no user is announced twice, the unknown-user warning never appears |
| `MainServers.FreshTokensStayUsable` | server/src/server/main_server.rs:133-156 | if tokens never repeat, every accepted user that has not identified can still do so |
| `MainServers.AcceptUsableIff` | server/src/server/main_server.rs:133-156 | accepting a user keeps all tokens distinct and every accepted user able to identify if and only if the token is not in use |
| `MainServers.LocksOutIff` | server/src/server/main_server.rs:133-156 | after accepting a user, every accepted user can identify, now and after any one disconnection, if and only if the token was not in use |
| `MainServers.UsableStepIff` | server/src/server/main_server.rs:133-449 | the same for every event: the one way to lose it is handing out a token in use |
| `MainServers.UnusedTokensStayUsable` | server/src/server/main_server.rs:133-156 | in every run that hands out no token in use no accepted user is ever locked out |
| `MainServers.RepeatedTokenLocksOut` | server/src/handshake/simple_handshaker.rs:23-28 | a repeated token locks the earlier user out |
| `ClientHandshake.HandshakeManager.Send` | client/src/handshake/simple_handshaker.rs:60-89 | what is sent in each state when the timer rings |
| `ClientHandshake.HandshakeManager.Recv` | client/src/handshake/simple_handshaker.rs:92-150 | the client state machine on every packet, unreadable ones included |
| `ClientHandshake.HandshakeManager.RecvIdentifyResponse` | client/src/handshake/simple_handshaker.rs:197-204 | starts time synchronisation only from the first state |
| `ClientHandshake.HandshakeManager.RecvConnectResponse` | client/src/handshake/simple_handshaker.rs:216-224 | replaces the state first, and hands out the clock only if it was waiting |
| `ClientHandshake.StandsWhereReached` | client/src/handshake/handshake_time_manager.rs:39-63 | whatever arrives but a connect response: the client waits for the identify response, then for as many samples as it needs, and keeps the first of them in order |
| `ClientHandshake.JoinsWithItsSamples` | client/src/handshake/simple_handshaker.rs:216-224 | the first connect response reports a connection if and only if the samples are there, with exactly the first of them; none does so later |
| `ClientHandshake.ReportsExactly` | client/src/handshake/simple_handshaker.rs:92-150 | a rejection is reported exactly when one comes, a connection only on a connect response |
| `ClientHandshake.ConnectedIsFinal` | client/src/handshake/simple_handshaker.rs:60-150 | once connected no packet sequence changes the state or reports another connection |
| `ClientHandshake.ConnectResponseLosesHandshakeIff` | client/src/handshake/simple_handshaker.rs:216-224 | a connect response destroys an unfinished handshake if and only if it comes in one of the two earlier states |
| `ClientHandshake.LeftOverResponseStrands` | client/src/handshake/simple_handshaker.rs:216-224 | a response left over from an earlier session strands a new one for good |
| `HandshakeProtocol.StepKeeps` | client/src/handshake/simple_handshaker.rs:92-150 | one step of client, network, main server, world server or a stranger, a server panic included, keeps the joint invariant and never lowers the client state |
| `HandshakeProtocol.RunKeeps` | server/src/handshake/simple_handshaker.rs:41-114 | the invariant over client state, packets in flight and all server maps holds over every run with loss, copies and reordering, whether or not the server survives it |
| `HandshakeProtocol.NoHandshakeIsLost` | client/src/handshake/simple_handshaker.rs:197-224 | a connect response in flight means the client already waits for it, so the replacing branch never destroys an earlier state and Connected is entered only from waiting |
| `HandshakeProtocol.NeverRejected` | server/src/handshake/simple_handshaker.rs:41-93 | in every run no rejection of the session is ever sent |
| `HandshakeProtocol.OnlyItsTokenDisconnects` | server/src/handshake/simple_handshaker.rs:160-180 | in every run a packet queues the disconnect of the session if and only if it comes from its address and carries its token |
| `HandshakeProtocol.ConnectedMeansAgreed` | server/src/server/world_server.rs:255-304 | a connected client has its user, address and live connection on the server; no other address is connected for that user and no other user has its token |
| `HandshakeProtocol.RoutesIff` | server/src/server/main_server.rs:334-360 | the main server passes a packet that is no handshake on to the world server if and only if its address has identified |
| `HandshakeProtocol.DiesIff` | server/src/server/world_server.rs:354-356 | a running server panics if and only if a caller answers for a user a second time or disconnects an unknown one, the user keys have run out, or a ping without a readable index comes from an address that has identified |
| `HandshakeProtocol.AliveIff` | server/src/time_manager.rs:107-111 | after every run the server is still there if and only if none of that has happened |
| `HandshakeProtocol.CanFinish` | client/src/handshake/simple_handshaker.rs:60-150 | with the server running, the client connected or a connect response in flight, some continuation of packets sent, carried and answered, pings and pongs included, connects the client |
| `HandshakeProtocol.NeverStuck` | server/src/server/world_server.rs:354-411 | after every run that ends so, such a continuation exists |
| `HandshakeProtocol.ClosedForGood` | client/src/handshake/simple_handshaker.rs:197-224 | with the server gone, the client not connected and no connect response in flight, nothing whatsoever connects it any more |
| `HandshakeProtocol.CompletesIff` | server/src/server/world_server.rs:354-411 | after every run some continuation connects the client if and only if the server runs, the client is connected or a connect response is in flight |
| `HandshakeProtocol.OneEventCutsOff` | server/src/server/world_server.rs:354-356 | runs that are stuck: the caller accepts the session's user again, or another identified client sends one unreadable ping |
| `Rooms.UserAddedKeeps` | server/src/server/room_store.rs:118-147 | adding a user keeps cache and indexes in agreement |
| `Rooms.UserRemovedKeeps` | server/src/server/room_store.rs:152-167 | removing a user keeps them in agreement |
| `Rooms.EntityAddedKeeps` | server/src/server/room_store.rs:198-223 | adding an entity keeps them in agreement |
| `Rooms.EntityRemovedKeeps` | server/src/server/room_store.rs:227-241 | removing an entity keeps them in agreement, and panics exactly if the room does not hold it |
| `Rooms.DestroyedKeeps` | server/src/server/room_store.rs:173-194 | destroying a room keeps them in agreement |
| `Rooms.UserDeletedKeeps` | server/src/server/world_server.rs:2741-2778 | deleting a user finds every cached room and panics exactly for an unknown user |
| `Rooms.DespawnedKeeps` | server/src/server/world_server.rs:1896-1941 | despawning never panics in a room: the rooms listed for the entity are exactly those that hold it |
| `Rooms.UnmappedAgreesIff` | server/src/server/world_server.rs:3214-3218 | despawning a private client entity, which takes away only its names, keeps the agreement if and only if the entity is in no room |
| `Rooms.ApplyKeepsIff` | server/src/server/room_store.rs:118-257 | every operation keeps the agreement, except exactly such a despawn of an entity still in a room |
| `Rooms.IndexesAgree` | server/src/server/room_store.rs:118-257 | after any sequence of operations without such a despawn the cached tuples are exactly the recomputed product, `entity_room_map` and `rooms_cache` are exact inverses of the rooms, and no empty set is stored |
| `Rooms.LeftBehindStaysCached` | server/src/server/world_server.rs:3214-3218 | after one the cache holds a scope check for an entity that no longer exists, for every user and room it was with |
| `Rooms.LeftBehindExample` | server/src/server/world_server.rs:3214-3218 | a run that reaches a state where this happens |
| `Rooms.PanicsOnlyOnBadArguments` | server/src/server/room_store.rs:118-257 | after any such sequence the next operation panics only on an argument the caller could have checked |
| `RoomHistories.FactAfter` | server/src/server/room_store.rs:118-257 | exactly which operation makes, and which ends, each of: a room exists, a user is known, a user or an entity is in a room, an entity has its name, a removal is owed, a scope check is pending |
| `RoomHistories.FactIsLastWord` | server/src/server/room_store.rs:118-257 | in every run each of these holds if and only if some operation made it so and no later one put an end to it |
| `RoomHistories.CheckIsLastWord` | server/src/server/room_store.rs:118-257 | in every run a scope check is cached if and only if the last words put its user and its entity into its room |
| `RoomHistories.RoomsAreNumbered` | server/src/server/world_server.rs:1717-1721 | room keys count the rooms made so far |
| `RoomHistories.PartingIsOwedIff` | server/src/room.rs:53-93 | when a user and an entity part in a room, the room owes the user the removal if and only if it is neither the room that is destroyed nor the entity that is despawned |
| `RoomHistories.DestroyedRoomOwesNothing` | server/src/server/room_store.rs:173-194 | a run in which a room is destroyed and no removal is left for a user that shared it with an entity |
| `RoomStores.Room.SubscribeUser` | server/src/room.rs:50-52 | adds the user, queues nothing |
| `RoomStores.Room.UnsubscribeUser` | server/src/room.rs:54-59 | queues a removal for every entity of the room |
| `RoomStores.Room.AddEntity` | server/src/room.rs:71-73 | adds the entity, queues nothing |
| `RoomStores.Room.RemoveEntity` | server/src/room.rs:75-91 | queues a removal for every user unless despawned; panics exactly if absent; no departed pair is ever lost from queue or hand-out |
| `RoomStores.Room.PopEntityRemovalQueue` | server/src/room.rs:101-103 | hands out the oldest removal |
| `RoomStores.EntityRoomMap.EntityAddRoom` | server/src/world/entity_room_map.rs:22-28 | adds the room to the entity |
| `RoomStores.EntityRoomMap.RemoveFromRoom` | server/src/world/entity_room_map.rs:30-41 | removes the room and drops an empty set |
| `RoomStores.EntityRoomMap.RemoveFromAllRooms` | server/src/world/entity_room_map.rs:43-57 | drops the entity and returns each of its rooms exactly once |
| `RoomStores.ScopeChecksCache.MarkPendingHandled` | server/src/server/scope_checks_cache.rs:42-47 | clears pending; all present tuples count as handled |
| `RoomStores.ScopeChecksCache.MarkAllPending` | server/src/server/scope_checks_cache.rs:49-51 | every tuple is pending again |
| `RoomStores.ScopeChecksCache.OnUserAddedToRoom` | server/src/server/scope_checks_cache.rs:53-63 | adds the new tuples to both vectors |
| `RoomStores.ScopeChecksCache.OnUserRemovedFromRoom` | server/src/server/scope_checks_cache.rs:65-70 | drops exactly the tuples of that user in that room |
| `RoomStores.ScopeChecksCache.OnEntityAddedToRoom` | server/src/server/scope_checks_cache.rs:72-82 | adds the new tuples to both vectors |
| `RoomStores.ScopeChecksCache.OnEntityRemovedFromRoom` | server/src/server/scope_checks_cache.rs:84-89 | drops exactly the tuples of that entity in that room |
| `RoomStores.ScopeChecksCache.OnEntityDespawned` | server/src/server/scope_checks_cache.rs:94-97 | drops exactly the tuples of that entity |
| `RoomStores.ScopeChecksCache.OnRoomDestroyed` | server/src/server/scope_checks_cache.rs:99-102 | drops exactly the tuples of that room |
| `RoomStores.ScopeChecksCache.Retain` | server/src/server/scope_checks_cache.rs:65-102 | filtering keeps: pending is part of the tuples and every tuple is pending or has been there since the last handled mark |
| `RoomStores.RoomStore.CreateRoom` | server/src/server/world_server.rs:1717-1721 | a fresh key and an empty room |
| `RoomStores.DrainRemovals` | server/src/server/world_server.rs:3338-3341 | hands out the whole queue of a room, oldest first, and with it everything owed |
| `RoomStores.RoomStore.HandOutRemovals` | server/src/server/world_server.rs:3335-3378 | every room hands out what it owes |
| `RoomStores.RoomStore.AddUser` | server/src/server/room_store.rs:118-147 | the step-by-step update does what the value model says to rooms, users and cache |
| `RoomStores.RoomStore.RemoveUser` | server/src/server/room_store.rs:152-167 | removes the user from room, cache of rooms, tuples and pending checks and queues the removals it is owed, as the value model says |
| `RoomStores.RoomStore.AddEntity` | server/src/server/room_store.rs:198-223 | adds the entity to room, entity index and tuples, as the value model says; fails exactly for an unknown entity |
| `RoomStores.RoomStore.RemoveEntity` | server/src/server/room_store.rs:227-241 | removes the entity from room, entity index, tuples and pending checks and queues its removal for everyone in the room; panics exactly where the value model does |
| `RoomStores.RoomStore.RemoveAllEntities` | server/src/server/room_store.rs:245-257 | empties the room and the index entries, no removal panics |
| `RoomStores.RoomStore.Destroy` | server/src/server/room_store.rs:173-194 | members forget the room, its entities leave the index, its tuples go; says whether the room existed |
| `RoomStores.RoomStore.DeleteUser` | server/src/server/world_server.rs:2741-2778 | the user leaves every cached room, which queue its removals, and the store |
| `RoomStores.RoomStore.DespawnEntity` | server/src/server/world_server.rs:1896-1941 | the entity leaves every room listed for it, the index and the cache; no removal is queued |
| `Authority.CallKeeps` | server/src/world/global_world_manager.rs:206-394 | every call keeps the agreement; the one inconsistency panic is delegating an entity that is public and still registered |
| `Authority.GuardedCallsAreDelegated` | server/src/world/global_world_manager.rs:346-394 | a call that passes the delegation guard is never told NotDelegated by the inner layer |
| `Authority.EveryRunAgrees` | server/src/world/server_auth_handler.rs:47-221 | in every run the status is Granted iff the server holds, Denied iff a client holds, Available iff nobody does, and a delegated record is registered |
| `Authority.HoldEndsExactlyBy` | server/src/world/server_auth_handler.rs:109-198 | a client stops holding an entity if and only if it releases it, or the server releases, takes, gives it elsewhere or disables delegation |
| `DelegatedEntities.CallShown` | server/src/world/global_world_manager.rs:206-394 | every call does to an entity's record, holder, status and reply what a small machine of its own does, and panics exactly when that does |
| `DelegatedEntities.OthersUntouched` | server/src/world/global_world_manager.rs:206-394 | a call leaves every other entity's record and holder alone |
| `DelegatedEntities.EveryEntityRunsAlone` | server/src/world/global_world_manager.rs:206-394 | in every run an entity's record and holder are what the calls that name it make of them |
| `DelegatedEntities.BecomesHolderIff` | server/src/world/server_auth_handler.rs:73-198 | exactly which call makes whom the holder: a request for a free entity, a gift, a take |
| `DelegatedEntities.HandedOver` | server/src/server/world_server.rs:2375-2575 | delegating a client's entity ends with the server owning it and, if it was in scope, the client holding it |
| `Authority.TidyIff` | server/src/world/global_world_manager.rs:206-337 | registration and delegation stay equivalent if and only if no delegated entity is republished, unpublished or removed |
| `Authority.CarefulRunsNeverBreak` | server/src/world/global_world_manager.rs:206-394 | runs without such calls never reach an inconsistency panic |
| `Authority.RepublishingBreaksDelegation` | server/src/world/global_world_manager.rs:206-313 | misuse of the component: a delegated entity published again as a client entity cannot be delegated again |
| `Authority.CallersNeverBreak` | server/src/server/world_server.rs:2363-2575 | in every run of the world server, which hands an entity to the server before delegating it and never reuses a key, no call breaks, every delegated entity is the server's, and a registration is left behind exactly for each entity despawned while delegated |
| `Authority.OnlyDespawningIsCareless` | server/src/world/global_world_manager.rs:206-253 | there publishing a delegated entity changes nothing and unpublishing it is refused |
| `Authority.DespawnLeaksRegistration` | server/src/server/world_server.rs:1896-1921 | despawning a delegated entity leaves its registration without a record |
| `Authority.DelegatedAndDespawned` | server/src/server/world_server.rs:1896-1921 | a run that does: spawn, delegate, despawn |
| `Authority.ListsSoundIff` | server/src/world/server_auth_handler.rs:53-56 | each call keeps every listed entity owned by its user, except exactly disabling delegation of a listed one |
| `Authority.ListsStaySound` | server/src/world/server_auth_handler.rs:47-221 | so in every run without such a call every listed entity is owned by that user |
| `Authority.ListsCompleteIff` | server/src/world/server_auth_handler.rs:109-221 | each call keeps every held entity listed, except exactly one that takes an entity, by release, gift or take, from a user that holds another |
| `Authority.ListsStayComplete` | server/src/world/server_auth_handler.rs:47-221 | so in every run without such a call every held entity is listed |
| `Authority.ReleasingOneUnlistsTheOther` | server/src/world/server_auth_handler.rs:200-221 | a client holding two entities that releases one is listed with none |
| `Authority.LeavingReleases` | server/src/server/world_server.rs:2695-2714 | a leaving user, releasing entities in any order, stops holding exactly those among them that are still delegated |
| `Authority.LeavesNothingIff` | server/src/server/world_server.rs:2695-2714 | after releasing all that was listed for it, in any order, a leaving user holds nothing if and only if everything it held was listed and still has its record |
| `Authority.LeavingKeepsTheOther` | server/src/server/world_server.rs:2695-2714 | a run in which a client takes two entities, returns one and leaves: it still holds the other, and any other client that asks for it is told it is not available |
| `Authority.HostAuthHandler.RegisterEntity` | shared/src/world/delegation/host_auth_handler.rs:31-47 | a new entity starts Available; a known one panics |
| `Authority.HostAuthHandler.SetAuthStatus` | shared/src/world/delegation/host_auth_handler.rs:73-82 | sets the status or panics for an unknown entity |
| `Authority.ServerAuthHandler.RegisterEntity` | server/src/world/server_auth_handler.rs:47-51 | registers with the status handler and without a holder |
| `Authority.ServerAuthHandler.DeregisterEntity` | server/src/world/server_auth_handler.rs:53-56 | drops status and holder and leaves the per-user lists as they are |
| `Authority.ServerAuthHandler.ClientRequestAuthority` | server/src/world/server_auth_handler.rs:74-107 | grants a free entity, refuses a held or unknown one |
| `Authority.ServerAuthHandler.ClientReleaseAuthority` | server/src/world/server_auth_handler.rs:109-133 | releases for the holder or the server, refuses anyone else |
| `Authority.ServerAuthHandler.ServerGiveAuthorityToClient` | server/src/world/server_auth_handler.rs:146-176 | moves the hold to a client and reports the former holder |
| `Authority.ServerAuthHandler.ServerTakeAuthority` | server/src/world/server_auth_handler.rs:178-198 | moves the hold to the server and reports the former holder |
| `Authority.ServerAuthHandler.ReleaseAllAuthority` | server/src/world/server_auth_handler.rs:200-221 | drops the former holder's whole list and makes the entity Available |
| `Authority.GlobalWorldManager.InsertEntityRecord` | server/src/world/global_world_manager.rs:53-64 | a new record with the publicity its owner implies |
| `Authority.GlobalWorldManager.RemoveEntityRecord` | server/src/world/global_world_manager.rs:95-100 | removes the record and nothing else |
| `Authority.GlobalWorldManager.EntityPublish` | server/src/world/global_world_manager.rs:206-241 | publishes a client entity; the other owners panic or are refused |
| `Authority.GlobalWorldManager.EntityUnpublish` | server/src/world/global_world_manager.rs:243-253 | only a public client entity goes back to private |
| `Authority.GlobalWorldManager.EntityEnableDelegation` | server/src/world/global_world_manager.rs:303-313 | only a public record; registers it |
| `Authority.GlobalWorldManager.MigrateEntityToServer` | server/src/world/global_world_manager.rs:315-325 | hands a client record to the server |
| `Authority.GlobalWorldManager.EntityDisableDelegation` | server/src/world/global_world_manager.rs:327-337 | only a delegated record; deregisters it |
| `Authority.GlobalWorldManager.RequestAuthority` | server/src/world/global_world_manager.rs:356-370 | an undelegated entity is refused; otherwise the request of the inner layer |
| `Authority.GlobalWorldManager.ReleaseAuthority` | server/src/world/global_world_manager.rs:384-394 | an undelegated entity is refused; otherwise the release of the inner layer |
| `Authority.GlobalWorldManager.GiveAuthority` | server/src/world/global_world_manager.rs:372-382 | an undelegated entity is refused; otherwise the gift of the inner layer |
| `Authority.GlobalWorldManager.TakeAuthority` | server/src/world/global_world_manager.rs:346-354 | an undelegated entity is refused; otherwise the take of the inner layer |
| `EntityScope.LookupIsLastWord` | server/src/world/entity_scope_map.rs:22-72 | over every sequence of changes a pair has a setting iff the last change that concerns it inserted one, and it is that one |
| `EntityScope.EntityScopeMap.InsertSetting` | server/src/world/entity_scope_map.rs:28-46 | refines insertion into a plain map; the three maps keep holding the same pairs |
| `EntityScope.EntityScopeMap.RemoveUserSettings` | server/src/world/entity_scope_map.rs:48-59 | the loop removes exactly the user's pairs from all three maps |
| `EntityScope.EntityScopeMap.RemoveEntitySettings` | server/src/world/entity_scope_map.rs:61-72 | the loop removes exactly the entity's pairs from all three maps |
| `SequenceLists.Slot` | shared/src/sequence_list.rs:67-88 | where the backward scan stops: just after the last entry not later than the id |
| `SequenceLists.FoundAtSlot` | shared/src/sequence_list.rs:20-65 | in a sorted list the early-exit scan agrees with an unordered search |
| `SequenceLists.InsertKeepsSortedIff` | shared/src/sequence_list.rs:67-88 | an insertion leaves the list sorted if and only if no entry before an earlier one is later than the new id |
| `SequenceLists.WideSpreadLosesEntries` | shared/src/sequence_list.rs:20-88 | ids spread over more than half the range unsort the list and the scan misses an entry |
| `SequenceLists.SequenceList.PopFront` | shared/src/sequence_list.rs:16-18 | takes the first entry, panics when empty |
| `SequenceLists.SequenceList.ContainsScanFromBack` | shared/src/sequence_list.rs:20-39 | tells membership in a sorted list |
| `SequenceLists.SequenceList.GetMutScanFromBack` | shared/src/sequence_list.rs:41-65 | hands out the only entry with that id, or none if there is none |
| `SequenceLists.SequenceList.InsertScanFromBack` | shared/src/sequence_list.rs:67-88 | inserts at the scan's stop; panics exactly on a duplicate when sorted; stays sorted exactly under the condition above |
| `SequenceLists.SequenceList.RemoveScanFromFront` | shared/src/sequence_list.rs:90-110 | removes the entry with that id if there is one, and keeps the order |
| `SequenceLists.EveryRunShowsPlainMap` | shared/src/sequence_list.rs:16-110 | over every run whose ids stay within half range of those present the list is a plain map of unbounded ids, in ascending order |
| `SequenceLists.PanicsOnlyOnMisuse` | shared/src/sequence_list.rs:16-110 | and panics if and only if an id present is inserted or an empty list is popped |
| `CommandHistories.PrunesExactlyIff` | client/src/command_history.rs:47-60 | pruning from the front leaves exactly the entries later than the start tick if and only if none of them precedes one that is not |
| `CommandHistories.CommandHistory.Insert` | client/src/command_history.rs:36-45 | appends, or panics exactly when it may not |
| `CommandHistories.CommandHistory.RemoveToAndIncluding` | client/src/command_history.rs:47-60 | the pruning loop |
| `CommandHistories.CommandHistory.Replays` | client/src/command_history.rs:20-32 | returns what stays, in order, under the exact condition above everything later |
| `CommandHistories.EveryRunShowsKept` | client/src/command_history.rs:20-60 | over every windowed run the buffer is the commands inserted and not yet covered by a replay, in order of their unbounded ticks |
| `CommandHistories.PanicsIffNotLater` | client/src/command_history.rs:36-45 | in such a run an insertion panics if and only if it is not later than the last kept command |
| `CommandHistories.ReplaysAreTheLaterOnes` | client/src/command_history.rs:20-32 | in such a run a replay hands out exactly the kept commands after its start tick |
| `TickQueues.WindowPreorder` | client/src/connection/tick_queue.rs:59-70 | within half a range of a base tick the reversed comparison is a total preorder, by distance from the base |
| `TickQueues.WideSpreadHasNoGreatest` | client/src/connection/tick_queue.rs:59-70 | outside it there may be no greatest item |
| `TickQueues.GreatestExists` | client/src/connection/tick_queue.rs:24-43 | within it the heap has a root |
| `TickQueues.NoneDue` | client/src/connection/tick_queue.rs:25-33 | if the root is not due, nothing is |
| `TickQueues.TickQueue.AddItem` | client/src/connection/tick_queue.rs:20-22 | adds one item, loses none |
| `TickQueues.TickQueue.Peek` | client/src/connection/tick_queue.rs:25-33 | some item, absent only from an empty queue, and a greatest one within a half-range window |
| `TickQueues.TickQueue.PopItem` | client/src/connection/tick_queue.rs:36-43 | pops a due item; within the window a first one, and it refuses only when none is due |
| `TickQueues.TickQueue.ReadBufferedPackets` | client/src/connection/connection.rs:114-152 | the draining loop pops due items only and stops at the first that fails to parse; read and left together are what was there; if the ticks lie within half the range it reads in non-decreasing order, before anything left, and unless a packet fails nothing due is left |
| `KeyGenerators.IssueIsFresh` | shared/src/key_generator.rs:26-51 | an issued key was not in use; a new one is minted if and only if no freed key is eligible |
| `KeyGenerators.IssuesTheOldest` | shared/src/key_generator.rs:26-51 | if any freed key has waited out the timeout the one freed first is issued, otherwise a new one while there are any |
| `KeyGenerators.RecycleKeepsIff` | shared/src/key_generator.rs:54-57 | freeing a key keeps the partition into live and waiting keys if and only if the key was live |
| `KeyGenerators.EveryRunPartitions` | shared/src/key_generator.rs:26-57 | in every run that frees only live keys each key below the counter is live or waits at exactly one place |
| `KeyGenerators.NeverIssuedWhileInUse` | shared/src/key_generator.rs:26-57 | between two issues of a key lies a freeing of it |
| `KeyGenerators.NeverReissuedEarly` | shared/src/key_generator.rs:26-57 | a key is issued again only after the timeout has passed since every earlier freeing |
| `KeyGenerators.LastKeyNeverIssued` | shared/src/key_generator.rs:47-50 | in such a run key 65535 is never issued: the counter overflows one key early |
| `KeyGenerators.FreeingTwiceIssuesTwice` | shared/src/key_generator.rs:26-57 | a key freed twice is handed out twice |
| `KeyGenerators.KeyGenerator.MoveRecycled` | shared/src/key_generator.rs:29-39 | the moving loop leaves the two queues end to end as they were and stops at a key that must still wait |
| `KeyGenerators.KeyGenerator.GenerateKey` | shared/src/key_generator.rs:26-51 | two queues and a counter answer as one first-in first-out queue with a timeout does |
| `KeyGenerators.KeyGenerator.RecycleKey` | shared/src/key_generator.rs:54-57 | appends to that queue |
| `GameTime.OffsetFrom` | shared/src/game_time.rs:45-71 | never panics; the one offset in [-2^21, 2^21 - 1] that leads to the other instant |
| `GameTime.SubIsModular` | shared/src/game_time.rs:92-105 | subtraction is modular, for any number of periods |
| `GameTime.AddSignedIsModular` | shared/src/game_time.rs:85-114 | signed addition is modular and overflows only on the least `i32` |
| `GameTime.SubUndoesAdd` | shared/src/game_time.rs:85-105 | subtraction undoes addition and the other way round; addition overflows exactly past 2^32 |
| `GameTime.OffsetLeadsThere` | shared/src/game_time.rs:45-114 | adding the offset from a to b to a gives b |
| `GameTime.OffsetRoundTripsIff` | shared/src/game_time.rs:45-114 | an added offset is read back if and only if it lies in the half range |
| `GameTime.ShiftsAdd` | shared/src/game_time.rs:108-114 | two shifts are their sum |
| `GameTime.WindowIsMoreThan` | shared/src/game_time.rs:75-77 | within half a period the comparison is that of the unbounded times |
| `GameTime.BothLaterIff` | shared/src/game_time.rs:75-77 | each of two instants is later than the other exactly at half a period; neither is exactly when equal |
| `GameTime.TimeSinceExactIff` | shared/src/game_time.rs:29-42 | `time_since` is the modular distance if and only if the clock did not wrap; else it is one millisecond short |
| `ClientClocks.ReceivedKeepsGaps` | client/src/connection/time_manager.rs:202-223 | a newer server tick moves the three instants together; each keeps its distance from the projected server tick; the exact panic condition |
| `ClientClocks.AnchorIsNewest` | client/src/connection/time_manager.rs:202-223 | after every run of reports, in whatever order, the anchor is the newest tick reported, with the instant it was first reported with |
| `ClientClocks.EveryRunKeepsGaps` | client/src/connection/time_manager.rs:202-223 | any run of reports, however ordered, keeps the pairwise gaps modulo 2^22 |
| `ClientClocks.AdjustedInBounds` | client/src/connection/time_manager.rs:408-434 | an adjusted instant never passes its target and its tick never goes back, nor forward by more than 32768 |
| `ClientClocks.AdjustedIsEarlier` | client/src/connection/time_manager.rs:408-434 | in unbounded time an instant goes on to where the stretched time leads, or to its target if that is earlier; it panics only on an overflow |
| `ClientClocks.AdvancedIsEarlier` | client/src/connection/time_manager.rs:276-324 | each of the three instants does so with its own target and pace |
| `ClientClocks.AdjustTime` | client/src/connection/time_manager.rs:408-434 | moves, clips to the target and follows with the tick |
| `ClientClocks.AccumulatedConserves` | client/src/connection/time_manager.rs:259-268 | no elapsed time is lost to rounding and less than a millisecond is held back |
| `ClientClocks.TimeManager.RecvTickInstant` | client/src/connection/time_manager.rs:202-223 | re-anchors the three instants |
| `ClientClocks.TimeManager.Accumulate` | client/src/connection/time_manager.rs:259-268 | whole milliseconds leave the accumulator; total elapsed is total handed on plus what is held |
| `ClientClocks.TimeManager.CollectTicks` | client/src/connection/time_manager.rs:249-340 | advances all three by the same time and reports exactly the ticks that changed, each forward by at most 32768 |
| `ClientClocks.TicksContinue` | client/src/client.rs:410-433 | two stretches of ticks end to end are one |
| `ClientClocks.PushTicks` | client/src/client.rs:410-433 | the wrapping loop terminates having pushed every tick after the previous one up to the current one, once each |
| `ClientClocks.Client.TakeTickEvents` | client/src/client.rs:383-436 | over any run of calls both concatenated streams are consecutive modulo 2^16 from their first tick and end at the current tick |
| `ReliableSenders.DuePacketsExact` | shared/src/messages/channels/senders/reliable_sender.rs:124-145 | a collect stages exactly the messages never sent or due again |
| `ReliableSenders.DuePacketsAscend` | shared/src/messages/channels/senders/reliable_sender.rs:124-145 | the messages due are staged oldest first, each once |
| `ReliableSenders.StagedAgainIff` | shared/src/messages/channels/senders/reliable_sender.rs:124-145 | a message staged by one collect is staged by a later one if and only if the resend time has passed since |
| `ReliableSenders.TooRecent` | shared/src/messages/channels/senders/reliable_sender.rs:111-122 | the short cut by the earliest send time is sound: nothing is due then |
| `ReliableSenders.AcknowledgedExact` | shared/src/messages/channels/senders/reliable_sender.rs:63-91 | an acknowledgement lets go of that message and of no other |
| `ReliableSenders.ReliableSender.SendMessage` | shared/src/messages/channels/senders/reliable_sender.rs:95-106 | queues the message under the next index unless the queue is full |
| `ReliableSenders.ReliableSender.TakeNextMessages` | shared/src/messages/channels/senders/reliable_sender.rs:55-57 | hands out all staged messages |
| `ReliableSenders.ReliableSender.CollectMessages` | shared/src/messages/channels/senders/reliable_sender.rs:108-148 | with the short cut stages and stamps what the plain scan would |
| `ReliableSenders.ReliableSender.ScanAll` | shared/src/messages/channels/senders/reliable_sender.rs:124-147 | the scan loop and its new earliest send time |
| `ReliableSenders.ReliableSender.CleanupSentMessages` | shared/src/messages/channels/senders/reliable_sender.rs:37-52 | pops acknowledged messages off the front |
| `ReliableSenders.ReliableSender.ClearEntry` | shared/src/messages/channels/senders/reliable_sender.rs:78-87 | clears one entry and whatever that frees at the front |
| `ReliableSenders.ReliableSender.DeliverMessage` | shared/src/messages/channels/senders/reliable_sender.rs:63-91 | finds the first message still held whose index has that residue, however long the queue, returns it and clears it, or changes nothing if there is none |
| `ReliableReceivers.MarkedExact` | shared/src/messages/channels/receivers/reliable_receiver.rs:20-88 | buffering adds that index and no other, and the window again starts at the first index missing |
| `ReliableReceivers.DroppedAsOldIff` | shared/src/messages/channels/receivers/reliable_receiver.rs:28-31 | a new index is taken for an old one if and only if it lies more than half the range ahead, or exactly half with the smaller raw value |
| `ReliableReceivers.ReliableReceiver.Locate` | shared/src/messages/channels/receivers/reliable_receiver.rs:33-61 | the slot loop reaches the first index of the window with that residue, filling the record as far as needed |
| `ReliableReceivers.ReliableReceiver.BufferMessage` | shared/src/messages/channels/receivers/reliable_receiver.rs:20-71 | lets a message through exactly if its index does not seem old and its slot is empty, for every index |
| `ReliableReceivers.ReliableReceiver.ClearOldMessages` | shared/src/messages/channels/receivers/reliable_receiver.rs:73-88 | slides the window past everything received |
| `ReliableReceivers.ReliableReceiver.ReceiveMessages` | shared/src/messages/channels/receivers/reliable_receiver.rs:90-92 | hands over what was let through |
| `ReliableReceivers.OrderedArranger.Locate` | shared/src/messages/channels/receivers/ordered_reliable_receiver.rs:68-136 | the slot loop reaches the first index with that residue, adding empty slots as far as needed |
| `ReliableReceivers.OrderedArranger.Process` | shared/src/messages/channels/receivers/ordered_reliable_receiver.rs:58-156 | fills the first slot with that residue, or panics exactly if it is taken, and hands over all that is in order |
| `ReliableReceivers.OrderedArranger.PopReady` | shared/src/messages/channels/receivers/ordered_reliable_receiver.rs:138-156 | pops exactly the filled slots at the front |
| `ReliableReceivers.ReliableMessageReceiver.BufferMessage` | shared/src/messages/channels/receivers/reliable_message_receiver.rs:65-133 | a message let through is arranged, or put aside if it refers to missing entities |
| `ReliableReceivers.ReliableMessageReceiver.ReceiveMessages` | shared/src/messages/channels/receivers/reliable_message_receiver.rs:182-212 | expired messages go, ready ones are arranged in turn, and the caller gets the batch cut off at the cap |
| `ReliableChannel.ArrangeKeeps` | shared/src/messages/channels/receivers/ordered_reliable_receiver.rs:58-156 | what the arranger hands over continues what was delivered before |
| `ReliableChannel.PlacedIff` | shared/src/messages/channels/receivers/ordered_reliable_receiver.rs:58-136 | a message finds its own slot if and only if it comes less than 2^16 after the next one due |
| `ReliableChannel.NeverTooFarAhead` | shared/src/messages/channels/senders/reliable_sender.rs:95-106 | with a queue bounded by half the range no index sent is half the range or more past the record's base, and a new one passes |
| `ReliableChannel.NewArrivalsPassIff` | shared/src/messages/channels/receivers/reliable_receiver.rs:20-71 | in every run that tells the indices apart every new arrival passes, if and only if the queue is bounded by 32768 |
| `ReliableChannel.DeepQueueLoses` | shared/src/messages/channels/receivers/reliable_receiver.rs:28-31 | a run with a deeper queue, or one without bound, in which message 65536 is dropped as old and acknowledged all the same: it is neither received nor held nor staged |
| `ReliableChannel.NeverSentAgain` | shared/src/messages/channels/senders/reliable_sender.rs:63-148 | no continuation whatsoever sends such a message again |
| `ReliableChannel.GoneForGood` | shared/src/messages/channels/receivers/ordered_reliable_receiver.rs:58-136 | so unless a copy already under way still comes through, neither it nor any later message is delivered in any continuation that tells the indices apart |
| `ReliableChannel.StepIsIdealIff` | shared/src/messages/channels/receivers/reliable_message_receiver.rs:65-133 | a step of the code, on `u16` indices, is the step on unbounded ones if and only if no old copy passes for a new message, a new one does not seem old and is less than 2^16 past the record's and the arranger's base, and an acknowledgement finds the message it means; for every queue bound and none |
| `ReliableChannel.NearIsTold` | shared/src/messages/channels/receivers/reliable_receiver.rs:20-71 | a window that is enough: arrivals within half the range of the record's base, waiting messages within the full range, acknowledgements and the queue within the full range |
| `ReliableChannel.NotStaleIsTold` | shared/src/messages/channels/receivers/reliable_receiver.rs:20-71 | with a queue bounded by half the range it is enough that copies and acknowledgements are not too old and the arranger not a full range behind |
| `ReliableChannel.RunKeeps` | shared/src/messages/channels/receivers/reliable_message_receiver.rs:65-133 | the joint invariant of sender, packets in flight, record, waiting and dropped messages and arranger holds over every run whose steps all meet that condition |
| `ReliableChannel.DeliveredInOrderExactlyOnce` | shared/src/messages/channels/receivers/ordered_reliable_receiver.rs:11-156 | in every such run, with loss, copies, reordering, messages held back and messages dropped while held back, what the arranger delivers is a prefix of what was sent, and it never panics |
| `ReliableChannel.NothingForgotten` | shared/src/messages/channels/senders/reliable_sender.rs:63-148 | a message not received is still held, with its content, for sending again |
| `ReliableChannel.DeliveredUpToFirstMissingIff` | shared/src/messages/channels/receivers/reliable_receiver.rs:20-88 | when none waits for entities everything before the first missing message has been delivered if and only if none of those was dropped while it waited |
| `ReliableChannel.HandedOverIff` | shared/src/messages/channels/receivers/reliable_message_receiver.rs:201-212 | the caller gets all that is delivered, in order, if and only if no batch exceeds the cap; then what it has is a prefix of what was sent |
| `ReliableChannel.EachHandOver` | shared/src/messages/channels/receivers/reliable_message_receiver.rs:201-212 | in every such run a hand-over goes on where the last one stopped and gives the caller all that was delivered since, or the first `cap` messages of it |
| `ReliableChannel.ReceivingIsRun` | shared/src/messages/channels/receivers/reliable_message_receiver.rs:182-212 | what the receiving object does when asked for messages is a run: the expired are dropped, the ready released in turn, the rest taken |
| `ReliableChannel.SendsExactly` | shared/src/messages/channels/senders/reliable_sender.rs:108-148 | in every run a collect sends a message if and only if it is still held and was never sent or last sent at least the resend time ago |
| `ReliableChannel.ResendsAreSpaced` | shared/src/messages/channels/senders/reliable_sender.rs:124-145 | in every run two sends of one message lie at least the resend time apart |
| `ReliableChannel.CappedChannelLoses` | shared/src/messages/channels/receivers/reliable_message_receiver.rs:201-212 | a run in which the cap loses the second of three messages |
| `ReliableChannel.DroppedBlocks` | shared/src/world/remote/remote_entity_waitlist.rs:179-191 | after a drop neither that message nor any later one is delivered in any such continuation |
| `ReliableChannel.OneDropSilences` | shared/src/world/remote/remote_entity_waitlist.rs:67-81 | a run with one drop after which no such continuation delivers anything |
| `ReliableChannel.CatchUpIff` | shared/src/messages/channels/senders/reliable_sender.rs:108-148 | after such a run some such continuation that sends nothing new delivers everything if and only if no message was dropped while it waited |
| `ReliableChannel.HeldBackIsOvertaken` | shared/src/messages/channels/receivers/ordered_reliable_receiver.rs:58-136 | runs in which 2^16 messages pass one that waits, or was dropped while it waited, and the next is delivered in its place |

## Left out

- TickBufferSender.ChannelTickBufferSender.WriteMessages: the map from packets to the returned lists, which turns packet acknowledgements into message acknowledgements, is not modelled.
- TickBufferWire.WriteMessageList: the `u8` difference of a descending index list wraps, as it does without overflow checks; with them the source panics.
- TickBufferReceiver.TickBufferReceiverChannel.ReadList: the `u8` sum of message indices wraps, as it does without overflow checks; with them the source panics on a packet that overflows it.
- TickBufferReceiver.TickBufferReceiverChannel.ReadMessages: as for ReadList.
- TickBufferReceiver.IncomingMessages.Collect: the order within one tick is the hash map's and is left open.
- BitCodec.BitWriter.WriteBit: bits are a sequence; the packing into words and bytes is not modelled.
- BitCodec.BitWriter.WriteVariable: only unsigned variable-length numbers, unbounded; fixed-width and signed forms are not modelled.
- BitCodec.BitReader.ReadVariable: an encoding longer than 128 bits decodes here; in the source its shift overflows.
- TickQueues.TickQueue.Peek: the standard library's binary heap is a multiset that gives up some item, and a greatest one where the order is total.
- ClientClocks.AccumulatedConserves: exact reals stand for the `f32` accumulator.
- ClientClocks.TimeManager.Accumulate: exact reals stand for the `f32` accumulator.
- ClientClocks.TimeManager.CollectTicks: the targets, the speed-up and the tick of an instant are arbitrary functions; what state a panic in the middle leaves is not stated.
- ClientClocks.Client.TakeTickEvents: one connection; the reading of buffered packets on a tick boundary is modelled apart, in `TickQueues`.
- ReliableReceivers.OrderedArranger.Process: messages of one fragment only; fragmentation and reassembly, and the unordered and sequenced arrangers, are not modelled.
- ReliableReceivers.OrderedArranger.PopReady: trailing fragment slots do not occur.
- ReliableReceivers.ReliableMessageReceiver.BufferMessage: fragments, requests and responses are not modelled.
- ReliableReceivers.ReliableMessageReceiver.ReceiveMessages: which waiting messages are ready or expired is a parameter; the waitlist's handles, its cap of 128 per entity and its timeout of 60 seconds are not modelled, and requests and responses are not told from messages.
- Authority.LeavesNothingIff: the despawning of the leaving client's own entities, which comes first, is not modelled.
- RoomStores.RoomStore.AddUser: vectors of tuples are compared as sets, since adding a member again pushes duplicates.
- RoomHistories.PartingIsOwedIff: the scope-change queue beside the rooms, and what a connection does with a removal it is handed, are not modelled.
- HandshakeProtocol.AliveIff: panics of the world server other than on an unreadable ping, as on malformed data packets, are not modelled.
- HandshakeProtocol.RunKeeps: ping indices are unbounded, packets are served one at a time, and a server reset or a deletion of the session's own user ends the session.
- MainServers.MainServer.MaintainSocket: socket errors and failed sends are left out.
- The advanced handshaker and its HMAC, transports, compression, bandwidth and priority budgets.
- Request and response ids, entity and component replication messages, serialisation of messages and components.
- The client's side of authority and entity migration, and the historian.
- RTT and offset statistics in `f32`.
