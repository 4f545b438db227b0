# NETTIK replication layer: model and proofs

NETTIK replicates game state between a server and its clients. This project models the parts of
it that carry an argument of their own, as classes and methods where the original changes state
and as functions where it computes, and proves what they are for.

**Keyed lists.** A `CNetVarList` is a map with an update queue. Its owner changes the map and
queues Add, Update and Remove packets; an update tick addresses them to the players and sends
them; a receiver applies them and, on the server, queues them again for the other players; a peer
that joins is sent the whole contents while packets are still queued. `NetVarList` has the class
with its packet objects, proved against the functions of `ListReplication` (what a log of packets
does to a table) and `ListDelivery` (who is sent what). `ListProtocol` puts a server, its peers,
their in-order channels and one writer together as a state machine and proves that players converge over
every run. `ListOwner` decides step by step when a writing owner and the server will agree.
`ListArrival` follows single changes from the writer to everybody else, and `ListDivergence` has, from
empty lists, a run to each way of not agreeing.

**Snapshots.** Variables mark themselves changed (`NetVariable`, `SnapshotSystem`), a snapshot
writes a frame for each into a stream (`SnapshotEntry`, `SnapshotFrame`), pads them to one length
behind a header (`SnapshotPacket`, `SnapshotTransfer`), and the receiver walks the packet by that
length and updates the variables the frames name (`SnapshotReception`). `SnapshotTick` puts this
together: the two passes of a tick, and a value from its setter to the receivers.

**Rotations.** The 4x4 matrices and quaternions, on exact reals: determinants and inverses
(`Matrix4`, `AffineMatrix`), the methods that work entry by entry in place (`MatrixInPlace`),
quaternions and their matrices (`Quaternion`, `RotationMatrix`), the way back (`AffineDecomposition`,
`RotationRebuild`), Euler angles (`EulerRotation`) and orthogonalisation (`GramSchmidt`).
`RealMath`, `Vector3` and `Frames` hold the vector algebra under them.

**Tables.** The realm's player IDs (`PlayerRealm`), the client's object tables (`ClientEntities`)
and the ring of received positions a replica is drawn from (`Interpolation`).

`NetTypes` has the shared types. `dafny verify dfyconfig.toml` checks everything.

## What the code does not promise

Where a property one would expect fails, the model keeps the code's behaviour, and the property is
proved to hold if and only if a stated condition does.

* A dump of a list holds no removals. A peer that still has a key the server has dropped keeps it
  unless its Remove is still queued (`JoinConvergesExactly`), and keeps it for good, whatever else
  is written, sent or dumped (`StaleKeyStays`, `ReachesStale`). A connecting client is sent a dump
  before an object is built for it and it starts to receive changes, so removals in between are
  lost; a dump straight before leaves nothing stale (`JoinAfterConnectIsClean`).
* With fewer than two player objects the server applies a packet without relaying it, which can
  leave an older packet for the same key in the queue (`QueueAgreesIff`) to overwrite it at a
  newcomer (`UnrelayedPacketLeavesOldValue`). An Add of the wrong size under a new key leaves a
  blank element that is never relayed (`RelayEquivalentIff`).
* A packet addressed to nobody goes to the first connected peer. The filter that keeps a relayed
  packet from its own sender is undone by this exactly when the sender is the only one left to
  address and that first peer; then the whole queue comes back (`EchoIsQueue`). The comment on the
  packet's constructor (INetworkPacketFactory.hpp:194-196) presents the rule as one for clients.
* A writing owner can therefore be handed older values of its own: by such an echo, or by a dump of
  its own list. What matters is whether it and the server hold the same once everything between
  them has been handled (`DrainIff`). A step keeps that if and only if it is safe (`StepSettlesIff`):
  ticks, sends and receptions always are, echoes among them; a write is unless something on its way
  to the owner overrides it and it will not itself come back; a join or a leave is when, key by key,
  what comes back from then on does what would have come back. So an echo does harm only where peers
  come or go in the middle of it (`OtherJoinsIff`, `OtherLeavesIff`, `OwnObjectLeavesIff`,
  `EchoUndoesOwner`), and a dump of its own list only where nothing comes back and the server is
  behind (`OwnDumpIff`, `EchoMendsOwnDump`, `OwnDumpUndoesOwner`).
* `set_name` puts the terminator one place too far; a name reads back exactly when the byte behind
  it was zero already (`NameSetIff`).
* The frame count has 16 bits. From 65536 frames on the whole packet is refused, and a multiple of
  65536 has no header at all (`SnapshotArrivesIff`).
* A locked variable drops a received value but still takes its sequence number, and a reception
  that is not checked can put the number back (`StepKeepsOrder`, `MirrorsIff`).
* The in-place inverses leave the last column of the matrix alone where the by-value ones reset it:
  they agree exactly on affine matrices (`InPlaceInverseAgreesIff`). A quaternion's "inverse" is one
  exactly at unit norm (`InverseLaw`). Decomposing what was composed gives the scale back exactly
  when it is positive (`DecomposeMade`), and composing what was decomposed gives the matrix back
  exactly when it is affine with orthogonal right-handed axes (`RebuiltIff`).
* Listing a player that is listed already breaks the realm's table (`ListedIff`). Two managers with
  a local object of the same number share one entry of the client's controlled table, and freeing
  either removes it for both (`ExactIff`, `SharedNumberIsLost`).
* The drawn position jumps on the first update, when no network rate is set, and beyond 18 units
  (`SeamlessIff`).
* The comment above a list's `set` (CNetVarList.h:339-342) says data is copied as bytes; the code
  assigns a typed value. The model takes elements as their bytes, for which the two are the same.

## Model

| member | source | states |
|---|---|---|
| ListReplication.ReplayIsPointwise | NETTIK_Networking/NetVarListBase.cpp:28-203 | what a log of packets does to one key depends on that key's packets and element alone |
| ListReplication.ReplayIdempotent | NETTIK_Networking/NetVarListBase.cpp:28-203 | receiving a whole log a second time changes nothing, whatever the table |
| ListReplication.SnapshotPlusReplay | NETTIK_Networking/CNetVarList.h:404-469 | a table that already has the effect of a log's beginning ends the same when it is sent the whole log from there: a join between queueing and flushing is harmless |
| ListReplication.EmitMatchesApply | NETTIK_Networking/CNetVarList.h:235-372 | the packets a local create, set, remove or clear queues, replayed on the old table, give exactly the table the change left |
| ListReplication.DumpOverlays | NETTIK_Networking/CNetVarList.h:404-432 | a dump, in any walking order, lays the sender's table over the receiver's and removes nothing |
| ListReplication.DumpRebuilds | NETTIK_Networking/CNetVarList.h:404-432 | from an empty table, a dump in any walking order rebuilds the sender's |
| ListReplication.ConsistentExtends | NETTIK_Networking/CNetVarList.h:449-469 | if a queue replayed on the table changes nothing, this stays so when changes are made to the table and queued |
| ListReplication.JoinKeyIff | NETTIK_Networking/CNetVarList.h:404-469 | under any one key, whatever is queued, a dumped peer ends with the writer's element iff the queue leaves that element alone and removes a key only the peer has |
| ListReplication.JoinConvergesIff | NETTIK_Networking/CNetVarList.h:404-469 | a peer overlaid with the writer's table ends at that table after any queue iff the queue agrees with the table and removes every key only the peer has |
| ListReplication.DumpThenQueueIff | NETTIK_Networking/CNetVarList.h:404-469 | the same for the packets themselves: dump in any order, then the queue |
| ListReplication.UnqueuedConsistentIff | NETTIK_Networking/CNetVarList.h:30-124 | a packet applied without being queued leaves the queue in agreement with the table iff it does so for the packet's own key |
| ListReplication.SameEffectIff | NETTIK_Networking/NetVarListBase.cpp:28-203 | two logs do the same to a table iff they do so to every key either is about |
| ListReplication.CrossingIff | NETTIK_Networking/CNetVarList.h:235-372 | a log that crosses a local change ends as if it had come before the change's packets, iff it leaves what the change wrote alone |
| ListDelivery.TargetsAreTheOthers | NETTIK_Networking/CNetVarList.h:449-469 | a delta is addressed to exactly the players that are not the filtered peer, and to nobody iff there are none |
| ListDelivery.CopiesAreOne | NETTIK_Networking/CNetVarList.h:449-469 | a peer that owns several objects gets a packet several times in a row, to the effect of one |
| ListDelivery.FlushDeliversQueue | NETTIK_Networking/NetObject.cpp:44-52 | one update tick brings any unfiltered player, whatever its table, exactly the effect of the queue |
| ListDelivery.EchoIff | NETTIK_Networking/INetworkPacketFactory.cpp:10-16 | a flush of relayed packets sends something back to their owner iff there is something to send, no other player, and the owner is the first connected peer |
| ListDelivery.EchoIsQueue | NETTIK_Networking/INetworkPacketFactory.cpp:10-16 | a flush of relayed packets brings their owner the whole queue, once and in order, if no other player is left and it is the first connected peer, and nothing otherwise |
| ListDelivery.FlushStaysInside | NETTIK_Networking/INetworkPacketFactory.cpp:10-16 | a flush sends nothing to a peer that is neither a player nor the first connected |
| ListDelivery.ClientFlushGoesUp | NETTIK_Networking/INetworkPacketFactory.cpp:10-16 | without players, as on a client, a flush sends the queue once and in order to the first peer |
| ListDelivery.RelayEquivalentIff | NETTIK_Networking/CNetVarList.h:30-124 | with more than one player object, what is relayed does to a copy of the table what the received packet did, iff the packet is not a wrong-size Add of a new key |
| ListDelivery.RelayReachesOthersOnly | NETTIK_Networking/CNetVarList.h:30-124 | relay without echo: with another player about, a well-sized packet from the owner that is applied is queued once, filtered from the owner, and its flush reaches every other player and never the owner |
| ListDelivery.RelayAllEquivalent | NETTIK_Networking/CNetVarList.h:30-124 | with more than one player object, what is relayed of any well-sized log does to a copy of the table what the log did to the table |
| ListDelivery.EchoRepairs | NETTIK_Networking/CNetVarList.h:30-124 | a change whose own packets come back last ends as if it had been made after all that crossed it |
| NetVarList.ProtoPacket.AllocateDefaultPeer | NETTIK_Networking/INetworkPacketFactory.cpp:10-16 | a packet addressed to nobody gets the first connected peer, or the null pointer that stands for none |
| NetVarList.ProtoPacket.Dispatch | NETTIK_Networking/INetworkPacketFactory.hpp:143-156 | sends the message once per addressed peer that is not null, in order, and marks the packet dispatched whatever its status was |
| NetVarList.ProtoPacket.Destroy | NETTIK_Networking/INetworkPacketFactory.hpp:223-227 | sends a packet that is still pending, and no other |
| NetVarList.ProtoPacket.constructor | NETTIK_Networking/INetworkPacketFactory.hpp:197-201 | a packet with a code starts pending and addressed to nobody |
| NetVarList.ProtoPacket.AddPeer | NETTIK_Networking/INetworkPacketFactory.hpp:114-117 | the peer is added last, repetitions included |
| NetVarList.NetSystem.Send | NETTIK_Networking/NetSystem.cpp:421-436 | sends to a peer that is not null while the system runs, and drops otherwise |
| NetVarList.DefaultPeer | NETTIK_Networking/INetworkPacketFactory.cpp:10-16 | what the rule comes to: an addressed packet goes to its peers, another to the first connected one if there is one |
| NetVarList.List.constructor | NETTIK_Networking/CNetVarList.h:23-130 | a list starts empty with nothing queued |
| NetVarList.List.PushUpdate | NETTIK_Networking/CNetVarList.h:262-263 | the queue grows by one entry with its filter |
| NetVarList.List.Create | NETTIK_Networking/CNetVarList.h:235-266 | an existing key is left as it is and nothing is queued; a new one takes the value and one Add without a filter is queued; the element under the key is returned either way |
| NetVarList.List.Set | NETTIK_Networking/CNetVarList.h:343-372 | an absent key is ignored and nothing queued; a present one takes the value and one Update is queued |
| NetVarList.List.Remove | NETTIK_Networking/CNetVarList.h:294-337 | succeeds iff the key is present, erases it and queues one Remove |
| NetVarList.List.Clear | NETTIK_Networking/CNetVarList.h:279-287 | erases every element and queues one Remove for each, each key once, in the order they were met, behind what was queued |
| NetVarList.List.SendElement | NETTIK_Networking/CNetVarList.h:426-431 | a dumped element goes to its peer once, although its packet is also destroyed |
| NetVarList.List.SendContents | NETTIK_Networking/CNetVarList.h:404-432 | sends the peer one Add per element, each key once, and nothing while the system is stopped |
| NetVarList.List.AddTargets | NETTIK_Networking/CNetVarList.h:458-468 | one packet is addressed to every player but the filtered one, in order and with repetitions |
| NetVarList.List.SendDelta | NETTIK_Networking/CNetVarList.h:449-469 | so is every queued packet, and all are still pending |
| NetVarList.List.DestroyQueued | NETTIK_Networking/INetworkPacketFactory.hpp:223-227 | a destroyed packet of the queue goes to its players, or to the default peer if it has none |
| NetVarList.List.Flush | NETTIK_Networking/NetVarListBase.cpp:19-26 | clearing the queue destroys its packets and so sends each to its addressees, in queue order |
| NetVarList.List.UpdateListDelta | NETTIK_Networking/NetObject.cpp:44-52 | a tick empties the queue and sends exactly what the delivery function says |
| NetVarList.List.WriteElement | NETTIK_Networking/NetVarListBase.cpp:195-200 | the byte loop overwrites one element and touches no other |
| NetVarList.List.RelayPacket | NETTIK_Networking/CNetVarList.h:30-124 | queues the packet filtered from the owner iff there is more than one player object |
| NetVarList.List.OnRemoteAdd | NETTIK_Networking/NetVarListBase.cpp:138-203 | a payload of the right size is written, and relayed with the owner as filter iff there are several players; one of the wrong size leaves a blank element under a new key and nothing else |
| NetVarList.List.OnRemoteUpdate | NETTIK_Networking/NetVarListBase.cpp:28-93 | writes, and relays to several players, only for a present key and the right size; says which of the two was wrong and then changes nothing |
| NetVarList.List.OnRemoteRemove | NETTIK_Networking/NetVarListBase.cpp:95-136 | always succeeds and always relays, also for an absent key, and leaves the key absent |
| NetVarList.List.OnRemote | NETTIK_Networking/NetVarListBase.cpp:12-17 | each kind of packet has the effect its handler gives it, on the table and on the queue |
| NetVarList.List.OnRemoteAll | NETTIK_Networking/NetVarListBase.cpp:12-17 | a log handed over packet by packet replays on the table and queues its relays; a list without several players, as on a client, ends with the queue it had |
| NetVarList.SendLogReaches | NETTIK_Networking/CNetVarList.h:404-432 | of what a dump sends, its peer gets all and in order |
| ListProtocol.InitInv | NETTIK_Networking/CNetVarList.h:23-130 | a list built empty on every peer satisfies the invariant, with a queue that agrees with the table |
| ListProtocol.ServerWriteKeepsInv | NETTIK_Networking/CNetVarList.h:235-372 | kept by every change the server makes, and so is the queue's agreement |
| ListProtocol.OwnerWriteKeepsInv | NETTIK_Networking/CNetVarList.h:235-372 | kept by every change a writing owner makes |
| ListProtocol.ReceiveKeepsInv | NETTIK_Networking/NetVarListBase.cpp:28-203 | kept when the server handles an owner's packet; the queue keeps agreeing iff the packet is relayed or agrees with what is queued for its key |
| ListProtocol.FlushBinds | NETTIK_Networking/NetObject.cpp:44-52 | a tick brings a player exactly what it was bound to hold |
| ListProtocol.FlushKeepsInv | NETTIK_Networking/NetObject.cpp:44-52 | the invariant is kept by the server's tick, after which the queue agrees again |
| ListProtocol.DeliverKeepsInv | NETTIK_Networking/NetVarListBase.cpp:28-203 | kept when a peer handles its next packet |
| ListProtocol.ConnectKeepsInv | NETTIK_Networking/NetSystemServer.cpp:55-88 | kept when a client connects and is sent a dump |
| ListProtocol.JoinConvergesExactly | NETTIK_Networking/CEntities.h:336-349 | a peer an object is built for will converge iff the queue agrees with the table and removes every key the peer has, or is about to have, and the server has not |
| ListProtocol.JoinAfterConnectIsClean | NETTIK_Networking/CEntities.h:389-433 | an object built right after its peer connected leaves that peer converging iff the queue agrees with the table |
| ListProtocol.JoinKeepsInv | NETTIK_Networking/CEntities.h:336-349 | the invariant is kept by every join |
| ListProtocol.LeaveKeepsInv | NETTIK_Networking/CEntities.h:175-182 | and when an object is freed or a peer disconnects |
| ListProtocol.DrainPlayer | NETTIK_Networking/NetObject.cpp:44-52 | what converging means: from any state, ticks and deliveries lead to one where nothing is left for the player, and it then holds the server's table iff it converged |
| ListProtocol.StepKeepsInv | NETTIK_Networking/CNetVarList.h:235-469 | every step the code can take, of all nine kinds, keeps the invariant |
| ListProtocol.CleanStaysClean | NETTIK_Networking/CEntities.h:336-349 | a player whose join was clean stays so for as long as it has an object, however many more are built for it |
| ListProtocol.QueueAgreesIff | NETTIK_Networking/NetVarListBase.cpp:28-203 | the queue stops agreeing with the table only at a reception, iff its packet is neither relayed nor in agreement with what is queued for its key, and agrees again after a tick |
| ListProtocol.UntouchedIsKept | NETTIK_Networking/CNetVarList.h:30-124 | an unrelayed packet agrees with the queue, for one, if nothing queued is about its key |
| ListProtocol.RunKeepsInv | NETTIK_Networking/CNetVarList.h:235-469 | the invariant over every run the code can take |
| ListProtocol.Convergence | NETTIK_Networking/CNetVarList.h:235-469 | over every run, whoever writes: a player whose join was clean holds the server's table once its channel and the queue are empty |
| ListOwner.DrainIff | NETTIK_Networking/NetObject.cpp:44-52 | what settling means: however packets are moved along until none is left between a writing owner and the server, each ends as foretold, and they hold the same iff they settled before |
| ListOwner.Drain | NETTIK_Networking/NetObject.cpp:44-52 | and from every state they can be |
| ListOwner.WriteSettlesIff | NETTIK_Networking/CNetVarList.h:235-372 | a write keeps both settling iff nothing on its way to the owner overrides it, or its own packet will come back |
| ListOwner.MembersSettleIff | NETTIK_Networking/CEntities.h:336-349 | when peers come or go both keep settling iff, key by key, what will come back to the owner does what would have |
| ListOwner.StepSettlesIff | NETTIK_Networking/CNetVarList.h:235-469 | over all nine kinds of step: both keep settling iff the step is safe, a condition on the state before it |
| ListOwner.RunSettles | NETTIK_Networking/CNetVarList.h:235-469 | over every run of safe steps |
| ListOwner.OwnerConvergence | NETTIK_Networking/CNetVarList.h:235-469 | from empty lists, over every run of safe steps, a writing owner's table is the server's when nothing is between them, and every clean player's once its channel is empty |
| ListOwner.QuietIsSafe | NETTIK_Networking/CNetVarList.h:235-469 | every step is safe while nothing is between an owner and a server that settle |
| ListOwner.UntouchedWriteIsSafe | NETTIK_Networking/CNetVarList.h:235-372 | a write is safe if nothing on its way to the owner is about its keys |
| ListOwner.OwnDumpIff | NETTIK_Networking/CEntities.h:336-349 | where nothing comes back, a dump of its own list is harmless to a writing owner iff it has, or is about to have, every element the server has |
| ListOwner.EchoMendsOwnDump | NETTIK_Networking/CEntities.h:336-349 | where packets come back to the owner, and the queue agrees with the table, it is always harmless: the echo mends it |
| ListOwner.OtherJoinsIff | NETTIK_Networking/CEntities.h:336-349 | an object built for another peer is harmless iff what it keeps from coming back would have changed nothing |
| ListOwner.OtherLeavesIff | NETTIK_Networking/CEntities.h:175-182 | the going of the last other peer is harmless iff what comes back from then on changes nothing |
| ListOwner.OwnObjectLeavesIff | NETTIK_Networking/CEntities.h:175-182 | the loss of the owner's second object is harmless iff what is no longer relayed would have changed nothing after what is queued |
| ListDivergence.ReachesStale | NETTIK_Networking/NetSystemServer.cpp:55-88 | from empty lists, for any key and value, a run to a connected peer that has a key the server has removed, with nothing queued that removes it |
| ListDivergence.StaleKeyStays | NETTIK_Networking/CEntities.h:389-433 | over every run in which the server does not create the key again and the peer stays connected, the peer keeps it, and never converges |
| ListDivergence.EchoUndoesOwner | NETTIK_Networking/INetworkPacketFactory.cpp:10-16 | from empty lists, for any key and two values, a run that ends with nothing between an owner and a server, the old value at the owner and the new one at the server, because the echo of the new one was cut off |
| ListDivergence.OwnDumpUndoesOwner | NETTIK_Networking/CEntities.h:336-349 | the same by a dump of the owner's own list |
| ListDivergence.ReceiveUnrelayed | NETTIK_Networking/CNetVarList.h:30-124 | a run to a state in which the server has applied a packet that its queue contradicts |
| ListDivergence.UnrelayedPacketLeavesOldValue | NETTIK_Networking/CNetVarList.h:30-124 | from there, a newcomer with nothing left to be sent ends with the old value and the server with the new one |
| ListArrival.ServerWriteArrives | NETTIK_Networking/CNetVarList.h:235-372 | from every state of the invariant, a change the server makes runs to a clean player: once nothing is left for it, server and player hold exactly the server's old table with that change made |
| ListArrival.OwnerWriteArrives | NETTIK_Networking/CNetVarList.h:235-372 | so does one an owner makes, whatever is still on its way up: server and player end at the table that was going to be, with the change made to it |
| ListArrival.EmitOnOther | NETTIK_Networking/CNetVarList.h:235-372 | what a change queues does to any other table: a Create and an Erase take effect there, a Set only where the key is, a Clear removes the writer's keys |
| ListArrival.ConnectShows | NETTIK_Networking/NetSystemServer.cpp:55-88 | a client that connects has the server's whole table on its way to it before any object is built for it; nobody else is sent anything |
| ListArrival.WithoutObjectNothing | NETTIK_Networking/CNetVarList.h:449-469 | a peer without an object that is not the first connected one is sent nothing by a tick, whatever is queued |
| ListArrival.LeaverGoes | NETTIK_Networking/CEntities.h:175-182 | freeing an object takes one place of its peer among the players, and changes no table, queue or channel |
| ListArrival.DisconnectedIsGone | NETTIK_Networking/CEntities.h:175-182 | a peer that disconnects is gone from players, connections and channels, and every other peer is as it was |
| Matrix4.ComputeCofactor | NETTIK_Networking/CMatrix4x4.cpp:1926-1960 | the selection loop stays in range, drops exactly row i and column j, and gives the signed determinant of the rest |
| Matrix4.RowExpansion | NETTIK_Networking/CMatrix4x4.cpp:1972-1996 | a row times its own cofactors is the determinant, times another row's it is zero |
| Matrix4.ColExpansion | NETTIK_Networking/CMatrix4x4.cpp:1972-1996 | the same for columns |
| Matrix4.DetTranspose | NETTIK_Networking/CMatrix4x4.cpp:1972-1996 | a matrix and its transpose have one determinant |
| Matrix4.InverseIsInverse | NETTIK_Networking/CMatrix4x4.cpp:1972-1996 | for a non-zero determinant the general inverse is one from both sides |
| Matrix4.InverseUnique | NETTIK_Networking/CMatrix4x4.cpp:1972-1996 | a left and a right inverse of one matrix are equal |
| Matrix4.RightInverseIsInverse | NETTIK_Networking/CMatrix4x4.cpp:1972-1996 | any right inverse of an invertible matrix is the general inverse |
| Matrix4.ComputeInverse | NETTIK_Networking/CMatrix4x4.cpp:1972-1996 | the double loop over transposed cofactors computes it |
| Matrix4.MulAssoc | NETTIK_Networking/CMatrix4x4.cpp:3234-3263 | the matrix product is associative |
| Matrix4.TransformMul | NETTIK_Networking/CMatrix4x4.cpp:3146-3155 | transforming by a product is transforming by its factors in turn, the left one first |
| AffineMatrix.InverseAffineRefines | NETTIK_Networking/CMatrix4x4.cpp:1877-1918 | on every invertible affine matrix, the affine inverse is the general one |
| AffineMatrix.InverseRotTransScaleRefines | NETTIK_Networking/CMatrix4x4.cpp:1825-1866 | on affine matrices with orthogonal non-zero axes, so is the scaled transpose |
| AffineMatrix.InverseRotTransRefines | NETTIK_Networking/CMatrix4x4.cpp:1746-1774 | on affine matrices with orthonormal axes, so is the transpose |
| AffineMatrix.InverseRotTransExact | NETTIK_Networking/CMatrix4x4.cpp:1746-1774 | on an invertible affine matrix, only with orthonormal axes |
| AffineMatrix.MultiplyAffineRefines | NETTIK_Networking/CMatrix4x4.cpp:3307-3336 | the affine product of affine matrices is their product, and affine |
| MatrixInPlace.Multiply | NETTIK_Networking/CMatrix4x4.cpp:3234-3263 | the spelled-out product has the rows-times-columns entries |
| MatrixInPlace.MulAssignRow | NETTIK_Networking/CMatrix4x4.cpp:3192-3228 | a row that is overwritten while it is still being read ends as the row times the matrix |
| MatrixInPlace.Matrix4x4.MulAssign | NETTIK_Networking/CMatrix4x4.cpp:3186-3230 | the in-place product is the product, also of a matrix with itself |
| MatrixInPlace.Matrix4x4.MultiplyAffineAssign | NETTIK_Networking/CMatrix4x4.cpp:3267-3304 | ends as the affine product, with the old last column unless the matrix multiplies itself; for affine matrices that is the product |
| MatrixInPlace.Matrix4x4.TransposeUpper | NETTIK_Networking/CMatrix4x4.cpp:1721-1731 | the swaps transpose the upper 3x3 part and nothing else |
| MatrixInPlace.Matrix4x4.InvertTranslation | NETTIK_Networking/CMatrix4x4.cpp:1733-1740 | the last row is negated and transformed; nothing else changes |
| MatrixInPlace.Matrix4x4.InvertRotTrans | NETTIK_Networking/CMatrix4x4.cpp:1719-1741 | ends as the by-value inverse with the old last column |
| MatrixInPlace.Matrix4x4.TransposeScaled | NETTIK_Networking/CMatrix4x4.cpp:1797-1812 | swapped entries take the scale of the row they come from, as they are swapped |
| MatrixInPlace.Matrix4x4.InvertRotTransScale | NETTIK_Networking/CMatrix4x4.cpp:1779-1821 | ends as the by-value inverse with the old last column |
| MatrixInPlace.InPlaceInverseAgreesIff | NETTIK_Networking/CMatrix4x4.cpp:1719-1741 | the in-place result is the by-value inverse iff the matrix was affine, for both the rotation inverse and the scaled one |
| MatrixInPlace.Matrix4x4.InvertAffine | NETTIK_Networking/CMatrix4x4.cpp:1871-1874 | leaves a two-sided inverse of the old matrix |
| MatrixInPlace.Matrix4x4.Invert | NETTIK_Networking/CMatrix4x4.cpp:1965-1968 | leaves a two-sided inverse of the old matrix |
| MatrixInPlace.Matrix4x4.Orthogonalise3x3 | NETTIK_Networking/CMatrix4x4.cpp:1535-1580 | the entry-by-entry updates give the matrix the Gram-Schmidt lemmas are about |
| MatrixInPlace.Matrix4x4.MakeAffineQuaternion | NETTIK_Networking/CMatrix4x4.cpp:854-896 | the entry-by-entry assignments give the matrix the rotation lemmas are about |
| MatrixInPlace.Matrix4x4.DecomposeAffineQuaternion | NETTIK_Networking/CMatrix4x4.cpp:1142-1241 | the out-parameters get the parts the decomposition lemmas are about |
| MatrixInPlace.ExtractRotation | NETTIK_Networking/CQuaternion.cpp:41-101 | the four branches of the quaternion's constructor from a matrix extract the same quaternion |
| Quaternion.MulQAssoc | NETTIK_Networking/CQuaternion.cpp:110-120 | the quaternion product is associative |
| Quaternion.NormMultiplicative | NETTIK_Networking/CQuaternion.cpp:110-120 | the squared norm of a product is the product of the squared norms |
| Quaternion.InverseLaw | NETTIK_Networking/CQuaternion.h:371-374 | a quaternion times its conjugate is its squared norm, so the inverse is one iff that is 1 |
| Quaternion.InverseOfProduct | NETTIK_Networking/CQuaternion.h:371-374 | the inverse of a product is the product of the inverses, reversed |
| Quaternion.RotateIsSandwich | NETTIK_Networking/CQuaternion.cpp:173-182 | for unit quaternions the rotation formula is inverse times vector times quaternion |
| Quaternion.RotateProduct | NETTIK_Networking/CQuaternion.cpp:173-182 | rotating by a product of unit quaternions is rotating by the left one, then the right |
| Quaternion.RotateKeepsProducts | NETTIK_Networking/CQuaternion.cpp:173-182 | rotation keeps scalar products and carries vector products along |
| RotationMatrix.RotationTransforms | NETTIK_Networking/CMatrix4x4.cpp:854-896 | a unit quaternion's matrix transforms vectors exactly as the quaternion rotates them |
| RotationMatrix.RotationOfProduct | NETTIK_Networking/CMatrix4x4.cpp:854-896 | the matrix of a product of unit quaternions is the product of their matrices |
| RotationMatrix.RotationIsProper | NETTIK_Networking/CMatrix4x4.cpp:854-896 | it has orthonormal axes and determinant 1 |
| RotationMatrix.RotationOfInverseIsInverse | NETTIK_Networking/CMatrix4x4.cpp:854-896 | the matrix of the inverse quaternion is the inverse matrix |
| AffineDecomposition.DivisorAtLeastOne | NETTIK_Networking/CMatrix4x4.cpp:1177-1231 | for any axes whatever, the branch taken divides by at least 1 |
| AffineDecomposition.ExtractRotation | NETTIK_Networking/CQuaternion.cpp:41-101 | from a unit quaternion's matrix every branch extracts that quaternion, negated iff the component it divides by is negative |
| AffineDecomposition.DecomposeMade | NETTIK_Networking/CMatrix4x4.cpp:1142-1241 | decomposing a composed matrix gives the position; the scale iff it is positive; and then the quaternion or its negative |
| RotationRebuild.ExtractedIsQuadratic | NETTIK_Networking/CMatrix4x4.cpp:1177-1231 | from any proper rotation, all ten products of the extracted components are as the matrix demands, in all four branches |
| RotationRebuild.QuadraticIsRotation | NETTIK_Networking/CMatrix4x4.cpp:854-896 | a quaternion with those products is a unit one and its matrix has those axes |
| RotationRebuild.ExtractFromFrame | NETTIK_Networking/CMatrix4x4.cpp:1177-1231 | the quaternion extracted from a right-handed orthonormal frame is the rotation onto it |
| RotationRebuild.Rebuild | NETTIK_Networking/CMatrix4x4.cpp:1142-1241 | composing what an affine matrix with orthogonal right-handed axes was decomposed into gives that matrix, from a unit quaternion |
| RotationRebuild.OnlyRightHanded | NETTIK_Networking/CMatrix4x4.cpp:1142-1241 | if composing the parts gives the matrix back, its axes were orthogonal and right-handed |
| RotationRebuild.RebuiltIff | NETTIK_Networking/CMatrix4x4.cpp:1142-1241 | composing the parts gives the matrix back iff it is affine with orthogonal right-handed axes |
| EulerRotation.MakeRotationIsProduct | NETTIK_Networking/CMatrix4x4.cpp:2134-2263 | in all six orders the combined rotation is the product of the three single-axis matrices, first axis first |
| EulerRotation.MakeRotationIsProper | NETTIK_Networking/CMatrix4x4.cpp:2134-2263 | and has orthonormal axes and determinant 1 |
| EulerRotation.HalfAngles | NETTIK_Networking/CMatrix4x4.cpp:2052-2132 | the single-axis matrices are those of the quaternions with half the angle along the axis, and the full angle's sine and cosine are on the unit circle again |
| EulerRotation.Directions | NETTIK_Networking/CMatrix4x4.cpp:2052-2132 | which way they turn: about X the Y axis towards Z, about Y the Z axis towards X, about Z the X axis towards Y |
| GramSchmidt.OrthogonalisableIff | NETTIK_Networking/CMatrix4x4.cpp:1540-1555 | neither asserted number is zero iff the first two rows are not parallel |
| GramSchmidt.OrthogonaliseIsProper | NETTIK_Networking/CMatrix4x4.cpp:1535-1580 | the result is a proper rotation with its rows scaled exactly; the old rows are combinations of the new with positive leading factors; nothing else changes |
| GramSchmidt.UnchangedIff | NETTIK_Networking/CMatrix4x4.cpp:1535-1580 | at unit scale a matrix is left alone iff it is a proper rotation already |
| SnapshotEntry.NameSetIff | NETTIK_Networking/SnapshotEntList.h:232-238 | a set name reads back iff the byte behind it was zero before |
| SnapshotEntry.SnapshotEntList.constructor | NETTIK_Networking/SnapshotEntList.h:25-47 | a fresh entry is zero but for its kind and the controller |
| SnapshotEntry.SnapshotEntList.SetName | NETTIK_Networking/SnapshotEntList.h:232-238 | overwrites the name and puts a zero one place beyond its end |
| SnapshotEntry.SnapshotEntList.SetData | NETTIK_Networking/SnapshotEntList.h:255-263 | overwrites the front of the data buffer and sets the size |
| SnapshotEntry.SnapshotEntList.Write | NETTIK_Networking/SnapshotEntList.h:72-112 | appends the frame's encoding: fixed fields, name and terminator, data padded to 128 bytes |
| SnapshotEntry.SnapshotEntList.ReadName | NETTIK_Networking/SnapshotEntList.h:161-167 | reads up to the first zero, 64 bytes at most, and fails only at the end of the packet |
| SnapshotEntry.SnapshotEntList.ReadData | NETTIK_Networking/SnapshotEntList.h:114-180 | fills the entry with exactly what decoding the bytes gives, with its errors |
| SnapshotEntry.WriteEntry | NETTIK_Networking/CNetVarBase.h:115-125 | a fresh entry, filled by the setters and written, is the encoding of the frame |
| SnapshotFrame.NumbersRoundTrip | NETTIK_Networking/SnapshotEntList.h:72-180 | 16- and 32-bit numbers read back from their little-endian bytes |
| SnapshotFrame.FrameRoundTrip | NETTIK_Networking/SnapshotEntList.h:72-180 | a written frame reads back, its data extended by zeros, whatever follows it |
| SnapshotFrame.WireFormat | NETTIK_Networking/SnapshotEntList.h:72-112 | a frame on the wire, byte for byte: four numbers lowest byte first, the flag, the name and its terminator, the data and zeros up to 128 bytes |
| SnapshotFrame.ReadIff | NETTIK_Networking/SnapshotEntList.h:114-180 | a frame is read iff the stated length is 10 to 224 and the rest of the packet holds a name of at most 64 bytes, ended by a zero if shorter, and the 129 bytes behind it; which bytes are name and data |
| SnapshotFrame.ReceivedIs | NETTIK_Networking/SnapshotEntList.h:114-180 | a frame as received has 128 bytes of data, its own and then zeros, and is otherwise the same |
| SnapshotPacket.HeaderRoundTrip | NETTIK_Networking/SnapshotHeader.cpp:9-42 | a written header reads back from the front of any packet |
| SnapshotPacket.SnapshotStream.Create | NETTIK_Networking/SnapshotStream.h:16-20 | a buffer is added at the end |
| SnapshotPacket.SnapshotStream.Finish | NETTIK_Networking/SnapshotStream.h:27-51 | the result is the header buffer followed by all others, in order, the first time only |
| SnapshotPacket.SnapshotStream.Clear | NETTIK_Networking/SnapshotStream.h:53-58 | leaves one empty buffer, unfinished |
| SnapshotPacket.FinishTwice | NETTIK_Networking/SnapshotStream.h:27-51 | asking for the result again gives the same bytes |
| SnapshotPacket.PadBuffer | NETTIK_Networking/SnapshotHeader.cpp:55-62 | extends a shorter buffer by zeros to the given size and leaves others alone |
| SnapshotPacket.SnapshotStream.CopyFrom | NETTIK_Networking/SnapshotHeader.cpp:44-66 | pads every buffer but the header |
| SnapshotPacket.SnapshotStream.Generate | NETTIK_Networking/SnapshotHeader.h:35-50 | appends the header's bytes to the first buffer and pads the others |
| SnapshotPacket.HandleEntSnapshot | NETTIK_Networking/NetSystemClient.cpp:151-193 | refuses a packet whose size is not count times stride, in 32 bits; otherwise walks it; on a client an unknown kind stops the walk |
| SnapshotPacket.WalkFrames | NETTIK_Networking/NetSystemServer.cpp:112-123 | the loop passes on the frames stride by stride; the server skips all but data frames |
| SnapshotPacket.LongestFits | NETTIK_Networking/VirtualInstance.cpp:76-100 | every frame has 146 to 208 bytes, within the reader's limits |
| SnapshotPacket.WalkPadded | NETTIK_Networking/NetSystemClient.cpp:170-192 | walking padded frames by their common length passes on each, in order |
| SnapshotPacket.PacketRoundTrip | NETTIK_Networking/NetSystemClient.cpp:151-193 | a built packet is walked back into its frames if there are fewer than 65536, and dropped whole otherwise |
| SnapshotPacket.PacketStarts | NETTIK_Networking/SnapshotHeader.h:35-50 | the first twelve bytes of a packet: the object frame code, the number of frames in 16 bits, the sequence and the common length, lowest byte first |
| SnapshotPacket.PassedOnInOrder | NETTIK_Networking/NetSystemServer.cpp:112-123 | a client is passed on every frame and a server exactly the data frames, each once and in order |
| SnapshotPacket.WalkStops | NETTIK_Networking/NetSystemClient.cpp:170-192 | a client that meets a frame of none of the three kinds has been passed on exactly those before it, and stops |
| SnapshotSystem.NetVar.constructor | NETTIK_Networking/CNetVarBase.h:90-100 | a variable starts with zero bytes, marked changed, neither locked nor forced, number and count 0 |
| SnapshotSystem.NetVar.Set | NETTIK_Networking/CNetVarBase.h:157-166 | on an active object the variable ends with the value; if it differed, marked changed and forced and counted once; otherwise, and on an inactive object, nothing changes |
| SnapshotSystem.NetVar.SetGuard | NETTIK_Networking/CNetVarBase.h:169-181 | accepts iff the object is active and the value differs, and then sets both flags |
| SnapshotSystem.NetVar.SetBytes | NETTIK_Networking/CNetVarBase.h:134-154 | a locked variable is left alone; otherwise its front is overwritten with the bytes and the rest kept, and it is counted once and marked changed but not forced |
| SnapshotSystem.NetVar.Invalidate | NETTIK_Networking/CNetVarBase.h:83-87 | sets both flags and nothing else |
| SnapshotSystem.NetVar.ChangeLock | NETTIK_Networking/CNetVarBase.h:64-74 | sets or clears the lock and nothing else |
| SnapshotSystem.NetVar.Apply | NETTIK_Networking/NetSystem.cpp:81-98 | an unforced frame on a local object, or one with too low a number on a checking variable, changes nothing; any other gives its number, and its value unless the variable is locked |
| SnapshotSystem.NetVar.TakeVariableSnapshot | NETTIK_Networking/CNetVarBase.h:109-130 | neither changed nor forced: nothing; otherwise one frame with the value, the next number and the force flag goes on the stream, and both flags are cleared |
| SnapshotSystem.TakeObjectSnapshot | NETTIK_Networking/NetObject.cpp:90-108 | variables of the other reliability, or neither changed nor forced, are left exactly as they were; all others have their flags cleared and their number raised by one, and longest and count are kept right |
| SnapshotSystem.GetSnapshot | NETTIK_Networking/CEntities.h:191-211 | so over a manager's local objects, object after object; variables not selected are left as they were |
| SnapshotSystem.CollectSnapshots | NETTIK_Networking/VirtualInstance.cpp:90-91 | so over all managers; variables not selected, and all of them while the system is stopped, are left as they were |
| SnapshotSystem.OnlyLocalsWatched | NETTIK_Networking/CEntities.h:191-211 | the variables a snapshot looks at are exactly those of local objects, of any manager |
| SnapshotSystem.SentInOrder | NETTIK_Networking/NetObject.cpp:90-108 | the frames sent are those of exactly the variables of that reliability that are changed or forced, one for each, in their order, with value, next number and force flag |
| SnapshotTransfer.LargestBuffer | NETTIK_Networking/VirtualInstance.cpp:78-86 | the loop finds the longest buffer |
| SnapshotTransfer.DoSnapshot | NETTIK_Networking/VirtualInstance.cpp:76-100 | with any frames preloaded, adds the pending ones and a header with their number and longest length, all padded to it, unless the 16-bit number is zero; variables not selected are left as they were |
| SnapshotTransfer.TakeSnapshot | NETTIK_Networking/CEntities.h:311-334 | a fresh stream with preloaded frames ends as the packet of those and all pending frames |
| SnapshotTransfer.HeadedAsPacket | NETTIK_Networking/VirtualInstance.cpp:76-100 | what a snapshot leaves in a stream, concatenated, is that packet |
| SnapshotTransfer.HeaderlessIsRefused | NETTIK_Networking/NetSystemServer.cpp:92-104 | frames without a header are refused, their own fields taken for one |
| SnapshotTransfer.SnapshotArrivesIff | NETTIK_Networking/VirtualInstance.cpp:76-100 | a snapshot reaches the receiver whole and in order iff it has fewer than 65536 frames, and otherwise nothing of it does |
| SnapshotTransfer.DeclaredSizes | NETTIK_Networking/VirtualInstance.cpp:76-100 | every padded frame has exactly the declared length, and the body count times that, so the size check passes |
| SnapshotReception.GetByNetID | NETTIK_Networking/CEntities.h:148-160 | the loop finds the first object of a number, or none |
| SnapshotReception.FindVariable | NETTIK_Networking/NetSystem.cpp:66-73 | the loop finds the first variable of a name, or none |
| SnapshotReception.UpdateVariable | NETTIK_Networking/NetSystem.cpp:81-98 | one variable takes the frame and no other variable of any object changes |
| SnapshotReception.ReadEntityUpdate | NETTIK_Networking/NetSystem.cpp:34-99 | only the first variable of that name in the first object of that number is touched; a frame from a peer leaves every object of another peer, or of none, as it was |
| SnapshotReception.ApplyFrames | NETTIK_Networking/NetSystemServer.cpp:112-123 | frames take effect one after another; whatever a peer sends leaves every object of another peer, or of none, as it was |
| SnapshotReception.OnlyOwnObjects | NETTIK_Networking/NetSystem.cpp:56-65 | over any frames handled for a peer, every object whose peer is not that one is unchanged |
| SnapshotReception.FrameLands | NETTIK_Networking/NetSystem.cpp:34-99 | the exact effect of one frame: nothing from a peer that does not own the object, unforced on a local one, or below the number of a checking variable; otherwise the number, and the value unless locked; and nothing else either way |
| SnapshotReception.FrameLost | NETTIK_Networking/NetSystem.cpp:34-79 | a frame whose number or name the receiver does not have does nothing |
| SnapshotReception.UpdatedLookup | NETTIK_Networking/NetSystem.cpp:34-99 | under any number and name, a frame changes what it names and nothing else |
| SnapshotReception.OthersStay | NETTIK_Networking/NetSystem.cpp:34-99 | what no frame of a snapshot names is left alone by all of them |
| SnapshotReception.EachItsOwn | NETTIK_Networking/NetSystem.cpp:34-99 | with distinct names, each variable receives exactly its own frame |
| SnapshotReception.MirrorsIff | NETTIK_Networking/NetSystem.cpp:34-99 | after an exchange a receiver holds a variable's value iff it did before, or it was sent and ownership, force flag, sequence and lock let it through |
| SnapshotReception.Exchange | NETTIK_Networking/VirtualInstance.cpp:76-100 | sender to receiver: after snapshot, packet and walk, the receiver's objects are as if handed each frame in order, and the sender's flags are cleared |
| SnapshotTick.SnapshotUpdate | NETTIK_Networking/NetSystem.cpp:290-291 | a reliable and then an unreliable pass, packets and walks included: every local variable that is changed or forced has exactly one frame, with its value and next number, among those of its own reliability and none among the others; one that is neither has none; afterwards none sent is marked changed |
| SnapshotTick.OncePerVariable | NETTIK_Networking/NetObject.cpp:90-108 | of what arrives of one pass, a frame is for a variable only if that is of the reliability and changed or forced, each such variable has one, and no two are for the same |
| SnapshotTick.ArrivedInOrder | NETTIK_Networking/NetObject.cpp:90-108 | which variable each arriving frame is of, in order |
| SnapshotTick.SetAndTake | NETTIK_Networking/CNetVarBase.h:109-166 | an accepted typed value is in the one frame the next unforced snapshot puts on the stream, which is forced, and the flags are cleared |
| SnapshotTick.ReachesIff | NETTIK_Networking/NetSystem.cpp:56-98 | after a snapshot's frames a receiver's variable holds the sent value iff it did before, or the sender may update the object, the frame is forced or the object not local, and it is unlocked and has no higher number to check |
| SnapshotTick.SendValue | NETTIK_Networking/NetSystem.cpp:56-98 | the same between two systems of objects, through snapshot, packet and walk |
| SnapshotTick.SetAndSend | NETTIK_Networking/CNetVarBase.h:157-166 | a differing value set on an active object is held after the next pass by every permitted receiver's unlocked variable with no higher number to check, a local object's included, and iff so or held before |
| NetVariable.StepKeepsSound | NETTIK_Networking/CNetVarBase.h:83-181 | every operation keeps it: a variable not marked changed has its value in the last frame it sent |
| NetVariable.DeltaSound | NETTIK_Networking/CNetVarBase.h:83-181 | so over every run of setters, locks, receptions and snapshots from construction |
| NetVariable.StepKeepsOrder | NETTIK_Networking/CNetVarBase.h:109-130 | an operation neither lowers the number nor sends one that is not higher, iff it does not wrap and no unchecked reception puts it back |
| NetVariable.NumbersIncrease | NETTIK_Networking/CNetVarBase.h:109-130 | over every run of such operations, sent numbers are strictly increasing |
| NetVariable.LastWriterWins | NETTIK_Networking/NetVar.cpp:33-41 | after any arrivals, in any order and with any repetitions, a checking variable has the highest number seen, never a lower one, and unless locked that frame's value |
| NetVariable.ReceiverCatchesUp | NETTIK_Networking/NetSystem.cpp:81-98 | if the last frame of a sender not marked changed arrived, in whatever company, any checking receiver holds the sender's value iff it did before, or is unlocked and had seen no higher number |
| PlayerRealm.FreeIdIsFree | NETTIK_Networking/CPlayerRealm.cpp:19-31 | in an orderly table the ID about to be issued is not in use |
| PlayerRealm.ListedIff | NETTIK_Networking/CPlayerRealm.cpp:33-40 | adding keeps the table in order (IDs in use and free make up 0..n-1 once each, players carry their keys) iff the player is not listed |
| PlayerRealm.UnlistedKeepsOrder | NETTIK_Networking/CPlayerRealm.cpp:54-64 | removing any ID keeps it in order, with the freed ID at the end of the free list |
| PlayerRealm.UnlistedByNetIs | NETTIK_Networking/CPlayerRealm.cpp:66-80 | by net ID, exactly the lowest player that has it goes, its ID put back last; without one the table is as it was |
| PlayerRealm.StepIff | NETTIK_Networking/CPlayerRealm.cpp:19-80 | each operation keeps it in order iff it lists no listed player; the span grows only to the number of players |
| PlayerRealm.SpanIsPeak | NETTIK_Networking/CPlayerRealm.cpp:19-80 | used and free IDs are together as many as there ever were players at once, and no ID issued is higher |
| PlayerRealm.RealmRuns | NETTIK_Networking/CPlayerRealm.cpp:19-80 | from an empty realm, over every run that lists no player twice: a partition of 0..n-1, n the peak number of players, every issued ID below n |
| PlayerRealm.CPlayerRealm.GetFreeID | NETTIK_Networking/CPlayerRealm.cpp:19-31 | takes the oldest freed ID off its list, or the number of players if there is none |
| PlayerRealm.CPlayerRealm.Enlist | NETTIK_Networking/CPlayerRealm.cpp:33-40 | the player gets the free ID and is listed under it |
| PlayerRealm.CPlayerRealm.Add | NETTIK_Networking/CPlayerRealm.cpp:33-40 | and gets its peer; in an orderly table it joins the others, elsewhere it may take the place of one |
| PlayerRealm.CPlayerRealm.Remove | NETTIK_Networking/CPlayerRealm.cpp:54-64 | frees the ID iff it is in use, and says so |
| PlayerRealm.CPlayerRealm.RemoveByNetID | NETTIK_Networking/CPlayerRealm.cpp:66-80 | finds a player iff one has the net ID; then the lowest such ID leaves the table and goes to the end of the free list, and nothing else; otherwise nothing changes |
| ClientEntities.LocalsOfErased | NETTIK_Networking/CEntities.h:462-489 | freeing a number from both lists keeps the one the local part of the other |
| ClientEntities.HappenedKeepsOrder | NETTIK_Networking/NetSystemClient.cpp:58-123 | an allocation or deallocation, repeated or unknown ones included, keeps numbers unique and the local list the local part of the object list, in order |
| ClientEntities.TablesMean | NETTIK_Networking/NetSystemClient.cpp:58-123 | after any events the lists hold what the events alone mean: a number's first allocation fixes its controller until it is deallocated |
| ClientEntities.LocalAfter | NETTIK_Networking/NetSystemClient.cpp:58-123 | after one message an object is local in a manager iff it was and is not the one freed there, or is allocated there as local under an unused number |
| ClientEntities.AllocationIs | NETTIK_Networking/NetSystemClient.cpp:58-87 | an allocation lists an unused number last, among the locals and in the controlled table iff it is local; one of a used number or for an unknown manager changes nothing |
| ClientEntities.DeallocationIs | NETTIK_Networking/NetSystemClient.cpp:89-123 | a deallocation takes the first of the number out of either list, and the number out of the controlled table iff that object was local; no other manager changes |
| ClientEntities.DeallocationLost | NETTIK_Networking/NetSystemClient.cpp:89-110 | one of an unknown number or manager changes nothing |
| ClientEntities.ExactIff | NETTIK_Networking/NetSystemClient.cpp:112-120 | a message keeps the controlled table exactly the local numbers iff it does not free one of two local objects with one number |
| ClientEntities.EachManagerAlone | NETTIK_Networking/NetSystemClient.cpp:58-123 | a manager's tables depend on its own messages alone |
| ClientEntities.ClientRuns | NETTIK_Networking/NetSystemClient.cpp:58-123 | over every run in which a number belongs to one manager, every manager's tables are what its events mean and the controlled table is exact |
| ClientEntities.SharedNumberIsLost | NETTIK_Networking/NetSystemClient.cpp:112-120 | one number local in two managers: freeing it in one takes it out of the controlled table for both |
| ClientEntities.EntityManager.GetByNetID | NETTIK_Networking/CEntities.h:148-160 | finds the first object of a number iff there is one |
| ClientEntities.EntityManager.BuildLocal | NETTIK_Networking/CEntities.h:435-460 | lists the object last, and among the local ones iff its controller is the local one |
| ClientEntities.EntityManager.FreeLocal | NETTIK_Networking/CEntities.h:483-489 | erases the number's first object from both lists |
| ClientEntities.EntityManager.GetControlled | NETTIK_Networking/CEntities.h:492-512 | gives the local object at a place; in orderly tables that is the place among all local objects |
| ClientEntities.FreeListEnt | NETTIK_Networking/CEntities.h:462-481 | the erasing loop removes the first object of the number and no other |
| ClientEntities.NetSystemClient.EntAllocate | NETTIK_Networking/NetSystemClient.cpp:58-87 | fails for an unknown manager; builds only an unknown number; notes it in the controlled table iff local |
| ClientEntities.NetSystemClient.EntDeallocate | NETTIK_Networking/NetSystemClient.cpp:89-123 | fails for an unknown manager; ignores an unknown number; frees a known one, and its controlled entry iff local |
| Interpolation.RingLaw | NETTIK_Networking/NetVarBufferBase.h:149-152 | the index stays in the ring and one back from the next slot is the slot it was, through the unsigned wrap at 0 |
| Interpolation.ReadIs | NETTIK_Networking/CNetVarBufferedVector.cpp:16-60 | one read, from the fields alone: when time is counted, that half of it is, rounded towards zero, and which point is shown |
| Interpolation.NextStep | NETTIK_Networking/NetVarBufferBase.h:38-91 | what an update leaves: the next slot of the ring, the value in it, no time passed, the flags and the rate; slots not involved are kept |
| Interpolation.ShownAfter | NETTIK_Networking/NetVarBufferBase.h:38-91 | after an update the step leads to the new position, from the point shown if that is within 40 units and from the last position otherwise, and only a step of at most 18 units is drawn |
| Interpolation.ContinuousIff | NETTIK_Networking/NetVarBufferBase.h:38-91 | in any state, an update does not move the point shown iff it is that point, or the step to it is drawn smoothly |
| Interpolation.NeverFar | NETTIK_Networking/CNetVarBufferedVector.cpp:16-60 | the point shown is never further from the start of the step than 1.2 times its length |
| Interpolation.ArrivesOnTime | NETTIK_Networking/CNetVarBufferedVector.cpp:16-60 | after exactly one step's time the point is at the received position |
| Interpolation.ReadsAddUp | NETTIK_Networking/CNetVarBufferedVector.cpp:16-60 | while a step is drawn, reads of even times add half their sum to what has passed and change nothing else |
| Interpolation.MovesEvenly | NETTIK_Networking/CNetVarBufferedVector.cpp:43-59 | reads of even times adding up to 2*t show the point t/timeFrame along the step for t up to 1.2 timeFrame; at timeFrame and past 1.2 times it, the received position |
| Interpolation.Approaches | NETTIK_Networking/NetVarBufferBase.h:38-91 | after any run, an update within 18 units that is not the first is approached from the point shown at that speed, and reached after the time the rate sets |
| Interpolation.RunKeepsCount | NETTIK_Networking/NetVarBufferBase.h:80-90 | over every run the timing flags say whether one and whether two updates came |
| Interpolation.SeamlessIff | NETTIK_Networking/NetVarBufferBase.h:38-91 | after any run of updates, reads and locks, an update does not move the point shown iff it is that point, or it is not the first, a rate is set and it lies within 18 units |
| Interpolation.CNetVarBufferedVector.GetLive | NETTIK_Networking/NetVarBufferBase.h:117-132 | a local variable gives its own value, a replica the last position received |
| Interpolation.CNetVarBufferedVector.GetInterpolated | NETTIK_Networking/CNetVarBufferedVector.cpp:16-60 | the live value before two updates; the received position, counting no time, beyond 18 units or without a rate; otherwise half the time is counted and the point that far along the step is shown, or past 1.2 times the step the received position |
| Interpolation.CNetVarBufferedVector.SetRaw | NETTIK_Networking/NetVarBufferBase.h:38-91 | a locked variable ignores it; a local one takes the value, is counted and marked; a replica puts it in the next slot of the ring and starts the next step |

## Left out

* ENet sockets, threads, timers, logging, singletons, callbacks and shared-pointer counts. What they
  deliver appears as parameters: whether the system runs, the connected peers, the elapsed time, the
  network rate.
* Protobuf encoding. List messages are a datatype, and finding the list a message names is taken as done.
* Interleavings of threads: each locked method, and `UpdateListDelta` as a whole, is one step. So is the
  building of an object with its dump.
* `ScheduleCheck` of lists, whose deferred callback can create a removed key again; none is bound here.
* Several writers of one list: the code has no rule for them, so a list has one writer, the server or an
  owner.
* `remove_all`, which removes the keys of a copy one by one and ends as `clear` does.
* One stream used for several instances in one tick (NetSystem.cpp:281-308). Packets are proved for one
  snapshot of a fresh stream, with any number of frames preloaded.
* All instances' objects are one list in walking order, and a client's allocation frames and data frames in
  one packet are applied by their own tables: how an allocation and an update of one object in a packet
  meet is not modelled.
* Names are written up to 62 bytes, without NUL, and values up to 127 bytes. A received name of 64 bytes has
  no terminator, and comparing it runs on into the data behind it; the model takes the 64 bytes.
* `ProcessRealmDeletes`, whose queue nothing fills, and the 32-bit width of realm IDs.
* `HandleEntOwnership`, which reads numbers and does nothing with them.
* `InvalidateChanges` and the typed setter of buffered variables; the buffered quaternion and `Slerp`.
* Floating-point rounding, NaN and epsilon comparisons: reals are exact, `IsZero` is equality with zero, a
  square root is any function with the defining property, a sine and cosine any pair on the unit circle.
* 2x2 and 3x3 matrices, axis-angle and Euler decomposition, `SetScale`, `FaceTarget`, `MoveLocalY`, `Round`:
  smaller copies of what is here, or functions that do not do what their comments say.
* Making the single-axis and combined rotation matrices is modelled on values: they are assignments of
  sixteen entries with nothing between them.
- ListProtocol.Convergence: says nothing of peers whose join was not clean, which `JoinConvergesExactly` proves do not converge from there by the queue alone; for a stale key `StaleKeyStays` proves they never do while the server writes.
- ListOwner.OwnerConvergence: for runs of safe steps; that a step which is not safe breaks the agreement is `StepSettlesIff`, but a later write or dump may restore it.
- ListDivergence.StaleKeyStays: for a list the server writes.
- NetVariable.NumbersIncrease: for runs without a wrap of the 32-bit number and without a reception that lowers it; `StepKeepsOrder` proves these are the only exceptions.
- NetVariable.DeltaSound: speaks of frames sent, whoever they were sent to; a forced snapshot for one peer clears the flags for all.
- SnapshotTransfer.DoSnapshot: for preloaded buffers shorter than 2^32 bytes, the width of a size on x86.
- SnapshotTick.SnapshotUpdate: for fewer than 65536 local variables with distinct numbers and names, each pass on a stream of its own.
- SnapshotTick.SendValue: for variables of one size on both sides, and one sender at a time.
- Interpolation.MovesEvenly: for even times, which are halved without a rest, adding up to less than 2^64; `ReadIs` has the rounding of odd and negative ones.
- SnapshotReception.MirrorsIff: for variables with distinct numbers and names, of one size on both sides.
- Interpolation.SeamlessIff: for fewer than 2^32 operations, so that the count of changes does not wrap, and one network rate throughout.
