# A verified model of FERN/HVAC's read path

FERN/HVAC is a read-through cache. A client library intercepts file calls, routes each tracked file to a
server, and keeps the map from local to remote descriptors; the server reads from the parallel file system
(PFS) or from a node-local copy that a background thread made. This project models those pieces in Dafny and
proves what they promise, over every run and every input.

`dafny verify dfyconfig.toml` checks everything.

## How the files fit together

| file | what it holds |
|---|---|
| `Posix.dfy` | reference descriptors: `read`, `pread`, `lseek` of IEEE Std 1003.1-2017 (System Interfaces) on immutable files, and what they promise in bytes and positions; 32-bit truncation |
| `Decimal.dfy`, `Text.dfy` | printing and reading integers, as `to_string`, `stoi` and `%d` do |
| `Labels.dfy` | the label strings of the hash ring, and exactly when they collide |
| `Ring.dfy` | the consistent-hash ring as a map from positions to nodes, with an uninterpreted 64-bit hash |
| `HashRing.dfy` | the `HashRing` class: a sorted sequence of entries with binary search, specified by `Ring.dfy` |
| `Failover.dfy` | timeouts, guard, removal and routed requests as a transition system with any number of threads |
| `Client.dfy` | the client object, each call proved to be a run of `Failover.dfy` |
| `Server.dfy` | the server's request handlers, as functions and as an object |
| `Sessions.dfy` | any number of clients and servers: local descriptor, remote descriptor, server offset; closes, and reads and opens whose callers gave up, delivered late; the ownership invariant |
| `Wrappers.dfy` | the intercepted calls on the state they update and the server objects they ask, each proved to keep in step with a plain descriptor |
| `Refinement.dfy` | ownership, late closes and the refinement to plain descriptors |
| `Streams.dfy` | the refinement for one descriptor, whatever fails for the others |
| `Fallback.dfy` | what survives failures and what does not: pread transparency, opens that time out, leaks; 32-bit seeks |
| `Routing.dfy` | where the routing hypothesis holds and where it does not |
| `RingRouting.dfy` | ring routing over runs in which failover and sessions interleave |
| `Mover.dfy`, `DataMover.dfy` | the server cache with its background mover: interleaving model, and the mover's loops as methods proved to be runs of it |
| `Completion.dfy` | per-request completion of remote reads, with frame addresses that are used again |
| `SeekSlot.dfy` | the one completion slot all seeks share |
| `Directory.dfy` | the file through which servers publish their addresses |

The shared notions are `Posix.Description` (contents and position), `Servers.Path` and `Servers.Files`,
`Servers.Coherent` (a cached path leads to a complete copy), and host numbers counted from 0. Three links tie
the models together: `DataMovers.MoverRunsAreCopies` (the mover only does what the sessions allow a server to
do in the background; `DataMovers.OpenAfterCopies`: and its copies are then served), `Mover.OpenIsAtomic` (the open handler of the interleaving model gets the descriptor
the one-step handler gets), and `Routing.RingReachesExactly` (what ring routing and failover mean for a
session).

`Sessions.Inv` is kept by every action under `Sessions.WellRouted`, the hypothesis that a request which moves
or closes a remote descriptor reaches the host that served and answered the open. `Routing.dfy` shows that modulo routing
in all operations meets it outright, that ring routing meets it exactly until the host is removed, and that
the committed mixture (modulo for open and read, the ring for pread, lseek and close) does not: a pread can
return another file's bytes, and a close can leave its own descriptor open for ever.

## What turned out not to hold

- The labels "server" + i + r are distinct exactly up to ten servers or ten replicas
  (`Labels.LabelsDistinctExactly`). With eleven servers and the client's 100 virtual nodes, positions are
  shared under every hash. "Empty ring" means that all hosts failed exactly when every host has a position of
  its own (`Failover.EmptiesLastExactly`).
- A guarded pread or close can still be sent to a host at the timeout limit: the lookup is outside the lock.
  It happens exactly when another thread removed the host between the lookup and the guard
  (`Failover.SendAtLimitIffRemovedMeanwhile`).
- After an open that timed out the file is tracked with whatever entry `fd_redir_map` has, and an answered
  pread can return another file's bytes although it went to the host of its open
  (`Fallback.TimedOutOpenReadsTheOldFile`); when it is right is said exactly, for every state, by
  `Fallback.AnsweredPreadExactly`. Without timed-out opens there is no such entry, and once the late answer is
  there the descriptor works like any other (`Fallback.LateAnswerMakesItReach`).
- A pread at offset -1 is taken for a read by the server; below -1 the result is right, but the descriptor is
  no longer tracked.
- A read whose answer is lost is repeated on the local descriptor, which has stood at the start of the file all
  the time: it gives the first bytes again, and is right exactly when the file reads the same from there
  (`Fallback.LostReadExactly`, `Fallback.LostReadStartsOver`). A pread, which names its offset, is not affected.
- With the timed wait a response that comes after the timeout is written into a stack frame that may by then
  belong to the next call, which can return it as its own (`Completion.TimedWaitCrossesTalk`).
- Seeks that overlap can hang or return each other's position: the shared counter is incremented, and the
  loop waits for exactly 1. Starting a seek is safe exactly when no other is under way
  (`SeekSlot.SafeToStartExactly`); n overlapping seeks that are all answered before anyone looks hang exactly
  when n is not 1 modulo 256 (`SeekSlot.ManySeeksExactly`).
- A session whose tracking was dropped sends no close. Over well-routed runs its descriptor stays open for
  ever (`Fallback.LeaksAreForever`); in general a descriptor stays open exactly until some close naming its
  host and number is delivered (`Fallback.OpenUntilNamedExactly`), and after an open that timed out that can
  be another file's close (`Fallback.DroppedSessionClosedByAnother`).
- After an open that timed out a close can end, and a seek can move, a descriptor that another session is
  using (`Fallback.TimedOutOpenHarmsDescriptorZero`). A close spares all others exactly when what it names is
  its own or not open (`Refinement.CloseReachesOwnExactly`).
- Opens and reads go by modulo and pass no guard: they are still sent to a host that has been removed and
  flagged, exactly when it is their path's modulo host (`Failover.ModuloSendsToFlaggedExactly`,
  `Failover.OpensStillGoToFlaggedHosts`).
- A seek that goes to another host leaves its descriptor behind, unless it moves nothing
  (`Routing.MisroutedSeekStaysTiedExactly`).
- An address read from a line that is still being written is remembered as it is, and wrong for ever unless
  nothing of it was missing (`Directory.HalfWrittenAddressExactly`).
- A close message is sent even when the open had failed; then, and only then, the server's close fails.

Where code and documentation disagree the code is followed: the repository's README shows `hvac_read_block`
waiting once without looking at `done`; the committed function loops, and so does `Completion.dfy`.

## Model

| member | source | states |
|---|---|---|
| `Posix.PreadExactly` | hvac_comm.cpp:381 | A result is a pread's if and only if it holds the bytes from the offset on, as many as asked for, or fewer because the file ends there; at a negative offset it is -1 and no bytes. |
| `Posix.ReadsInARow` | hvac_comm.cpp:363 | A read gives the bytes at the position and moves it by as many, and two reads in a row give what one read of both counts gives. |
| `Posix.LseekExactly` | hvac_comm.cpp:629 | A result is an lseek's if and only if it is counted from the start, the position or the end (0, 1, 2), or refused without moving. |
| `Posix.SeekTellsThePosition` | wrappers.c:296-317 | Seeking by 0 from the position tells it and moves nothing, and going back to it undoes any seek. |
| `Posix.SeekFromTheEnd` | wrappers.c:296-317 | k bytes before the end a read finds exactly the last k bytes; at the end, nothing. |
| `Posix.SeekIsRelative` | wrappers.c:296-317 | After a seek from the position a read gives the bytes at that distance. |
| `Text.SpaceAndSigns` | hvac_comm_client.cpp:577 | Leading white space and either sign are accepted, white space after the sign is not. |
| `Labels.EqualLabels` | hvac_hashing.h:53-61 | Two replica labels of different servers can only be equal if one has a replica number of at least ten and the other a server number of at least eleven. |
| `Labels.ElevenCollides` | hvac_hashing.h:53-61 | Replica 10 of server1 and replica 0 of server11 have the same label, "server110". |
| `Labels.LabelsDistinctExactly` | hvac_client.cpp:83-88 | All labels of a client's ring are pairwise distinct if and only if there are at most ten servers or at most ten replicas. |
| `Ring.LowerBoundIsNearest` | hvac_hashing.h:73-84 | `lower_bound` with wrap-around finds exactly the position met first clockwise from the key. |
| `Ring.RemovalMovesOnlyItsKeys` | hvac_hashing.h:64-70 | After removing a node a key's owning position changes if and only if it was one of the node's; no collision assumption. |
| `Ring.AdditionMovesOnlyToNode` | hvac_hashing.h:53-61 | After adding a node a key keeps its owner or goes to that node, and to the node exactly when one of its positions is now nearest. |
| `Ring.RemoveUndoesAdd` | hvac_hashing.h:53-70 | Removing a node just added restores the ring if and only if none of its positions was taken before. |
| `Ring.RemoveAllErases` | hvac_hashing.h:64-70 | A sequence of removals erases exactly the positions of the set of nodes removed. |
| `Ring.RemovalOrderIrrelevant` | hvac_client.cpp:277-278 | Removing the same set of servers in any order, with repeats, gives the same ring, colliding positions included. |
| `Ring.BuildOwner` | hvac_client.cpp:83-88 | Every entry of the initial ring carries the name of a server that has this position. |
| `Ring.CollisionFreeExactly` | hvac_client.cpp:83-88 | Under a hash that separates different labels, servers share no position if and only if there are at most ten servers or ten replicas. |
| `Ring.HostNumberOfServer` | hvac_hashing.h:104-110 | ConvertHostToNumber inverts the naming of hosts: "server" + to_string(i) gives i - 1. |
| `Ring.ConversionExactly` | hvac_hashing.h:104-110 | A name is refused as invalid if and only if "server" stands nowhere in it; a host number is one less than the 32-bit number after its sixth character. |
| `HashRings.HashRing.constructor` | hvac_hashing.h:17-21 | A new ring has no nodes. |
| `HashRings.HashRing.LowerBound` | hvac_hashing.h:73-84 | Binary search returns the index of the first entry at or after the key. |
| `HashRings.HashRing.Assign` | hvac_hashing.h:53-61 | Sets one position and no other. |
| `HashRings.HashRing.Erase` | hvac_hashing.h:64-70 | Erases one position and no other. |
| `HashRings.HashRing.AddNode` | hvac_hashing.h:53-61 | The new ring is the old one with all the node's replica positions assigned to it. |
| `HashRings.HashRing.RemoveNode` | hvac_hashing.h:64-70 | The new ring is the old one without the node's replica positions, whoever holds them. |
| `HashRings.HashRing.GetNode` | hvac_hashing.h:73-84 | The clockwise-nearest node of the key, or the "Empty ring" error exactly on an empty ring. |
| `Failover.InvInit` | hvac_client.cpp:83-91 | The start state satisfies the failover invariant. |
| `Failover.TrackKeepsInv` | hvac_client.cpp:139-150 | Building the ring a second time at Mercury initialisation is safe, because nothing can be flagged before. |
| `Failover.InvKept` | hvac_client.cpp:267-343 | Every step of every thread keeps: the ring is the initial one minus the flagged hosts' positions, flagged hosts reached the limit, all hosts index the vectors. |
| `Failover.InvAlways` | hvac_client.cpp:267-343 | The same over any run. |
| `Failover.FlaggedNeverRouted` | hvac_client.cpp:267-284 | A host named by the ring is in range and not flagged; so it is for pread, lseek and close, which are ring-routed. |
| `Failover.RingHostExactly` | hvac_client.cpp:267-268 | In every state of the protocol the ring names a host for a path if and only if one of that host's virtual nodes, under its name, is the first at or after the hash of the path, with wrap-around. |
| `Failover.ModuloHostExactly` | hvac_client.cpp:156 | A host is the one a path is opened and read at if and only if it is below the server count and congruent to the path's hash. |
| `Failover.RemovedOnce` | hvac_client.cpp:275-284 | Over any run a host is removed once if its flag went up and never otherwise, and flags never go down. |
| `Failover.FlagsOnlyGrow` | hvac_client.cpp:275-284 | All flags set before a run are set after it. |
| `Failover.SameFailuresSameRouting` | hvac_client.cpp:277-278 | Clients with the same flags route every path to the same host, whatever their runs were. |
| `Failover.PositionAffinity` | hvac_hashing.h:64-84 | Without any collision assumption, over any run a path keeps its owning position if and only if no removed host has a virtual node there. |
| `Failover.Affinity` | hvac_client.cpp:267-337 | With collision-free positions a path keeps its host over any run if and only if that host is not flagged at its end. |
| `Failover.EmptiesLastExactly` | hvac_hashing.h:74-76 | Whichever hosts are removed, the ring is empty only when all are, if and only if every host has a position no other host has; it can be checked before any call. |
| `Failover.EmptyRingMeansAllFailed` | hvac_hashing.h:74-76 | In a running client of such a configuration the ring is empty if and only if every host is flagged. |
| `Failover.CollisionFreeHasOwn` | hvac_client.cpp:83-88 | Collision-free positions are one way to meet that condition. |
| `Failover.SendAtLimitIffFlagged` | hvac_client.cpp:270-293 | The guard lets a request to a host at its limit pass if and only if the host is already flagged; otherwise it removes the host. |
| `Failover.UninterruptedSendIsBelowLimit` | hvac_client.cpp:329-343 | Without interleaving between lookup and guard, a request goes only to a host below the limit. |
| `Failover.SendAtLimitIffRemovedMeanwhile` | hvac_client.cpp:267-284 | With interleaving, it goes to a host at the limit if and only if others removed that host in between. |
| `Failover.LateGuardSendsAtLimit` | ~:223-285 | Such a run exists from the start state for every configuration: timeouts counted by the returning waits, one removal, one late guard. |
| `Failover.ModuloSendsToFlaggedExactly` | hvac_client.cpp:208 | An open or a read is sent to a flagged host, at its limit, if and only if its path's modulo host is flagged. |
| `Failover.OpensStillGoToFlaggedHosts` | hvac_client.cpp:156 | A run from the start, for every configuration and path, removes the path's ring host; any path can then be opened, and the open is sent to the flagged host if and only if that is its modulo host. |
| `Failover.RemovalSilencesAHealthyHost` | hvac_hashing.h:64-70 | If all positions of one host are also another's, and that one serves some path, a run from the start removes it alone and no path is routed to the first, healthy, host any more; with two servers the ring is empty. |
| `Failover.SharedPositionsLoseAHealthyHost` | hvac_hashing.h:64-70 | A configuration of two servers in which this happens. |
| `Failover.ElevenServersShareAPosition` | hvac_client.cpp:16 | With at least eleven servers and eleven replicas (the client has 100), under every hash, as soon as server1 serves a path: a run from the start removes server1 alone, and keys that routed to a later, healthy server lose their owner. |
| `Clients.Client.constructor` | hvac_client.cpp:83-91 | A new client is in the start state of the protocol. |
| `Clients.Client.InitializeHashRing` | hvac_client.cpp:83-91 | Builds a fresh ring of all servers and resizes the vectors, keeping what they hold. |
| `Clients.Client.InitializeOnce` | hvac_client.cpp:139-150 | Before the first request only, the ring is built once more; nothing else changes. |
| `Clients.Client.Wait` | ~:223-248 | Without an answer in time the host's counter goes up by one; no other counter changes. |
| `Clients.Client.TrackFile` | hvac_client.cpp:93-183 | Tracking a file is a Track step and the answer's step: the path is remembered, the request goes to the host that is congruent to its hash modulo the server count, and only a timeout counts against it. |
| `Clients.Client.RemoteRead` | hvac_client.cpp:189-244 | A tracked read is sent to the host congruent to the hash of its path modulo the server count; the caller gets the answer, or -1 and a counted timeout; -1 ends the tracking. |
| `Clients.Client.Await` | ~:251-285 | The caller gets the answer, or -1 after a timeout, which is charged to the host; -1 ends the tracking and nothing else does. |
| `Clients.Client.RingLookup` | hvac_client.cpp:267-268 | The host with the virtual node first at or after the hash of the descriptor's path, in range and unflagged, or the empty-ring error. |
| `Clients.Client.GuardHost` | hvac_client.cpp:270-285 | Removes and flags the host exactly when it is at its limit and not yet flagged. |
| `Clients.Client.PreadAt` | hvac_client.cpp:270-298 | What the guard, the request and the wait of a pread do to counters, flags, ring and tracking. |
| `Clients.Client.CloseAt` | hvac_client.cpp:329-343 | The guard withholds the close request of a host it removes, and the descriptor is forgotten either way. |
| `Clients.Client.RemotePread` | hvac_client.cpp:250-301 | A pread is a run of the protocol in each of its cases; a request is only sent to a host below the limit, the one with the virtual node first at or after the path's hash; a timeout gives -1. |
| `Clients.Client.RemoteLseek` | hvac_client.cpp:303-322 | An lseek is sent to the host with the virtual node first at or after the path's hash, without a guard, and changes nothing in the client. |
| `Clients.Client.RemoveFd` | hvac_client.cpp:370-377 | A close is a run of the protocol in each of its cases; the request, if sent, goes to the host with the virtual node first at or after the path's hash, and the path is forgotten. |
| `Servers.RedirectionIsTransparent` | hvac_comm.cpp:494-520 | With a coherent cache a redirected open shows the bytes of the PFS file from offset 0. |
| `Servers.Server.OpenHandler` | hvac_comm.cpp:494-520 | Of a cached path the copy is opened, otherwise the path itself, at position 0 and under a fresh number, and the path is remembered; with a coherent cache it is a plain descriptor of the PFS file either way; no other descriptor changes. |
| `Servers.Server.ReadHandler` | hvac_comm.cpp:362-425 | The answer has the bytes of the PFS file of the descriptor's path from the position (offset -1) or the offset on, as a plain read or pread; a read moves the position by what it gave; it fails exactly for an unknown descriptor or an offset below -1. |
| `Servers.Server.SeekHandler` | hvac_comm.cpp:621-634 | Within 32 bits, result and new position are a plain lseek's on the PFS file of the descriptor's path: counted from its start, the position or its end. |
| `Servers.Server.CloseHandler` | hvac_comm.cpp:541-618 | Exactly this descriptor and its path are gone, the result is 0 if and only if it was open, and its path is queued unless it is cached; an unknown descriptor has the empty path. |
| `Wrappers.Wrapper.constructor` | hvac_client.cpp:83-91 | A fresh system, with a server object for each host, is in step with no descriptors at all. |
| `Wrappers.Wrapper.Open` | wrappers.c:91-136 | An intercepted open: if it succeeds, the new descriptor is a plain one at position 0, and descriptors stay owned and in step. |
| `Wrappers.Wrapper.OpenWithoutAnswer` | ~:223-248 | An open whose wait times out: the file is tracked all the same, `fd_redir_map` keeps its old entry, and descriptors stay owned. |
| `Wrappers.Wrapper.RemoteRead` | hvac_client.cpp:189-301 | A remote read or pread, asked of the server object: -1 ends the tracking, and a timed-out request stays on its way. |
| `Wrappers.Wrapper.Read` | wrappers.c:167-194 | An intercepted read: if nothing fails, it gives the bytes at the plain descriptor's position and moves that by as many, and descriptors stay owned and in step; if its answer is lost, it gives the file's first bytes. |
| `Wrappers.Wrapper.Pread` | wrappers.c:214-258 | An intercepted pread: if nothing fails, descriptors stay owned and in step; and even with failures, if it is well routed, it gives the local file's bytes from the offset on and descriptors stay owned. |
| `Wrappers.Wrapper.Lseek` | wrappers.c:296-317 | An intercepted lseek: if nothing fails, result and position are the plain descriptor's, counted from the start, the position or the end, and descriptors stay owned and in step. |
| `Wrappers.Wrapper.Close` | wrappers.c:140-164 | An intercepted close: the plain descriptor is closed too, and the others stay owned and in step, the request being sent or withheld. |
| `Wrappers.Wrapper.ReceiveClose` | hvac_comm.cpp:541-618 | A close message handled at last changes nothing for any descriptor still in use. |
| `Sessions.InvInit` | hvac_client.cpp:83-91 | The ownership invariant holds at the start. |
| `Sessions.InvKept` | hvac_comm_client.cpp:315-366 | Every action under the routing hypothesis keeps ownership: each unfinished session holds its own descriptor, on its own file, under its own path; each close message speaks for one closing session; a late read can only move a leaked descriptor; a late open brings its own session's number. |
| `Refinement.InvAlways` | hvac_comm.cpp:520-617 | The same over any run. |
| `Refinement.LiveSessionsDiffer` | hvac_comm.cpp:520 | No two live sessions hold the same descriptor of the same server. |
| `Refinement.DescriptorsAreSessions` | hvac_comm.cpp:520-617 | A server descriptor is open if and only if an unfinished session owns it, then exactly one does, and the path table has that session's path. |
| `Refinement.PathsStayExact` | hvac_comm.cpp:520-617 | A clean action keeps the path table's keys equal to the open descriptors. |
| `Refinement.PathsAlwaysExact` | hvac_comm.cpp:520-617 | They are equal on every server over any run in which sent requests reach the host of the open and opens succeed, whatever is lost, dropped, withheld or late. |
| `Refinement.LateCloseIsExact` | backup/hvac_comm.cpp:291-313 | However late a close is delivered, it succeeds, closes its own session's descriptor and nothing else, and may queue only that session's path. |
| `Refinement.CloseReachesOwnExactly` | hvac_client.cpp:327-343 | In every world: a close that is sent and delivered ends its own session's descriptor if and only if it names it, and spares every other descriptor if and only if what it names is its own or is not open. |
| `Refinement.StepAgrees` | wrappers.c:167-317 | One failure-free call returns what a plain descriptor would and keeps the server's position equal to the plain one's. |
| `Refinement.StreamRefinement` | wrappers.c:91-317 | Over any failure-free run, any interleaving of opens, reads, preads, seeks, closes, late deliveries and copies, every call returns exactly what plain descriptors return, and at the end every position is the plain one's. |
| `Refinement.StreamsKeepPromises` | wrappers.c:91-317 | The same in bytes and positions: over any failure-free run each call gives what it promises on plain files, from one plain state to the next, in an account that names no operation of the model. |
| `Refinement.SameInit` | hvac_client.cpp:83-91 | The refinement's hypotheses hold at the start. |
| `Streams.OthersLeaveItAlone` | wrappers.c:91-317 | Nothing that is well routed and happens to other descriptors, failures included, moves a descriptor or its position. |
| `Streams.OwnStreamRefinement` | wrappers.c:91-317 | Over any well-routed run in which one descriptor's own calls are failure-free, whatever fails for others, its calls return what plain ones do and its position ends as the plain one's. |
| `Streams.FollowingInit` | hvac_client.cpp:83-91 | Its hypotheses hold at the start. |
| `Streams.ServedOpenFollows` | hvac_comm.cpp:494-520 | An open served after its caller gave up, and before the descriptor was used, puts the descriptor in step. |
| `Fallback.AnsweredPreadExactly` | wrappers.c:214-258 | In every state, reachable or not: an answered pread of a tracked descriptor is transparent if and only if the number it sends is not open at the server, or the offset is below -1, or the file behind that number has the same bytes there. |
| `Fallback.PreadIsTransparent` | wrappers.c:214-258 | A pread returns the local pread's count and bytes whether tracked or not, whether its open failed, its own answer was lost, it reached the host that answered the open, or it failed elsewhere. |
| `Fallback.PreadTransparentExactly` | hvac_comm.cpp:362-422 | An answered pread on an open remote descriptor is transparent if and only if the offset is not -1. |
| `Fallback.NegativeOffsetStopsTracking` | hvac_client.cpp:293-298 | After it the descriptor is tracked if and only if the offset was at least -1. |
| `Fallback.LocalsAlwaysAtStart` | wrappers.c:167-194 | Over any well-routed run, while a file is tracked its local descriptor stays at position 0. |
| `Fallback.LostReadExactly` | wrappers.c:188-191 | A read whose answer is lost gives the file's first bytes; that is what a plain read gives if and only if the file reads the same from its start as from the plain position. |
| `Fallback.LostReadStartsOver` | wrappers.c:188-191 | A run from the start in which a read, whose answer is lost, repeats the first bytes. |
| `Fallback.LateReadMovesItsDescriptor` | hvac_comm.cpp:362-425 | The request its caller gave up is served all the same and moves the position of the descriptor it names by what it finds. |
| `Fallback.PreadsAreTransparent` | wrappers.c:214-258 | Over any run, with failures of every kind, in which answered preads go to the host that answered their open, in time or late, or fail, all preads return what plain preads return. |
| `Fallback.AnsweredOpensNeverDrift` | ~:223-248 | As long as no open times out, every tracked descriptor has the answer to its own open, so that only the routing matters; a client can check this. |
| `Fallback.LateAnswerMakesItReach` | hvac_comm_client.cpp:84 | When the answer to a timed-out open comes late, the descriptor's requests from then on reach the host that served it, with its own number. |
| `Fallback.EntryAfterReopening` | hvac_comm_client.cpp:331-360 | In every world: after a close and an open without an answer, requests name descriptor 0 if the close was sent, and otherwise still the earlier file's. |
| `Fallback.TimedOutOpenReadsTheOldFile` | ~:466 | A run from the start after which a pread, sent to the host of its own timed-out open, returns the bytes of the file the descriptor had before. |
| `Fallback.TimedOutOpenReadsDescriptorZero` | ~:466 | A run from the start after which it returns the bytes of the server's descriptor 0. |
| `Fallback.LeaksAreForever` | hvac_client.cpp:293-298 | Over any later well-routed run, a session dropped without a close message keeps its server descriptor. |
| `Fallback.OpenUntilNamedExactly` | hvac_comm.cpp:541-547 | In every world and over every run, with no hypothesis on routing, a descriptor stays open throughout if and only if no close naming its host and number is delivered. |
| `Fallback.DroppedSessionClosedByAnother` | ~:317-346 | A run from the start in which a dropped session's descriptor is closed by the close of its descriptor's next file, whose open timed out. |
| `Fallback.StrayRequestsHitOthers` | hvac_comm.cpp:541-634 | In every world a close or seek that names another session's descriptor closes or moves it. |
| `Fallback.TimedOutOpenHarmsDescriptorZero` | ~:317-346 | A run from the start after which a close and a seek of a descriptor whose open timed out do so to a live one. |
| `Fallback.CloseSucceedsExactly` | backup/hvac_comm.cpp:298-299 | The asserted close succeeds if and only if the session's open had. |
| `Fallback.SeekAgreesExactly` | hvac_comm.h:90-92 | The 32-bit seek agrees with a plain one exactly under a condition on offset and target. |
| `Routing.RoutedReaches` | backup/hvac_client.cpp:160-225 | With opens placed by a fixed route, an operation whose open was answered reaches its host if and only if it follows the route; enough for open and read sessions of the committed code. |
| `Routing.ModuloRoutingRefines` | backup/hvac_client.cpp:146-225 | With modulo routing in all five operations, every failure-free run from the start refines plain descriptors; nothing is assumed about where requests arrive. |
| `Routing.RingReachesExactly` | hvac_client.cpp:157-175 | A session opened at the ring's host is reached by later ring-routed operations if and only if that host has not been removed. |
| `RingRouting.HostStays` | hvac_client.cpp:267-284 | No step of the failover protocol changes the host the ring names for a path while that host is not flagged. |
| `RingRouting.RingRoutingRefines` | hvac_client.cpp:157-175 | With collision-free positions and the ring in all operations, over any interleaving of timeouts, removals and calls of any number of clients, as long as the hosts that serve files are not removed, every call returns what plain descriptors return. |
| `Routing.RingCallReachesModuloOpenExactly` | hvac_client.cpp:267-314 | With opens placed by modulo, a ring-routed call reaches the host of its open if and only if the ring names the modulo host. |
| `Routing.MisroutedPreadReadsTheOtherFile` | hvac_client.cpp:267-293 | In every state with owned descriptors: a pread that goes where another file was opened under the same number returns that file's bytes, and is right if and only if the bytes agree. |
| `Routing.MisroutedSeekStaysTiedExactly` | hvac_client.cpp:313-314 | In every state in step with plain descriptors, a seek sent elsewhere leaves its descriptor in step if and only if the plain seek moves nothing. |
| `Routing.SameNumberOnTwoHosts` | hvac_client.cpp:156 | Two opens on any two hosts reach such a state from the start. |
| `Routing.MixedRoutingDisagrees` | hvac_client.cpp:156 | The committed mixture does send a path's open and pread to different healthy hosts. |
| `Mover.InvInit` | hvac_data_mover.cpp:16-23 | The cache's invariant holds at the start. |
| `Mover.InvKept` | hvac_data_mover.cpp:36-74 | Every step of handlers and mover keeps lock ownership, sound sleep, order of requests, privacy of the copy being made, and coherence. |
| `Mover.CacheAlwaysCoherent` | hvac_data_mover.cpp:50-74 | In every interleaving a cached path leads to a complete copy, and a name looked up under the lock still has the source's bytes when it is opened without it. |
| `Mover.OpenIsAtomic` | hvac_comm.cpp:494-520 | Lookup, unlock and open give the descriptor a single-step open would give. |
| `Mover.LookupPicksTheCopy` | hvac_comm.cpp:494-498 | The name handed to open(2) is the copy of a cached path, in one of the mover's directories and not on the PFS, and the path itself if it is not cached. |
| `Mover.CachedOpenUsesTheCopy` | hvac_comm.cpp:494-506 | If a path is cached when its open comes in, then whatever the mover does until it is opened, what is opened is a complete copy in one of the mover's directories. |
| `Mover.CloseQueuesExactly` | hvac_comm.cpp:586-598 | A close, interleaved with the mover in any way, queues nothing if its path was cached when it came in, and exactly that path, once, if it is still not cached at the end. |
| `Mover.CloseIsHandleClose` | hvac_comm.cpp:586-598 | With the mover standing still the steps of a close queue what the one-step close handler queues. |
| `Mover.FileNameIsLastPart` | hvac_data_mover.cpp:56 | A copy's name ends in the last component of its path, which has no slash and which the copy keeps. |
| `Mover.CachedForGood` | hvac_data_mover.cpp:50-74 | Over any run a cached path stays cached and the copy it led to keeps its bytes, even after a second copy replaced it. |
| `Mover.RequestsConserved` | hvac_data_mover.cpp:42-74 | Everything ever queued equals processed, batch list and queue, in order; what was processed is cached unless its copy failed. |
| `Mover.FailuresExact` | hvac_data_mover.cpp:68-73 | Over any run, as many paths are recorded as not cached as copies failed. |
| `Mover.NoDeadlock` | hvac_comm.cpp:586-598 | A blocked thread waits for a mutex the other one holds, and the other one can move. |
| `Mover.WorkerHoldsOne` | hvac_data_mover.cpp:36-66 | The mover never holds both mutexes. |
| `Mover.QuietMeansDone` | hvac_data_mover.cpp:36-47 | When the mover sleeps and no handler runs, everything ever queued has been processed. |
| `Mover.QueueIsGuarded` | hvac_comm.cpp:592-596 | A thread without data_mutex neither changes the queue nor depends on it. |
| `Mover.CacheIsGuarded` | hvac_comm.cpp:494-503 | A thread without path_map_mutex neither changes the map nor depends on it. |
| `Mover.UnconditionalWaitLosesWakeups` | backup/hvac_data_mover.cpp:35-36 | With the unconditional wait, under the committed handlers as under the backup's, which signal before they push and take no path_map_mutex, a run leads to a sleeping mover, a queued request and no handler about to signal. |
| `Mover.NoLostWakeupExactly` | hvac_data_mover.cpp:36-47 | No wake-up is lost in any interleaving if and only if the wait looks at the queue first, for the committed handlers and for the backup's. |
| `DataMovers.OneCopyIsARun` | hvac_data_mover.cpp:50-74 | One turn of the copy loop, succeeding or failing, is a run of the interleaving model. |
| `DataMovers.DrainIsARun` | hvac_data_mover.cpp:41-47 | So is draining the queue. |
| `DataMovers.BatchIsARun` | hvac_data_mover.cpp:50-74 | So is the whole copy loop. |
| `DataMovers.BatchOutcomes` | hvac_data_mover.cpp:50-74 | The copy loop empties the list and records every path, in order, as cached unless its copy fails. |
| `DataMovers.LastCopyWins` | hvac_data_mover.cpp:50-74 | After the loop a path leads to the last copy of it that succeeded, under its own name in that copy's directory. |
| `DataMovers.DataMover.constructor` | hvac_data_mover.cpp:16-23 | A new mover is in the start state. |
| `DataMovers.DataMover.DrainQueue` | hvac_data_mover.cpp:41-45 | The loop moves the whole queue, in order, to the end of the batch list. |
| `DataMovers.DataMover.CopyNext` | hvac_data_mover.cpp:52-73 | One turn makes a copy with the file's bytes in its directory, under the file's name, makes the path lead there and records it, or records a failure; nothing else in the map changes. |
| `DataMovers.DataMover.CopyBatch` | hvac_data_mover.cpp:50-74 | The loop does the copies one after the other, each in a directory of its own, empties the list and records each outcome in order. |
| `DataMovers.MoverRunsAreCopies` | hvac_data_mover.cpp:50-74 | Whatever runs on a server's node, the resulting cache is one the session protocol allows. |
| `DataMovers.OpenAfterCopies` | hvac_comm.cpp:494-506 | After any run of the mover on a server's node, a tracked open of a file it has cached is served from a complete copy in one of the mover's directories, and of any other file from the PFS. |
| `Completion.InvKept` | hvac_comm_client.cpp:128-223 | Every step but a late callback's keeps each blocked caller's frame in step with its own callback. |
| `Completion.EveryCallGetsItsOwnResponse` | hvac_comm_client.cpp:262-299 | With the untimed wait, over any run: a returned call has its own response, a callback about to act finds its caller still blocked, and a caller asleep with `done` set is woken by the next step of its callback. |
| `Completion.AnsweredRequestMoves` | hvac_comm_client.cpp:262-299 | A request whose response has arrived is never stuck. |
| `Completion.LateOnlyAfterTimeout` | ~:251-285 | A callback can outlive its frame only after a timeout. |
| `Completion.UntimedIsInTime` | hvac_comm_client.cpp:262-299 | With the untimed wait no callback is ever late. |
| `Completion.TimedCallsInTime` | ~:251-285 | With the timed wait, in any run without a late callback, a returned call has its own response, or -1 after its timeout. |
| `Completion.TimedWaitCrossesTalk` | ~:251-285 | For every value there is a run in which a call that did not time out returns the response of the timed-out call before it, its own not having come. |
| `Completion.NoCrossTalkExactly` | hvac_comm_client.cpp:262-299 | Every returned call has its own response, or -1 after its own timeout, over all runs if and only if the wait is untimed. |
| `SeekSlot.SeeksInTurnGetTheirOwn` | hvac_comm_client.cpp:45-64 | Seeks that do not overlap return their own positions, and none sleeps once answered. |
| `SeekSlot.SafeToStartExactly` | hvac_comm_client.cpp:518-548 | In every state reached without overlap: a seek can be started with nobody ever getting another one's position or sleeping on once answered, if and only if no other seek is under way. |
| `SeekSlot.BothAnswered` | hvac_comm_client.cpp:518-548 | Two overlapping seeks can bring the counter to 2. |
| `SeekSlot.OverlappingSeeksHang` | hvac_comm_client.cpp:302-312 | From there neither ever returns unless a further seek starts. |
| `SeekSlot.ManySeeksExactly` | hvac_comm_client.cpp:45-64 | For any number n of overlapping seeks, a run from the start leads to all of them being answered before anyone looks; then a caller can still return, with no further seek, if and only if n is 1 modulo 256. |
| `SeekSlot.OverlappingSeeksCross` | hvac_comm_client.cpp:302-312 | Overlapping seeks can also return each other's position. |
| `Directory.ScanPrintedLine` | hvac_comm_client.cpp:577 | One conversion reads one printed line back and stops at the next. |
| `Directory.RoundTripExactly` | hvac_comm.cpp:210-218 | Printing and scanning a directory is the identity if and only if every address is non-empty and without white space. |
| `Directory.LinesAsPrinted` | hvac_comm.cpp:210-218 | Two lines of the file, character by character. |
| `Directory.ScanConcat` | hvac_comm_client.cpp:577 | If a file does not end inside a line's number or address, whatever text is appended only adds lines behind those it had. |
| `Directory.AppendingKeepsFresh` | hvac_comm.cpp:210-218 | Whatever text is appended to such a file, readable or not, every cached address is still what a fresh scan finds. |
| `Directory.HalfWrittenAddressExactly` | hvac_comm_client.cpp:577-590 | An address read and cached from a half-written line is still what a scan of the completed line finds if and only if nothing of it was missing. |
| `Directory.FindExactly` | hvac_comm_client.cpp:577-590 | A scan finds nothing if and only if no line has the rank, and finds an address if and only if it is on the first line that has it. |
| `Directory.AddressBook.LookupAddr` | hvac_comm_client.cpp:554-593 | Returns the cached address, or the address on the first line that has the rank, or nothing exactly when no line has it; remembers only what it found, and with a fresh cache always equals a fresh scan. |

## Left out

- Mercury, bulk transfer, handle reference counts and log4c: foreign libraries; what remains of them is that a
  request, a response or a close message is delivered.
- Logging records, and the uninitialised handle the close handler still passes to an address conversion.
- Which files are tracked, path canonicalisation, environment variables, `LD_PRELOAD` and constructors:
  "tracked" is an input, and a path is its canonical form.
- fopen sessions (their fclose wrapper is compiled out), readv, read64, write and files opened for writing:
  sessions are read-only, on immutable files.
- Failed stream reads at the server: its read branch sends no error reply. The refinement of streams is claimed
  for failure-free runs, and `Fallback.LostReadExactly` says what a lost answer does to it; counts above
  2147483647 are outside the model.
- Liveness of the network: a server that never answers blocks an untimed wait.
- The dead stack frame that the late callback of a timed-out open writes to: its effect on `fd_redir_map` is
  an action of `Sessions.dfy`, the frame is modelled for reads only.
- An exception of `GetNode` leaving the intercepted call, and an allocation failure that would leave
  `path_map_mutex` locked: the model stops at the error.
- mkdtemp failing while a directory with the template's own name exists: a failed mkdtemp is a failed copy.
- Buffer overflows at PATH_MAX, overflow of a timeout counter, and data races on the client's maps and ring,
  whose steps are atomic here.
- The uninitialised address returned for an unknown rank.
- `AdjacentNodes`: unused, and it does not compile for string nodes.
- DRAM buffering, replication and PFS flush: the repository's README describes them, no code is there.
- Position width: `Completion` and `SeekSlot` carry results as integers; the 8 bits of the seek counter are
  modelled, whose width is Mercury's choice for `hg_bool_t`.
- Sessions.InvKept: assumes requests reach the host that answered the open. `Routing.dfy` and `RingRouting.dfy`
  discharge or refute that routing by routing; what happens without it, and after opens that time out, is said
  for every world by the lemmas named under "What turned out not to hold".
- Refinement.StreamRefinement: stated for 32-bit seeks and non-negative pread offsets; `Fallback.dfy` has the
  exact limits.
