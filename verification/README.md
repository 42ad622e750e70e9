# Cloudio, verified

Cloudio is a network block device. A master process takes READ and WRITE requests from the Linux
NBD driver, cuts the device into one slave-sized extent per slave, prints each request as a
datagram, remembers it in a tracking map and sends it again until a reply comes. A slave parses the
datagram, reads or writes its storage file, and replies. On both sides the work is done by a thread
pool behind a priority queue.

This project models that behaviour in Dafny and proves what it promises, over all inputs, all
interleavings and all runs.

## What is proved

**The device is a flat byte array.** `Protocol` is a system of atomic steps: accept, back up, track,
send, lose, repeat, deliver, execute, receive and erase, resend, answer. `Device` is the
specification: one byte array, zero at first, in which no slave occurs. `Theorems.RunRefines` shows
that every run under either of two rules is one the flat device allows, and
`Theorems.ReadsReturnLatestWrites` says what that means to a reader. The rules are

* `CleanResend`: the network reorders and loses freely but repeats nothing, and a request is sent again
  only when no copy of it and no reply to it is alive;
* `InOrder`: links and slaves keep their order, messages may be lost and repeated, and any request that
  has been sent once may be sent again at any time.

The code enforces neither: it only waits for a deadline. `Deadlines.DeadlinesSuffice` puts time back:
if a request is sent, travels, is executed and is answered within the timeout, and the network repeats
nothing, waiting for the deadline keeps the first rule by itself. `Deadlines.WhatMayFollow` says from the
steps and their times alone which moments such a run allows: a request may be sent again exactly once more
than the timeout has gone by since it was last stamped. `Network` says what the rules leave free: every
run under a rule is a run without one, and which messages may be lost, repeated and overtaken.

**Exactly when it fails.** Without a rule (`Unrestricted`) an answered READ can return an overwritten
value: `LateDuplicate.StaleRead` is such a run, of one slave with one byte. The exact condition is a
property of the packet about to be executed, `Agreement.Harmless`: it is not a late copy of an answered
write that would change a byte which no unexecuted pending write is still to cover.
`Exposure.HarmlessIffReadsAreLatest` shows that executing a packet is harmless if and only if every
continuation that executes only harmless packets answers every READ with the latest acknowledged
writes: harm can always reach a reader, and nothing else can.
`Exposure.HarmlessRunIffNoReaderCanTell` says the same of whole runs.

**No request is lost, stuck or answered twice**, whatever the network loses, repeats or reorders. A
pending request is in exactly one stage, its tracking entry goes only after its primary slave has
executed it, and its handle comes back at most once and only to its own request. Each pending request
has a rank that no step raises while the network loses and repeats no packet, whatever else happens, and
some step that lowers it can always be made (`Liveness`).

**The second copy is not there.** The documentation promises two copies of all data on two slaves
(README.md:14-17 of the repository). The code builds the backup request without its payload
(master_files/slaves_manager/slaves_manager.cpp:96-101), so the model follows the code.
`LostBackup.WriteCannotBeRestored` is a run in which nothing is lost, the client's write of a 1 is
acknowledged, and its backup holds 0. The exact condition is in terms of what the client wrote:
`Theorems.BackupRestoresOnlyZero` shows that in every run the backup of a byte is what the client last
wrote there if and only if that is zero, while under either rule the primary slave does hold what the
client last wrote (`Theorems.DeviceHoldsLatestWrite`). What does hold of backups is their addressing, a
bijection onto the upper halves of the slaves, which never touches a primary byte: every copy on its way
in any run goes to the slave behind the primary one (`EndToEnd.CopiesGoWhereTheyBelong`), and no primary
copy of a WRITE leaves before its backup has (`Network.BackupBeforeTrackBeforeSend`).

**The wire.** The codecs live in different programs. `Wire` proves that each decoder recovers what the
other program's encoder printed, for every payload, exactly when offset and length fit the types they
are parsed into, and that with the shipped configuration no payload leaves its message. `EndToEnd`
ties this to the protocol: every packet of every reachable state is the datagram that
`SlavesManager.SendToDriver` puts on the socket, to the same slave, and is what the slave parses from it.

**The NBD stream.** `NbdProxy` shows that requests laid end to end come back as exactly that list,
however the stream is cut into reads; `NbdOutput` that with any number of threads replying, the
output is whole replies and at most the beginning of one, if and only if no write stalls.

**Storage.** The transfer loops refine an unbounded zero-initialised array for every pattern of short
reads and writes. A transfer fails if and only if a call that is made fails, and exactly what the earlier
calls moved has then been moved (`Storage.FailsIff`). A write call that moves nothing ends the loop and the slave acknowledges all the same:
`SlaveTasks.StalledWriteIsLost` is such a write, and `SlaveTasks.AcknowledgedWriteIsWholeIff` says when
an acknowledged payload is in the file, for every plan of the kernel.

**The resending thread** never sleeps past a tracked deadline, and a round sends exactly what it finds
overdue (`SlavesManager`), until a send throws, which ends it.

**The thread pool.** `PoolSteps` models pushes, timed pops and the shutdown handshake with any number
of threads. `PoolRuns` proves for every run that no take sees an empty queue, that tasks are
conserved, that at most one flag is false and `kill_thread` never runs off the map, that a killed
worker takes nothing more and is joined once, and that a resize ends within a bound on the steps that
help it, one of which can always be made. `ThreadPool` is the code, segment by segment, each proved to
be a step of that system, with whatever the other threads do in the gaps; a worker takes and executes a
task whenever the semaphore lets it.

## How it is built

| file | what it is |
|---|---|
| Base, Data, ByteArray, Decimal | bytes, the request record, unbounded byte arrays, to_string and stoi |
| Address, Wire, EndToEnd | where bytes live, the two datagram formats, and their use in the protocol |
| Storage, SlaveTasks | the slave's storage loops and its two tasks |
| NbdProxy, NbdOutput | the NBD side of the master, alone and with concurrent repliers |
| SlavesManager | the master's tracking and resending, with a clock |
| Protocol, Invariants, Agreement, Refinement, Disciplines, Device, Theorems | the replicated device and its refinement |
| Exposure, LateDuplicate, LostBackup | what fails, and exactly when |
| Network | what the protocol accepts, in which order tasks run, what messages may suffer |
| Deadlines, Liveness | time, and progress |
| PoolSteps, PoolRuns, ThreadPool | the thread pool: steps, theorems, code |

What the model assumes, because the code relies on it: a request is a READ or WRITE that stays inside
the device and inside one extent (`Protocol.Acceptable`); the client does not overlap an unanswered
request (slave_files/storage/storage.cpp:8-10); a slave executes one request at a time; the clock is
monotone, a resend waits at least a second and a stamped entry enters the map within a second.

Request and reply records are values: each is owned by one `unique_ptr` at a time. Kernel calls are
parameters: a plan says how many bytes each read or write moves, a list of ticks how the clock moves,
a schedule what the other threads do in each gap.

## Model

| member | source | states |
|---|---|---|
| Theorems.RunRefines | master_files/slaves_manager/slaves_manager.cpp:87-126 | every run under CleanResend or InOrder keeps its invariants and shows the client only what one flat byte array would |
| Theorems.ReadsReturnLatestWrites | slave_files/RE/tasks/tasks.cpp:55-115 | every answered READ returns, byte for byte, the latest acknowledged WRITE, and zero where nothing was written |
| Exposure.HarmlessIffReadsAreLatest | master_files/slaves_manager/slaves_manager.cpp:307-321 | without any rule, executing a packet is harmless if and only if every continuation that executes only harmless packets answers every READ with the latest acknowledged writes |
| Exposure.HarmlessRunIffNoReaderCanTell | master_files/slaves_manager/slaves_manager.cpp:307-321 | a run executes only harmless packets if and only if from none of its executions on a reader can tell |
| Exposure.HarmIsRead | slave_files/RE/tasks/tasks.cpp:91-115 | after a harmful execution there is a continuation, harmless from there on, that ends in a stale READ |
| Deadlines.DeadlinesSuffice | master_files/slaves_manager/slaves_manager.cpp:311-320 | if messages die within the timeout and nothing is repeated, resending by deadline alone lets every READ return the latest acknowledged writes |
| Deadlines.ResendsAreClean | master_files/slaves_manager/slaves_manager.cpp:311-320 | then nothing of a request is alive when it is sent again |
| Deadlines.WhatMayFollow | master_files/slaves_manager/slaves_manager.cpp:303-321 | told by steps and times alone, without the clock: a timed run goes on exactly with the protocol's steps that keep to the limits, and a resend comes exactly when more than the timeout has gone by since the request was last tracked or sent again |
| Deadlines.ClockTells | master_files/slaves_manager/slaves_manager.cpp:198-213 | the deadline of a request is the time of its last stamp and the timeout, and there is none without a stamp |
| Deadlines.OverdueMayBeSentAgain | master_files/slaves_manager/slaves_manager.cpp:309-320 | if messages keep to the limits, a resend at any moment past the deadline is part of a timed run |
| Deadlines.SendByTheClock | master_files/slaves_manager/slaves_manager.cpp:198-213 | the deadline that send_to_driver stores is the one of the clock |
| Deadlines.VisitByTheClock | master_files/slaves_manager/slaves_manager.cpp:309-320 | the deadline that the resending thread stores is the one of the clock, and it sends only what that calls overdue |
| Network.AcceptedIff | master_files/driver_proxy/driver_proxy_nbd.cpp:135-168 | a request is accepted exactly if it is a READ or WRITE on one slave of the device of which no pending request touches a byte |
| Network.BackupBeforeTrackBeforeSend | master_files/slaves_manager/slaves_manager.cpp:93-125 | in every run a request is tracked before it is sent, and the backup of a WRITE goes out before that |
| Network.MessageFate | master_files/slaves_manager/slaves_manager.cpp:150-157 | when a datagram may be lost, repeated, or delivered before older ones, and that nothing else changes |
| Network.TaskAndResendFate | master_files/slaves_manager/slaves_manager.cpp:307-321 | when a slave may run a received request and when a request may be sent again, by what is on the way |
| Network.RulesOnlyNarrow | master_files/slaves_manager/slaves_manager.cpp:307-321 | every run under a rule is a run without one, with the same states and events |
| Theorems.DuplicatesCarrySettledBytes | master_files/slaves_manager/slaves_manager.cpp:307-321 | with links and slaves in order, a duplicate still to be executed carries the byte its slave holds, wherever no write is pending |
| LateDuplicate.SecondWriteUndone | master_files/slaves_manager/slaves_manager.cpp:307-321 | a run in which a late duplicate of an older write replaces an acknowledged newer one |
| LateDuplicate.StaleRead | master_files/slaves_manager/slaves_manager.cpp:307-321 | a run whose last answer is a READ that does not return the latest acknowledged WRITE |
| Theorems.AgreesIffHarmless | master_files/slaves_manager/slaves_manager.cpp:307-321 | slaves and flat device agree throughout a run if and only if every packet it executes is harmless at that moment, and then it follows the flat device |
| Theorems.ExactlyOneStage | master_files/slaves_manager/slaves_manager.cpp:107-125 | a pending request is in exactly one place: to-cloud and untracked, tracked, or waiting to be answered |
| Theorems.HandlesReturnOnce | master_files/driver_proxy/driver_proxy_nbd.cpp:248-263 | an answer carries the handle its own request came with, and no request is answered twice, whatever the network repeats |
| Theorems.HandleHistory | master_files/driver_proxy/driver_proxy_nbd.cpp:248-263 | every stored handle was stored for its id, and an answered id has none |
| Theorems.ErasedOnlyAfterExecution | master_files/slaves_manager/slaves_manager.cpp:242-244 | a tracking entry goes only with a received reply, after the primary slave executed the request |
| Theorems.BackupRestoresOnlyZero | master_files/slaves_manager/slaves_manager.cpp:96-103 | in every run, under any rule or none, the backup of a byte is what the client last wrote there if and only if that is zero, against the documented two copies |
| Theorems.DeviceHoldsLatestWrite | slave_files/RE/tasks/tasks.cpp:91-107 | under either rule the primary slave holds what the client last wrote wherever no write is pending |
| LostBackup.WriteCannotBeRestored | master_files/slaves_manager/slaves_manager.cpp:93-104 | a run that loses no message, in which an acknowledged write of a 1 has a 0 for its backup |
| Liveness.NothingFallsBack | master_files/slaves_manager/slaves_manager.cpp:216-247 | no step raises the rank of a request unless the network loses a message or repeats a packet, new requests and repeated replies included |
| Liveness.RankOnlyFalls | master_files/slaves_manager/slaves_manager.cpp:216-247 | the same over any stretch of a run |
| Liveness.SomeStepHelps | master_files/slaves_manager/slaves_manager.cpp:303-321 | for every pending request of every reachable state some step that lowers its rank can be made, under every rule |
| Liveness.EveryRequestCanBeAnswered | master_files/slaves_manager/slaves_manager.cpp:303-321 | so from every reachable state a pending request can be answered under its own handle without losing or repeating a packet |
| Invariants.RunKeeps | master_files/slaves_manager/slaves_manager.cpp:87-126 | whatever the network loses, repeats or reorders, ids, stages, packets, replies and zero backups stay consistent over every run |
| Agreement.ExecuteAgreesIff | slave_files/RE/tasks/tasks.cpp:97-107 | executing one packet keeps slaves and flat device in agreement if and only if the packet is harmless |
| Refinement.StepRefines | slave_files/RE/tasks/tasks.cpp:97-107 | each step is one the flat device allows and leads to the matching device state |
| Disciplines.DisciplineKeeps | master_files/slaves_manager/slaves_manager.cpp:307-321 | every step keeps all packets in flight harmless under either rule |
| Disciplines.QueuesKeep | master_files/slaves_manager/slaves_manager.cpp:307-321 | overlapping writes stay in the order of their ids in links and slaves, or no two copies of a request coexist |
| Disciplines.OneCopyKeeps | master_files/slaves_manager/slaves_manager.cpp:307-321 | under CleanResend a tracked request has at most one live copy or reply and no other request has any |
| Disciplines.HarmlessKeeps | master_files/slaves_manager/slaves_manager.cpp:307-321 | what is harmless in flight stays harmless |
| Device.FlatIsLatestWrite | master_files/driver_proxy/driver_proxy_nbd.cpp:171-195 | the flat array at any place is the byte the latest acknowledged write put there |
| Device.FollowersReadLatest | master_files/driver_proxy/driver_proxy_nbd.cpp:171-195 | a trace that follows the flat device answers every READ with the latest acknowledged writes |
| Device.FollowersKeepApart | slave_files/storage/storage.cpp:8-10 | in such a trace a request accepted while another one is unanswered has another id and no byte in common with it |
| Address.PrimaryBijection | master_files/slaves_manager/slaves_manager.cpp:111-114 | device offsets correspond one to one to slaves and offsets below slave_size |
| Address.BackupBijection | master_files/slaves_manager/slaves_manager.cpp:132-139 | and one to one to slaves and offsets in the upper half, on another slave exactly when there are two |
| Address.Contiguous | master_files/slaves_manager/slaves_manager.cpp:111-114 | a range inside one extent stays contiguous on its slave |
| Address.CoversLocally | master_files/slaves_manager/slaves_manager.cpp:111-114 | such a range covers a device byte exactly when it covers that byte's place on its slave |
| Address.IndexBelow | master_files/slaves_manager/slaves_manager.cpp:348-351 | the slave index is in range exactly for offsets on the device |
| Decimal.RoundTrip | slave_files/driver_proxy/driver_proxy_slave.cpp:65-77 | a printed number is read back with its exact length if it fits the target type, and refused if not |
| Decimal.ReadsNumber | slave_files/driver_proxy/driver_proxy_slave.cpp:65-77 | blanks and a sign before a number are read over and counted as used |
| Decimal.ReadsNothing | slave_files/driver_proxy/driver_proxy_slave.cpp:65-77 | without a digit behind them the conversion is refused |
| Decimal.DigitCount | master_files/slaves_manager/slaves_manager.cpp:165-179 | how many characters a printed number takes |
| Wire.SerializeData | master_files/slaves_manager/slaves_manager.cpp:159-196 | header fields, NUL, payload of a WRITE, zero padding to the message size; a payload that does not fit overruns |
| Wire.MessageShape | master_files/slaves_manager/slaves_manager.cpp:159-196 | every message of both directions has exactly the message size: the header's text, the payload of the carrying type, zeros; it cannot be built exactly if there is a payload and it does not fit |
| Wire.ParsesPrinted | slave_files/driver_proxy/driver_proxy_slave.cpp:68-99 | any three printed numbers and anything behind them: which error is thrown, and a payload cut or filled with zeros to its length |
| Wire.CutShort | slave_files/driver_proxy/driver_proxy_slave.cpp:68-99 | a message that ends within its fields or before the payload's place is refused, and how |
| Wire.CopyInto | master_files/slaves_manager/slaves_manager.cpp:188-192 | a copy into the resized message replaces exactly its bytes or overruns the end |
| Wire.PrintReply | slave_files/driver_proxy/driver_proxy_slave.cpp:105-136 | the reply message, with the data behind a READ header |
| Wire.DeserializeData | master_files/slaves_manager/slaves_manager.cpp:250-292 | the reply parser with its moving position computes the field-by-field parse |
| Wire.DeserializeFrom | slave_files/driver_proxy/driver_proxy_slave.cpp:68-99 | the steps both parsers share, with every error they can throw |
| Wire.ReceiveRequest | slave_files/driver_proxy/driver_proxy_slave.cpp:51-102 | the slave's parser computes the field-by-field parse of a request |
| Wire.RequestRoundTrip | slave_files/driver_proxy/driver_proxy_slave.cpp:51-102 | the slave recovers exactly what the master printed, any payload bytes included, if and only if offset and length fit long and int |
| Wire.ReplyRoundTrip | master_files/slaves_manager/slaves_manager.cpp:250-292 | the master recovers length, id, type and READ data exactly |
| Wire.BackupCarriesOnlyZeros | master_files/slaves_manager/slaves_manager.cpp:96-101 | the slave parses a backup request as zeros, which is what was written only if that was all zero |
| Wire.ConfiguredMessagesFit | master_files/master_config.cfg:13-14 | with 4 MiB slaves and 4096-byte requests a header has at most 27 bytes and every message fits 4136 |
| EndToEnd.CopiesGoWhereTheyBelong | master_files/slaves_manager/slaves_manager.cpp:107-148 | in every run every copy on its way is addressed right: the primary to slave and place of its offset, the backup of a WRITE to the next slave around the ring, as far into the upper half, on another slave exactly from two slaves on |
| EndToEnd.RequestsSurviveTheWire | master_files/slaves_manager/slaves_manager.cpp:116-125 | each packet of each reachable state is the datagram that the master's code sends for the logged request, to the same slave, and what the slave parses from it |
| EndToEnd.AcceptsWhatTheStreamSays | master_files/driver_proxy/driver_proxy_nbd.cpp:150-168 | what the protocol logs for an accepted request is the record, id and handle that the NBD stream gives |
| EndToEnd.RepliesSurviveTheWire | slave_files/driver_proxy/driver_proxy_slave.cpp:105-136 | each reply of each reachable state survives its datagram |
| EndToEnd.ConfiguredIsRoomy | master_files/master_config.cfg:13-14 | the shipped configuration has room for all of them |
| ByteArray.ReadBackOwnWrite | slave_files/storage/storage.cpp:42-110 | what was written is read back |
| Storage.FailsIff | slave_files/storage/storage.cpp:66-69 | a transfer fails if and only if some call fails while bytes are still wanted and to be had and every earlier call moved something, and then exactly what those moved has been moved |
| Storage.MovesExactly | slave_files/storage/storage.cpp:92-98 | how many bytes a transfer moves, from the plan alone |
| Storage.MovesAll | slave_files/storage/storage.cpp:92-98 | when every call moves at least one byte the loop moves all there is |
| Storage.Storage.Read | slave_files/storage/storage.cpp:42-76 | for every pattern of short reads and errors, a failing seek included: it throws exactly when a seek or a call that is made fails, and else the front of the buffer is the file and the rest is untouched |
| Storage.Storage.Write | slave_files/storage/storage.cpp:79-110 | for every pattern of short writes and errors, a failing seek included: it throws exactly when a seek or a call that is made fails, and exactly the moved prefix is on the file |
| SlaveTasks.ReadTask | slave_files/RE/tasks/tasks.cpp:55-75 | the reply carries the file as an unbounded zero-initialised array; there is none exactly when a seek or a read fails |
| SlaveTasks.WriteTask | slave_files/RE/tasks/tasks.cpp:91-115 | the file holds what the kernel moved of the payload, all of it when no call stalls; a failed seek or write is not acknowledged, and else there is a reply exactly for primary offsets |
| SlaveTasks.ReadPastEnd | slave_files/RE/tasks/tasks.cpp:61-65 | past the end of the file the zeros of the fresh buffer stay |
| SlaveTasks.AcknowledgedWriteIsWholeIff | slave_files/RE/tasks/tasks.cpp:100-107 | for every plan of the kernel under which the write does not throw, the primary slave acknowledges, and the payload is in the file if and only if the file already held the bytes that did not reach it |
| SlaveTasks.StalledWriteIsLost | slave_files/storage/storage.cpp:92-105 | a plan, a file and a write that is acknowledged and lost |
| NbdProxy.NtohlReads | master_files/driver_proxy/driver_proxy_nbd.cpp:142-146 | a swapped 32-bit field is the number sent |
| NbdProxy.NtohllReads | master_files/driver_proxy/driver_proxy_nbd.cpp:291-299 | swapping and exchanging both halves gives the 64-bit number sent |
| NbdProxy.BigEndianRoundTrip | master_files/driver_proxy/driver_proxy_nbd.cpp:291-299 | network byte order loses nothing |
| NbdProxy.HeaderRoundTrip | master_files/driver_proxy/driver_proxy_nbd.cpp:137-153 | the received struct holds type, handle, offset and length as the protocol lays them out |
| NbdProxy.ReceiveByBytes | master_files/driver_proxy/driver_proxy_nbd.cpp:135-168 | one call told by the bytes on the stream: type bytes 0,0,0,1 take their data, 0, 2, 3 and 4 stand alone, no other is known; where the stream may end and when a handle is stored |
| NbdProxy.EncodeLayout | master_files/driver_proxy/driver_proxy_nbd.cpp:137-153 | a request byte by byte: magic number 25609513, flags, type, handle, offset, length, data |
| NbdProxy.ReplyLayout | master_files/driver_proxy/driver_proxy_nbd.cpp:173-193 | a reply byte by byte: magic number 67446698, no error, the handle, and the first len bytes of the buffer behind a READ |
| NbdProxy.TakesExactlyOne | master_files/driver_proxy/driver_proxy_nbd.cpp:135-168 | one call takes one well-formed request and nothing behind it, if and only if its command is known and carries no flag |
| NbdProxy.StreamRoundTrip | master_files/driver_proxy/driver_proxy_nbd.cpp:135-168 | requests end to end come back as exactly that list, under consecutive ids, and the rest is left alone |
| NbdProxy.DriverProxyNBD.ReadFromSock | master_files/driver_proxy/driver_proxy_nbd.cpp:209-225 | all bytes asked for, for every way they arrive, or the end of the stream |
| NbdProxy.DriverProxyNBD.WriteToSock | master_files/driver_proxy/driver_proxy_nbd.cpp:229-245 | everything in order, or a prefix and an error |
| NbdProxy.DriverProxyNBD.ConvertHandleToId | master_files/driver_proxy/driver_proxy_nbd.cpp:248-254 | a new id, never given out before, under which the handle is stored |
| NbdProxy.DriverProxyNBD.ConvertIdToHandle | master_files/driver_proxy/driver_proxy_nbd.cpp:257-263 | the handle stored for the id, once |
| NbdProxy.DriverProxyNBD.ReceiveFromDriver | master_files/driver_proxy/driver_proxy_nbd.cpp:135-168 | outcome, stored handle and rest of the stream do not depend on how the stream is cut; every error path included |
| NbdProxy.DriverProxyNBD.ReceiveRequests | master_files/RE/request_engine.cpp:76-101 | the calls of the event loop return exactly the list of requests laid end to end on the stream, for every way it is cut |
| NbdProxy.DriverProxyNBD.SendToDriver | master_files/driver_proxy/driver_proxy_nbd.cpp:171-195 | magic number, no error, the stored handle, and behind a READ the first get_len() bytes of the buffer, or a prefix of that and an error; a late duplicate gets a handle that means nothing |
| NbdOutput.RepliesNeverInterleave | master_files/driver_proxy/driver_proxy_nbd.cpp:171-195 | with any number of threads and any positive short writes: whole replies in mutex order and at most the beginning of one |
| NbdOutput.WholeIffNoStall | master_files/driver_proxy/driver_proxy_nbd.cpp:229-245 | every finished reply is whole if and only if no write stalled |
| NbdOutput.ClientReadsReplies | master_files/driver_proxy/driver_proxy_nbd.cpp:171-195 | a client that knows what it asked for reads exactly the finished replies in mutex order, each with its handle and, for a READ, the first len bytes of its own record's buffer |
| NbdOutput.WritesWhatIsLeft | master_files/driver_proxy/driver_proxy_nbd.cpp:229-245 | a write moves any number of bytes up to the end of the header or the data, and a call ends well exactly when both are out |
| NbdOutput.RunKeeps | master_files/driver_proxy/driver_proxy_nbd.cpp:181-195 | only the holder of the mutex is between its writes, over every run |
| SlavesManager.SlavesManager.SendBackup | master_files/slaves_manager/slaves_manager.cpp:129-148 | the backup message, without payload, to the next slave, or an exception because there is none or the send fails |
| SlavesManager.SlavesManager.SendToDriver | master_files/slaves_manager/slaves_manager.cpp:87-126 | backup first, then tracked with the very message that is sent; each exception leaves exactly what was done before it, a failed send of either copy included |
| SlavesManager.SlavesManager.ReceiveFromDriver | master_files/slaves_manager/slaves_manager.cpp:216-247 | the parsed reply, its entry erased, nothing erased when it does not parse |
| SlavesManager.SlavesManager.Visit | master_files/slaves_manager/slaves_manager.cpp:309-327 | an overdue entry is sent again and armed anew, unless the send throws; the wake-up is no later than its deadline |
| SlavesManager.SlavesManager.ResendRound | master_files/slaves_manager/slaves_manager.cpp:300-337 | in any map order and however the clock moves: exactly the entries found overdue are sent, once each, and no deadline is slept past; a send that throws ends the thread |
| PoolRuns.NoEmptyTake | master_files/RE/threadpool/wpq.hpp:66-116 | the queue size is semaphore plus poppers past the wait plus pushers before the post, so every take finds an element, timeouts included |
| PoolRuns.KillMeGoesFirst | master_files/RE/threadpool/thread_pool.cpp:50-53 | while a KillMe waits every take returns it |
| PoolRuns.TasksConserved | master_files/RE/threadpool/thread_pool.cpp:94-97 | a task is queued, in hand and executed together exactly as often as it was added |
| PoolRuns.OneFalseFlag | master_files/RE/threadpool/thread_pool.cpp:182-185 | flags, vector and live threads agree; at most one flag is false, and one is when the scan starts |
| PoolRuns.FlagIsThere | master_files/RE/threadpool/thread_pool.cpp:235-237 | a worker that looks its flag up finds it |
| PoolRuns.KilledTakesNoTask | master_files/RE/threadpool/thread_pool.cpp:217-239 | after its KillMe a worker waits for nothing, takes nothing, executes nothing |
| PoolRuns.JoinedOnce | master_files/RE/threadpool/thread_pool.cpp:188-201 | no thread is joined twice |
| PoolRuns.ResizeReachesItsTarget | master_files/RE/threadpool/thread_pool.cpp:158-165 | a finished resize left the size asked for; after resize(0) no thread and no flag |
| PoolRuns.NothingAddsWork | master_files/RE/threadpool/thread_pool.cpp:168-203 | no step but a new resize raises the potential, every helpful step lowers it |
| PoolRuns.SomeoneCanHelp | master_files/RE/threadpool/thread_pool.cpp:168-203 | while a resize is unfinished some helpful step can be made |
| PoolRuns.Turn | master_files/RE/threadpool/thread_pool.cpp:179-194 | when the killer is blocked, another thread has a step that brings it further |
| PoolRuns.ResizeIsFinite | master_files/RE/threadpool/thread_pool.cpp:168-203 | for every interleaving and however many tasks are added, the helpful steps of a resize are bounded by its potential |
| PoolSteps.RunKeeps | master_files/RE/threadpool/thread_pool.cpp:168-246 | all invariants of queue, flags, threads and handshake hold over every run |
| ThreadPool.FalseFlag | master_files/RE/threadpool/thread_pool.cpp:184-185 | the walk stops at a false flag, inside the map, in any map order |
| ThreadPool.FindThread | master_files/RE/threadpool/thread_pool.cpp:188-191 | the first place of the thread in the vector |
| ThreadPool.ThreadPool.constructor | master_files/RE/threadpool/thread_pool.cpp:71-84 | the loop leaves one waiting worker and one true flag for each thread |
| ThreadPool.ThreadPool.ScanFlags | master_files/RE/threadpool/thread_pool.cpp:182-185 | the scan finds a thread whose flag is false |
| ThreadPool.ThreadPool.EraseThread | master_files/RE/threadpool/thread_pool.cpp:195-199 | it leaves the vector and the map, and nothing else does |
| ThreadPool.ThreadPool.KillThread | master_files/RE/threadpool/thread_pool.cpp:168-203 | among any interference, one thread fewer |
| ThreadPool.ThreadPool.Resize | master_files/RE/threadpool/thread_pool.cpp:100-113 | among any interference, it ends with exactly the size asked for and one true flag per thread |
| ThreadPool.GapsReachEverything | master_files/RE/threadpool/thread_pool.cpp:217-239 | every way in which the other threads can carry a run on fits into a gap |
| ThreadPool.ThreadPool.Others | master_files/RE/threadpool/thread_pool.cpp:217-239 | a gap does exactly what the schedule says for it, as far as it is possible |
| ThreadPool.ThreadPool.WaitForTask | master_files/RE/threadpool/wpq.hpp:96-104 | the wait succeeds exactly when the semaphore has a unit, and takes it |
| ThreadPool.ThreadPool.TakeTask | master_files/RE/threadpool/wpq.hpp:106-112 | there is an element to take and the worker takes one of highest priority, a KillMe before all others |
| ThreadPool.ThreadPool.ExecuteKillMe | master_files/RE/threadpool/thread_pool.cpp:56-66 | among any interference, the worker ends up condemned |
| ThreadPool.ThreadPool.ReadFlag | master_files/RE/threadpool/thread_pool.cpp:236-237 | the flag is there and is false exactly for a condemned worker |
| ThreadPool.ThreadPool.ThreadTurn | master_files/RE/threadpool/thread_pool.cpp:217-239 | among any interference, a worker takes a task exactly when the semaphore is not at zero as it comes to wait, executes what it took, and goes on unless that was a KillMe; left alone it takes a foremost waiting task, executes it, and leaves the rest of the queue as it was |

## Left out

- Backup contents equal to primary contents: false of the code, see above; backups are neither tracked nor sent again, so only their addressing and their non-interference are proved.
- ThreadPool.ThreadPool.Resize: only to no more threads than there are; `increment`, `suspend` and `resume` are not modelled. The application only constructs, adds and resizes to zero.
- PoolRuns.ResizeIsFinite: a bound on helpful steps, not on time; it needs a scheduler that lets an enabled thread run in the end.
- ThreadPool.PriorityQueue.TakeTop: the heap is a multiset and ties are broken arbitrarily; SYSTEM is used by KillMe alone, as the header asks.
- Wire.CopyInto: a payload past the end of its message is an error value; in the source it is undefined, and nothing is said of what follows.
- Liveness.SomeStepHelps: assumes that the resending thread is alive; `SlavesManager.SlavesManager.ResendRound` shows that one failed send ends it, and from then on no lost request is sent again.
- Liveness.NothingFallsBack: under InOrder a packet repeated in front of another holds that one up, so the rank is for a network that has stopped repeating packets.
- Theorems.RunRefines: CleanResend excludes repetition by the network; a repeated write may then overtake a later one, as in `LateDuplicate.SecondWriteUndone`.
- Exposure.HarmlessIffReadsAreLatest: needs an id that is still free and requests of at least one byte, so that there is a READ to ask.
- Storage.Storage.Lseek: the failure modelled is an offset past the largest long, which lseek takes as negative.
- NbdProxy.DriverProxyNBD.ReceiveFromDriver: requires that the id counter has not reached the largest int; counting past it is undefined in the source.
- NbdProxy.DriverProxyNBD.WriteToSock: a write that fails with -1, which the source stores in an unsigned variable, is not modelled.
- NbdProxy.DriverProxyNBD.ReadFromSock: nor is a read that fails with -1.
- NbdProxy.DriverProxyNBD.SendToDriver: requires as many bytes in the buffer of a READ as its length says; the source reads past the buffer otherwise.
- SlaveTasks.ReadTask and SlaveTasks.WriteTask: lengths above the largest int, which `Storage` converts to a negative count, are excluded.
- Protocol.Acceptable: requests that straddle two extents, leave the device or overlap an unanswered one are not issued; the code does not refuse them.
- Protocol.Apply: a slave's execution and its reply are one step, and the two programs' task queues are unordered sets of pending work.
- Answers to late duplicates: the reply then carries no mapped handle; it is an internal event of the protocol and a stray reply of the proxy.
- DISC, FLUSH and TRIM: parsed by the NBD side, but no slave has a task for them.
- C++ data races and memory ordering: each map or semaphore operation is one atomic step.
- The heap of shared objects: requests are values handed on, because each has exactly one owner.
- UDP sockets, epoll, NBD ioctls, signals, configuration files, scripts, plug-ins, factories and the dispatcher.
