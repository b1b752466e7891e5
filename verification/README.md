# LogBridge: a verified model

LogBridge ships the lines of a log file from a client to a server. The client gives each line a
durable id, records it in a write-ahead log (WAL), saves a file checkpoint, and sends batches over
TCP until each one is acknowledged; the server skips what its persistent watermark already covers.
Either process may be killed at any moment.

The project has two layers.

**The components**, each as the source has it: encoders and decoders that build or walk a buffer,
socket loops over partial reads and writes, a disk whose every intermediate state is recorded, and
classes for the WAL, the client state, the dedup store, the tail reader, the queue, the sender and the
server. Every method is proved against a function or a step predicate that says what may happen to
memory and disk, including after a failure.

**The protocol**, as state machines over exactly those step predicates:

- `ClientProcess`: producer, consumer, queue, WAL, ids, tail reader and checkpoint of one client over any
  number of runs; all threads interleave freely and any write may fail.
- `ServerProcess`: the server, message by message, over any number of runs; a restart loads what the text of
  its state file says.
- `System`: both, with a network that may deliver any batch or ACK ever sent, late, repeatedly or never,
  next to other clients that send any acceptable batches.
- `Rotation`: the tail reader while files grow and replace each other, with its saved checkpoint.
- `Truncation`: the tail reader while its file is truncated and rewritten.
- `QueueMonitor` and `ShutdownHandshake`: the two pieces of lock-level and lock-free concurrency.

`Refinement` ties the two layers together: a call of the server's, the producer's, the sender's or the queue's class is
a run of its machine, whether it succeeds or fails. `Progress` is about what the machines of `System` can always still do.

**A condition on the peers.** The wire format allows client ids with white space, which the server's state file
cannot carry. The results about the server and the system hold when the *other* clients' ids are free of white space
(`ServerProcess.Plain`, `System.PlainPeers`), as generated ids are: the client's own id is 32 hexadecimal digits, so
nothing is asked of it. `ServerProcess.RestartRemembers` shows that the condition is exact for a restart, and
`ServerProcess.SplitIdForgets` and `Witness.SplitIdLoses` what happens without it: duplicates, and a lost message.

A crash is a step of its own and may follow any other step. A crash *inside* an operation is that
operation failing, with one of the disk states its contract allows, followed by a crash; the contracts say so for every
state of the disk that is recorded during the call. Calls of the system fail only on a disk, connection or file system
marked as faulty, and the contracts say that nothing else makes an operation fail. The main results:

1. `System.NoLoss`: a message whose append returned is in the WAL on disk or was processed, at every
   moment of every run.
2. `System.AtMostOnce`: a message is processed at most once more than it was exposed, that is, than the server crashed,
   or failed to persist, between processing it and confirming the watermark. `ServerProcess.TwiceInTheWindow` shows
   that this exception is real, and `ServerProcess.PrintableIffAbove` says exactly what can still be printed.
3. `System.DeliveredInOrder`, `System.OutputIsFrontOfLog`, `System.OutputIsTheFile`: messages are processed in the order
   of the log; without exposure the output is a front part of it, and in the end the line split of the file.
4. `System.CheckpointSafety`: every complete line before the saved file offset is carried by a message that is
   safe in the sense of 1.
5. `ClientProcess.AckConfirmsItsBatch` and `ClientProcess.IdsAreNeverReused`: what an ACK removes, and what ids do.
6. `WriteAheadLog.RecoveryIsExact`, `Protocol.BatchBijection`, `SocketIO.CleanStream`: exactly which bytes
   are a WAL, a batch, a stream of frames.
7. `Rotation.RunKeeps` and `Rotation.ReplacedFileIsComplete`: no checkpoint and no line mixes two files, and a replaced
   file is read to its end before it is left; `Rotation.RestartReadsAgain`: what a restart reads again.
8. `QueueMonitor.SleepersAreAwaited` and `QueueMonitor.NoLostWakeup`; `ShutdownHandshake.StopClosesEverythingOnce`.
9. `Progress.CanAlwaysFinish`: whatever has happened in a run, some continuation empties the log with everything known
   processed; `Witness.LineSurvivesCrash` is one such run, through a crash.
10. `Refinement.Handle`, `Refinement.Round` and `Refinement.Attempt`: handling a batch, even if killed on the way, a round
   of the producer and a delivery are runs of the machines.
11. `Producer.Producer.Round`: whenever a round is killed, no line is skipped and no id comes again.
12. `QueueMonitor.BatchComesBack`: a popBatch that has items returns without anyone else's help.
13. `Lines.SplitIsExact` and `Truncation.NoticedIffShorter`: exactly what a line is, and when a rewrite is noticed.

Environment: `write`, `send`, `recv` and `pread` transfer any legal number of bytes or fail; the clock, the randomly
generated client id and the peer's bytes are arbitrary values. Text and wire data are sequences of bytes.
`dafny verify dfyconfig.toml` checks everything.

## Model

| member | source | states |
|---|---|---|
| System.NoLoss | src/main.cpp:186-263 | in every run with plain peers, crashes, lost connections and ACKs, resends and failed writes, a message whose append returned is at every later moment on the client's disk or processed |
| System.RecoveredIsNotLost | src/WriteAheadLog.cpp:64-108 | the same, with plain peers, for everything a restart has ever recovered, even if its append had reported a failure |
| System.AcceptedAckMeansProcessed | src/main.cpp:107-109 | with plain peers, when the client accepts an ACK, the server has processed every message of the batch |
| System.AtMostOnce | src/ServerMain.cpp:101-130 | in every run with plain peers, every (client, id) is processed at most once more than it was exposed in the window |
| System.DeliveredInOrder | src/ServerMain.cpp:109-123 | with plain peers, whatever is processed for the client was logged by it, and when a message is processed every known one with a smaller id has been processed before |
| System.OutputIsFrontOfLog | src/ServerMain.cpp:101-123 | with plain peers, while none of the client's messages has been exposed, what was processed for it is exactly a front part of its log |
| System.OutputIsTheFile | src/main.cpp:179-208 | with plain peers, without a client crash or exposure, when a checkpoint is saved and the log is empty, the processed contents are exactly the line split of the file up to the checkpoint |
| Witness.SplitIdLoses | src/DedupStore.cpp:74-79 | a concrete run in which a peer whose id contains white space makes a restarted server acknowledge this client's message without processing it |
| System.CheckpointSafety | src/main.cpp:186-208 | with plain peers, at every moment the complete lines before the persisted offset are the contents of messages with increasing ids, each on disk or processed |
| System.EmptyLogMeansAllProcessed | src/WriteAheadLog.cpp:29-43 | with plain peers, once the log on disk is empty, everything it ever held has been processed |
| Progress.CanAlwaysFinish | src/main.cpp:89-131 | from every state of every run with plain peers, whatever crashed or was lost, some continuation without any other client empties the log with every message known so far processed |
| Witness.LineSurvivesCrash | src/main.cpp:243-250 | a concrete run of the whole system: a line appended just before a crash is replayed after the restart, processed, acknowledged and removed from the log |
| System.ClientKeeps | src/main.cpp:172-263 | every client step keeps the invariant that ties the log to acknowledged ids, ACKs under way, watermarks and batches under way |
| System.ConfirmKeeps | src/ServerMain.cpp:125-130 | confirming a fully processed batch, or failing to, leaves both watermarks naming only ids up to which everything known is processed |
| System.ProcessKeeps | src/ServerMain.cpp:109-123 | a skipped message was processed earlier, and a printed one makes the processed part of the batch grow |
| System.RunKeeps | src/main.cpp:164-289 | the combined invariant holds at every moment of every run with plain peers |
| ClientProcess.AckConfirmsItsBatch | src/main.cpp:107-115 | an accepted ACK removes exactly its batch from the front of the pending messages, or nothing if a failed rewrite already had; any other ACK changes nothing |
| ClientProcess.BatchesAreValidAndComplete | src/main.cpp:223-254 | every batch sent is encodable, has at most ten messages, and contains every known message up to its last id that is not yet confirmed |
| ClientProcess.IdsAreNeverReused | src/ClientState.cpp:104-118 | over all runs and crashes the ids passed to append strictly increase and are below the persisted next id |
| ClientProcess.CheckpointIsCovered | src/ClientState.cpp:136-159 | the line split of the file up to the persisted offset is carried by known messages in order, each on disk or confirmed |
| ClientProcess.RoundIsExact | src/main.cpp:179-203 | before any crash, whenever a round has saved its checkpoint, the contents ever appended equal the line split of the file up to it |
| ClientProcess.RestartIsClean | src/ClientState.cpp:52-97 | a restart over what the client left behind loads, meets no mismatch and no exhausted ids, keeps the next id, and resumes at the saved checkpoint if and only if the source path is a single line (or there was none) |
| ClientProcess.AppendKeeps | src/main.cpp:186-198 | an append gets a fresh id and keeps the order and partition of the pending messages, whether it succeeds or leaves a torn record |
| ClientProcess.AckKeepsPipe | src/main.cpp:228-239 | after an ACK the pending messages are again those in flight, queued and waiting to be pushed, in this order |
| ClientProcess.PushKeepsPipe | src/main.cpp:204-208 | moving a message into the queue changes neither the order nor the set of messages on their way, and never exceeds the capacity |
| ClientProcess.CheckpointKeeps | src/main.cpp:200-203 | saving the checkpoint, or failing with the old or the new file left, keeps every line before it covered |
| ClientProcess.StartedKeeps | src/main.cpp:163-167 | a restart, from what the text of the state file loads as, re-establishes the whole client invariant |
| ClientProcess.RunKeeps | src/main.cpp:163-263 | the client invariant at every moment of every interleaving and any number of restarts |
| ServerProcess.OnceMoreThanExposed | src/ServerMain.cpp:101-127 | whatever plain clients send, a (client, id) is processed at most once more than it was exposed by a crash or failed write in the window |
| ServerProcess.TwiceOnlyIfExposed | src/ServerMain.cpp:101-123 | so equal keys at two places of the output were exposed |
| ServerProcess.PrintableIffAbove | src/ServerMain.cpp:104-115 | over all continuations, a waiting server can come to print a message, again or for the first time, if and only if its id is above the client's watermark |
| ServerProcess.ExactlyOnceWithoutFaults | src/ServerMain.cpp:109-127 | with plain clients and without such a crash or failure nothing is exposed and no key is processed twice |
| ServerProcess.RestartRemembers | src/DedupStore.cpp:59-94 | a restart loads the watermarks it left if and only if the text format can carry them |
| ServerProcess.SplitIdForgets | src/DedupStore.cpp:74-79 | a concrete run with a client id containing white space: a clean restart forgets it, so its message is processed twice unexposed, and credits another client |
| ServerProcess.TwiceInTheWindow | src/ServerMain.cpp:117-127 | a concrete run in which a crash in the window makes the server process one message twice |
| ServerProcess.AckIsCovered | src/ServerMain.cpp:125-130 | with plain clients, an ACK is the batch's last id and at most the watermark in memory and on disk |
| ServerProcess.ConfirmOutcome | src/DedupStore.cpp:38-57 | confirm is never called with an empty client or zero id; on success the watermark is the maximum of old and last id, other clients are untouched |
| ServerProcess.ExposedKeeps | src/ServerMain.cpp:109-127 | exposing whatever part of a batch was processed keeps the count of processings within exposures plus the watermark |
| ServerProcess.RunKeeps | src/ServerMain.cpp:86-147 | the server invariant at every moment of every run with plain clients |
| ServerProcess.HandlingIsRun | src/ServerMain.cpp:97-127 | handling a whole batch is a run of the machine: received, gone through message by message, and confirmed or exposed |
| ServerProcess.CutHandlingIsRun | src/ServerMain.cpp:109-127 | being killed while the watermark is persisted is a run of the machine in which all of the batch has been printed |
| Refinement.Handle | src/ServerMain.cpp:97-131 | each call of HandleBatch, successful or not, is a run of ServerProcess from the state it found to the state it left, and so is being killed at any state of the disk in between, with what was printed by then |
| Refinement.RoundIsRun | src/main.cpp:179-203 | a poll, then an id and a record for every line, then the checkpoint, are steps of ClientProcess that lead to the state after the round |
| Refinement.CutRoundIsRun | src/main.cpp:186-216 | a round that fails at some line is a run that records the lines before it, perhaps reserves one more id, and stops the producer |
| Refinement.UnsavedRoundIsRun | src/main.cpp:200-216 | a round whose checkpoint cannot be saved is a run that records all lines and stops the producer |
| Refinement.Round | src/main.cpp:179-203 | each round of the producer, successful or not, on a file that has only grown, is a run of ClientProcess from the state it found to the state it left; a failed one stops the producer |
| Refinement.Attempt | src/main.cpp:91-116 | one attempt to deliver the front batch is, in ClientProcess, sending it, and perhaps receiving its ACK with the confirmation of its last id |
| Refinement.Push | include/BoundedBlockingQueue.h:44-54 | pushing under the lock is the monitor's push section |
| Refinement.Pop | include/BoundedBlockingQueue.h:66-76 | popping under the lock is the monitor's pop section |
| Refinement.Collect | include/BoundedBlockingQueue.h:97-129 | collecting under the lock is the monitor's batch section, after a time-out too, and waits exactly when it does |
| Refinement.Close | include/BoundedBlockingQueue.h:137-150 | closing under the lock is the monitor's close step |
| WalHistory.RunKeeps | src/WriteAheadLog.cpp:20-43 | over any appends, confirmations and restarts, failing or not, the file is confirmed records, then exactly the pending ones, then at most one failed record |
| WalHistory.RestartRecovers | src/WriteAheadLog.cpp:64-108 | at every moment a reload succeeds and finds every known unconfirmed message |
| WalHistory.UnconfirmedIsPending | src/WriteAheadLog.cpp:29-43 | a known message above every confirmed id is pending and on disk |
| WalHistory.ConfirmKeeps | src/WriteAheadLog.cpp:29-43 | a confirmation whose rewrite leaves the old or the new file keeps that layout |
| WalHistory.VanishesIffUnknown | src/WriteAheadLog.cpp:110-118 | in every run, a record on disk disappears unconfirmed if and only if its append had failed and a confirmation rewrites the file |
| WalHistory.FailedAppendCanVanish | src/WriteAheadLog.cpp:110-118 | a concrete run from an empty log in which that happens |
| WriteAheadLog.RecoveryIsExact | src/WriteAheadLog.cpp:64-108 | a file loads as a given list if and only if it is the frames of that id-increasing single-client list and at most an incomplete frame |
| WriteAheadLog.TornAppendRecovery | src/WriteAheadLog.cpp:67-88 | a frame cut after any strict prefix loses no earlier record and is reported as torn |
| WriteAheadLog.AppendBehindTornIsLost | src/main.cpp:212-216 | however a record was cut, a newer one appended behind it is never read back as the next record, so the producer must stop |
| WriteAheadLog.AppendAfterTornAppend | src/main.cpp:212-216 | behind a cut after 1 to 8 bytes the whole file becomes unreadable |
| WriteAheadLog.WriteAheadLog.Append | src/WriteAheadLog.cpp:20-27 | durable and pending on success; otherwise, and if killed at any instant, nothing, a torn or a whole record on disk, and nothing in memory; refuses only invalid messages, and fails only with the disk |
| WriteAheadLog.WriteAheadLog.Confirm | src/WriteAheadLog.cpp:29-43 | memory drops exactly the ids up to the confirmed one; disk is rewritten to the same, or a failure, or a kill at any instant, leaves old or new |
| WriteAheadLog.WriteAheadLog.RewriteLocked | src/WriteAheadLog.cpp:110-118 | the file becomes the frames of the pending messages or stays as it was |
| WriteAheadLog.WriteAheadLog.Load | src/WriteAheadLog.cpp:64-108 | recovers exactly the complete records, cuts off a torn tail without losing a record at any instant, and rejects everything else without touching the file |
| WriteAheadLog.WriteAheadLog.Parse | src/WriteAheadLog.cpp:69-102 | the loop over the frames computes the recovery function |
| WriteAheadLog.WriteAheadLog.MaxMessageId | src/WriteAheadLog.cpp:50-57 | an upper bound of the pending ids that is one of them, or zero |
| WriteAheadLog.RemoveConfirmed | src/WriteAheadLog.cpp:31-36 | keeps exactly the messages above the confirmed id, in order |
| WriteAheadLog.AppendOutcome | src/Persistence.cpp:99-117 | each prefix of a frame that a failed write leaves is one of the allowed outcomes of an append |
| Client.BatchIsEncodable | src/main.cpp:26 | up to ten storable messages always fit a batch frame, whatever their sizes |
| Client.ConfirmRemovesFront | src/WriteAheadLog.cpp:31-41 | confirming the last id of a front part of an increasing list leaves exactly the rest |
| Client.Sender.Exchanged | src/main.cpp:102-108 | a batch counts as acknowledged only with its place on the wire: this very batch's frame sent whole and the ACK frame of its last id received on one connection |
| Client.Sender.SendMessages | src/main.cpp:223-241 | what leaves the WAL is a front part of the messages, in order, in batches as large as they may be, each sent whole and acknowledged in that sense |
| Client.Sender.DeliverWithRetry | src/main.cpp:90-131 | retries one batch; success means this very batch was sent and its own ACK received and the WAL compacted; failure leaves it pending, or wholly confirmed after such an exchange, and comes only after all attempts |
| Client.Sender.Attempt | src/main.cpp:91-116 | connects if needed, sends the batch, and confirms its last id only for its own ACK; a failure drops the connection; with a sound connection, disk and ACK it succeeds |
| Producer.Producer.AppendLines | src/main.cpp:186-198 | a front part of the lines becomes records with consecutive ids in line order; each id is durable before its record; a failure is that of reserving or appending the next line; encodable lines on a faultless disk all succeed |
| Producer.Producer.Round | src/main.cpp:179-203 | the lines are the reader's; the checkpoint on disk moves, to the reader's place, only when all are records; and at every instant at which the process may be killed the log holds a front part of the lines, their ids cannot come again, and the checkpoint skips none of them |
| Server.Server.HandleBatch | src/ServerMain.cpp:101-131 | prints exactly the ids above the watermark and only then raises it to the batch's last id, which it returns: at every state of the disk in the middle of the call all of the batch has been printed, so a restart from there skips no unprinted message; if persisting fails, exactly those are exposed; the counters follow |
| Server.CutSkipsOnlyPrinted | src/ServerMain.cpp:109-127 | a server that starts over what a cut confirmation leaves skips a message of the batch only if it is among the printed ones or was at or below the earlier watermark |
| Server.Server.Answer | src/ServerMain.cpp:101-130 | a batch is processed and its watermark raised before its ACK is sent; a failed confirmation sends none |
| Server.Server.ServeOne | src/ServerMain.cpp:97-130 | one frame in, its batch processed, and exactly the ACK frame of its last id out, which the watermark covers |
| Server.Server.Serve | src/ServerMain.cpp:94-146 | on a connection of any content, exactly the ACKs of the frames read go out, in order, all covered by watermarks, and the output grows by exactly what each of their batches holds above the watermark at its time; nothing is exposed unless the disk fails |
| Server.Server.Process | src/ServerMain.cpp:109-123 | the loop prints exactly the messages above the old watermark and counts each message once |
| Server.BatchKeepsBounded | src/ServerMain.cpp:109-127 | after a batch, confirmed or exposed, no key is processed more often than its exposures and its watermark account for |
| Server.AboveLast | src/ServerMain.cpp:106-122 | the loop's last processed id is the maximum of the old watermark and the batch's last id |
| DedupStore.DedupStore.Confirm | src/DedupStore.cpp:38-57 | persists a copy first and adopts it only afterwards; at every instant the file holds the old or the new watermarks; rejects only an empty client or a zero id, and fails only with the disk; other clients unchanged |
| DedupStore.DedupStore.Load | src/DedupStore.cpp:59-83 | loads exactly what the text means, or rejects it; over what an earlier run left, these are that run's watermarks whenever the text format can carry them |
| DedupStore.DedupRoundTrip | src/DedupStore.cpp:59-94 | what persist writes load restores if and only if no client id is empty or has white space and no watermark is zero |
| DedupStore.ReloadIsExact | src/DedupStore.cpp:59-94 | in whatever order the clients are listed, the watermarks are reloaded if and only if the text format can carry them |
| DedupStore.SplitRecord | src/DedupStore.cpp:74-79 | a client id that reads like two records is loaded as two other clients |
| DedupStore.BadRecordIsRejected | src/DedupStore.cpp:74-79 | behind any good records, a repeated client or a zero watermark makes the file unacceptable |
| DedupStore.GarbageIsRejected | src/DedupStore.cpp:80-82 | so does a record whose number is none |
| DedupStore.CutRecordIsIgnored | src/DedupStore.cpp:74-82 | a file that ends with a client's name alone loads as if that were not there |
| DedupStore.DedupText | src/DedupStore.cpp:85-94 | the text of one file, byte by byte |
| DedupStore.DedupStore.List | src/DedupStore.cpp:89-91 | the written entries list every client exactly once with its watermark |
| ClientState.StateRoundTrip | src/ClientState.cpp:161-216 | what persist writes load restores if and only if the id is non-empty, id and path are single lines, and the next id is not zero |
| ClientState.SavedIsLoaded | src/ClientState.cpp:161-216 | for any single-line id, everything saved is loaded, except that only the first line of the source path is left |
| ClientState.OlderIsLoaded | src/ClientState.cpp:187-192 | a state file of the older format loads with everything it has and no file identity |
| ClientState.StateText | src/ClientState.cpp:205-216 | the text of one state, byte by byte |
| ClientState.ClientState.NextMessageId | src/ClientState.cpp:104-118 | returns the old counter only after the new one is durable; a failure restores memory and leaves old or new on disk, as does a kill at any instant; refuses only the last id or a failing disk |
| ClientState.ClientState.UpdateFileCheckpoint | src/ClientState.cpp:136-159 | all three checkpoint fields become durable together, or memory is restored; a kill at any instant leaves the old or the new ones |
| ClientState.ClientState.Open | src/ClientState.cpp:52-98 | the loaded or fresh state for this run: the next id above every recovered id and moved for nothing else, the checkpoint dropped exactly if the source differs; every reason to refuse is named, and on a faultless disk no other start fails; at every instant the file is the old or the corrected one |
| ClientState.RepairedMeans | src/ClientState.cpp:71-93 | the corrections put the next id above every recovered one, one past some recovered id or as it was, and keep the checkpoint for the same source only |
| ClientState.MaxIdIsMaximum | src/ClientState.cpp:80-86 | the maximum is an upper bound of the ids and attained |
| ClientState.ClientState.CheckRecovered | src/ClientState.cpp:80-90 | accepts exactly the recovered messages of this client with a representable next id, and finds their maximum |
| Text.ParseDecimal | src/ClientState.cpp:37-48 | the strict parser inverts printing for every 64-bit value |
| Text.ParseIsExact | src/ClientState.cpp:37-48 | the strict parser accepts exactly white space, a sign and digits up to 2^64-1, unless the text begins with a minus sign, as the number they stand for |
| Text.LastLineOf | src/ClientState.cpp:170-173 | the last line of a text needs no newline |
| Text.ExtractNumberOf | src/DedupStore.cpp:74 | stream extraction inverts printing for every 64-bit value and stops at the newline |
| Protocol.BatchBijection | src/Protocol.cpp:283-353 | a frame decodes to a batch if and only if it is the encoding of that valid batch |
| Protocol.LogBijection | src/Protocol.cpp:256-281 | the same for single-message frames |
| Protocol.AckBijection | src/Protocol.cpp:355-377 | the same for ACK frames |
| Protocol.LogFrameLayout | src/Protocol.cpp:256-265 | where each field of a single-message frame is, byte by byte, big-endian, two's complement time |
| Protocol.BatchFrameLayout | src/Protocol.cpp:309-318 | the same for batch frames |
| Protocol.RecordsInOrder | src/Protocol.cpp:309-318 | the records of a batch follow one another in its order |
| Protocol.AckFrameLayout | src/Protocol.cpp:355-361 | the same for ACK frames |
| Protocol.HeaderRoundTrip | src/Protocol.cpp:37-45 | an encoded header with a legal length decodes to its type and length |
| Protocol.HeaderSound | src/Protocol.cpp:225-254 | every accepted header is the encoding of what it decodes to |
| Protocol.RecordsSound | src/Protocol.cpp:179-211 | the bytes consumed by decoding records are exactly the records' encodings |
| Protocol.NeighboursIncrease | src/Protocol.cpp:340-347 | comparing neighbours establishes strict increase over the whole batch and a single client |
| Protocol.AboveMembers | src/ServerMain.cpp:109-115 | what is skipped are exactly the ids at or below the mark |
| Codec.BatchPayloadSizeMeaning | src/Protocol.cpp:283-307 | the size check accepts exactly the valid batches and computes their payload size, without underflow |
| Codec.SerializeLogBatch | src/Protocol.cpp:283-318 | succeeds exactly on valid batches, with the batch's encoding |
| Codec.DeserializeLogBatch | src/Protocol.cpp:320-353 | the decoding loop, with its error cases, computes the format's decoding function |
| Codec.SerializeLogMessage | src/Protocol.cpp:256-265 | succeeds exactly on valid messages, with the message's encoding |
| Codec.DeserializeLogMessage | src/Protocol.cpp:267-281 | the decoder, with its error cases, computes the format's decoding function |
| Codec.ParseFrameHeader | src/Protocol.cpp:225-254 | the header checks in the source's order |
| Codec.ReadLogRecord | src/Protocol.cpp:179-211 | the record at an offset and the offset behind it |
| Codec.DeserializeAck | src/Protocol.cpp:363-377 | the ACK decoder, with its error cases |
| SocketIO.CleanStream | src/SocketIO.cpp:75-97 | a stream is read as given frames up to a clean end if and only if it is the concatenation of those valid frames |
| SocketIO.FramesReadBack | src/SocketIO.cpp:75-97 | frames followed by anything are read back one by one, and then the rest |
| SocketIO.CleanStreamIsFrames | src/SocketIO.cpp:75-97 | every stream that ends cleanly is the concatenation of the frames read from it |
| SocketIO.CutStream | src/SocketIO.cpp:30-36 | an end inside a frame is an error after the complete frames, never a frame |
| SocketIO.ReceiveFrame | src/SocketIO.cpp:75-97 | for any fragmentation, the next frame of the stream and nothing more is consumed |
| SocketIO.ReceiveExact | src/SocketIO.cpp:15-46 | fills the buffer with the next bytes, or reports a clean end only if nothing was read |
| SocketIO.SendAll | src/SocketIO.cpp:50-73 | sends exactly the data under any partial sends, or a prefix on failure |
| Transport.MessagesOfMeaning | src/TcpServer.cpp:148-159 | the frames the server accepts are exactly the encodings of a message or a batch, and give back what was sent |
| Transport.BatchDelivered | src/TcpClient.cpp:130-135 | the bytes of a sent batch, received in any portions, yield that batch |
| Transport.TcpClient.SendLogBatchAndWaitAck | src/TcpClient.cpp:147-161 | success means the batch was sent whole and the next frame is the ACK of its last id |
| Transport.ReceiveLogBatch | src/TcpServer.cpp:137-160 | returns the messages of the next frame, a clean end, or an error |
| Persistence.AppendDurably | src/Persistence.cpp:99-117 | all of the data on success; at every instant in between and after any failure the old file with some prefix of the data |
| Persistence.WriteAtomically | src/Persistence.cpp:119-148 | the new content on success; at every instant and after any failure the old or the new content |
| Persistence.WriteAll | src/Persistence.cpp:22-41 | the write loop under any partial writes |
| FileTailReader.RunKeeps | src/FileTailReader.cpp:63-65 | for any interleaving of growth, reads and restarts the emitted lines are the line split up to the committed offset, and the pending bytes are the unfinished line behind it |
| FileTailReader.RestartIsInvisible | src/FileTailReader.cpp:100-109 | a reader restarted at the committed offset returns the same further lines as one that kept running |
| FileTailReader.TailIsALine | src/FileTailReader.cpp:39-48 | the unterminated tail of a file that is left is a line of its own, as it is |
| Truncation.RunKeeps | src/FileTailReader.cpp:112-126 | while the file is appended to and rewritten at will: as long as what was read belongs to the content at hand, the lines returned of it are its line split |
| Truncation.NoticedIffShorter | src/FileTailReader.cpp:123-126 | the first read after a rewrite notices it if and only if the new content is shorter than what had been read, and then returns all of it from byte 0 |
| Truncation.RewrittenIsReadAnew | src/FileTailReader.cpp:112-126 | from then until the next rewrite the lines returned are the line split of the new content from byte 0 |
| Truncation.LongerIsUnnoticed | src/FileTailReader.cpp:123-129 | a concrete run in which a longer rewrite goes unnoticed and its first line is never returned |
| Rotation.RunKeeps | src/FileTailReader.cpp:28-57 | over any growth, replacements, failed rounds, saved checkpoints and crashes: the committed offset and the pending bytes belong to the file the reader names, its lines are the line split up to the offset, a replaced file contributes every line up to its end at the drain, and each stretch starts a file at its beginning or where an earlier stretch of it had come |
| Rotation.ReplacedFileIsComplete | src/FileTailReader.cpp:39-48 | in every run, the round that notices a replacement completes the old file: all its lines from the start of the stretch to its end as present then, and its tail |
| Rotation.SwitchClosesDrained | src/FileTailReader.cpp:28-33 | the round after that closes the stretch with exactly those lines, and the new file starts at its first byte |
| Rotation.RestartReadsAgain | src/main.cpp:163-203 | a restart on the same file reads again exactly the lines returned since the checkpoint was saved, and none before it |
| Rotation.RestartOnOtherFile | src/FileTailReader.cpp:98-109 | a restart resumes at the saved offset if the path names the checkpoint's file, and at the first byte of any other |
| Rotation.DrainedIsAll | src/FileTailReader.cpp:39-48 | on the bytes: what was returned before and what the drain returns are together all lines of the old file up to the end of the drain, with the unterminated tail |
| FileTailReader.FileTailReader.ReadNewLines | src/FileTailReader.cpp:28-57 | new lines of the same file; on replacement the rest of the old file and its tail; next time the new file from byte 0; never both; each time up to the end of the file, unless another process is cutting it |
| FileTailReader.FileTailReader.ReadFromOpenFile | src/FileTailReader.cpp:112-189 | reads to the end of the file through any short reads, unless another process is cutting it; a file shorter than the offset is read anew, all of it from byte 0; fails only if a call fails |
| FileTailReader.FileTailReader.OpenCurrentFile | src/FileTailReader.cpp:79-110 | a checkpoint of another file or beyond the end counts for nothing |
| FileTailReader.FileTailReader.SplitLines | src/FileTailReader.cpp:169-187 | the scanning loop computes the one split of the text into lines with "\n" or "\r\n" behind each, and what follows the last of them |
| Lines.SplitInPortions | src/FileTailReader.cpp:165-188 | splitting portion by portion equals splitting the whole once |
| Lines.SplitIsExact | src/FileTailReader.cpp:165-187 | a text has exactly one split into lines with one of the two line ends each, a line that ends in a carriage return needing the longer one, and that is the scanner's |
| Lines.LineEnds | src/FileTailReader.cpp:178-184 | both line ends mean the same and just one carriage return is removed |
| BoundedBlockingQueue.BoundedBlockingQueue.PushLocked | include/BoundedBlockingQueue.h:36-54 | appends one item within capacity, or refuses because the queue is closed |
| BoundedBlockingQueue.BoundedBlockingQueue.PopLocked | include/BoundedBlockingQueue.h:58-76 | removes the first item, or reports a closed and drained queue |
| BoundedBlockingQueue.BoundedBlockingQueue.CollectLocked | include/BoundedBlockingQueue.h:97-129 | moves a maximal front part of the queue into the batch and says whether to wait for more; after a time-out on an empty queue it does not wait |
| QueueMonitor.SleepersAreAwaited | include/BoundedBlockingQueue.h:36-150 | for any threads and interleaving, free slots (items) never exceed the notifications still owed to producers (consumers) while one sleeps; after close the closer still owes its notify_all |
| QueueMonitor.NoLostWakeup | include/BoundedBlockingQueue.h:36-150 | when nothing is owed any more, producers sleep only on a full open queue and consumers only on an empty open one |
| QueueMonitor.FirstInFirstOut | include/BoundedBlockingQueue.h:36-134 | pushed items are the dequeued ones followed by the queue, within capacity |
| QueueMonitor.SingleConsumerBatches | include/BoundedBlockingQueue.h:97-133 | with one consumer, its batch is a contiguous run of the pushed items although the lock is released midway |
| QueueMonitor.ClosedMeansDrained | include/BoundedBlockingQueue.h:92-134 | in every run, a returning popBatch has 1 to maxItems items, or none and then the queue is closed and drained; a closed queue gains nothing |
| QueueMonitor.TimedOutReturns | include/BoundedBlockingQueue.h:112-119 | in every run, a popBatch whose time is over and that finds the queue empty returns exactly the items it held |
| QueueMonitor.BatchComesBack | include/BoundedBlockingQueue.h:97-133 | from every state of every run, a popBatch that holds items returns them, and perhaps more from the front of the queue, by steps of its own alone |
| QueueMonitor.NothingAfterClose | include/BoundedBlockingQueue.h:137-150 | no push succeeds after a close, at any distance |
| QueueMonitor.SectionKeeps | include/BoundedBlockingQueue.h:109-132 | the accounting rule under which a thread leaving the lock strands nobody |
| QueueMonitor.NotifyOneOwed | include/BoundedBlockingQueue.h:51-52 | notify_one moves one unit of debt from the notifier to the thread it wakes |
| ShutdownHandshake.StopClosesEverythingOnce | src/TcpServer.cpp:89-121 | when the stops and acceptClient have returned, both descriptor fields are empty and every descriptor was closed exactly once |
| ShutdownHandshake.NeverClosedTwice | src/TcpServer.cpp:18-24 | in no interleaving is a descriptor closed twice, nor while a field still names it |
| ShutdownHandshake.StopIsBounded | src/TcpServer.cpp:89-121 | once a stop has been called there are at most 6 further steps, and 5 for each stop |
| ShutdownHandshake.NobodyIsStuck | src/TcpServer.cpp:89-121 | in every state acceptClient can go on until it has finished, and so can every stop |

## Left out

- WriteAheadLog.AppendAfterTornAppend: for cuts after 1 to 8 bytes; after a longer cut the new frame is read as the torn frame's length or payload, and whether the file still loads depends on its bytes (WriteAheadLog.AppendBehindTornIsLost covers every cut).
- ServerProcess.TwiceOnlyIfExposed: one direction; an exposed message is processed again only if it is resent, which ServerProcess.PrintableIffAbove makes exact.
- Client.Sender.DeliverWithRetry: the stop flag is a bound on the number of attempts; waiting and the growing delay between attempts are not modelled.
- ClientProcess.RoundIsExact: speaks of the time before the first crash; afterwards lines between the checkpoint and the crash are read again under new ids, so no exactly-once is claimed for lines.
- BoundedBlockingQueue.BoundedBlockingQueue.CollectLocked: one critical section of popBatch; waiting, time-outs and other threads are in QueueMonitor.
- A record whose append reported a failure may be kept or vanish; its line is not checkpointed, so it is read again.
- System and ClientProcess: one watched file that only grows. Replacement is in Rotation and truncation in Truncation; changes of the file while the client is down, writes to a drained file and reused inodes go undetected in the source.
- A crash between the last read of a replaced file and its checkpoint, when the path already names the new file, leaves the unsaved lines of the old one unread, as in the source and as Rotation.RestartOnOtherFile says; only those whose records are in the WAL are still sent.
- Rotation has files that grow and are replaced, Truncation one that is rewritten; a file that is cut in the middle of a read is in FileTailReader alone.
- That a blocked accept returns once the listening socket has been shut down is the kernel's; in ShutdownHandshake accept may fail at any time.
- System: the first start over an empty data directory has succeeded; a deleted state or dedup file and data directories shared by clients are excluded.
- System: peers whose ids contain white space are outside the theorems; Witness.SplitIdLoses shows that they would not hold.
- Fairness: Progress.CanAlwaysFinish says that a continuation that succeeds always exists; that retries do succeed needs fairness of the network and the disk, which is not modelled, nor is it claimed that a line above the content limit is ever skipped: the producer stops at such a line by design.
- The unterminated tail of a replaced file keeps its carriage return, as in the source.
- Loss of power, beyond what a killed process leaves: unsynced data and directory entries are taken to survive.
- EINTR loops, which repeat the same call, and the errno behind a failure.
- Address resolution, socket options, time-outs as durations, and signals; a time-out is a failure of the call.
- Console output and metrics, except the server's counters; counters do not wrap.
- Generating the random client id, which is a parameter.
- Weakly ordered atomics: ShutdownHandshake assumes sequential consistency, and a descriptor number is not reused.
- The single-message calls sendLogMessage and receiveLogMessage, the benchmark and the shell test.
