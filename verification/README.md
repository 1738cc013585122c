# ECU gateway: verified model

This project models, in Dafny, the parts of the ECU gateway daemon that carry its protocols, and proves
what they guarantee. The daemon streams cloud downloads to an RSU client over its own TCP protocol, serves
stored files to an SND client over HTTP, stops its parts through a stop source and token, and breaks long
log messages into pieces.

| file | what it holds |
|---|---|
| `Prelude.dfy`, `Decimal.dfy`, `RequestUrl.dfy` | options and bytes; decimal numerals; the text of an RSU request |
| `ByteOrder.dfy`, `Frame.dfy` | byte order and `HTONLL`; the RSU frame encoder and the client's decoder |
| `Session.dfy` | the state of the RSU session and the effect of every entry point |
| `GatewayObjects.dfy` | the same entry points as methods of the program's objects, updated in place, and whole runs of the objects |
| `Conversation.dfy` | what single calls do, for every request and every confirmation a client can send |
| `SessionRuns.dfy` | what every run keeps: flags, socket discipline, abort gate, result accounting |
| `Descriptors.dfy` | over every run, exactly which connections the server leaks |
| `Routing.dfy` | over every run, which client a result belongs to, and what SND downloads can influence |
| `Environment.dfy` | the contract of the cloud and the client, and the hypotheses about the order of events |
| `Resume.dfy` | the resume guarantee |
| `ExactAccounting.dfy` | exactly which results are swallowed |
| `Witnesses.dfy` | runs in which the main results of the two files above fail without one of their hypotheses |
| `Interleaving.dfy`, `Pacing.dfy` | writes that are not one step: which connections they close, and when stop-and-wait survives |
| `StopProtocol.dfy`, `StopTermination.dfy`, `StopSafety.dfy` | the stop source and token for any number of threads |
| `StopResets.dfy`, `StopDisconnect.dfy` | resets that race with triggers; slots that are disconnected |
| `StopObjects.dfy` | the protocol on the program's objects |
| `LogSplitter.dfy` | the log splitter |
| `RangeService.dfy`, `RangeLadder.dfy` | byte ranges over HTTP; which answer each request gets |

## How the session is modelled

`Session.State` holds the fields of `GatewayServer`, `CloudGateway`, the job-to-client map and the download
status, and beside them the world: open sockets, cloud jobs, the RSU client with the bytes it holds, and a
trace of connections, frames, confirmations, aborts and result attempts. A step is one call from outside: a
connection is accepted, a cloud job writes, a cloud job changes state, an SND download starts. What the
operating system and the cloud answer is part of the step. The methods of `GatewayObjects` take the same
answers as parameters and are proved to change the objects as `Session` says, one call (`Perform`) and any
list of calls (`Serve`); a frame goes out through the in-place encoder of `Frame`, and the trace records what
a reader of the bytes decodes.

`SessionRuns`, `Descriptors` and `Routing` assume only that `accept` returns a descriptor that is not open and
that jobs write after they were acknowledged, and the result on the origin of jobs that job ids are fresh.
`Resume` assumes in addition the contract `Environment.Contract`: job ids are fresh, a job reports one
terminal event and only after its acknowledgement, a job writes consecutive slices of its file from its
offset, a job that was cancelled or got 0 back writes no more, a job completes only when its whole file was
accepted, and the client asks from the byte it needs next. `ExactAccounting` assumes only what concerns
events, `Environment.EventContract`. On top come hypotheses about the order of events:

- `Environment.OneOutstanding` (both files): a connection starts a job only when at most one result is
  outstanding; there is one discard flag.
- `Environment.SndWaits` (`Resume`): no SND download starts while an RSU job is live; both share one job id.
- `Environment.InStartingOrder` (`ExactAccounting`): the result of the newest RSU job comes after those of
  older ones.
- `Environment.Succeeds` (`ExactAccounting`): a connection that cancels a job succeeds in starting its own.

For each of the two files and each of its hypotheses, `Witnesses` has a run that keeps everything else and
in which the main result fails. The resume guarantee needs neither an order of results nor that starts
succeed, and aborts do not endanger it. A job that starts while an abort is pending is dropped silently and
still reported as completed; `Resume.CompletedMeansWhole` says exactly when a Completed frame of the newest
job tells the truth, and `Witnesses.NewestNeeded` that one of an older job may not.

Entry points are atomic: a write, a completion and an accepted connection do not interleave. `Interleaving`
takes a write apart: its halves make up the atomic write, and over every run with such writes it says exactly
when a write closes a connection that is not its own (`ClosesOther`), which can be one with a live job.
`Pacing.StopAndWaitExactly` says exactly when stop-and-wait survives.

## Where code and documentation differ

- RFC 9110 section 14.1.2 reads `bytes=-n` as the last n bytes, an open range as the rest of the file and a
  last position behind the end as the end. The code takes `bytes=-n` as 0 to n and refuses the others; the
  model follows the code, and `RangeService.AgreesWithRfc` says for which ranges and sizes the two agree.
- The comment in `processUrl` and the log line "No ongoing job to abort." describe a branch that
  `SessionRuns.JobAlwaysKnown` proves unreachable.
- `StopToken.cpp` presents `trigger` as stopping the source; a weak compare-and-swap may fail without
  reason, and then nothing is stopped (`StopSafety.DeliveredExactly`).
- `reset` in `StopToken.cpp` is written as if nothing ran beside it. A stop is lost exactly if a reset takes
  down the flag of a source that was stopped again since the reset began, and neither a trigger nor a reset
  follows that mends it (`StopResets.LostExactly`). Stopping the source between the two assignments is not
  enough for that (`StopResets.OverlapNoticed`), but no stop is lost without it (`StopResets.StopNoticed`).

## Model

| member | source | states |
|---|---|---|
| ByteOrder.HtonllStoresBigEndian | src/gatewayServer/src/Server.cpp:35-38 | on a little-endian host the eight stored bytes of `HTONLL(x)` are the big-endian digits of `x`, for every 64-bit `x` |
| ByteOrder.HtonllInvolution | src/gatewayServer/src/Server.cpp:35-38 | `HTONLL` is its own inverse on 64-bit values |
| ByteOrder.ExchangeAndSwap | src/gatewayServer/src/Server.cpp:37-38 | swapping the bytes of two words and exchanging them reverses all bytes, for every word length |
| ByteOrder.BothOrders | src/gatewayServer/src/Server.cpp:35-38 | which byte comes first in each of the two orders |
| Frame.WireLayout | src/gatewayServer/src/Server.cpp:283-298 | the position and the value of every part of a frame: type 1 for data and 2 for status, high and low byte of the error code, size, payload |
| Frame.OneFrame | src/gatewayServer/src/Server.cpp:283-298 | one frame, byte for byte |
| Frame.FillBuffer | src/gatewayServer/src/Server.cpp:283-298 | the in-place encoder with its moving offset produces the frame layout and writes every byte of the buffer exactly once |
| Frame.DecodeEncoded | src/gatewayServer/src/Server.cpp:282-298 | a frame followed by any bytes decodes to its type, error code and payload and leaves those bytes |
| Frame.EncodeDecoded | src/gatewayServer/src/Server.cpp:282-298 | only encodings decode, so the decoder is the exact inverse of the encoder |
| Frame.StreamRoundTrip | src/gatewayServer/src/Server.cpp:282-300 | decoding the concatenation of any sequence of frames gives back exactly that sequence |
| Frame.StreamRoundTripBack | src/gatewayServer/src/Server.cpp:282-300 | a byte stream that decodes is the concatenation of the encodings of its frames |
| Frame.EncodingInjective | src/gatewayServer/src/Server.cpp:282-300 | two sequences of frames with the same bytes are equal |
| Frame.PrefixFree | src/gatewayServer/src/Server.cpp:282-300 | no frame is a proper prefix of another, and a frame cut short never decodes |
| RequestUrl.FirstOccurrence | src/gatewayServer/src/Server.cpp:152-158 | the offset keyword has no border: behind a URL without it, the first occurrence is right after the URL |
| RequestUrl.RequestRoundTrip | src/gatewayServer/src/Server.cpp:152-179 | the server reads back exactly the URL and the offset that a client appended, for every 64-bit offset |
| RequestUrl.AcceptedRequest | src/gatewayServer/src/Server.cpp:153-179 | every accepted request was split at its first keyword, and its offset is what `std::stoul` reads from the rest |
| RequestUrl.IsHttpExactly | src/gatewayServer/src/Server.cpp:135-138 | exactly the texts that begin with `http://` or with `https://` are URLs |
| RequestUrl.RequestReads | src/gatewayServer/src/Server.cpp:152-179 | for either scheme and every offset text, taken apart into white space, sign, digits and a rest: which offset the request has, and that it throws without digits or from 2^64 on |
| RequestUrl.PartsOf | src/gatewayServer/src/Server.cpp:179-179 | every offset text can be taken apart so |
| RequestUrl.PlainRequest | src/gatewayServer/src/Server.cpp:152-179 | digits right behind the keyword are the offset, whatever follows them |
| RequestUrl.ThrowsExactly | src/gatewayServer/src/Server.cpp:179-179 | the offset text makes the request throw exactly if it has no digits or its number is 2^64 or more |
| Conversation.ConfirmationTexts | src/gatewayServer/src/Server.cpp:224-262 | a confirmation is told by exactly how it begins |
| Conversation.RequestTexts | src/gatewayServer/src/Server.cpp:197-219 | a request is useless exactly if it is not a URL or has no offset keyword |
| Conversation.UselessRequest | src/gatewayServer/src/Server.cpp:203-216 | a useless request closes the connection and changes nothing else |
| Conversation.StartingRequest | src/gatewayServer/src/Server.cpp:164-183 | a request whose call is acknowledged makes its job current, maps it to the RSU client and starts it at the offset; the discard flag goes up exactly if a download was in progress |
| Conversation.StartingCancels | src/gatewayServer/src/Server.cpp:164-171 | it cancels exactly the current job of a download in progress |
| Conversation.FailingRequest | src/gatewayServer/src/Server.cpp:164-189 | a request whose call fails cancels it as well and closes the connection |
| Conversation.ThrowingRequest | src/gatewayServer/src/Server.cpp:164-179 | a request that throws ends the main loop after the cancellation, with the connection open |
| Conversation.ConfirmedChunk | src/gatewayServer/src/Server.cpp:222-227 | after `next-chunk` the job has moved on and the client holds the chunk |
| Conversation.AbortedChunk | src/gatewayServer/src/Server.cpp:227-235 | after `abort` the chunk counts, the current job is cancelled and an abort is pending |
| Conversation.FailedChunk | src/gatewayServer/src/Server.cpp:235-239 | any other confirmation and a lost connection close the connection and fail the write for good |
| Conversation.NothingToSend | src/downloader/src/CGWDownloader.cpp:33-36 | without data or a connection a write fails and does nothing |
| Conversation.DroppedChunk | src/downloader/src/CGWDownloader.cpp:37-40 | under a pending abort a chunk counts as written and is not sent |
| Conversation.SndRequest | src/httpServer/src/HttpServer.cpp:75-128 | an SND download starts exactly for a URL of either scheme whose file could be created and whose call was acknowledged; otherwise its status is FAILED and nothing changes |
| Conversation.NextUrlBegins | src/gatewayServer/src/Server.cpp:254-257 | a client that answers a result by `next-url` gets its next job on the same connection |
| Conversation.NextUrlFails | src/gatewayServer/src/Server.cpp:254-257 | a useless next request or a failing call closes the connection |
| Conversation.NextUrlThrows | src/gatewayServer/src/Server.cpp:322-330 | a next request that throws closes the connection, cancels the current job and does not end the main loop |
| Conversation.NoDownload | src/gatewayServer/src/Server.cpp:251-253 | after `no-download` the client stays connected and nothing starts |
| Conversation.ResultNotConfirmed | src/gatewayServer/src/Server.cpp:258-262 | any other answer to a result and a lost connection close the connection |
| Conversation.ResultWithoutClient | src/gatewayServer/src/Server.cpp:278-281 | without a connection a result is lost, but the flags are reset |
| GatewayObjects.GatewayServer.CloseConnection | src/gatewayServer/src/Server.cpp:333-344 | closes the current socket if there is one and forgets it |
| GatewayObjects.GatewayServer.SendMessageToRSU | src/gatewayServer/src/Server.cpp:270-331 | sends the encoded frame, waits for one confirmation and closes the connection when either fails |
| GatewayObjects.GatewayServer.TransferChunkToRSU | src/gatewayServer/src/Server.cpp:222-243 | a chunk is accepted exactly if a known confirmation came; `abort` sets the flag and cancels the current job |
| GatewayObjects.GatewayServer.ProcessUrl | src/gatewayServer/src/Server.cpp:146-195 | splits the request, cancels the job in progress and starts the new one, in this order even when `std::stoul` throws |
| GatewayObjects.GatewayServer.AcceptClient | src/gatewayServer/src/Server.cpp:119-133 | the new connection becomes the current one and its request is handled |
| GatewayObjects.GatewayServer.SendDownloadResultToRSU | src/gatewayServer/src/Server.cpp:245-268 | resets both flags, sends the result and follows a `next-url` into the next request |
| GatewayObjects.CloudGateway.DownloadFile | src/downloader/src/CGWDownloader.cpp:94-147 | an acknowledged call replaces the shared job id and maps the job to its client; a failed one changes nothing but the resource that downloads write to |
| GatewayObjects.CloudGateway.HandleRSUCompletion | src/downloader/src/CGWDownloader.cpp:274-290 | a pending discard swallows the result and is cleared, otherwise the result is sent |
| GatewayObjects.CloudGateway.OperationStateChanged | src/downloader/include/CGWEventListener.hpp:56-114 | only Completed and Failed lead anywhere, and then to the client the job is mapped to |
| GatewayObjects.DownloadBuffer.WriteData | src/downloader/src/CGWDownloader.cpp:30-58 | the whole size is reported under a pending abort and for an accepted chunk, and 0 otherwise |
| GatewayObjects.HttpServer.StartDownload | src/httpServer/src/HttpServer.cpp:75-128 | the download status after a start of an SND download, and its use of the shared job id |
| GatewayObjects.HttpServer.SendStatusForDownloadRequest | src/httpServer/src/HttpServer.cpp:366-379 | the download status after a completion, for every status text |
| GatewayObjects.Perform | src/downloader/src/CGWDownloader.cpp:30-301 | any call from outside changes the objects as one step of the session does |
| GatewayObjects.Serve | src/gatewayServer/src/Server.cpp:119-268 | any list of calls takes the objects through a run of the session, with its flag, socket and trace invariants |
| SessionRuns.EveryRun | src/gatewayServer/src/Server.cpp:164-183 | in every state of every run: discard pending implies download in progress implies a job id, abort pending implies a job id, and the socket and gate invariants hold |
| SessionRuns.JobAlwaysKnown | src/gatewayServer/src/Server.cpp:164-174 | the branch for a download in progress without a job is unreachable |
| SessionRuns.StopAndWait | src/gatewayServer/src/Server.cpp:270-344 | on any run two frames on one socket have a confirmation or a close between them, and nothing is sent on or done to a closed socket, `next-url` re-entry included |
| SessionRuns.DisciplineMeans | src/gatewayServer/src/Server.cpp:300-344 | what the socket discipline of a trace says about any two of its events |
| SessionRuns.AbortGating | src/downloader/src/CGWDownloader.cpp:37-40 | between an abort and the next attempt to send a result no chunk goes out, while every valid write reports its full size |
| SessionRuns.AccountsStep | src/downloader/src/CGWDownloader.cpp:277-282 | the discard flag goes up only by a supersession and comes down only by swallowing a result |
| SessionRuns.ResultAccounting | src/downloader/src/CGWDownloader.cpp:238-290 | in every run the results of RSU jobs are the attempts to send one plus the swallowed ones, and these never exceed the supersessions |
| SessionRuns.TextBytes | src/gatewayServer/src/Server.cpp:264-265 | the payload of a status text holds the code of each character |
| SessionRuns.TextOfBytes | src/gatewayServer/src/Server.cpp:264-265 | texts with the same payload are equal |
| SessionRuns.ResultFrame | src/downloader/include/CGWEventListener.hpp:65-79 | a result reaches a connected client as one status frame with the bytes of "Completed" or "Failed" and the low 16 bits of the error code |
| Descriptors.LeakedForever | src/gatewayServer/src/Server.cpp:197-201 | a connection that is open but not current stays so in every later state of every run: it is never written to and never closed |
| Descriptors.LeakedExactly | src/gatewayServer/src/Server.cpp:119-131 | over every run, the open connections that are not current are exactly those that were current when a later one was accepted |
| Descriptors.OneEachTime | src/gatewayServer/src/Server.cpp:333-344 | over every run, the number of leaked descriptors is the number of times a connection replaced another |
| Routing.RoutedByOrigin | src/downloader/src/CGWDownloader.cpp:229-301 | over every run with fresh ids, a job's event goes to the client whose request started it: an SND result touches only the download status; an RSU result leaves that alone and is swallowed if a discard is pending, and otherwise there is exactly one attempt to send it; other cloud states have no effect |
| Routing.StepSame | src/downloader/src/CGWDownloader.cpp:238-301 | no step of the session depends on the download status or on the record of an SND result |
| Routing.SndResultInvisible | src/downloader/src/CGWDownloader.cpp:255-301 | with or without the event of an SND job, any continuation gives the same frames, flags, RSU jobs and client bytes |
| Routing.StatusFollowsSnd | src/httpServer/src/HttpServer.cpp:366-379 | along any run the download status is what the starts and results of SND downloads alone make of it |
| Resume.InvStep | src/gatewayServer/src/Server.cpp:146-268 | every step keeps the resume invariant, from chunk to reconnect to result, in whatever order results come in |
| Resume.HandleClientCore | src/gatewayServer/src/Server.cpp:146-195 | a request leaves one live job at most, at the position the client asked for |
| Resume.WriteInv | src/gatewayServer/src/Server.cpp:222-243 | a chunk keeps the client's bytes a prefix, whatever happens to the connection on the way |
| Resume.AttemptIsLast | src/downloader/src/CGWDownloader.cpp:277-282 | a result that is sent, and not swallowed, is the only one outstanding |
| Resume.RsuResultInv | src/downloader/src/CGWDownloader.cpp:274-290 | the result of any outstanding job keeps the resume invariant, `next-url` included |
| Resume.ClientHoldsPrefix | src/gatewayServer/src/Server.cpp:146-243 | over any run of chunks, lost connections and reconnects the client holds a prefix of the file it asked for |
| Resume.CompletedMeansWhole | src/downloader/src/CGWDownloader.cpp:30-58 | when a Completed frame of the newest job goes out, the client holds the whole file exactly if the job did not start under a pending abort or started at the end of the file |
| Resume.HonestText | src/gatewayServer/src/Server.cpp:152-179 | a client that appends the number of bytes it holds to its URL keeps its part of the contract |
| ExactAccounting.ExactStep | src/downloader/src/CGWDownloader.cpp:238-290 | every step keeps the flags equal to what is outstanding |
| ExactAccounting.StartedJobs | src/gatewayServer/src/Server.cpp:164-183 | after a supersession the superseded job is the one stale result |
| ExactAccounting.ExactlySupersededSwallowed | src/downloader/src/CGWDownloader.cpp:274-290 | exactly the results of superseded jobs are swallowed and every other result has exactly one attempt |
| Witnesses.OneOutstandingNeeded | src/downloader/src/CGWDownloader.cpp:277-281 | with two superseded jobs outstanding the client's bytes can be wrong |
| Witnesses.OneOutstandingNeededForAccounting | src/downloader/src/CGWDownloader.cpp:277-281 | with two superseded jobs outstanding the result of a superseded job is sent |
| Witnesses.OrderNeededForAccounting | src/downloader/src/CGWDownloader.cpp:277-282 | with results out of order a job that nothing superseded loses its result |
| Witnesses.NewestNeeded | src/downloader/src/CGWDownloader.cpp:277-282 | a Completed frame of a job that is not the newest can reach a client that holds nothing |
| Witnesses.SndWaitsNeeded | src/downloader/src/CGWDownloader.cpp:125-132 | with an SND start during an RSU download the client's bytes can be wrong |
| Witnesses.CleanNeeded | src/downloader/src/CGWDownloader.cpp:277-281 | a swallowed result leaves the abort pending, and the next job is dropped and reported as completed |
| Witnesses.SucceedsNeededForAccounting | src/gatewayServer/src/Server.cpp:181-189 | after a failed start a job that nothing superseded loses its result |
| Witnesses.ConnectionLeaked | src/gatewayServer/src/Server.cpp:201-201 | a run that keeps the contract and every hypothesis and leaks a descriptor |
| Interleaving.SplitIsWrite | src/gatewayServer/src/Server.cpp:300-322 | sending the frame and waiting for its confirmation, one right after the other, are the atomic write |
| Interleaving.ClosesOther | src/gatewayServer/src/Server.cpp:300-316 | over every run with split writes, a write closes another descriptor than its own exactly if its confirmation is missing or unknown and that connection was accepted during this wait and stayed the current one |
| Interleaving.ClosesOwnOnly | src/gatewayServer/src/Server.cpp:300-316 | a write during whose wait no connection is accepted closes no connection but its own |
| Interleaving.SerialNeeded | src/gatewayServer/src/Server.cpp:310-314 | a run in which a connection is accepted while a write waits, and the late hang-up closes the new connection, whose job is live |
| Pacing.PacedExactly | src/gatewayServer/src/Server.cpp:300-322 | no frame goes out while another is under way on its socket exactly if any two frames on one socket have a confirmation or a close between them |
| Pacing.StopAndWaitExactly | src/gatewayServer/src/Server.cpp:245-322 | over every run with split writes, stop-and-wait holds exactly if nothing else is sent on the connection of a write that waits there |
| Pacing.ResultOvertakesConfirmation | src/gatewayServer/src/Server.cpp:264-300 | a run in which the result of a job goes out while its last chunk is not confirmed |
| StopTermination.InvStep | src/stopToken/src/StopToken.cpp:48-111 | the mutex is held by exactly the thread in a critical section, and only connected slots are listed, each once |
| StopTermination.StepDecreases | src/stopToken/src/StopToken.cpp:54-111 | every step of any thread uses up one of the steps left, the snapshot size included |
| StopTermination.RunsTerminate | src/stopToken/src/StopToken.cpp:54-149 | every run is finite and bounded by the steps its threads have |
| StopTermination.RunsFinish | src/stopToken/src/StopToken.cpp:48-102 | a run that cannot be extended has finished every call, and no thread enters `is_interrupted` from a slot while holding the mutex |
| StopTermination.EmissionBudget | src/stopToken/src/StopToken.cpp:83-111 | with resets racing with triggers the signal is emitted at most once more than there are resets |
| StopSafety.SafetyStep | src/stopToken/src/StopToken.cpp:54-102 | the ordering of flag write, snapshot and connects explains every run of a slot, at every step |
| StopSafety.NoStopLost | src/stopToken/src/StopToken.cpp:54-102 | once the winner and the connects are over, every slot that stayed connected has run, exactly twice if it was connected between flag write and snapshot and exactly once otherwise, always seeing the token interrupted |
| StopSafety.DeliveredExactly | src/stopToken/src/StopToken.cpp:129-138 | once all calls are over the stop went through exactly if some trigger did not fail spuriously, and otherwise no slot ran |
| StopSafety.SpuriousFailure | src/stopToken/src/StopToken.cpp:131-136 | a run in which the only trigger fails for no reason and nothing is stopped |
| StopSafety.TwiceHappens | src/stopToken/src/StopToken.cpp:67-71 | a run in which one slot runs twice for one emission |
| StopResets.StoresTheFlag | src/gatewayServer/src/Server.cpp:140-144 | whenever a slot has run it has stored exactly whether the flag was up |
| StopResets.RaisedReachesAll | src/stopToken/src/StopToken.cpp:54-111 | with resets racing with everything: once all calls are over and the flag is up, the last thing every connected slot stored is that the token is interrupted |
| StopResets.LostExactly | src/stopToken/src/StopToken.cpp:103-149 | once all calls are over, the source is stopped and its token not interrupted exactly if some reset took down the flag of a stopped source and no later step raised it or declared the source running |
| StopResets.StopNoticed | src/stopToken/src/StopToken.cpp:129-149 | once all calls are over, a stopped source has its flag up and every connected slot knows, unless a compare-and-swap succeeded between the two assignments of a reset and no later reset undid it |
| StopResets.ResetLosesStop | src/stopToken/src/StopToken.cpp:145-149 | a run in which such a reset leaves the source stopped and its token not interrupted |
| StopResets.OverlapNoticed | src/stopToken/src/StopToken.cpp:145-149 | a run in which a trigger overlaps with a reset in this way and the stop is noticed all the same |
| StopDisconnect.LeavesExactly | src/stopToken/src/StopToken.cpp:103-111 | a slot leaves the list exactly in the last step of a reset or when it is disconnected |
| StopDisconnect.DisconnectedForGood | src/stopToken/src/StopToken.cpp:103-111 | over every run, a slot that was disconnected is in the list of no later state, and no later step of a trigger goes into it |
| StopDisconnect.TriggerAfterReset | src/stopToken/src/StopToken.cpp:83-111 | over every run, after a reset behind every connect, a trigger behind the reset runs no slot |
| StopObjects.StopToken.TryStop | src/stopToken/src/StopToken.cpp:131-132 | the weak compare-and-swap on the stop flag |
| StopObjects.StopToken.TriggerSection | src/stopToken/src/StopToken.cpp:85-94 | raises the flag and reports whether this call is the one to emit |
| StopObjects.StopToken.ConnectSection | src/stopToken/src/StopToken.cpp:59-65 | connects the slot and reports whether it has to be called directly |
| StopObjects.StopToken.Perform | src/stopToken/src/StopToken.cpp:54-149 | every atomic action of a thread changes the fields as one step of the protocol does |
| StopObjects.RunThreads | src/stopToken/src/StopToken.cpp:54-149 | any schedule of any calls takes the objects through a run of the protocol, with the exact condition for a lost stop and the delivery guarantee at its end |
| LogSplitter.GetSplittedLogs | src/utils/src/Logger.cpp:30-58 | the loop computes the greedy split |
| LogSplitter.JoinOfSplit | src/utils/src/Logger.cpp:36-55 | rejoining the pieces gives the message, or the message without its trailing space, and this only after a last piece of 1199 bytes |
| LogSplitter.PiecesBounded | src/utils/src/Logger.cpp:32-54 | no piece is longer than 1200 bytes |
| LogSplitter.SplitKernel | src/utils/src/Logger.cpp:36-55 | exactly which pairs of messages have the same pieces |
| LogSplitter.StaysAhead | src/utils/src/Logger.cpp:42-54 | a greedy piece that starts later never lands earlier |
| LogSplitter.Optimal | src/utils/src/Logger.cpp:36-55 | the pieces are a legal split, and no legal split of the message has fewer |
| RangeService.ParseRangeHeader | src/httpServer/src/HttpServer.cpp:336-363 | succeeds exactly on a header that denotes a range and writes its positions |
| RangeService.ScannerExact | src/httpServer/src/HttpServer.cpp:338-341 | the scanner accepts exactly the declared grammar and finds its two digit strings |
| RangeService.ParserExact | src/httpServer/src/HttpServer.cpp:343-354 | a header is accepted exactly if it denotes a range within `int`, with the stated defaults |
| RangeService.RangeRoundTrip | src/httpServer/src/HttpServer.cpp:336-363 | a printed range parses back to its two positions |
| RangeService.ExtractFilename | src/httpServer/src/HttpServer.cpp:321-334 | a name is found exactly if there is a slash, and it never contains one |
| RangeService.NameCut | src/httpServer/src/HttpServer.cpp:323-331 | the name is what lies between the last slash and the first question mark |
| RangeService.NameKept | src/httpServer/src/HttpServer.cpp:323-331 | a question mark in front of the last slash cuts nothing |
| RangeService.HttpUrlHasName | src/httpServer/src/HttpServer.cpp:88-100 | the failure branch behind the URL check is unreachable |
| RangeService.ReadDataFromFile | src/httpServer/src/HttpServer.cpp:382-414 | the buffer holds the range of the file, zeros behind its end, and is empty for a reversed range or a file that does not open |
| RangeService.HandleFetch | src/httpServer/src/HttpServer.cpp:178-263 | every rung of the ladder in its order, the failed read included, and the slice at its end |
| RangeLadder.BadRequests | src/httpServer/src/HttpServer.cpp:185-222 | 400 for a missing header, a header that denotes no range and an empty name, each exactly then |
| RangeLadder.MissingFiles | src/httpServer/src/HttpServer.cpp:211-228 | 500 exactly for a body without a slash and 404 exactly for a name under which nothing is stored, behind a good header |
| RangeLadder.FailingFiles | src/httpServer/src/HttpServer.cpp:230-253 | 500 exactly for a file that does not open, 416 exactly for a range that is not within the file, 500 exactly for a read that fails |
| RangeLadder.ServedExactly | src/httpServer/src/HttpServer.cpp:185-263 | 206 exactly for a header that denotes a range within a named file that opens |
| RangeLadder.RefusedAs | src/httpServer/src/HttpServer.cpp:185-253 | every refusal has one of eight pairs of status code and reason |
| RangeService.ServedWhenInRange | src/httpServer/src/HttpServer.cpp:237-263 | a range within the file size truncated to `int` is served with exactly its slice and its Content-Range |
| RangeService.ServedOnlyInRange | src/httpServer/src/HttpServer.cpp:185-246 | whatever is served was a range of a named file that opens |
| RangeService.TruncatedSize | src/httpServer/src/HttpServer.cpp:237-237 | the truncated size is the size exactly below 2 GiB, never exceeds it, and agrees with it modulo 2^32 |
| RangeService.AgreesWithRfc | src/httpServer/src/HttpServer.cpp:237-263 | exactly for which ranges and sizes below 2 GiB the answer is the one of RFC 9110 section 14.1.2 |
| RangeService.OpenRanges | src/httpServer/src/HttpServer.cpp:343-344 | `bytes=-n` asks for 0 to n, and an open range is refused |
| RangeService.PiecesMakeTheFile | src/httpServer/src/HttpServer.cpp:185-263 | for every partition of a file below 2 GiB each range is served and the bodies concatenate to the file |

## Left out

- Partial `send`, confirmations and URLs split over several segments, and C++ memory-model effects of the
  unlocked fields: every exchange is one step.
- Interleavings of the session's entry points other than the two halves of one write: each is one step.
- What is written to a job's resource; only the resource itself is a field (`DownloadFile`).
- Exceptions other than that of `std::stoul`: allocation failure and a throwing cancel call.
- The 1024-byte receive buffers: a request or confirmation is whatever text one `recv` returned.
- Payloads whose packet size exceeds 64 bits.
- Socket set-up, `accept` and `fcntl`, the GLib main loop, the watchdog and signal handlers.
- The internals of the cloud client, cpprest, log4cplus and Boost.Signals2. A signal emission is a snapshot
  of the slot list followed by a call of every slot that is still connected.
- `reset` racing with a critical section inside one access: each assignment of `reset` is one step.
- File creation, permissions, directory clearing, hex dumps, logging and commit hashes.
- `/download_status`, result and error tables, factories and singletons: one-branch code.
- Directories and other special files behind a stored name; one that opens has no content to serve.
- Lists of ranges, white space and other spellings of the unit in a Range header, all of which the code refuses.
- The body of a POST request and its dispatch to a thread.
