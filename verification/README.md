# PulseCoAP in Dafny

PulseCoAP is a CoAP client and server (RFC 7252, with Observe from RFC 7641 and block-wise transfer from
RFC 7959) that works in fixed-size tables and buffers behind a `send`/`receive` transport. This project models
its five cores and proves what they promise, for every configuration of the compile-time sizes.

The source changes objects in place, and so do the classes here: `MessageObject.Message`,
`Reliability.TransactionPool`, `ServerObject.Server` and `ClientObject.Client` hold the source's tables as fields,
scan them slot by slot, build messages option by option and encode them into buffers. Each of their methods is
proved equal to a function from old state to new state, datagrams sent and callbacks made
(`Codec`, `Reliability`, `ServerSpec`, `ClientSpec`), and the theorems about whole runs are proved about those
functions.

| file | contents |
|---|---|
| `Types.dfy` | machine integers, endpoints, codes, the slot scan; configuration constants and their limits |
| `Codec.dfy`, `OptionValues.dfy`, `Sizes.dfy`, `Message.dfy` | wire format, integer and Block options, message lengths, the message object |
| `Generator.dfy`, `Reliability.dfy`, `PoolRuns.dfy`, `PoolCauses.dfy` | the timeout generator and the retransmission pool, whole runs of it on a wrapping and an unbounded clock, and what ends each transaction |
| `Paths.dfy` | Uri-Path split and join, templates, resource lookup |
| `ServerSpec.dfy`, `ServerObject.dfy` | the server as functions and as an object |
| `ServerProps.dfy`, `ServerReplies.dfy`, `SessionProps.dfy` | observer table, deferral and reply discipline; what handlers see and replies say; the upload sessions |
| `ObserveProps.dfy`, `ServerPool.dfy` | registration until notification; retransmission, acknowledgement and dead-peer removal |
| `ClientSpec.dfy`, `ClientObject.dfy` | the client as functions and as an object |
| `ClientProps.dfy`, `ClientRequests.dfy`, `ClientOutcomes.dfy`, `ClientPool.dfy` | tokens; what requests carry; exactly one outcome each; retransmission and timeouts |
| `Traffic.dfy`, `Block1Safety.dfy`, `Block2Safety.dfy`, `Block2System.dfy` | block-wise safety across both ends and a network that loses, duplicates and reorders |
| `Block1Limits.dfy`, `Block2Limits.dfy` | the exact conditions of block-wise safety, and the runs that fail without them |
| `Completion.dfy`, `DownloadCompletion.dfy` | block-wise transfers on a lossless link finish, in an exact number of exchanges |
| `DownloadLimits.dfy` | the exact condition for downloads to finish, and the runs that never do |

How to read the run theorems. Time is an unbounded millisecond count of which the code sees the low 32 bits. A
pool transaction is named by the index of the operation that started it, a client request by a serial number
(its token is the low byte of one plus that number). Handlers are functions from request to response, given anew to
every step, so they may answer differently each time unless a theorem says otherwise. A network is the set of
datagrams sent so far, any of which may be delivered any number of times or never.

Where the code falls short of what one would expect, the exact condition is proved beside an example:

* Two datagrams can decode alike when an extended delta or length stands for more than 65535
  (`Codec.OverflowAliases`); `Codec.EncodeDecode` shows these are the only non-canonical ones.
* A Block option for a block numbered 2^20 or higher is refused by the reader, and from 2^28 on the label wraps
  (`OptionValues.BlockRoundTrip`, `OptionValues.BlockLabelWraps`).
* The result of adding the Block1 option is not looked at. When the path leaves fewer than two option slots, fragments
  go out unlabelled (`Block1Safety.BlockOptionPresent`) and the handler is called with a fragment as a complete request
  (`Block1Limits.UnlabelledFragment`). Uploads are safe exactly when the path leaves room
  (`Block1Limits.UploadSafeExactly`); a PUT to "/a/a/.../a" is a failing input (`Block1Limits.UnsafeUpload`).
* A path too long to store is replaced by the empty one in the follow-up requests of a download. If the server also has
  "/", blocks of another resource are appended; if not, the refusal ends the download with an empty callback. At every
  server a download is safe exactly when it is refused, one block holds the resource, or the path can be stored or has no
  segment (`Block2Limits.DownloadSafeExactly`); a GET of "//.../a" is a failing input (`Block2Limits.UnsafeDownload`).
* A full option table drops the Block2 label of the follow-ups (`Block2System.FollowUpsFaithful`). That is safe, but the
  first block is then asked for again for ever (`DownloadLimits.NeverFinishes`); a GET of "/a/a/.../a" is a failing input
  (`DownloadLimits.EndlessDownload`). A follow-up that does not fit a message is not sent, and the slot stays open without
  a callback (`DownloadCompletion.DownloadCompletes`). `DownloadLimits.DownloadFinishesExactly` says which downloads
  finish.
* A full block fits a message exactly when the buffer holds it, six bytes and the request's options
  (`Completion.FullBlockFits`). With the default sizes (SZX 4, 256-byte messages) it never does, although the comment at
  `src/PulseCoAPConfig.h:138` asks for it. Block 0 of an upload is such a block, so `put` and `post` return false
  (`Completion.UploadStarts`).
* `decode` is documented to leave the message reset on failure; after a bad token length the type stays set
  (`MessageObject.Message.Decode`).
* A captured path parameter is cut at MAX_PATH_PARAM_LEN - 1 bytes; `Paths.CapturesRebuildPath` says exactly when
  captures give the path back. A segment of 65536 bytes or more is cut by the 16-bit option length; `Paths.PathRoundTrip`
  and `Paths.PathReadBack` say exactly when the path comes back.

## Model

| member | source | states |
|---|---|---|
| Codec.DecodeEncode | src/PulseCoAPMessage.cpp:115-257 | every message within the option and token limits, in any option-number order, decodes from its own encoding unchanged |
| Codec.EncodeDecode | src/PulseCoAPMessage.cpp:115-257 | re-encoding an accepted datagram gives its exact bytes if and only if no extended field exceeds 65535, and is strictly shorter otherwise |
| Codec.DecodeInjective | src/PulseCoAPMessage.cpp:174-257 | two different datagrams without such fields never decode to the same message |
| Codec.OverflowAliases | src/PulseCoAPMessage.cpp:207-226 | a concrete pair of datagrams, one with an overflowing delta, that decode alike |
| Codec.HeaderBytes | src/PulseCoAPMessage.cpp:131-140 | the first bytes of a datagram are the version 1, the type number, the token length, the code, the big-endian message ID and the token |
| Codec.OptionBytes | src/PulseCoAPMessage.cpp:142-164 | an option is its two nibbles and extended bytes, which read as the delta and the length, followed by the value |
| MessageObject.Message.Encode | src/PulseCoAPMessage.cpp:115-172 | the cursor over the output buffer writes exactly the wire form, or reports 0 when it does not fit or an option value is missing; bytes past the capacity stay untouched |
| MessageObject.Message.Decode | src/PulseCoAPMessage.cpp:174-257 | the input loop accepts, rejects with the same error and stores exactly what the wire format says; every rejection leaves the message reset but for the type after BadTokenLength |
| MessageObject.Message.AddOption | src/PulseCoAPMessage.cpp:48-60 | refuses a full table or a descending number and changes nothing then; otherwise appends after unchanged options |
| MessageObject.Message.AddOptionUint | src/PulseCoAPMessage.cpp:67-86 | appends the stripped big-endian value through its own scratch row; the bytes of earlier options stay intact even when it fails |
| OptionValues.UintRoundTrip | src/PulseCoAPMessage.cpp:67-107 | every 32-bit value reads back unchanged from at most four bytes |
| OptionValues.UintMinimal | src/PulseCoAPMessage.cpp:67-86 | no shorter byte string reads as the same value |
| OptionValues.BlockRoundTrip | src/PulseCoAPBlockwise.h:37-49 | NUM, M and SZX come back for every NUM below 2^20; from 2^20 to below 2^28 the option is rejected |
| OptionValues.BlockWire | src/PulseCoAPBlockwise.h:47-49 | below 2^28 a Block option is the big-endian number 16 NUM + 8 M + SZX |
| OptionValues.BlockLabelWraps | src/PulseCoAPBlockwise.h:47-49 | block num + 2^28 carries the same bytes as block num |
| Reliability.InitialTimeout | src/PulseCoAPTransaction.cpp:11-21 | the randomised first timeout lies in [2000, 3000) for every seed |
| Reliability.EveryTimeout | src/PulseCoAPTransaction.cpp:11-21 | every number but zero comes out of the generator for some seed, which gives 2000 ms plus that number modulo 1000 |
| Reliability.TransactionPool.Start | src/PulseCoAPTransaction.cpp:23-49 | takes the lowest free slot, or refuses an overlong token or message or a full pool |
| Reliability.TransactionPool.Complete | src/PulseCoAPTransaction.cpp:51-60 | frees the first slot with this remote and message ID, and tells whether there was one |
| Reliability.TransactionPool.CompleteByToken | src/PulseCoAPTransaction.cpp:62-78 | frees the first slot with this remote and token, and tells whether there was one |
| Reliability.TransactionPool.Tick | src/PulseCoAPTransaction.cpp:80-105 | resends, backs off and expires every due slot in place, reporting the callbacks in slot order |
| Reliability.TransactionPool.GetToken | src/PulseCoAPTransaction.cpp:107-119 | the token of the very slot that `complete` would free |
| Reliability.TransactionPool.ActiveCount | src/PulseCoAPTransaction.cpp:121-127 | counts the busy slots, the active term of the conservation law |
| PoolRuns.Conservation | src/PulseCoAPTransaction.cpp:23-105 | over every run, the started transactions are the disjoint union of active, acknowledged and timed-out ones, and the counts add up |
| PoolRuns.ResendsFaithful | src/PulseCoAPTransaction.cpp:80-105 | every resend carries the bytes and goes to the remote given at start, at most MAX_RETRANSMIT times |
| PoolRuns.CurrentTimeout | src/PulseCoAPTransaction.cpp:23-105 | in every run an active transaction waits t0 times 2^retries, with retries the number of its resends |
| PoolRuns.TimeoutBound | src/PulseCoAPTransaction.cpp:80-105 | a timeout callback comes after exactly MAX_RETRANSMIT resends, no earlier than 31 t0 and no later than 31 t0 plus five tick gaps after the start, on the wrapping clock too while the gap is below 2^31 ms |
| PoolRuns.TimeoutHappens | src/PulseCoAPTransaction.cpp:80-105 | a transaction started that long before the last tick has been acknowledged or has timed out, on either clock |
| PoolRuns.ClockRefinement | src/PulseCoAPTransaction.cpp:39-41 | while tick gaps stay below 2^31 ms, the pool on the 32-bit clock makes exactly the resends and timeouts of a pool on an unbounded clock |
| PoolRuns.WrappedReading | src/PulseCoAPTransaction.cpp:80-105 | reducing the clock reading modulo 2^32 changes no step and no callback |
| PoolCauses.AckEnds | src/PulseCoAPTransaction.cpp:51-78 | after any run, an acknowledgement or a completion by token ends exactly one active transaction started for that remote with that message ID, or token, if there is one, leaving every other alone, and otherwise changes nothing; no other operation acknowledges any |
| PoolCauses.AckedByMatch | src/PulseCoAPTransaction.cpp:51-78 | every acknowledged transaction of a run was ended by an operation that names the remote and message ID, or token, it was started with |
| PoolCauses.TickReports | src/PulseCoAPTransaction.cpp:80-105 | the callbacks of a tick are exactly its new log entries: each resend names a transaction, its remote and bytes, each timeout its remote and token |
| Paths.MatchTemplate | src/PulseCoAPServer.cpp:61-115 | the two-cursor loop accepts exactly the matching paths and reports the clipped captures in order |
| Paths.MatchMeans | src/PulseCoAPServer.cpp:61-115 | a template matches a path if and only if they have equally many segments, a parameter meets a non-empty segment, and every other segment is equal |
| Paths.CaptureAt | src/PulseCoAPServer.cpp:80-102 | each parameter of a matching template is captured, in order, as its name and the segment it meets, both cut at the parameter size |
| Paths.CapturesRebuildPath | src/PulseCoAPServer.cpp:85-103 | captures put back in the template give the path if and only if every captured segment fits the parameter size |
| Paths.LookUp | src/PulseCoAPServer.cpp:117-144 | finds the first exact entry, else the first matching template, else nothing, with that template's captures |
| Paths.ResourceFound | src/PulseCoAPServer.cpp:117-144 | the lookup returns the lowest plain resource with exactly this path, else the lowest template whose segments match it, else -1 |
| Paths.AddUriPathOptions | src/PulseCoAPUri.h:19-35 | one Uri-Path option per non-empty segment; fails exactly when they do not fit, having added a prefix of them |
| Paths.JoinUriPath | src/PulseCoAPUri.h:41-64 | writes the joined path and its NUL exactly when they fit the buffer |
| Paths.PathRoundTrip | src/PulseCoAPUri.h:19-64 | splitting, encoding, decoding and joining a path gives it back with slashes collapsed and the trailing one dropped if and only if every segment is shorter than 65536 bytes |
| Paths.PathReadBack | src/PulseCoAPUri.h:19-64 | for a NUL-free path the C string the server reads back is the normalised path if and only if every segment is shorter than 65536 bytes |
| ServerObject.Server.RegisterObserver | src/PulseCoAPServer.cpp:206-228 | refreshes the entry with this remote and token, else takes the lowest free slot, else drops the registration |
| ServerObject.Server.RemoveObserver | src/PulseCoAPServer.cpp:230-238 | frees every entry with this remote and token and no other |
| ServerObject.Server.Notify | src/PulseCoAPServer.cpp:248-284 | bumps the sequence number once and notifies the resource's observers in slot order, tracking each CON notification that was sent |
| ServerObject.Server.Respond | src/PulseCoAPServer.cpp:390-423 | answers a deferred request with a message of its own, tracks it if CON, and frees the slot even if the answer does not fit |
| ServerObject.Server.CallHandler | src/PulseCoAPServer.cpp:604-674 | offers the lowest deferred slot and keeps it exactly when the handler defers |
| ServerObject.Server.HandleUpload | src/PulseCoAPServer.cpp:528-638 | the Block1 branch: session lookup and allocation, the block expected, the body limit, the final handler call, with the source's error codes |
| SessionProps.SessionTable | src/PulseCoAPServer.cpp:528-638 | every step keeps session keys distinct and leaves each session whose key is not that of the upload block handled unchanged in its slot; under that key the next block extends the body, a block out of turn changes nothing, and the final block or a 4.13 leaves no session |
| SessionProps.SessionTableAlways | src/PulseCoAPServer.cpp:317-349 | over every run the session of a key stands where its own upload blocks alone have brought it, and one without such blocks is not touched |
| ServerObject.Server.HandleRequest | src/PulseCoAPServer.cpp:469-706 | routing, method checks, observe bookkeeping and both block-wise branches give the state, datagrams and handler calls of the request function |
| ServerObject.Server.Poll | src/PulseCoAPServer.cpp:708-745 | retransmissions and timeouts first, then at most one datagram |
| ServerProps.ObserverTable | src/PulseCoAPServer.cpp:206-238 | every step keeps observers distinct by (remote, token) and pointing at observable resources, and one that leaves does so by a same-key deregistering GET, a matching Reset or a same-key timeout |
| ServerProps.ObserverTableAlways | src/PulseCoAPServer.cpp:206-238 | the table invariant holds in every reachable state |
| ServerProps.NotifyReachesObservers | src/PulseCoAPServer.cpp:248-284 | a notify of an unknown or unobservable path does nothing; any other raises the sequence number by one and tells each observer of the resource, with message IDs counting up and remembered, and no one else: a message of code 2.05 with the observer's token, CON exactly when confirmable, an Observe option that reads as the new sequence number, a Content-Format that reads as the format, and the payload |
| ObserveProps.Registration | src/PulseCoAPServer.cpp:502-521 | after a routed GET with Observe 0 for an observable resource its key watches that resource, under the GET's message ID, if it did before or a slot was free; after one with any other Observe value its key watches nothing; no other request changes the table, and no request changes another key's entry |
| ObserveProps.ResetEnds | src/PulseCoAPServer.cpp:724-734 | a Reset frees exactly the first entry of its remote last sent the rejected message ID, if there is one, and changes nothing else |
| ObserveProps.StaysRegistered | src/PulseCoAPServer.cpp:206-238 | over any run without a deregistering GET, matching Reset or timeout of its key, and without a new registering GET of it, an observer keeps watching its resource |
| ObserveProps.ObserverHears | src/PulseCoAPServer.cpp:248-284 | from a registering GET that finds room, over any such run, a notify of the resource sends that key the notification with the next sequence number, the format and the payload if it fits a message |
| ServerProps.DeferralBinds | src/PulseCoAPServer.cpp:643-674 | a request takes one more deferred slot exactly when its handler deferred with one free: the lowest, the one whose handle it was given, bound to the request's remote, token and kind |
| ServerProps.DeferredBinding | src/PulseCoAPServer.cpp:290-295 | an active deferred slot keeps its remote, token and kind through every step but its own `respond` |
| ServerProps.DeferredUntilRespond | src/PulseCoAPServer.cpp:390-423 | over any run in between, the `respond` that ends a deferral answers that remote with that token, as CON exactly when the request was |
| ServerProps.RequestPays | src/PulseCoAPServer.cpp:351-706 | every handled request is answered with exactly the code, options and payload it is owed: the refusal of its route, the answer to its upload block, or its handler's answer, whole or sliced; a routed upload block reaches the handler exactly when it completes a body, which the handler sees, and any other routed request always does |
| ServerProps.ReplyDiscipline | src/PulseCoAPServer.cpp:429-706 | a handled request sends at most one datagram, back to the sender, which decodes to the message owed: an ACK with its message ID for CON, a NON with the next ID for NON, with its token unless it is the empty ACK of a deferral; none if and only if a NON request was deferred or that very message exceeds the buffer |
| ServerProps.SilenceIsOversize | src/PulseCoAPServer.cpp:439-463 | with buffers of at least 34 bytes, an undeferred request stays unanswered only if its handler answered with a payload, whole or sliced, within 34 bytes of the buffer size or larger |
| ServerReplies.HandlerSees | src/PulseCoAPServer.cpp:604-674 | a handler that is called is the routed resource's, with the request's verb, message and sender, and as parameters none for a plain resource and otherwise the captures of its template |
| ServerReplies.AnswerSays | src/PulseCoAPServer.cpp:351-463 | an undeferred answer that is sent has the handler's code, a Content-Format reading as the handler's format exactly when it has a payload, and an Observe option reading as the sequence number exactly for a registering GET below 2^31; the one exception is 4.00 for a block out of range |
| ServerReplies.RespondSays | src/PulseCoAPServer.cpp:390-423 | a late answer goes to the bound remote with the bound token, the next message ID, CON exactly when the request was, and the given code, payload and format; the slot is freed, and nothing is sent if and only if the answer exceeds the buffer |
| ServerReplies.OnlyRequestsServed | src/PulseCoAPServer.cpp:717-745 | a datagram is handled as a request exactly when it decodes to a CON or NON with a method code; any other sends nothing, calls no handler and touches only the pool (an ACK) or the observers (a Reset) |
| ServerReplies.AddedIsFound | src/PulseCoAPServer.cpp:28-43 | a newly added plain path is found with its methods and observability, and earlier resources stay |
| ServerReplies.TablesAlwaysSized | src/PulseCoAPServer.cpp:708-745 | in every reachable state the server's tables have their compile-time sizes |
| ServerProps.RequestRouted | src/PulseCoAPServer.cpp:469-500 | a request for a NUL-free path is refused for its length if and only if the normalised path and its NUL exceed the server's path buffer, and is otherwise routed by that path |
| ServerPool.DeadPeerRemoval | src/PulseCoAPServer.cpp:302-310 | every transaction of the server is acknowledged or times out within the backoff bound, and the poll in which it times out leaves no observer with its (remote, token) |
| ServerPool.NotifyTracksObservers | src/PulseCoAPServer.cpp:271-281 | the transactions a confirmable notify starts carry the remote and token of observers of that resource |
| ServerPool.ServerRetransmits | src/PulseCoAPServer.cpp:708-715 | over every run, what a poll sends before it receives is exactly the pool's resends of that tick: the bytes and remotes the transactions were started with |
| ServerPool.ServerAcknowledged | src/PulseCoAPServer.cpp:736-740 | over every run, an ACK ends one transaction the server started for that remote with that message ID, if one is active, and otherwise no transaction changes |
| ClientObject.Client.SendRequest | src/PulseCoAPClient.cpp:35-112 | the single-request path, failures included, has the effect of the request function |
| ClientObject.Client.SendBlock1 | src/PulseCoAPClient.cpp:116-149 | sends block `nextNum` with its label as CON, or changes only the message ID counter |
| ClientObject.Client.BeginUpload | src/PulseCoAPClient.cpp:186-272 | sets up the upload of a slot and sends block 0, giving the slot back when that fails |
| ClientObject.Client.SendBlock2Request | src/PulseCoAPClient.cpp:151-176 | asks for block `nextNum` under the slot's token |
| ClientObject.Client.Discover | src/PulseCoAPClient.cpp:300-331 | a NON request in the lowest free discover slot |
| ClientObject.Client.CancelObserve | src/PulseCoAPClient.cpp:333-345 | frees the first observing slot for this server and path and deregisters under a token of its own |
| ClientObject.Client.HandleBlock2 | src/PulseCoAPClient.cpp:455-509 | initialises, grows and finishes block-wise reception |
| ClientObject.Client.HandleReset | src/PulseCoAPClient.cpp:373-387 | ends the transaction and reports a timeout for the slot its token names |
| ClientObject.Client.Poll | src/PulseCoAPClient.cpp:361-540 | one datagram, then discover expiry and the tick, both skipped after a Reset |
| ClientProps.SerialsAlways | src/PulseCoAPClient.cpp:12-112 | in every reachable state each slot, upload and transaction carries the token of the request it belongs to, and no two slots belong to one request |
| ClientProps.TokensDistinct | src/PulseCoAPClient.cpp:23-33 | while fewer than 256 tokens are issued during the life of any slot or transaction, tokens of active slots are distinct, two transactions share a token exactly when they share the request, none carries a discovery's token, and a transaction's token finds the slot of its own request |
| ClientProps.OneOutcome | src/PulseCoAPClient.cpp:352-540 | over every run a one-shot request gets at most one response callback or timeout attributed to it, and holds no slot afterwards |
| ClientRequests.IssueCarries | src/PulseCoAPClient.cpp:35-112 | a get, put, post, del or observe of at most one block is sent exactly when a slot is free, the link takes it, and path and message fit; then one datagram goes to the server and decodes to the verb, the new token, the payload, Observe 0 exactly for observe, the normalised path, and a Content-Format reading as the format exactly when there is a payload and an option left; a free slot is taken for it, and a free pool slot, if there is one, gets exactly those bytes exactly for a CON |
| ClientRequests.CancelCarries | src/PulseCoAPClient.cpp:333-345 | cancelling frees the first observing slot for this server and path and sends a CON GET of the path with Observe 1 under a new token; without such a slot it does nothing |
| ClientRequests.DiscoverCarries | src/PulseCoAPClient.cpp:300-331 | a discovery that is sent is one NON GET of "/.well-known/core" to the endpoint, under the token that the discover slot then holds |
| ClientRequests.FragmentAsks | src/PulseCoAPClient.cpp:151-176 | a fragment other than the last one is answered by nothing but a CON GET of the stored path for the next block expected, under the slot's token, with the block size and to the sender of the first fragment |
| ClientRequests.RequestArrives | src/PulseCoAPClient.cpp:180-285 | end to end, a request of at most one block whose path the server reads and serves calls that resource's handler once, with the verb, the payload, the token and the sender |
| ClientOutcomes.PollAccounts | src/PulseCoAPClient.cpp:352-540 | in every poll, a slot changes only with an answer or a timeout reported for its request, and for an observing request only with a timeout |
| ClientOutcomes.PollOutcome | src/PulseCoAPClient.cpp:352-540 | a request that held a slot before a poll and holds none after it has an outcome in that poll, exactly one if it is one-shot |
| ClientOutcomes.ExactlyOneOutcome | src/PulseCoAPClient.cpp:352-540 | over every run a one-shot request that was sent has no outcome while it holds a slot and exactly one once it does not; one that was not sent has neither |
| ClientOutcomes.PollDelivers | src/PulseCoAPClient.cpp:409-523 | a response whose token names a discover slot is delivered there, and else an unfragmented one whose token names a slot is delivered with its code, payload and format, ending a one-shot request |
| ClientOutcomes.PollAcknowledges | src/PulseCoAPClient.cpp:398-407 | a confirmable response is answered first of all by an empty ACK of its message ID to its sender, whether or not a slot is waiting |
| ClientOutcomes.PollRejects | src/PulseCoAPClient.cpp:373-387 | a Reset of a tracked message frees its transaction and the slot its token names and reports that slot's timeout, sending nothing; a Reset of anything else changes nothing |
| ClientOutcomes.DiscoveriesExpire | src/PulseCoAPClient.cpp:532-537 | in every poll that takes no Reset, a discover slot is freed exactly when it is 5 seconds old on the wrapping clock |
| ClientOutcomes.TablesAlwaysSized | src/PulseCoAPClient.cpp:12-112 | in every reachable state the client's tables have their compile-time sizes |
| ClientPool.ClientRetransmits | src/PulseCoAPClient.cpp:347-350 | over every run, what a poll sends after it has received is exactly the pool's resends of that tick, with their starting bytes and remotes |
| ClientPool.UnansweredTimesOut | src/PulseCoAPClient.cpp:352-359 | over every run, 31 t0 plus five poll gaps after the last poll before it was sent, a tracked CON request whose message was neither acknowledged nor reset holds no slot, and if it is one-shot and had no answer its timeout has been reported |
| Block1Safety.BlockOptionPresent | src/PulseCoAPClient.cpp:132-137 | a fragment carries its Block1 label if and only if the path leaves two option slots |
| Block1Safety.UploadStartsSafe | src/PulseCoAPClient.cpp:186-272 | starting an upload under a token nobody uses is a safe start |
| Block1Safety.UploadIsSafe | src/PulseCoAPServer.cpp:528-638 | over every run from a safe start, with loss, duplication, reordering and other traffic, every PUT or POST handler call under the upload's (remote, token) sees exactly the client's payload |
| Block1Limits.UnlabelledFragment | src/PulseCoAPServer.cpp:640-674 | without room for the label, a server that serves the path calls its handler once with no assembled body and a fragment as the payload |
| Block1Limits.UploadSafeExactly | src/PulseCoAPClient.cpp:116-149 | once an upload is on its way to a server that serves its path, no run makes a wrong handler call if and only if the path leaves two option slots |
| Block1Limits.UnsafeUpload | src/PulseCoAPClient.cpp:132-137 | a failing input: with buffers large enough to send and serve it, a PUT of more than one block to a path of MAX_OPTIONS - 1 one-letter segments is not safe |
| Block1Safety.SessionsAtRest | src/PulseCoAPServer.cpp:573-602 | in every reachable state an active session expects block 1 or later and holds at most the body limit, so the echoed number never underflows |
| Block2System.DownloadStartsSafe | src/PulseCoAPClient.cpp:180-184 | a one-shot GET under an unused token, for a path routed to the resource, is a safe start |
| Block2System.DownloadIsSafe | src/PulseCoAPClient.cpp:455-509 | over every run from a safe start the GET has at most one outcome; a routed one is delivered as exactly the first min(length, BLOCK2_MAX_BODY) bytes of the resource, or whole if it was not fragmented, a refused one as that refusal |
| Block2System.FollowUpsFaithful | src/PulseCoAPClient.cpp:97-176 | follow-up requests keep the path if and only if it can be stored or has no segment, and carry their Block2 label if and only if the stored path leaves an option slot |
| Block2Limits.DownloadSafeExactly | src/PulseCoAPClient.cpp:97-176 | at every server, whatever it has at "/", no run of a GET it reads as other than "/" ends in a wrong callback if and only if it is refused, one block holds the resource, or the path can be stored or has no segment |
| Block2Limits.ReadElsewhereIf | src/PulseCoAPUri.h:41-64 | the server does not read a path with a segment as "/" if it is a C string whose segments are shorter than 65536 bytes |
| Block2Limits.UnsafeDownload | src/PulseCoAPClient.cpp:97-108 | a failing input: with messages that hold a block and 18 bytes, a GET of "//.../a", longer than the path buffer, at a server with "/a" alone, is not safe |
| Completion.FullBlockFits | src/PulseCoAPConfig.h:138-140 | a full block fits a message if and only if the buffer holds the block, six bytes and the request's options |
| Completion.RoomForBlocks | src/PulseCoAPConfig.h:138-140 | a caller who leaves block size, path and 18 bytes of room has every block fit |
| Completion.UploadStarts | src/PulseCoAPClient.cpp:186-272 | an upload puts block 0 in flight if and only if that block fits |
| Completion.PutStarts | src/PulseCoAPClient.cpp:186-272 | a put or post of more than one block starts that upload from the client's own call, and returns true if and only if block 0 fits |
| Completion.UploadCompletes | src/PulseCoAPClient.cpp:435-447 | on a lossless link, after exactly ceil(length / blockSize) exchanges, exact multiples included, an upload has ended with one handler call on the payload and one response callback that carries the handler's code, payload and format if every block fits a message, and otherwise with one timeout callback and no handler call |
| DownloadCompletion.DownloadStarts | src/PulseCoAPClient.cpp:35-112 | a confirmable GET puts the first request in flight if and only if its path fits the option table and the request a message |
| DownloadCompletion.GetStarts | src/PulseCoAPClient.cpp:180-184 | the client's own call of get starts that download, and returns true exactly then |
| DownloadCompletion.DownloadCompletes | src/PulseCoAPServer.cpp:676-701 | on a lossless link, when one block holds the resource or the path can be stored and leaves an option slot, a download has ended after exactly ceil(length / blockSize) exchanges, one handler call each, with one callback carrying the whole resource, the last answer's code and the first answer's format if every request fits a message, and otherwise has left its slot open with nothing in flight and nothing reported |
| DownloadLimits.NeverFinishes | src/PulseCoAPClient.cpp:161-166 | with a path that fills the option table, more than one block is never delivered: after any number of exchanges the first request is in flight again, with one handler call each and no callback |
| DownloadLimits.EndlessDownload | src/PulseCoAPClient.cpp:151-176 | a failing input: with buffers large enough to send and serve it, a GET of "/a/a/.../a" with MAX_OPTIONS segments is on its way and never ends |
| DownloadLimits.DownloadFinishesExactly | src/PulseCoAPClient.cpp:455-509 | a served GET on its way over a lossless link always ends after ceil(length / blockSize) exchanges with the whole resource if and only if one block holds it, or the path can be stored and leaves an option slot; and every request fits a message |

## Left out

- The Arduino, lwIP, POSIX and DTLS transports: datagrams sent are logged, datagrams received are arguments, and a `link` argument says whether the transport takes what the client sends. The server ignores the result of `send`, as the source does.
- Handlers and callbacks that call back into the same client or server, and null callbacks.
- Option and payload pointers are values, except the scratch table of `addOptionUint`; a null payload pointer is an empty payload. The reassembly buffers are sequences of the assembled bytes.
- C strings are the bytes before their NUL.
- `buildLinkFormat`, resource types, `begin`, `observerCount`, compile-time role selection, examples. Block-wise transfer is taken as enabled.
- `size_t` is unbounded, so an upload offset never wraps.
- MAX_OPTIONS is at least 4 and the other table sizes are between 1 and 254; the timing constants are the defaults.
- Paths.MatchTemplate: templates with more than MAX_PATH_PARAMS parameters are excluded, because the source writes no more captures than fit but reports the unclamped count; `ServerObject.Server.AddResource` asks for the same.
- PoolRuns.ClockRefinement: a start comes no later than the tick gap after the last tick, and the first tick within that gap of a freely chosen origin.
- ServerPool.DeadPeerRemoval: polls are at most the gap apart and the server is polled before it first notifies or responds. Separate responses are tracked like notifications, and their timeouts also remove a matching observer, as in the source.
- Block1Safety.UploadIsSafe: the payload is at most 2^28 blocks, since labels wrap beyond; where `size_t` has 32 bits every payload is. The path leaves two option slots, which `Block1Limits.UploadSafeExactly` shows cannot be dropped. Uploads are not claimed to finish on a lossy link: the client advances on any 2.31 Continue without reading its block number.
- Block2System.DownloadIsSafe: for one-shot requests to a handler with constant payload, when what the client hears under its token comes from that server; the client matches responses by token only. A routed resource of more than one block has a path that can be stored or has no segment, which `Block2Limits.DownloadSafeExactly` shows cannot be dropped. Resources may be registered during the run as long as they do not change the download's route. Block2 on observing slots is not covered: a duplicate final block re-initialises reception.
- Completion.UploadCompletes: for bodies of at most 2^20 blocks within BLOCK1_MAX_BODY, a path that leaves two option slots, an application that answers inline with a final response code, and no other request of the client or retransmission of either side in flight.
- Block2Limits.DownloadSafeExactly: messages hold a block and 18 bytes and the receive buffer holds more than a block. A path whose segments all vanish when the server reads it (a leading NUL, or lengths that are multiples of 65536) and is read as "/" is excluded.
- DownloadCompletion.DownloadCompletes: for bodies of at most 2^20 blocks within BLOCK2_MAX_BODY, answers that fit a message, and the same conditions on handler and other traffic. `DownloadLimits.DownloadFinishesExactly` shows that its condition on the path cannot be dropped, where messages hold a block and 18 bytes and the server does not read the path as "/".
- ClientProps.OneOutcome: a timeout whose slot is already gone is logged without a request and not counted.
- Deregistration end to end: the deregistering GET of `cancelObserve` has a new token, so the server keeps the entry.
- A Reset does not stop the server's retransmission of the message it rejects, and nothing is claimed about that.
- ClientPool.UnansweredTimesOut: for requests of at most one block that got a pool slot, with the client polled before it sends and at most the gap apart, and fewer than 256 tokens issued during the life of any slot or transaction. Past those a token can name another request's slot (`ClientProps.TokensDistinct`).
- ClientRequests.IssueCarries: a path with a segment of 65536 bytes or more is sent cut (`Paths.PathRoundTrip`), and the path is claimed for NUL-free ones. Requests of more than one block are uploads.
- ObserveProps.ObserverHears: the run in between does not register the key anew, which could move it to another resource.
