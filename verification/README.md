# A Dafny model of sbx-server

sbx-server is one HTTP agent that packs many sandboxes into one job. Each sandbox has a uid of
its own and a home directory; the agent creates and deletes sandboxes, starts commands in them,
streams their output, moves files in and out, and passes connections on to servers inside them.
This project models its four state machines and proves what the code is written for.

**Sandboxes and uids.** `Uids` is the uid pool as a class. `Lifecycle` is the protocol around it:
every atomic operation and every section under a lock of `create`, `delete` and `spawn` is one
step, and any number of threads take them in any order while the sandboxes' processes fork and
exit. The result is that a recycled uid never carries processes of its previous sandbox.
`LifecycleEnds` says where the uid of a deleted sandbox goes, `LifecycleProgress` that from every
state a sandbox can be created while there is room, and deleted without anything left.
`Connections` is the same argument for the cap on connections, `Placement` the loop that answers a
request for several sandboxes.

**Commands.** `Supervision` has the wait threads, timeout watchers, DELETE requests, spawning
threads and the orphan reaper, over a kernel that hands pids out again. `SupervisionProofs` says
whom signals and statuses never reach, `SupervisionKill` whom a kill does reach, and
`SupervisionProgress` that commands can always be started, killed and reported. `Output` is the way
of a command's output to its client, which `OutputProgress` brings to its end, and `Registry` the
list of background processes.

**HTTP.** `Http` says which request a head stands for, `HttpParser` has the loops that find out,
`HttpFacts` and `HttpRequests` say when header lines are accepted and what an accepted request looks
like; `Accepted` says which texts are heads and what request each stands for, and `Queries` the same
of query parameters. `Framing` is the reader of a connection, byte by byte, and the keep-alive loop;
`FramingFacts` says what its segmentation of the byte stream means, and `Rfc` compares it with the
one of RFC 9112, chunked bodies included. `Proxy` and `Tunnel` print a
head again for a server inside a sandbox; `Targets` says for which port and path, `ReplayFits` how
long it gets. `Replies` is a
response on the wire together with a client that knows what it asked for and RFC 9112, and nothing
else; `Responses` is the writer, ranged file reads and all responses
of a connection. `Exchange` puts both directions together: which response answers which request.

**Files.** `Paths` normalizes paths. `Inodes` is a graph of directories, files and symlinks with
the kernel's calls on it, `ScopedFs` the descriptor-relative API, with a sandbox that may
rearrange its home between any two calls, `Making` what becomes of missing parents, and `Trees` what
recursive deletion leaves. `Uploads`
is parallel ranged writing, `Listing` pagination.

Code that changes things step by step is a class or a method with loops, each proved against a
function of its inputs or of the old state, or against the property itself; concurrent protocols
are relations between states, and their results hold in every state of every run. Bytes are
chars: a byte is the char with its number. `lossy`, the library's lossy UTF-8 decoding, is a
parameter that is not looked into.

## Assumptions

- A process does not change its uid; a look for the processes of a uid sees all of them at once
  (an unreadable `/proc`, which the code takes for "none", is excluded); processes under a uid of
  the pool come from `spawn` or from a fork.
- A pid is not handed out again while a process or a process group has it, nor between the reaping
  of a command and the moment its wait thread untracks it. `SupervisionProgress.EarlyReissueLosesAStatus` shows that
  the second half is needed.
- A sandbox works with inodes of its own only: it does not bring foreign inodes into its home.
- "If nothing fails" means for a connection that no read or write fails, no deadline passes, no
  handler gives up, and no file that is sent is changed meanwhile.
- The exactness of recursive deletion, unlike its confinement, is about a home nobody else changes
  meanwhile, on a file system where a directory hangs in one place only.

## Where code and documentation differ

- The 411 answer to a request with Transfer-Encoding neither closes the connection nor skips the
  chunks, although the parser's comment rules out guessing where a request ends. If a complete
  chunked body follows, the loop takes it for a bad head and goes no further; if another head
  stands in its place, the loop serves it. `Rfc.AgreesUnlessChunked` says for every stream when
  the loop and RFC 9112 see the same requests, and `Rfc.ChunksAreNotSkipped` gives the input.
- `route` has no case for HEAD: outside the proxy the answer is an error with a JSON body, on a
  connection that goes on. By section 6.3 of RFC 9112 such a response ends with its head, so the
  client takes the body for the next response and reads no further. `Responses.HeadBreaksPairing`
  is the input; `Responses.AllReceived` and `Exchange.HandleConnection` say exactly what the client
  reads, and that it reads every answer if and only if no request but the last is HEAD.
- A streamed response is chunked whatever the version of the request. Section 6.1 of RFC 9112 forbids
  that towards an HTTP/1.0 client, even one that asked for `Connection: keep-alive`; the client of
  `Replies` understands chunks.
- The path of a proxied request is documented as `/<path...>`; routing trims the slashes off the end
  of the whole path first, so `/v1/proxy/8000/x/` asks the backend for `/x`.
  `Targets.ForwardedIsTheRest` says exactly when the path differs.
- The replay is called verbatim but for the dropped headers; its version is always HTTP/1.1, so for an
  HTTP/1.0 client without a Connection header the backend may keep its connection open.
  `Proxy.ReplayRoundTrip` says exactly when the two sides agree on that.
- The comment in `handle_create` says that the response reports how many sandboxes were rejected;
  what was cut off by the capacity before the loop is not in that number
  (`RejectedIsTheRestUnlessClamped`).
- The comment in `delete` says why the uid of a home that could not be removed must not be reused.
  It is kept from reuse if and only if the sandbox had been published
  (`LeftoverHomesFreeTheUidUnlessPublished`): a create that fails after it made its home can leave
  the home behind and put its uid back on the free list (`FailedCreateMayLeaveItsHome`). No process
  is carried over.
- Names that look the same once decoded can get lost at the end of a page of a listing
  (`PaginationIsCompleteExactly`).

## Model

| member | source | states |
|---|---|---|
| `Uids.UidPool.WithReserved` | src/sandboxes.rs:204-206 | the uids in use at startup are set aside; nothing is free or held |
| `Uids.UidPool.Take` | src/sandboxes.rs:209-229 | pops the free list from its end, setting busy uids aside, then moves the cursor past the quarantined ones |
| `Uids.UidPool.Release` | src/sandboxes.rs:232-234 | the uid is the next one to be reused, and nothing else changes |
| `Uids.UidPool.Quarantine` | src/sandboxes.rs:237-239 | the uid joins the quarantine, and nothing else changes |
| `Uids.TakeFreeEffect` | src/sandboxes.rs:210-218 | reuse hands out the last free uid without processes; exactly the busy ones behind it are quarantined, and it fails only when all were busy |
| `Uids.TakeNewEffect` | src/sandboxes.rs:219-228 | a fresh uid is the first one from the cursor on that is not quarantined, inside the range; it fails only at the end of the range |
| `Uids.TakeKeepsPartition` | src/sandboxes.rs:209-229 | taking keeps held, free and quarantined uids apart and complete below the cursor; `None` comes only when every uid of the range is held or quarantined |
| `Uids.ReturnKeepsPartition` | src/sandboxes.rs:232-239 | releasing or quarantining a held uid keeps the partition |
| `LifecycleProofs.InvKept` | src/sandboxes.rs:271-422 | every step of create, delete, spawn and of the processes themselves keeps the whole invariant |
| `LifecycleProofs.UidReuseIsClean` | src/sandboxes.rs:396-422 | in every state of every run a free uid and a uid just taken own no process, and every process under a live sandbox's uid was started or forked in that sandbox |
| `LifecycleProofs.ProcessesKeptByDelete` | src/sandboxes.rs:396-422 | flagging, sweeping until a look finds nothing, and settling the uid leave no process behind under a uid that is not quarantined; where the uid goes is settled by `DeleteSettlesTheUid` |
| `LifecycleProofs.ProcessesKeptBySpawn` | src/exec.rs:201-228 | starting a process under the entry's lock, a fork and an exit keep every process with the sandbox that holds its uid |
| `LifecycleProofs.StagesKeptBySpawn` | src/exec.rs:201-228 | nobody holds an entry's lock to start a process once `deleted` is set |
| `LifecycleProofs.UidsAreConserved` | src/sandboxes.rs:155-240 | in every state of every run each uid below the cursor is held by one sandbox, free once, or quarantined, and uids of different holders differ |
| `LifecycleProofs.QuarantineIsForGood` | src/sandboxes.rs:236-239 | no step takes a uid out of quarantine |
| `LifecycleProofs.QuarantinedNeverReturns` | src/sandboxes.rs:236-239 | a uid quarantined once is never free and never held in any later state |
| `LifecycleProofs.ExhaustedMeansExhausted` | src/sandboxes.rs:219-224 | a create that finds no uid finds every uid of the range held or quarantined |
| `LifecycleProofs.CapacityIsSafe` | src/sandboxes.rs:280-302 | in every interleaving of creates, failures and deletes the registry is no larger than the slot holders, these no more than the capacity, and `reserved` never underflows |
| `LifecycleProofs.LeftoverHomesAreNotInherited` | src/sandboxes.rs:404-420 | the uid of a published sandbox whose home is still there after its teardown is not free and held by nobody |
| `LifecycleProofs.LeftoverHomesFreeTheUidUnlessPublished` | src/sandboxes.rs:288-300 | in every run, a sandbox that ends with its home left behind: its uid is quarantined if and only if the sandbox had been published, and back on the free list if and only if not; a published one's uid is never free or held again |
| `LifecycleProofs.FailedCreateMayLeaveItsHome` | src/sandboxes.rs:288-300 | the unpublished case occurs: a run in which a failed create leaves its home behind while its uid is free again |
| `LifecycleEnds.DeleteSettlesTheUid` | src/sandboxes.rs:396-422 | in every run, when a published sandbox ends: its uid is free if and only if the last look for its processes found none and its home is gone, and quarantined if and only if not; the last look found some only if 100 looks before it did |
| `LifecycleProgress.CanCreate` | src/sandboxes.rs:280-320 | from every state of every run, while a slot is left and a uid that is neither held nor set aside, a create can end with its sandbox in the registry |
| `LifecycleProgress.CanStart` | src/exec.rs:201-228 | from every state of every run a process can be started in any registered sandbox, under its uid |
| `LifecycleProgress.CanDelete` | src/sandboxes.rs:396-422 | from every state of every run any registered sandbox can be deleted so that its processes and its home are gone, its slot is given back and its uid is free |
| `LifecycleProgress.TurnedAwayWhenFull` | src/sandboxes.rs:280-287 | a create is turned away if and only if those that hold a slot and those still backing out fill the host |
| `Placement.HandleCreate` | src/sandboxes.rs:607-666 | the sandboxes made before the first failure, how many of the clamped count were rejected, and an error exactly if an attempt failed otherwise |
| `Placement.ClampedIsTheLargest` | src/sandboxes.rs:626-627 | the number of attempts is the largest that is within the request, the free slots and 4096 |
| `Placement.FailureHidesTheOthers` | src/sandboxes.rs:646-664 | if an attempt fails with an I/O error, the answer is a server error although k sandboxes were made before, for every k below the clamped count |
| `Connections.InvKept` | src/main.rs:341-355 | taking, undoing and dropping a slot keep the count equal to those who counted themselves in, and the holders within the cap |
| `Connections.LiveConnectionsAreCapped` | src/main.rs:337-355 | in every run no more connections than the cap are served, and the counter never underflows |
| `Connections.TurnedAwayWhenFull` | src/main.rs:341-355 | a connection is turned away if and only if as many as the cap are counted in when it comes; one that ends makes room |
| `SupervisionProofs.InvKept` | src/exec.rs:150-351 | every step of kernel, spawn, wait thread, `kill_tree` and reaper keeps the invariant |
| `SupervisionProofs.SignalsStayHome` | src/exec.rs:175-185 | every signal to the group or the leader is sent while that leader is unreaped, and reaches only that leader or the group it founded |
| `SupervisionKill.GroupIsReached` | src/exec.rs:175-185 | while the leader is unreaped, the group of its number is the one it founded: the signal reaches that group if and only if some process is in it |
| `SupervisionKill.KillReachesItsCommand` | src/exec.rs:175-185 | in every run, a kill that begins while its command is not reaped has, once the handle is free again, signalled the leader and whoever was in the group it founded, and set `timed_out` if it was the timeout |
| `SupervisionProgress.CanKill` | src/exec.rs:175-185 | from every state of every run a command that is not reaped can be killed by a DELETE or by its timeout: the signal reaches it, and a timeout is recorded |
| `SupervisionProofs.StatusesAreNotStolen` | src/exec.rs:291-341 | only its own wait thread collects a command, and what is reported is its own exit status |
| `SupervisionProofs.CollectedOnce` | src/exec.rs:291-341 | a process is reaped at most once, and is gone afterwards |
| `SupervisionProgress.CanSpawn` | src/exec.rs:225-231 | from every state of every run a command can be started; it is tracked, runs, and its timeout is armed if and only if it has one |
| `SupervisionProgress.CanReport` | src/exec.rs:291-351 | from every state of every run, whoever holds a lock and however far a kill has come, every command can come to its end with its own exit status reported |
| `SupervisionProgress.CanReapOrphan` | src/exec.rs:540-570 | a zombie child that no `spawn` owns is collected whenever the reaper gets the lock |
| `SupervisionProofs.TimeoutIsSettledAtTheReap` | src/exec.rs:175-185 | `timed_out` does not change after the reap, and the value reported is the one it had there |
| `SupervisionProofs.ReaperTakesOrphansOnly` | src/exec.rs:540-570 | the orphan reaper collects only zombie children that no `spawn` owns, never a command |
| `SupervisionProgress.EarlyReissueLosesAStatus` | src/exec.rs:327-341 | a run in which the kernel hands a pid out again before it is untracked, and the reaper takes a command's exit status |
| `Output.StreamIsInOrder` | src/exec.rs:252-285 | in every interleaving the stream opens with start, holds the chunks of each pipe in the order read and without a gap, and at most one exit, at its end |
| `Output.ExitComesAfterAllOutput` | src/exec.rs:291-351 | if the drain saw both pipes done, a stream that ends with exit holds every chunk ever read |
| `Output.NothingAfterTheEnd` | src/exec.rs:590-609 | once the stream ended nothing is added |
| `Output.QueueIsBounded` | src/exec.rs:33-37 | in every run the queue between a command's threads and its connection holds at most 64 items |
| `Output.NoEndWithoutExit` | src/exec.rs:590-609 | the streaming thread never finds the queue abandoned before it passed the exit on |
| `OutputProgress.EndsWithExitUnlessItFails` | src/exec.rs:590-609 | in every run the stream ends with the exit event, or a write to the client failed |
| `OutputProgress.CanComplete` | src/exec.rs:252-351 | from every state of every run, full queue or not, the stream can come to its end with the exit event, and with all that was read from either pipe if the drain was not over |
| `Registry.ProcRegistry.AllocId` | src/exec.rs:431-434 | the id shows the counter's old value, and the counter goes up by one in 64 bits |
| `Registry.ProcRegistry.Scan` | src/exec.rs:411-417 | the indices of the entries seen finished, in order, while processes go on exiting |
| `Registry.ProcRegistry.Retain` | src/exec.rs:418-427 | the index-counting `retain` keeps exactly the entries that are not among the oldest surplus finished ones, in order |
| `Registry.ProcRegistry.Insert` | src/exec.rs:408-428 | the new list is the old one with the new process, without the oldest surplus of those seen finished |
| `Registry.ProcRegistry.RemoveById` | src/exec.rs:439-446 | takes the first entry with this id in this scope and returns it; without one, nothing changes |
| `Registry.ProcRegistry.RemoveForSandbox` | src/exec.rs:449-451 | the entries of the other sandboxes stay, in order, and no others |
| `Registry.DoomedAreDropped` | src/exec.rs:411-427 | an index is among the doomed if and only if its entry was seen finished and fewer than the surplus were seen finished before it |
| `Registry.SurvivorsAreRight` | src/exec.rs:420-427 | what stays is a subsequence of the list: every entry but exactly those |
| `Registry.AtMost256Finished` | src/exec.rs:402-428 | an insertion leaves as many of the entries it saw finished as there were, but at most 256; below that it drops nothing |
| `Registry.InsertDropsOldest` | src/exec.rs:408-428 | a running entry always stays, and an entry is dropped only if all finished ones before it are |
| `Registry.RunningIsKept` | src/exec.rs:408-451 | no operation drops a running process unless it names it or its sandbox |
| `Registry.RunningStays` | src/exec.rs:408-451 | in every run a running process stays registered until it exits, is removed by its id or its sandbox is deleted |
| `Registry.ScopedRemoval` | src/exec.rs:439-446 | a scoped removal takes at most one entry, and none of another sandbox |
| `Registry.OthersAreOthers` | src/exec.rs:449-451 | an entry survives the deletion of a sandbox if and only if it belongs to another one |
| `Registry.DistinctKept` | src/exec.rs:408-451 | ids stay distinct as long as a new entry brings a fresh one |
| `Registry.AllocatedIds` | src/exec.rs:431-434 | two allocations give the same id if and only if the counter wrapped between them, so any 2^64 in a row are distinct |
| `HttpParser.ParseHeaders` | src/http.rs:130-170 | the header loop: its result on every block of lines, with the error of the first bad line |
| `HttpParser.ParseHead` | src/http.rs:102-204 | the whole parser computes the request a head stands for, or the error; `Accepted` says for every text which |
| `HttpParser.ParseUrl` | src/http.rs:390-398 | path, raw query and decoded parameters of a target; a later parameter of the same name wins |
| `HttpParser.Decode` | src/http.rs:400-426 | the decoding loop, one escape, plus sign or plain byte at a time |
| `HttpParser.EscapesOf` | src/http.rs:400-426 | every byte has its escape in lower-case and in upper-case digits |
| `HttpParser.DecodingUndoesEncoding` | src/http.rs:400-426 | whichever bytes a client escaped, with hex digits of either case, and however it wrote blanks, decoding gives the text back |
| `HttpFacts.FieldsAreMerged` | src/http.rs:130-170 | the header loop is the same as parsing each line by itself and merging the fields |
| `HttpFacts.MergeIff` | src/http.rs:130-170 | header lines are accepted if and only if there are at most 100, each is fine and those of one name agree; the map then holds exactly what they say |
| `HttpFacts.HeaderOrderDoesNotMatter` | src/http.rs:130-204 | permuting the header lines of any head keeps its acceptance and gives an equal request |
| `HttpFacts.RepeatedHeaderIsRedundant` | src/http.rs:163-167 | dropping a repeated header from an accepted head changes nothing |
| `HttpFacts.AsciiByLine` | src/http.rs:106-113 | a head is refused as non-ASCII exactly if one of its lines is |
| `HttpRequests.LengthIsItsNumeral` | src/http.rs:177-188 | a Content-Length value is accepted as n if and only if it is the decimal numeral of n, with any number of leading zeros, and n is below 2^64 |
| `HttpRequests.AcceptedIsClean` | src/http.rs:102-204 | an accepted request has an upper-case method, lower-case token names, trimmed values without control bytes, never both framing headers, and the length its header says |
| `Accepted.ByteClasses` | src/http.rs:119-160 | which bytes make a method, a header name (section 5.6.2 of RFC 9110), a header value and a target |
| `Accepted.RequestLineIff` | src/http.rs:114-129 | a line is read as method, target and version if and only if it is those three with one space between each: letters, a path without blanks or controls, and HTTP/1.0 or HTTP/1.1 |
| `Accepted.HeaderLineIff` | src/http.rs:142-162 | a line is read as a header if and only if it is a token, a colon and field text; the name is read in lower case, the value without the blanks around it |
| `Accepted.HeaderLinesIff` | src/http.rs:130-170 | the header lines are accepted if and only if there are at most 100, each is a header and those of one name agree; the headers are then exactly what the lines say |
| `Accepted.HeadIff` | src/http.rs:102-204 | which texts are accepted, as an equivalence over their lines: ASCII, a request line, headers that agree, not both framing headers, a length below 2^64 |
| `Accepted.HeadGives` | src/http.rs:172-204 | the request of an accepted head, from its lines: method, target cut at the question mark, headers, length; and it keeps the connection unless a Connection line has "close" in it, in any case, and without that if one has "keep-alive" in it or the version is 1.1 |
| `Accepted.LinesOfHead` | src/http.rs:114 | the lines of a head as it is read off a connection are what stands between its line ends |
| `Queries.QueryIsRead` | src/http.rs:390-398 | whichever way a client encodes the pairs of its query, the parameters are their keys, each with the value of the last pair of that key |
| `Framing.Reader.ReadHead` | src/http.rs:60-86 | the bytes up to the first blank line and no further, within 64 KiB; an end of stream or an excess means there is no such head |
| `Framing.Reader.ReadRequest` | src/http.rs:60-90 | the first message of the rest of the stream, with the reader just behind its head; unless a read is late or fails, it is refused if and only if the rest begins with a head that the parser does not take or is too long for one |
| `Framing.Reader.ReadBody` | src/http.rs:212-231 | exactly Content-Length bytes, or an error that leaves `body_consumed` as it was |
| `Framing.Reader.StreamBody` | src/http.rs:234-252 | hands the next bytes on in order, counts exactly those the sink took, and succeeds with the whole body |
| `Framing.Reader.DrainBody` | src/http.rs:255-269 | success leaves the reader just behind the body or at the end of the stream |
| `Framing.Route` | src/main.rs:212-245 | whatever a handler does with the body, a success leaves the reader at what it counted as consumed; without failures it succeeds if the handler can have the body it asks for |
| `Framing.Discard` | src/main.rs:398-401 | what is left of the body is off the stream when the connection goes on; and without failures it goes on if the client wants that and at most 1 MiB is left |
| `Framing.Serve` | src/main.rs:388-401 | when the loop goes round again the reader is just behind the message; without failures it does so exactly if the client wants that, the handler got the body it asked for and at most 1 MiB was left of it |
| `Framing.ServeNext` | src/main.rs:368-402 | one round of the loop dispatches the next message and stops just behind it; without failures it ends only at the last message or at one behind which the connection does not go on |
| `Framing.HandleConnection` | src/main.rs:357-404 | for every byte stream the requests dispatched are a prefix of its segmentation, each read from where the one before it ended, and all but the last let the connection go on; if nothing fails they are all messages up to the first behind which it does not go on |
| `Framing.EveryoneIsServed` | src/main.rs:357-404 | without failures every message of the stream is dispatched, if the connection goes on behind each |
| `FramingFacts.SegmentationIsUnique` | src/http.rs:60-90 | however a stream is cut into complete messages, these are the messages found |
| `FramingFacts.NothingIsSkipped` | src/http.rs:60-90 | what follows the last message found does not begin with a head |
| `Rfc.ChunksAreNoHead` | src/http.rs:60-90 | a complete chunked body (section 7.1 of RFC 9112, extensions and trailers included) never begins with a head that the parser accepts |
| `Rfc.AgreesUnlessChunked` | src/main.rs:242-244 | for every stream: the loop serves nothing that RFC 9112 does not see if and only if no head stands where a chunked body should; it misses nothing if and only if only the last request of RFC 9112's list has Transfer-Encoding; it serves that list if and only if both hold |
| `Rfc.CompleteBodies` | src/main.rs:242-244 | where every chunked body is complete, the loop serves a prefix of RFC 9112's requests, and all of them if and only if only the last has Transfer-Encoding |
| `Rfc.ChunksEndTheLoop` | src/main.rs:242-244 | behind a refused head with a complete chunked body the loop dispatches nothing more |
| `Rfc.ClientAgrees` | src/http.rs:370-386 | reading a chunked body as the client of the responses does ends in the same place |
| `Rfc.ChunksAreNotSkipped` | src/main.rs:242-244 | a head right behind a refused chunked head is dispatched next, though RFC 9112 has one request there |
| `Proxy.BuildHead` | src/proxy.rs:190-208 | the printed head for every order in which the header map is walked |
| `Proxy.BlankLineIsLast` | src/proxy.rs:190-208 | the only blank line of a printed head is its end |
| `Proxy.PrintedIsParsed` | src/proxy.rs:190-208 | the parser accepts every printed head and reads its request line and forwarded headers |
| `Proxy.ReplayRoundTrip` | src/proxy.rs:190-208 | parsing a printed head gives the same method, query, parameters and length, the new path, and the headers without those of this hop; it keeps the connection unless a Connection header says close, which is what the client wanted if and only if it wanted to go on or said close |
| `Proxy.CredentialsStayBehind` | src/proxy.rs:198-206 | behind the replay there is no `x-sandbox-token` and no `authorization`, and every other header is there as it was |
| `Tunnel.Forward` | src/proxy.rs:211-250 | the backend gets the printed head, then what was prefetched, then the socket's bytes, in order; wherever a write or the splice fails, a prefix of that |
| `Tunnel.BackendReadsTheRequest` | src/proxy.rs:190-208 | a backend that frames like this server takes the replayed request off its stream, and then the body that followed on the client's connection |
| `Tunnel.ForwardedPathIsPath` | src/proxy.rs:96-101 | the path behind a proxy target is one the parser accepts; which path it is, `Targets` says |
| `Tunnel.ProxiedRequestRoundTrip` | src/proxy.rs:96-101 | every accepted request routed to a proxy target reaches the backend as itself under the new path |
| `Targets.PortIff` | src/proxy.rs:96-99 | a segment is a port if and only if it is, perhaps behind one plus sign, the decimal numeral of a number from 1 to 65535, and it is that port |
| `Targets.TargetIff` | src/proxy.rs:96-101 | for all segments: there is a target if and only if the first is a port; the path is "/" if nothing follows, and otherwise a slash and exactly the segments that follow |
| `Targets.ForwardedIsTheRest` | src/proxy.rs:96-101 | from the whole path: /front/port/rest goes to that port as /rest without the slashes at its end, so it is /rest exactly if that does not end with a slash |
| `Targets.ProxiedPathArrives` | src/proxy.rs:190-208 | and an accepted request for such a path arrives at the backend as itself, asking for that |
| `ReplayFits.ReplayIsHardlyLonger` | src/proxy.rs:190-208 | the replay of any accepted head to any proxy target is longer than that head by one byte for each header at most |
| `ReplayFits.ProxiedRequestArrives` | src/proxy.rs:190-208 | every accepted head that leaves room for that within 64 KiB reaches a backend with the same limit as itself, and the body behind it |
| `Responses.ResponseWriter.WriteHead` | src/http.rs:313-332 | the head that is written, with a length or as chunked |
| `Responses.ResponseWriter.Fixed` | src/http.rs:335-339 | head and body are out and flushed; after a failure a part of them |
| `Responses.ResponseWriter.StartStream` | src/http.rs:350-353 | the head of a chunked response is out and flushed |
| `Responses.ResponseWriter.Chunk` | src/http.rs:370-378 | one chunk is out and flushed; an empty one writes nothing |
| `Responses.ResponseWriter.Finish` | src/http.rs:380-386 | the last chunk is out if the response is chunked, and nothing otherwise |
| `Responses.ResponseWriter.Hijack` | src/http.rs:306-311 | everything written is flushed before the connection counts as handed over; that it does so even if the socket cannot be cloned then |
| `Responses.SendBytes` | src/files.rs:203-213 | up to the announced number of bytes in order, fewer only if the file ended; all of them, and the file's own, if nobody changes it |
| `Responses.SendRange` | src/files.rs:196-226 | head and range: the announced number of bytes, the file's own if nobody changes it, or a failure; a file that ended early leaves the response incomplete |
| `Responses.HandleRead` | src/files.rs:196-226 | exactly the announced bytes of the range, or a failure; a file that shrank fails with the response incomplete |
| `Responses.RangesTile` | src/files.rs:186-193 | reads of adjoining ranges add up to one read, and to the whole file when they reach its end |
| `Responses.StreamEvents` | src/exec.rs:642-655 | start, every chunk in order; after a failure a part of that |
| `Responses.Answer` | src/main.rs:386-399 | one complete response if everything was written, the one the request asked for; otherwise a part of one that, should the client read it whole, is the one asked for; without failures it is complete |
| `Responses.AnswerNext` | src/main.rs:386-401 | after a failure the client still reads exactly the responses before it, up to the first to a HEAD request, and at most this one, which then answers the request |
| `Responses.HandleConnection` | src/main.rs:368-402 | in every sequence of fixed, ranged and streamed responses the client reads those that were finished, in order, and at most the one that failed besides, but none behind the first to a HEAD request, and nothing else; each one read answers the request of its place; if nothing fails, every request up to the first that closes the connection is answered |
| `Exchange.Refuse` | src/main.rs:368-384 | a request that could not be read is answered with the status it is given and closes the connection; without failures all of that is out; the client reads that answer whole or not at all, and not at all behind a HEAD request |
| `Exchange.Goodbye` | src/main.rs:368-384 | when no further request can be read, 400 is said for a head that is bad or too long, 408 for one that is late, and nothing for a broken or ended stream; all requests before are then answered, and read unless one before the last is HEAD |
| `Exchange.Serve` | src/main.rs:386-401 | the loop goes round again only if the request was answered in full, its body is off the stream and the client may send another, and without failures exactly then; in any case the client reads the answer to this request or none, and none behind a HEAD request |
| `Exchange.HandleConnection` | src/main.rs:357-404 | both directions of any connection, wherever it breaks: the requests dispatched are the first of the stream's messages, the i-th response read answers the i-th of them, and one response more is a refusal, of status 400 only if a bad head follows them and 408 only if a read can be late; the client reads nothing behind the first HEAD request, and unless that stops it only the last request may go without its response; if nothing fails, all messages are dispatched up to the first behind which the connection does not go on, and if it goes on behind each, every one is answered, a refusal is sent if and only if a bad head follows, and every answer is read if and only if no request but the last is HEAD |
| `RepliesProofs.HeadIsRead` | src/http.rs:271-332 | the client reads status, content type, framing and whether the connection stays open (section 9.3 of RFC 9112) from every head, and finds its end |
| `RepliesProofs.ChunksAreRead` | src/http.rs:370-386 | reading chunks by section 7.1 of RFC 9112 gives all data in order and stops just behind the last chunk |
| `RepliesProofs.CutChunks` | src/http.rs:370-386 | a chunked body of which any part is missing is not taken for complete |
| `RepliesProofs.ReplyIsRead` | src/http.rs:313-386 | what belongs to a response for the method it answers is read as what it says, and what follows is left alone |
| `RepliesProofs.CutReplyIsNotRead` | src/http.rs:313-386 | a response of which the last byte that belongs to it is missing is not read at all |
| `RepliesProofs.ResponsesAreDelimited` | src/http.rs:313-386 | decoding a connection's bytes gives exactly the finished responses, whatever part of the next one follows, if none of them has a body that the method it answers does not allow |
| `RepliesProofs.RepliesAreRead` | src/http.rs:313-386 | whatever the methods and whatever follows, the client reads all responses up to the first with a body it does not expect, and nothing behind that one |
| `RepliesProofs.ReadRightIff` | src/http.rs:313-386 | all responses are read as the answers they are if and only if none before the last has a body that the client does not expect |
| `Responses.PartlyReceived` | src/main.rs:398-401 | without HEAD among the requests before it, the last response is read if and only if all of it arrived that belongs to it |
| `Responses.NothingBehindHead` | src/main.rs:313 | behind the response to the first HEAD request the client reads nothing, whatever is sent |
| `Responses.AllReceived` | src/main.rs:313 | with all responses sent the client reads those up to the first HEAD request; it has each answer to its request if and only if no request but the last is HEAD |
| `Responses.HeadBreaksPairing` | src/main.rs:313 | the input: a refused HEAD request and any other behind it, both answered in full; the client never reads the second answer |
| `Paths.Push` | src/fsutil.rs:111 | pushing a name appends it, behind a slash unless it is the first |
| `Paths.Pop` | src/fsutil.rs:112-114 | popping cuts exactly the last name off, and does nothing at the root |
| `Paths.NormalizeRelative` | src/fsutil.rs:107-121 | the loop gives the path of the names that folding its components leaves, all of them plain |
| `Paths.OnlyNames` | src/fsutil.rs:103-121 | no empty name, no dot, no dot-dot, no slash comes out of any string |
| `Paths.NormalizingIsIdempotent` | src/fsutil.rs:107-121 | a normal form is its own normal form |
| `Paths.NormalContinues` | src/fsutil.rs:107-121 | normalizing a longer path goes on from the normal form of the shorter one |
| `Paths.NormalFormWalksThere` | src/fsutil.rs:107-121 | in a tree without symlinks, wherever the step-by-step walk of a path arrives, the walk of its normal form arrives |
| `Paths.WalkSucceedsIff` | src/fsutil.rs:107-121 | the step-by-step walk succeeds if and only if the normal form of every prefix of the path leads to a node, and to a directory wherever the path goes on; the walk of the normal form asks this of the whole path only |
| `Paths.NormalFormWalksFurther` | src/fsutil.rs:112-114 | so the normal form can succeed where the walk fails: dot-dot takes back a name that does not exist |
| `ScopedFs.ComponentsAreNames` | src/fsutil.rs:123-130 | only plain names of a path are ever walked |
| `ScopedFs.NormalizedIsWalked` | src/fsutil.rs:107-130 | a normalized path is walked along exactly its names |
| `Inodes.SandboxIsConfined` | src/fsutil.rs:132-141 | whatever a sandbox creates, links, renames, removes or rewrites stays among its own inodes |
| `Inodes.SandboxMaySwap` | src/fsutil.rs:1-14 | a sandbox can put a symlink to any target in the place of any entry of its directories; opening that name then fails |
| `ScopedFs.World.OpenAt` | src/fsutil.rs:31-50 | opens an entry of its own directory and never follows a symlink; the inode is the sandbox's |
| `ScopedFs.World.OpenForWriting` | src/fsutil.rs:230-234 | what is opened, truncated or created is the sandbox's; undisturbed a free name gets an empty file, a taken one is truncated only on demand, and a failure changes nothing and means that neither a free name nor a file was there |
| `ScopedFs.World.MkdirAt` | src/fsutil.rs:55-65 | a directory is created among the sandbox's own, or the name was taken; undisturbed it succeeds if and only if the name has no NUL, a free name then leads to a new empty directory hanging there, and a taken one leaves everything as it was |
| `ScopedFs.World.Chown` | src/fsutil.rs:77-83 | only an inode of the sandbox changes its owner |
| `ScopedFs.World.UnlinkAt` | src/fsutil.rs:67-75 | drops an entry of the sandbox's directory, or says why not; the target of a symlink is not concerned |
| `ScopedFs.World.Locate` | src/fsutil.rs:183-201 | whatever the sandbox does meanwhile, the walk ends in a directory of its own; undisturbed it ends where the names lead, and without `create_dirs` fails exactly when they lead nowhere; with it, exactly when a name has a NUL or a prefix leads to an entry that is no directory, and it then only makes missing directories on the path, which are the sandbox's afterwards |
| `ScopedFs.World.OpenRead` | src/fsutil.rs:206-220 | only a regular file of the sandbox is opened, and nothing outside changes; undisturbed it succeeds if and only if the names lead to a regular file without crossing a symlink, and opens that one |
| `ScopedFs.World.OpenWrite` | src/fsutil.rs:225-240 | confined always; undisturbed, in the tree as it is once missing parents are made (as it was, without `create_parents`): the file at the path is the sandbox's, empty if new or without an offset, with its old content otherwise, and nothing else changes; it succeeds if and only if the last name is free or a file and the directory is there, or, with `create_parents`, can be made |
| `ScopedFs.World.Metadata` | src/fsutil.rs:244-250 | only inodes of the sandbox are looked at; undisturbed exactly the one that the names lead to, the last of them not followed if it is a symlink, and it fails if and only if they lead nowhere |
| `ScopedFs.World.List` | src/fsutil.rs:254-270 | only inodes of the sandbox are listed; undisturbed exactly the entries of the directory the path leads to, each once |
| `ScopedFs.World.MkdirAll` | src/fsutil.rs:293-302 | only directories of the sandbox are created or chowned; undisturbed it succeeds if and only if no name has a NUL and no prefix of the path leads to an entry that is no directory; the path then leads to a directory, all on it are the sandbox's, and nothing is lost or made beside it |
| `Making.MadeCouldBe` | src/fsutil.rs:183-201 | a path that was made was one that could be made, by the tree as it was before |
| `Making.BlockedCouldNot` | src/fsutil.rs:183-201 | a path at which the making stops could not be made, by the tree as it was before |
| `Making.FreeAsBefore` | src/fsutil.rs:225-240 | the last name is free or a file in the directory that was made or found if and only if it was before, or the directory is new |
| `ScopedFs.World.RemoveFiles` | src/fsutil.rs:308-317 | the first pass: confined always; undisturbed it leaves exactly the subdirectories and collects each of them |
| `ScopedFs.World.RemoveDirs` | src/fsutil.rs:318-323 | the second pass: confined always; undisturbed everything below the subdirectories is emptied and they are gone |
| `ScopedFs.World.RemoveDirContents` | src/fsutil.rs:307-325 | ends on every tree; confined always; undisturbed every directory below is emptied, and it succeeds if there are descriptors for the depth |
| `ScopedFs.World.Delete` | src/fsutil.rs:274-290 | confined always; undisturbed it leaves exactly what deletion should leave, refuses the root, and refuses a directory that is not empty unless it is recursive |
| `Trees.SiblingsAreApart` | src/fsutil.rs:318-323 | the subtrees of one directory have nothing in common |
| `Trees.NextIsUntouched` | src/fsutil.rs:318-323 | the next subdirectory is as it was when the pass began |
| `Trees.NextIsRemoved` | src/fsutil.rs:318-323 | emptying it and dropping its entry takes the pass exactly one name further |
| `Trees.AllRemoved` | src/fsutil.rs:307-325 | when the two passes are through, every directory below is empty |
| `Trees.OtherEntriesStay` | src/fsutil.rs:272-290 | an entry under any path that does not lead through the deleted one is found where it was found before |
| `Trees.OtherPathsStay` | src/fsutil.rs:272-290 | every path that does not lead through the deleted entry still leads where it led |
| `Trees.DeletedIsGone` | src/fsutil.rs:272-290 | the entry is gone, nothing is left below it, and no file or symlink itself changes |
| `Uploads.WriteAt` | src/files.rs:252-257 | a write changes its own bytes only, and fills a gap behind the end with zeros |
| `Uploads.SetLen` | src/files.rs:258-262 | the file has that length and keeps what lies below it |
| `Uploads.InvKept` | src/files.rs:241-262 | every single write or `set_len` of any request keeps what was written |
| `Uploads.Outcome` | src/files.rs:241-262 | when all requests are through, the file is the target, followed by the old tail only if nobody set the size |
| `Uploads.UploadsAreOrderIndependent` | src/files.rs:241-262 | in every interleaving, from any old file, uploads that tile a target leave exactly the target if and only if one of them sets the size or the old file was no longer |
| `Uploads.SharedFile.HandleWrite` | src/files.rs:252-262 | one request among others finishes its part and keeps what all have written |
| `Listing.HandleList` | src/files.rs:301-322 | the page behind `after`: filtered, sorted, cut at the limit, with the cursor for the next |
| `Listing.ByFirstDifference` | src/files.rs:314-318 | the order of names is that of the first byte in which they differ, and a name comes before those that continue it |
| `Listing.PageSize` | src/files.rs:301-322 | a page has at most as many names as asked for, 10,000 if no number is given, and never more than 50,000; it is truncated if and only if there are more |
| `Listing.BeyondIsSuffix` | src/files.rs:310-313 | what lies behind a cursor is an end of the sorted listing, equal names included |
| `Listing.GoesOn` | src/files.rs:310-320 | behind the last name of a page the listing goes on where the page ended, if and only if the next name is another one; the cursor always moves |
| `Listing.PagesAddUp` | src/files.rs:310-322 | from any cursor the pages that follow are the rest of the sorted listing if none of them ends between two equal names, and fewer names than it otherwise |
| `Listing.PaginationIsCompleteExactly` | src/files.rs:301-322 | for any limit of at least one, following the cursor ends, and the pages are the sorted listing of all names if and only if no page ends between two names that look the same |
| `Listing.PaginationIsComplete` | src/files.rs:301-322 | so with distinct names they always are |
| `Listing.EqualNamesAreLost` | src/files.rs:310-320 | a page that ends between two names that look the same loses some: fewer names are listed than there are |

## Left out

- Framing.Route: which path and method lead to which handler, and authorization, are settled by reading a branch; the model takes any handler for any request, and only for HEAD it uses that there is none but the errors and the proxy.
- Framing.HandleConnection: the deadlines on the socket are reads that may fail at any time.
- Exchange.Serve: what passes over a connection once it was handed to a proxy is not among its responses.
- Exchange.Refuse: the text of the error; any text may come.
- ScopedFs.World.OpenWrite: which error stops the creation of a parent; when one does is in the contract.
- ScopedFs.World.Metadata: the metadata themselves, here and in a listing.
- ScopedFs.World.Delete: which error it is when a deletion fails, and what is left if a recursive one runs out of descriptors.
- Placement.HandleCreate: a concurrent create may take the slots counted by `remaining_capacity`; the attempts then come back full.
- Tunnel.Forward: the other direction of the splice, socket shutdown and peer credentials.
- Output.StreamIsInOrder: text that is cut inside a UTF-8 sequence is decoded lossily per read, so chunks are compared as they are sent.
- Landlock, rlimits, permission bits and `pre_exec_isolation`: their effect is in the kernel.
- JSON bodies, environment parsing, `/health`, logging; random ids and tokens are taken as fresh.
- Real time: timeouts and idle eviction are events that may happen; that eviction never races a new request is not claimed, and neither is that no registry entry survives its sandbox.
- Numeric overflow of the connection and slot counters, and of file offsets beyond 63 bits, where a seek fails.
- Unix sockets of the proxy (`open_sandbox_socket`, `connect_backend`).
