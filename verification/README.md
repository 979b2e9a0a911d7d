# A verified model of acord's session bridge, asset manager and request sessions

acord serves local AI providers over WebSockets. This project models the three parts of it that keep
state across events, and how they compose, and proves what they are for.

**The bridge** (`Frames`, `Channels`, `Bridge`, `WsSession`, `Link`, `WaitObject`). A session moves
frames between a WebSocket and two bounded dispatch channels, with one slot a direction and callbacks
that post retries. `Bridge` gives every handler as one atomic step of a state; `WsSession` is the session
object, and each of its methods is proved to take exactly that step. `Link` joins two such ends by a
network with a window of any size and interleaves everything: sockets, posted tasks, producers, consumers and
closes. The results are an invariant on who may resume what, conservation of frames in both directions,
delivery of everything when nobody closes, and the way a close spreads.

**The download pipeline** (`Generator`, `Redirects`, `FileSystem`, `AssetMgr`, `Publication`, `Leftovers`,
`Replies`, `AssetMgrService`). A
suspended download fills buffers of the caller's; a redirect loop finds it; the asset manager puts a cache
and a directory lookup in front of it and publishes complete downloads by a move. The object
`AssetMgrService` runs on a disk and is proved against the functions of `AssetMgr`; about those the
project proves that the cache changes nothing, that publication is all or nothing, when exactly an
address gets a path, and when exactly a batch has no reply.

**The request sessions** (`Protocol`, `Acord`, `Sessions`). Any number of clients, each with its own coroutine, share
one asset manager and interleave at every suspension. Each request gets its own reply, from its own
inner session, in order; nothing deadlocks; a provider gets the rest of the stream untouched.
`Protocol` writes requests and replies out field by field. `Sessions` has the two coroutines as loops over endpoints, and proves that a client alone with the
manager sees in the step system what it sees in the loop. `Findings` holds inputs for the findings below.

## What is assumed

- WebSocket messages arrive whole and in order. A send started when the socket is closing or closed goes
  nowhere and never completes; a closed socket delivers no event. Closing the socket at one end lets the
  other end's socket close; what is still on the wire then may or may not be delivered first.
- The text and binary encodings are a parameter with the laws `Frames.Lawful`: both round trip, the text
  encoding up to the object a blob turns into and the null that a number which is not finite turns into.
  `CodecInstance` holds a codec that obeys them. Strings are text that can be encoded: one that is not valid
  UTF-8, which the text encoding refuses, is not modelled.
- Values behave as in the usual JSON library: null has size 0, a list or object the size it shows, anything else
  size 1; only a list has items by number; reading an item that is no string as one throws. A client's request
  for assets is accepted exactly if its data is a list of strings.
- The channel library is not part of this repository. `Channels` is a bounded queue with one callback a side;
  blocking and registering are one step; a replaced or fired callback is run as a posted task. Whether
  queued frames can be read after a close is a parameter, `drains`; all results hold for both answers.
- A read of an HTTP body returns when the buffer is full, the message is done, or there is an error. The
  parameter `late` covers messages whose end is read separately from their last byte.
- Disk writes succeed, and nothing else edits the asset directory. A chain of redirects is finite; any
  network, different at each request, is allowed otherwise.
- `attach` does not throw once the endpoint was detached.

## Findings

- JSON connections do not give back a blob, nor a number that is not finite: `Frames.ImageExact` and
  `Link.ImageAllExact` say exactly when frames survive (`Findings.BlobLost` is a frame that does not).
- Two addresses with the same last component share one file, and the second is given the first one's bytes
  (`Findings.SecondGetsFirstBytes`). Once an address has been given a path, the file there holds its own body
  exactly if no file with its name was there at the start and no other address with that name was published
  before (`Publication.GetsOwnBodyExactly`).
- A command to the asset manager whose list has an item that is no string ends the session only after the
  addresses before that item were downloaded and published, and data of size 0 that is no list is answered
  like an empty list (`Findings.StringsBeforeNumber`, `Findings.NullAnswered`).
- `touch` sits outside the `try`, so an address whose temporary file the disk does not take ends the whole
  session instead of leaving one entry empty. Such are addresses that end in a slash, and those whose query
  makes the name too long (`Findings.NoNameDies`, `Findings.LongNameDies`). For any disk, and
  with nothing standing where temporary files go, no other batch ends its session
  (`Replies.BatchDiesExactly`, over whole runs `DeadBatchesExactly` and `Acord.NoResultExactly`).
- A Location of the form "//host/path" is treated as a path on the same host, and one that neither has a scheme
  nor starts with a slash as a whole address (`Findings.OtherHostLost`, `Findings.RelativeLost`);
  `Redirects.TargetAgreesExactly` says when a redirect leads where sections 5.2.2 and 5.3 of RFC 3986 say.
- The comment at `server/ahttp/code/ahttp/sync_generator.hpp:89` holds, but the last chunk may be empty when the
  end of the message is read separately; `Generator.CallsLeft` counts that call.

## Model

| member | source | states |
|---|---|---|
| Frames.RoundTrip | common/code/acord/FrameCvt.hpp:15-49 | an encoded frame decodes to itself, up to what the text encoding does to blobs, in either mode and at a receiver in any mode |
| Frames.JsonToAcExact | common/code/acord/FrameCvt.hpp:21-24 | a value decodes to a frame if and only if it is an object whose first "op" is that string, and the frame's data is its first "data", or null where it has none; field order and other fields make no difference |
| Frames.WireForm | common/code/acord/FrameCvt.hpp:15-20 | a frame is sent as an object with just its "op" and its "data" |
| Frames.ImageExact | common/code/acord/FrameCvt.hpp:31-64 | a frame survives a hop unchanged if and only if it travels as CBOR or carries no blob and only finite numbers |
| Findings.BlobLost | common/code/acord/FrameCvt.hpp:31-39 | a frame whose blob arrives as an object of its bytes |
| CodecInstance.PlainIsLawful | common/code/acord/FrameCvt.hpp:31-49 | the laws asked of the encodings are met by a concrete codec |
| Channels.BufferedChannel.Write | common/code/acord/CommonWsSession.cpp:33-40 | a write on a bounded channel: refused after a close; when full the frame stays with the caller and the callback is registered in the same step; otherwise queued last and a waiting reader woken |
| Channels.BufferedChannel.Read | common/code/acord/CommonWsSession.cpp:84-91 | a read takes the oldest frame and wakes a waiting writer, or reports the close, or registers the callback in the same step |
| WsSession.CommonWsSession.WsOpened | common/code/acord/CommonWsSession.cpp:13-22 | the binary encoder exactly for the target "/cbor", the text one for any other, and a receive is started |
| WsSession.CommonWsSession.TryWriteToDispatch | common/code/acord/CommonWsSession.cpp:29-48 | takes the bridge's step: nothing without a held frame; a blocked write keeps it; a closed channel closes the socket; success empties the slot and receives again |
| WsSession.CommonWsSession.Received | common/code/acord/CommonWsSession.cpp:50-70 | from an empty slot: a message whose value depicts a frame, "op" and perhaps "data", has that frame written behind the queue, or held if the channel is full or closed; any other closes the socket and writes nothing |
| WsSession.CommonWsSession.TryReadFromDispatch | common/code/acord/CommonWsSession.cpp:80-106 | takes the bridge's step: nothing while a send is held; a frame read is encoded and sent; a close closes the socket; a block leaves the slot empty |
| WsSession.CommonWsSession.DoSend | common/code/acord/CommonWsSession.cpp:108-116 | a buffer with text goes out as that text, any other as its bytes |
| WsSession.CommonWsSession.WsCompletedSend | common/code/acord/CommonWsSession.cpp:118-121 | the send slot is freed and the next frame attempted, as one step |
| WsSession.CommonWsSession.WsClosed | common/code/acord/CommonWsSession.cpp:24-27 | both dispatch streams are closed, and nothing else changes but the socket |
| WsSession.CommonWsSession.WsReceivedText | common/code/acord/CommonWsSession.cpp:72-74 | under the token invariant a text message finds the slot empty and takes the bridge's step |
| WsSession.CommonWsSession.WsReceivedBinary | common/code/acord/CommonWsSession.cpp:76-78 | the same for bytes |
| WsSession.CommonWsSession.RetryWrite | common/code/acord/CommonWsSession.cpp:33-39 | a posted write retry takes the bridge's step |
| WsSession.CommonWsSession.RetryRead | common/code/acord/CommonWsSession.cpp:85-91 | a posted read retry takes the bridge's step |
| WsSession.CommonWsSession.ServerOpened | server/code/acord/server/WsSession.cpp:23-35 | starting the first receive before the channels exist is sound: the session ends up in the bridge's opened state with two fresh channels of capacity 10 |
| WsSession.CommonWsSession.ClientOpened | client/code/acord/client/IoCtx.cpp:23-27 | a client's session, which has its channels from the start, takes the bridge's opening step |
| Bridge.TokensKept | common/code/acord/CommonWsSession.cpp:13-121 | every handler keeps the token invariant: an open session has exactly one receive token and one send token |
| Bridge.AccountedKept | common/code/acord/CommonWsSession.cpp:13-121 | every handler keeps the accounts: messages sent are the encodings of exactly the frames read, frames written and held are those of exactly the messages heard |
| Bridge.AnyPeer | common/code/acord/CommonWsSession.cpp:45-70 | in any run against any peer: the asserts hold, only the last message can be undecodable, what was written is a prefix of what decoded, and at most capacity plus one decoded frames wait |
| Bridge.ReceivedExact | common/code/acord/CommonWsSession.cpp:50-70 | what becomes of a message rests on the value in it alone: accepted if it depicts a frame, and refused with the socket closing if it depicts none |
| Bridge.BadMessageIsLast | common/code/acord/CommonWsSession.cpp:51-69 | after a message that did not decode, nothing more is heard or written, in any run: the frame left in the slot never gets out |
| Bridge.NothingAfterClose | common/code/acord/CommonWsSession.cpp:24-27 | once closed, a session stays closed with both streams closed, and no frame enters either channel or the wire again, in any run |
| Bridge.WeightDrops | common/code/acord/CommonWsSession.cpp:29-121 | every event lowers a measure over hops, retries and waiters; delivering a message takes 6 at one end and gives less at the other |
| Link.FineKept | common/code/acord/CommonWsSession.cpp:13-121 | every step of the joined system keeps the invariant of both ends and of the wires |
| Link.Conservation | common/code/acord/CommonWsSession.cpp:13-121 | in every state of every run, each way: frames pushed are those delivered, then those in the far channel, the far slot, the wire, the near socket, the near channel; nothing is dropped by an open end |
| Link.DeliveredIsPrefix | common/code/acord/CommonWsSession.cpp:13-121 | what is delivered is a prefix of what was to be sent, through any close |
| Link.ImageAllExact | common/code/acord/FrameCvt.hpp:31-64 | the frames seen at the far end equal those pushed if and only if the connection is CBOR or none carries a blob or a number that is not finite |
| Link.RunsEnd | common/code/acord/CommonWsSession.cpp:29-48 | no run is longer than the measure it starts with, whatever is chosen and however it closes |
| Link.QuietOpenIsDone | common/code/acord/CommonWsSession.cpp:80-121 | no lost wake-up: with both ends open and no step left, every frame pushed has been delivered |
| Link.EverythingArrives | common/code/acord/CommonWsSession.cpp:29-48 | with nobody closing, every run is bounded by the input, and a maximal one delivers all frames of both sides in order |
| Link.CborDeliversAll | client/code/acord/client/IoCtx.cpp:55-61 | over a connection to "/cbor" a maximal run without a close gives each side the very frames the other had to push |
| Link.MessageKinds | common/code/acord/CommonWsSession.cpp:13-22 | in any run, every message sent on a connection to "/cbor" is binary, and on any other is text |
| Link.QuietEndedIsDone | common/code/acord/CommonWsSession.cpp:24-27 | with both ends closed and no step left, no callback is registered or waiting to run |
| Link.ClosePropagates | common/code/acord/CommonWsSession.cpp:40-44 | after a close at either end every run is finite, and a maximal one has closed both sockets and all four channels and run out every retry |
| Link.Settles | common/code/acord/CommonWsSession.cpp:29-121 | from every reachable state the system's own steps reach a state with none left |
| WaitObject.WsSessionHandlerWobj.NotifyOne | common/code/acord/WsSessionHandlerWobj.hpp:18-25 | posts a task and changes nothing else |
| WaitObject.WsSessionHandlerWobj.Wait | common/code/acord/WsSessionHandlerWobj.hpp:27-34 | takes the slot; a callback it replaces is posted for cancellation |
| WaitObject.Conserved | common/code/acord/WsSessionHandlerWobj.hpp:18-34 | over any sequence of operations each registered callback is in exactly one of slot, queue and fired list, once |
| WaitObject.FiresAtMostOnce | common/code/acord/WsSessionHandlerWobj.hpp:18-34 | no callback fires twice, nor is pending once it fired |
| WaitObject.DrainedNotifyFiresAll | common/code/acord/WsSessionHandlerWobj.hpp:18-25 | with a drained queue and a notification after the last wait, every registered callback has fired once |
| WaitObject.SecondWaitCancelsFirst | common/code/acord/WsSessionHandlerWobj.hpp:27-34 | a second wait cancels the callback that was waiting and no other: once the queue has drained that one has fired, and the new one waits unless a notification was queued before |
| WaitObject.DrainExact | common/code/acord/WsSessionHandlerWobj.hpp:18-34 | which callbacks a drained queue has fired, and what is left in the slot |
| Generator.SyncGenerator.GetNextChunk | server/ahttp/code/ahttp/sync_generator.hpp:87-97 | on the caller's buffer: the chunk is its first bytes, the rest is untouched, a stored failure surfaces, past the end nothing is resumed, and the size stays as it was |
| Generator.SyncGenerator.Resume | server/ahttp/code/ahttp/ahttp.cpp:206-213 | one turn of the chunk loop truncates the span to what was read |
| Generator.BodyStream.Read | server/ahttp/code/ahttp/ahttp.cpp:69-75 | a full buffer is no error; a read fills the buffer's start with the next bytes of the body |
| Generator.SyncGenerator.constructor | server/ahttp/code/ahttp/sync_generator.hpp:29-45 | creation runs up to the first request for a chunk, or to the end of an empty body, with the size known by then |
| Generator.AnnouncedSize | server/ahttp/code/ahttp/sync_generator.hpp:33-45 | the size set at creation is that of what follows: whatever the buffers, as many bytes as announced have been given if and only if the generator is done without a failure, and never more |
| Generator.ChunksJoin | server/ahttp/code/ahttp/sync_generator.hpp:87-97 | for buffers of any sizes the chunks join to exactly the bytes handed out, and a failure surfaces from exactly one call |
| Generator.PrefixOfBody | server/ahttp/code/ahttp/sync_generator.hpp:29-62 | a whole run yields a prefix of the body, all of it if it ends without a failure, and exactly one call throws otherwise |
| Generator.DoneStays | server/ahttp/code/ahttp/sync_generator.hpp:91-91 | after the end, by return or exception, every call gives an empty chunk and changes nothing |
| Generator.ChunksFill | server/ahttp/code/ahttp/sync_generator.hpp:88-89 | in any run with buffers of any sizes each chunk fits its buffer, and each after which the generator is not done fills it |
| Generator.WholeDownload | server/ahttp/code/ahttp/ahttp.cpp:206-213 | with a fixed buffer of k bytes a body of n bytes is done after exactly ceil(n/k) calls, or floor(n/k)+1 when its end is read separately |
| Redirects.GetSync | server/ahttp/code/ahttp/ahttp.cpp:112-217 | along a chain of http addresses, and https ones with TLS, in which the network redirects each to the next, exactly those k+1 are tried in order, and it succeeds if and only if the network's last reply is an ok one, with that response's size and bytes; for any other finite chain the same up to the address whose scheme is not supported |
| Redirects.FollowRedirects | server/ahttp/code/ahttp/ahttp.cpp:120-191 | the loop visits the chain's addresses in order and stops at its first reply that is no redirect |
| Redirects.SupportsExact | server/ahttp/code/ahttp/ahttp.cpp:36-41 | http is supported, https exactly with TLS, and no other scheme |
| Redirects.OthersSupported | server/ahttp/code/ahttp/ahttp.cpp:126-159 | of a chain's addresses only the last can have an unsupported scheme, and then there is no response |
| Redirects.SameAuthority | server/ahttp/code/ahttp/ahttp.cpp:175-188 | the address rebuilt from a Location with a leading slash splits into the same scheme and authority and that location |
| Redirects.FragmentIsCut | server/ahttp/code/ahttp/ahttp.cpp:124-152 | scheme, authority and path split into just these, and a fragment is no part of the request path |
| Redirects.DotDotCancels | server/ahttp/code/ahttp/ahttp.cpp:183-186 | in the reference a segment ".." removes itself and the segment before it |
| Redirects.RemoveDotsExact | server/ahttp/code/ahttp/ahttp.cpp:183-186 | section 5.2.4 of RFC 3986 gives a path back if and only if it has no dot segment |
| Redirects.TargetAgreesExactly | server/ahttp/code/ahttp/ahttp.cpp:174-188 | a redirect leads where reference resolution says if and only if its location has a scheme or exactly one leading slash, and no dot segment |
| Findings.OtherHostLost | server/ahttp/code/ahttp/ahttp.cpp:175-182 | from http://h/a, the location //e/x leads to a path on h, and by the RFC to the host e |
| Findings.RelativeLost | server/ahttp/code/ahttp/ahttp.cpp:183-186 | from http://h/a, the location x/y becomes the whole address, and by the RFC leads to http://h/x/y |
| FileSystem.JoinThenSplit | server/code/acord/server/FsUtil.cpp:31-33 | the file name of directory, slash and plain name is that name, and the parent that directory |
| FileSystem.MakeDirsExact | server/code/acord/server/FsUtil.cpp:93-96 | making directories succeeds if and only if the nearest path there is a directory or the root; it then adds every directory from there down to the one asked for, and else nothing |
| FileSystem.MoveExact | server/code/acord/server/FsUtil.cpp:120-125 | a move takes the node from one path to the other and touches no third one, or does nothing |
| FileSystem.TouchExact | server/code/acord/server/FsUtil.cpp:106-118 | a touch makes the directories above and, where the disk takes the path, an empty file if none is there; nothing else |
| AssetMgrService.Disk.Touch | server/code/acord/server/FsUtil.cpp:106-118 | makes the directories above, keeps an existing file's contents, and fails where a file is in the way of a directory, a directory in the way of the file, or the disk does not take the path |
| AssetMgrService.Disk.Move | server/code/acord/server/FsUtil.cpp:120-125 | replaces the target by the source, which is gone then; fails on a directory, or a path the disk does not take, and changes nothing |
| AssetMgrService.AssetMgrService.constructor | server/code/acord/server/AssetMgrService.cpp:99-105 | starts with an empty cache and one local directory, which exists then with those above it |
| AssetMgrService.AssetMgrService.FindLocal | server/code/acord/server/AssetMgrService.cpp:138-151 | finds the asset's file in the directory if and only if it is there |
| AssetMgrService.AssetMgrService.Pump | server/code/acord/server/AssetMgrService.cpp:165-176 | the download loop terminates and writes each chunk once, in order, up to the end or the failure |
| AssetMgrService.AssetMgrService.DownloadAsset | server/code/acord/server/AssetMgrService.cpp:153-190 | one download on the disk does what the model's download does, for every failure |
| AssetMgrService.AssetMgrService.MakeAssetsAvailable | server/code/acord/server/AssetMgrService.cpp:123-191 | a command's batch on cache and disk does what the model's batch does |
| AssetMgr.CollectExact | server/code/acord/server/AssetMgrService.cpp:164-176 | the loop comes to the end if and only if nothing goes wrong while reading, has then written exactly the body, and otherwise a prefix |
| AssetMgr.ServeIgnoresCacheExactly | server/code/acord/server/AssetMgrService.cpp:130-136 | for any cache: it changes neither reply nor files nor attempts if and only if the entry used is the path of a file that is there |
| AssetMgr.CacheRefines | server/code/acord/server/AssetMgrService.cpp:123-193 | over every run of any number of sessions the manager without its cache gives the same replies, files and download attempts |
| Publication.AllOrNothing | server/code/acord/server/AssetMgrService.cpp:153-190 | an asset file is one from the start with its bytes, or the complete body that the web gave an address with its name which some session had asked for; a name is published at most once, never over a file; leftovers play no part; each attempt is for an address asked for and has the reply the web gave it |
| Leftovers.DownloadDisk | server/code/acord/server/AssetMgrService.cpp:153-190 | once published an attempt's temporary file is gone; after a failure it holds a prefix of the body and the asset's path is as it was; beside directories above no other path changes |
| Leftovers.DiskAfterRun | server/code/acord/server/AssetMgrService.cpp:123-193 | after any run a path that is no asset's and no temporary file's of an address asked for is as it was, save for directories above the temporary files; and no published attempt's temporary file is left |
| AssetMgr.ServeCaches | server/code/acord/server/AssetMgrService.cpp:130-186 | an address given a path has it in the cache, no other entry changes, and an address in the cache is answered from it with nothing else done |
| AssetMgr.CollectIsCalls | server/code/acord/server/AssetMgrService.cpp:165-176 | the loop writes what calls with a buffer of 1048576 bytes give until the generator is done |
| Publication.ServedContent | server/code/acord/server/AssetMgrService.cpp:138-187 | the file at a served path holds what was there under the name, or else the complete body this address was just downloaded with |
| Publication.NamesClash | server/code/acord/server/AssetMgrService.cpp:140-145 | two addresses with one file name share a file, which keeps the first one's bytes: the second makes no attempt of its own |
| Publication.OwnBytesExactly | server/code/acord/server/AssetMgrService.cpp:138-187 | one step: serving an address downloads it now, and leaves that download's complete body in the file, if and only if no file with its name was there |
| Publication.OwnBytesInRun | server/code/acord/server/AssetMgrService.cpp:123-193 | the same step after any batches: if and only if no such file was there at the start and no address with that name was downloaded before; so always when no earlier address had the name |
| Publication.OwnFileExactly | server/code/acord/server/AssetMgrService.cpp:138-187 | in any run a file that is there holds the complete body of the address itself if and only if there was none at the start and no other address with the name was published |
| Publication.GetsOwnBodyExactly | server/code/acord/server/AssetMgrService.cpp:123-193 | the same as known before an address is served, which then is given a path; however often it was served itself |
| Findings.SecondGetsFirstBytes | server/code/acord/server/AssetMgrService.cpp:140-145 | http://a/m.bin and then http://b/m.bin: the second is given the first one's byte |
| Replies.ServeConcat | server/code/acord/server/AssetMgrService.cpp:123-193 | serving one list after another is serving both as one batch: same paths, cache and files |
| AssetMgr.DownloadEffect | server/code/acord/server/AssetMgrService.cpp:153-190 | an attempt yields a path if and only if nothing stands in the way of the move and the response is found and complete, and then the file holds its whole body; it ends the session if and only if the touch fails |
| Replies.Entries | server/code/acord/server/AssetMgrService.cpp:124-191 | the reply has one entry an address: its path if and only if at its turn the asset was there or its download succeeded, and else empty |
| Replies.PathsGivenExist | server/code/acord/server/AssetMgrService.cpp:130-186 | every path ever given to any session is the one for its address and still names a file |
| Replies.EntriesInRun | server/code/acord/server/AssetMgrService.cpp:123-193 | the same of every entry of every batch in a run, with the manager as it was at that entry's turn |
| Replies.BatchDiesExactly | server/code/acord/server/AssetMgrService.cpp:153-161 | for every disk: no failed download ends a batch; a session dies if and only if some address has no asset there before the batch and a temporary path the disk does not take |
| Replies.DeadBatchesExactly | server/code/acord/server/AssetMgrService.cpp:111-199 | over whole runs, whatever the web does, which batches end their sessions was settled by the disk at the start |
| Findings.NoNameDies | server/code/acord/server/AssetMgrService.cpp:155-155 | http://h/ ends its session on every disk, whatever stands on it |
| Findings.DotsDie | server/code/acord/server/AssetMgrService.cpp:155-155 | so does any address whose last component is "." or ".." |
| Findings.LongNameDies | server/code/acord/server/AssetMgrService.cpp:155-155 | where names have at most 255 characters, an address with a long query ends its session |
| Acord.FineKept | server/code/acord/server/LocalSession.cpp:32-89 | every step of any client, any inner session or a client leaving keeps the system's invariant |
| Acord.EveryClientIsAnswered | server/code/acord/server/LocalSession.cpp:49-89 | in every interleaving each client got the state frame and then one reply a request in order, written out: for assets a list of strings under the request's name, from a batch of exactly its addresses; for a load that names a provider the empty reply, after which it is handed to just that one; for one that names none an error; and "Unknown op: " with its op for any other |
| Acord.EachHasItsOwn | server/code/acord/server/LocalSession.cpp:32-47 | any two answered requests for assets, of one client or of two, had different inner sessions and different batches |
| Acord.InnerSessionsClose | server/code/acord/server/LocalSession.cpp:32-47 | an inner session that no client is talking to is closed and empty |
| Acord.InnerSessionLog | server/code/acord/server/LocalSession.cpp:34-44 | in every reachable state what was polled at the two ends of an inner session is, as far as it goes, the state frame, a command for exactly its addresses and the result of its batch; neither channel ever holds two frames |
| Acord.AnsweredLog | server/code/acord/server/LocalSession.cpp:32-47 | for every answered request it is exactly state, command with the request's addresses, and result, and the client got that result under the name of its request |
| Acord.AddressesExact | server/code/acord/server/AssetMgrService.cpp:123-128 | the manager reads a list to its end if and only if it is one of strings, and then exactly those |
| Acord.HandOver | server/code/acord/server/LocalSession.cpp:65-75 | after the reply to a load nothing is sent any more, the provider is the one whose name is the first "name" in the client's last answered request, and it has all unread requests, unchanged and in order |
| Acord.RunsEnd | server/code/acord/server/LocalSession.cpp:56-84 | every run is bounded by the requests |
| Acord.QuietIsDone | server/code/acord/server/AssetMgrService.cpp:111-199 | no deadlock: with no step left each client was handed over, or answered in full and waiting, or ended for one of three stated causes; all inner sessions are closed and done |
| Acord.NoResultExactly | server/code/acord/server/AssetMgrService.cpp:153-161 | a client's session ends without a result only on a request with an address that nothing can be had for on this disk, and every request answered had none such |
| Acord.PathsReceivedExist | server/code/acord/server/LocalSession.cpp:44-46 | end to end: an answered client has one entry an address, a path if and only if at its turn the asset was there or its download succeeded, and each path names a file |
| Acord.SharedManagerIsSound | server/code/acord/server/AssetMgrService.cpp:92-199 | over every interleaving of clients the cache could be taken away unnoticed, publication is all or nothing and only of addresses in some client's request, and every cached path names a file |
| Sessions.RunMgrSession | server/code/acord/server/AssetMgrService.cpp:111-199 | the state frame, then a reply a command: for one that asks for assets the paths of a batch of exactly the addresses read from its data, served after the batches of the commands before; it stops at the first command whose data throws or whose batch dies, after serving the addresses before that, with the rest unread |
| Sessions.CommandsShape | server/code/acord/server/AssetMgrService.cpp:116-194 | the same of any list of commands, well-formed or not, after any others |
| Findings.StringsBeforeNumber | server/code/acord/server/AssetMgrService.cpp:126-127 | a list of an address and a number: the address is served, there is no reply, and the session ends |
| Findings.NullAnswered | server/code/acord/server/AssetMgrService.cpp:123-126 | null is answered with an empty list |
| Sessions.RunClientSession | server/code/acord/server/LocalSession.cpp:49-89 | the client's loop sends the state frame and then to each request its reply, written out; it stops only at a request for assets, or at one that names a provider, which then gets the rest unread |
| Sessions.LoadIsGranted | server/code/acord/server/LocalSession.cpp:65-74 | a request to load a provider by name, whatever else it says, gets the empty reply and hands what follows to that provider |
| Sessions.LoadIsRefused | server/code/acord/server/LocalSession.cpp:76-79 | one that names none gets an error and the session goes on |
| Sessions.LoopAgrees | server/code/acord/server/LocalSession.cpp:32-89 | however a client's session and its inner sessions take turns, a maximal run without the client leaving ends with what the loop sends, the same requests unread, the same provider and the same manager |
| Sessions.ServeShape | server/code/acord/server/LocalSession.cpp:56-84 | one reply a request up to where the session stops; a hand-over exactly after a request that loads a provider, with what follows untouched |

## Left out

- Sockets, TLS, name resolution and the HTTP and WebSocket libraries: environment steps under the assumptions above.
- JSON and CBOR themselves: they live in a library that is not part of this model.
- Fragments of one WebSocket message: the `complete` flag is ignored by the code too.
- Address splitting is done by a library that is not part of this model; `Redirects.Split` follows the generic syntax of RFC 3986.
- Cyclic redirects: the code has no limit and would not stop.
- Environment variables and `expandPathInPlace`: the home directory is a parameter of the manager's constructor.
- The mode bits behind `basicStat`, permissions, links, `rm_r` and Windows paths: the file system is a map from path to file or directory, with a parameter for the paths at which the disk takes a file; directories are always taken.
- Names with a NUL character inside: the system calls see such a path only up to it, and the model sees all of it.
- Bounded streams between client and session: their channels hold 10 frames, and in `Acord` a push never blocks, so a client that stops reading is not modelled. Between a session and its inner sessions nothing is lost by this: there a channel never holds two frames (`Acord.InnerSessionLog`).
- The order of tasks on an executor: posted retries of a session may run in any order here, which allows more than a strand does.
- Acord.EveryClientIsAnswered: the interleaved system is a state machine on values; the loops in `Sessions` run uninterrupted on objects.
- Sessions.LoopAgrees: one client; what any number of clients see is `Acord.EveryClientIsAnswered`.
- Acord.HandOver: what the provider does with the endpoint is not modelled, nor a failing `attach`.
- Sessions.RunClientSession: the inner session is one call to the manager here; its own steps are in `Acord`, joined by `Sessions.LoopAgrees`.
- A client that leaves: requests it had pushed and nobody polled are not served, as if its stream did not drain.
- Several local directories: the constructor adds one and nothing adds another.
- AssetMgrService.AssetMgrService.FindLocal: proved for the one directory the constructor adds.
- WsSession.CommonWsSession.ServerOpened: the local session's first calls are that side's events in `Bridge`, not calls of this method.
- Program start-up, plugins, thread pools, logging and the example clients: no state worth a model.
