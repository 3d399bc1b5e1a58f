# rpc.go in Dafny

A model of the sequential core of the `rpc.go` package: a small RPC library
over KCP connections. Each model file covers one source file.

- **Wire codec** (`wire.dfy`, common.go). `writeMessage` builds a frame:
  a 1-byte type (Data 0, Ping 1, Pong 2), a big-endian uint32 payload length,
  a big-endian uint32 tag for Data frames only, then the payload.
  `readMessage` decodes one frame from the unread bytes of a stream. It
  reports how many bytes it consumed and which bytes it wrote back (the Pong
  that answers a Ping). Go's nil payload is `None`.
- **Request correlation table** (`requests.dfy`, request.go). A class
  holding `requestId` and `requestMap`. `NextRequestId` probes upward with
  uint32 wrap-around and skips 0. `OnReply` returns the callback it invokes.
- **Server session table** (`sessions.dfy`, server.go). A class holding
  `clientId`, `sessions` and a log of the `OnNew`/`OnData`/`OnClose` calls.
  It covers `addClient`, `removeClient`, one pass of the idle monitor,
  `Send`, and the read loop of `handleConn`. The loop is proved equal to the
  function `Serve` over the bytes the connection delivers. Time is an integer
  number of nanoseconds. A connection is an opaque value.
- **Plugin container** (`plugins.dfy`, plugin_container.go). A class over a
  sequence, specified by the function `Without`.
- **Client helpers**:
  - `discovery.dfy` (client/discovery.go): `ToMap`, `Keys`, `Values`.
  - `selection.dfy` (client/Selector.go): the random selector. The random
    index is a nondeterministic choice.
  - `addresses.dfy` (client/client.go): `splitNetworkAndAddress`.
  - `peerdiscovery.dfy` (client/Peer2PeerDiscovery.go): the fixed
    single-server discovery.
- **Shared definitions** (`base.dfy`): fixed-width integers, `Option`, and
  the counting fact that makes the probing loops terminate.

Facts about the code that the model keeps:
- `OnReply` (request.go:14-24) invokes the entry's callback but does not
  delete the entry.
- `NextRequestId` (request.go:26-42) stores a nil callback like any other.
- common.go:27-32 defines three message types: Data, Ping and Pong.
- A Ping is a 5-byte header whose length field is read but whose payload is
  never skipped (common.go:56-59).

## Model

| member | source | states |
|---|---|---|
| Base.Inc32 | request.go:29 | `requestId++` on a uint32 wraps from 2^32-1 to 0 |
| Base.Inc64 | server.go:117 | `clientId++` on a uint64 wraps from 2^64-1 to 0 |
| Wire.DecodeEncode32 | common.go:72 | decoding the big-endian bytes of a uint32 gives the value back |
| Wire.EncodeDecode32 | common.go:42 | encoding the decoded value of 4 bytes gives the bytes back |
| Wire.WriteMessage | common.go:69-79 | the frame's type byte; its length field holds len(data) mod 2^32; a tag only for Data; then the data. Total length is 9+len(data) for Data, 5+len(data) otherwise |
| Wire.ReadFullError | common.go:37 | `io.ReadFull` succeeds iff enough bytes remain; EOF iff none remain; UnexpectedEOF iff some but too few remain |
| Wire.ReadMessage | common.go:34-66 | never consumes more than is available; a payload iff no error and type Data; a successful read consumes at least the header, and exactly the header for Ping/Pong; only a Ping writes anything back |
| Wire.DataRoundTrip | common.go:44-55 | reading `writeMessage(Data, tag, data)`, whatever follows it, gives back (Data, tag, data, no error) and consumes exactly the frame |
| Wire.DataReencode | common.go:45-55 | the bytes a successful Data read consumed are exactly `writeMessage` of the tag and payload it returned |
| Wire.PingAnswered | common.go:56-59 | a Ping gives no payload and no error, consumes 5 bytes and writes back exactly one 5-byte Pong (type 2, length 0) |
| Wire.PongSilent | common.go:60-61 | a Pong gives no payload and no error, consumes 5 bytes and writes nothing |
| Wire.UnknownTypeRejected | common.go:62-64 | a type byte above 2 gives `ErrorMessageFormatInvalid` and no payload |
| Wire.ShortHeaderRejected | common.go:36-39 | fewer than 5 bytes give an error, type 0 and no payload; EOF iff the stream is empty |
| Wire.TruncatedDataRejected | common.go:45-54 | every proper prefix of a Data frame gives an error and no payload, whether the header, the tag or the payload is cut short |
| Requests.FirstFreeUnique | request.go:26-42 | the id the probe settles on is determined by the used ids and the start |
| Requests.FreeIdExists | request.go:27-41 | with fewer than 2^32-1 entries some non-zero id is free, so the probe terminates |
| Requests.ProbeAdvance | request.go:40 | one probe step past 0 or a taken id moves one further on and passes only taken ids |
| Requests.RequestManager.constructor | request.go:43-48 | a fresh manager has `requestId` 0 and an empty map |
| Requests.RequestManager.OnReply | request.go:14-24 | a callback is invoked iff the id is present, and it is that id's callback; the table is unchanged |
| Requests.RequestManager.NextRequestId | request.go:26-42 | the id is non-zero, was absent, and is the first free id probing upward from the old `requestId`; the map gains exactly that entry mapped to `cb`; `requestId` equals the id |
| Requests.FreshManagerIssuesOneThenTwo | request.go:26-48 | a fresh manager issues 1, then 2, and a reply to 1 invokes the first callback |
| Sessions.AcceptClient.constructor | server.go:110-113 | a new session holds its connection and `lastSeen` = now |
| Sessions.Server.constructor | server.go:29-33 | a new server has no sessions |
| Sessions.Server.IdleIds | server.go:71-75 | the ids collected for eviction are ids of the table |
| Sessions.Server.AddClient | server.go:101-122 | the id was absent and is the first free id probing upward from the old `clientId`; the table gains exactly that new session with `lastSeen` = now; `clientId` equals the id; one `OnNew(id)` |
| Sessions.Server.AddClientFresh | server.go:107-117 | `addClient` with `clientId` moved one past the issued id: while every issued id is below `clientId` and every session is an issued one, the new id is `clientId` itself, never issued before, and both facts hold again with the new id added |
| Sessions.FirstFreeAtStart | server.go:107-109 | when `clientId` is free, the probe issues it at once |
| Sessions.Server.RemoveClient | server.go:123-130 | the id is deleted; `OnClose(id)` fires iff it was present |
| Sessions.Server.Sweep | server.go:69-79 | exactly the sessions idle for more than 10s are removed (10s exactly is kept), the rest are untouched, one `OnClose` per removed id in collection order |
| Sessions.Server.Send | server.go:151-158 | unknown id: (0, `ErrorConnectIdInvalid`), nothing written; known id: one Data frame written to that session's connection, which reads back as the tag and data |
| Sessions.Server.HandleFrame | server.go:141-146 | after a successful read `lastSeen` is refreshed, and `OnData` fires iff the payload is not nil |
| Sessions.Server.ServeTurn | server.go:136-146 | one pass of the read loop: a read error stops it with nothing delivered or changed; a successful read consumes bytes, counts one frame, refreshes `lastSeen`, and leaves the loop's relation to `Serve` holding at the new offset |
| Sessions.Server.ServeFrames | server.go:135-147 | the loop's `OnData` calls, Pong bytes, frame count and final error are those of `Serve` on the input; `lastSeen` is the time of the last frame read |
| Sessions.Server.HandleConn | server.go:131-149 | the connection is added, served and removed again: the table ends as it began, and the calls are `OnNew`, the `OnData` calls of `Serve`, then one `OnClose` |
| Sessions.IdReusedAfterEviction | server.go:72-133 | add at time 0, sweep after 10s, add again, then the evicted connection's deferred `removeClient`: both connections got the same id, the second session is gone and its `OnClose` fired |
| Sessions.IdsDistinctAfterEviction | server.go:72-133 | the same run with `AddClientFresh`: the ids differ and the second session survives the deferred `removeClient` of the first |
| Sessions.Serve | server.go:135-147 | the read loop as a function of the delivered bytes: at most one `OnData` per frame read, and every frame read consumes at least 5 bytes |
| Sessions.ServeStop | server.go:136-140 | the first read error ends the loop with nothing more delivered |
| Sessions.ServeStep | server.go:136-146 | a successful read delivers its payload unless nil, and the loop goes on with the rest of the stream |
| Sessions.ServeAdvance | server.go:135-147 | the `ServeFrames` loop invariant survives one successful read |
| Sessions.ServeEncoded | server.go:135-147 | a stream of well-formed frames followed by end of stream yields exactly one `OnData` per Data frame in order, one Pong per Ping, and then EOF |
| Plugins.WithoutConcat | plugin_container.go:11-20 | removal distributes over concatenation |
| Plugins.WithoutRemovesAll | plugin_container.go:13-16 | after removal no element equals `p` |
| Plugins.WithoutCounts | plugin_container.go:11-19 | every other value keeps its count; the length drops by the number of occurrences of `p` |
| Plugins.WithoutIsSubsequence | plugin_container.go:12-19 | the kept elements are in their original relative order |
| Plugins.WithoutAbsent | plugin_container.go:11-20 | removing an absent `p` changes nothing |
| Plugins.WithoutIdempotent | plugin_container.go:11-20 | removing twice equals removing once |
| Plugins.RemoveUndoesAdd | plugin_container.go:7-20 | removing `p` after adding it equals removing it from the old list |
| Plugins.PluginContainer.constructor | plugin_container.go:3-5 | a new container is empty |
| Plugins.PluginContainer.Add | plugin_container.go:7-9 | `p` is appended; earlier elements are unchanged |
| Plugins.PluginContainer.Remove | plugin_container.go:11-20 | the list becomes `Without(old list, p)` |
| Plugins.PluginContainer.Range | plugin_container.go:21-25 | the callback sees every plugin once, in list order |
| Discovery.KeyList | client/discovery.go:22-28 | the intended keys: one per pair, in order |
| Discovery.ValueList | client/discovery.go:30-36 | the intended values: one per pair, in order |
| Discovery.ToMap | client/discovery.go:14-20 | the key set is exactly the keys of `kv`; a key is bound to the value of its last pair |
| Discovery.Keys | client/discovery.go:22-28 | 2·len(kv) entries: len(kv) empty strings, then the keys in order |
| Discovery.Values | client/discovery.go:30-36 | 2·len(kv) entries: len(kv) empty strings, then the values in order |
| Discovery.KeysOfOnePair | client/discovery.go:22-28 | for one pair, `Keys` is ["", key], not [key] |
| Discovery.ValuesOfOnePair | client/discovery.go:30-36 | for one pair, `Values` is ["", value], not [value] |
| Selection.NewRandomSelect | client/Selector.go:27-29 | the selector holds exactly the given servers |
| Selection.NewSelector | client/Selector.go:18-25 | every mode, unknown ones included, gives a selector over exactly the given servers |
| Selection.NewRandomSelector | client/Selector.go:36-43 | the list has length len(m); its elements are exactly the keys of `m`, each once |
| Selection.Select | client/Selector.go:44-50 | "" for an empty list, otherwise an element of the list |
| Addresses.SplitNetworkAndAddress | client/client.go:68-75 | no '@': ("tcp", server), the empty string included; otherwise network + "@" + addr == server and network has no '@' |
| Addresses.SplitJoin | client/client.go:69-74 | splitting network@addr gives both parts back, even when addr contains '@' |
| PeerDiscovery.NewPeer2PeerDiscovery | client/Peer2PeerDiscovery.go:10-12 | the discovery holds the server; the error is always nil |
| PeerDiscovery.GetServices | client/Peer2PeerDiscovery.go:15-22 | exactly one pair, whose key is the discovery's server and whose value is "" |
| PeerDiscovery.ServicesAreTheServer | client/Peer2PeerDiscovery.go:15-22 | exactly one pair: key = the server, value = "" |
| PeerDiscovery.ServicesAsMap | client/Peer2PeerDiscovery.go:15-22 | as a map the services bind just the server, to "" |
| PeerDiscovery.SelectPeer | client/client.go:40 | a selector over the discovery's key list always picks the server |
| PeerDiscovery.SelectPeerAsWritten | client/client.go:40 | a selector over `Keys()` of the discovery holds "" beside the server |

## Left out

- Server `Serve` (server.go:35-100): the KCP listener, AES/PBKDF2 setup, ticker, goroutines and `RWMutex` are I/O and concurrency. Only the monitor pass is modelled (`Sweep`), at a caller-given time.
- The race between the monitor and `handleConn` is not modelled in general; `HandleConn` runs alone. Its `defer removeClient` is idempotent by `RemoveClient`. One interleaving, an eviction followed by a new connection, is spelled out in `IdReusedAfterEviction`.
- `Sessions.Server.Send`, `Wire.PingAnswered`: `conn.Write` failures are not modelled. The written bytes are returned instead of sent.
- `Wire.DataRoundTrip`: requires len(data) < 2^32. For longer data the length field is truncated, which `WriteMessage` states.
- `Requests.RequestManager.NextRequestId`: requires fewer than 2^32-1 entries. With more, the Go loop never ends.
- `Sessions.Server.AddClient`: requires fewer than 2^64 sessions, for the same reason.
- `Requests.RequestManager.OnReply`: returns the callback instead of calling it. The mutex is left out. The log line for an unknown id is left out.
- Go's `Message` is not defined in the files of this model. The model's `Message` keeps its request id and an opaque body.
- `Sessions.Server`: `NewServer` (server.go:29-33) leaves `OnNew`, `OnData` and `OnClose` nil, and server.go:120, 128 and 146 call them unconditionally, so Go panics unless the caller sets all three. The model records the calls in `events` and assumes the callbacks are set.
- `Requests.RequestManager.OnReply`: a nil callback stored by `NextRequestId` (request.go:36) makes `cb(msg)` (request.go:23) panic. The model returns the callback and does not model that panic.
- `Wire.ReadMessage`: `conn.Read` errors other than the end of the stream, such as a connection reset, are not modelled. The model reads from a finite byte sequence, so such an error appears as the stream ending: EOF or UnexpectedEOF.
- `Sessions.Server.ServeFrames`: `time.Now()` is a caller-supplied clock indexed by frame number.
- The root client.go (`DialAndServe`, keepalive, `Send` with a nil connection returning (-1, `ErrorConnectionInvalid`)): dialing, timers and goroutines.
- kcp/kcp_dialer.go and kcp/kcp_listener.go: foreign library calls.
- plugins.go: interface declarations only.
- client/client.go `NewClient`, `Call`, `selectClient`: incomplete code that does not compile. Only line 40's use of `Keys()` is reflected, in `SelectPeerAsWritten`.
- `Selection.Select`: `math/rand` is a nondeterministic index; its `ctx`, path, method and argument parameters are unused by the source and are dropped.
- `Plugins.PluginContainer.Remove`: assumes plugins are comparable. Go's `v == p` on two `interface{}` values panics when both hold the same uncomparable type, such as a func, or a struct holding a slice or map; that panic is not modelled.
- `Plugins.PluginContainer.Range`: returns the visited plugins instead of calling a callback, so a callback that changes the container is not modelled.
- The logrus `init` in common.go and the programs under example/: logging and demos.

## Findings

| source | as written | input that shows it | evidently intended | confidence | as-written member | corrected member |
|---|---|---|---|---|---|---|
| client/discovery.go:22-28 | `make([]string, len(kv))` then `append`: len(kv) empty strings before the keys | one pair ("a@b", ""): gives ["", "a@b"]; a selector built from it (client/client.go:40) may pick "" | one key per pair, in order | not executed | Discovery.KeysOfOnePair | Discovery.KeyList |
| client/discovery.go:30-36 | the same pre-sizing: len(kv) empty strings before the values | one pair ("", "v"): gives ["", "v"] | one value per pair, in order | not executed | Discovery.ValuesOfOnePair | Discovery.ValueList |
| server.go:107-117 | `clientId` is left at the issued id, so once that client is removed its id is issued again; the monitor's eviction (server.go:77-78) does not close the connection, whose deferred `removeClient(id)` (server.go:133) then removes the new session | connect at 0s; sweep after 10s plus 1ns; connect again (same id 0); the first connection's read fails: session 0 is removed and `OnClose(0)` fires for the live second connection | each connection keeps its own id for the server's lifetime, so the deferred `removeClient` of an evicted connection touches only its own session (until the counter wraps) | not executed | Sessions.IdReusedAfterEviction | Sessions.Server.AddClientFresh |
