# go-cmd-transfer in Dafny

go-cmd-transfer is a small relay server. Clients connect over raw TCP or over
websocket and send JSON business messages (`BusinessData`). Each message
names a protocol (`"socket"` or `"websocket"`) and a user id. The server
keeps two pending tables keyed by user id, one per protocol; the last message
per user wins. A flush loop per connection serializes a non-empty table,
writes it to every registered connection of that protocol's server, and then
empties the table.

This project models that core:

- **The TCP wire codec** (module `Codec`, core/socket/connection.go). A frame
  is the 6-byte ASCII tag `cmdmgt`, then the payload length as a 4-byte
  big-endian int32, then the payload. `packetLoop` builds one frame.
  `unpackLoop` scans a single read buffer and splits it into payloads.
  - `Unpack` is the buffer-to-items function.
  - `UnpackLoop` is the byte-by-byte loop, proved equal to `Unpack`.
  - A negative declared length makes the Go slice panic. The model gives
    this its own outcome, `SlicePanic`.
- **Go channels and `select`** (module `Channels`). Queues are sequences,
  head first. A two-case `select` becomes `SelectCase`; when both cases are
  ready, Go picks at random, and the parameter `closeWins` says which one
  it picked. `writeLoop` runs as a sequence of wake-up events.
- **The two connection types** (modules `SocketConnection` and
  `WsConnection`). Each is a class with a close-once state machine, inbound
  and outbound queues, and a record of what the transport accepted. It has
  read, write and (for websocket) process loops.
- **The business relay** (module `Business`). JSON validity, unmarshal and
  marshal are uninterpreted functions carried in a `JsonCodec` value.
  Routing by protocol goes into the two pending tables, which are held by
  the `PendingTables` class.
- **The registries and broadcast** (module `Registry`). `SocketConnAll` and
  `WebsocketConnAll` are modelled as `ConnTable`. The Go `range` over a map
  visits the keys in an order the program does not choose. Here that order
  is a parameter, `order`, which lists every key exactly once.
- **The two handlers** (modules `SocketServer` and `WsServer`), as classes:
  - registration;
  - one step of the read loop;
  - one pass of the flush loop, in which `accepts` says whether each
    client's write succeeds and the successful writes are recorded in
    `sent`;
  - the websocket heartbeat.

## Model

| member | source | states |
|---|---|---|
| Codec.ToInt32 | core/socket/connection.go:265-271 | `int32(length)`: always in int32 range, congruent to the input modulo 2^32, and the identity on int32 values |
| Codec.IntToBytes | core/socket/connection.go:265-271 | always exactly 4 bytes, the big-endian two's-complement encoding of `int32(length)` |
| Codec.BytesToInt | core/socket/connection.go:274-282 | the result is an int32; fewer than 4 bytes read as 0 (the failed `binary.Read` leaves `x` at 0) |
| Codec.BigEndianInjective | core/socket/connection.go:274-282 | two 4-byte fields with the same big-endian value are equal |
| Codec.BytesToIntOfIntToBytes | core/socket/connection.go:265-282 | `BytesToInt(IntToBytes(n))` is `int32(n)`, hence `n` for every n in [-2^31, 2^31) |
| Codec.IntToBytesOfBytesToInt | core/socket/connection.go:265-282 | re-encoding a decoded 4-byte length field gives back the same 4 bytes |
| Codec.Packet | core/socket/connection.go:193-195 | a frame is `cmdmgt`, then `IntToBytes(len(message))`, then the message; its length is 10 + `len(message)` |
| Codec.Unpack | core/socket/connection.go:198-215 | a buffer longer than 10240 bytes emits nothing; a buffer shorter than 10 bytes is emitted once, verbatim |
| Codec.UnpackLoop | core/socket/connection.go:198-262 | the imperative scan (index `i`, frame counter `index`, jumps past frames, reset of `index` on a truncated frame, raw emission when `index == 0`) computes exactly `Unpack` |
| Codec.ScanRestStep | core/socket/connection.go:219-250 | one step of the scan: no tag means advance one byte; a tag means a truncated stop, a negative-length stop, or one frame emitted and a jump past it |
| Codec.ScanFromIsScanRest | core/socket/connection.go:217-252 | the loop's accumulator form equals the frames already pushed followed by the recursive scan of the rest of the buffer |
| Codec.ScanWhole | core/socket/connection.go:217-252 | scanning from the start with nothing pushed is the recursive scan of the whole buffer |
| Codec.ScanPastFrame | core/socket/connection.go:225-250 | a well-formed frame at the scan position emits its payload and resumes right after it |
| Codec.ScanPastFrames | core/socket/connection.go:217-252 | a run of well-formed frames emits their payloads in order, then continues with whatever follows |
| Codec.UnpackFrames | core/socket/connection.go:193-262 | decoding the concatenation of frames for p1..pk (total at most 10240 bytes) gives exactly [p1..pk], in order |
| Codec.UnpackPacket | core/socket/connection.go:193-262 | a single frame that fits decodes to its payload |
| Codec.UnpackTruncatedFrame | core/socket/connection.go:234-238 | when a declared length overruns the buffer, the frames before it are emitted, scanning stops, and then the whole buffer is emitted raw |
| Codec.UnpackNegativeLength | core/socket/connection.go:231-239 | a negative declared length ends decoding in the slice panic, after the frames already pushed |
| Codec.ScanWithoutTag | core/socket/connection.go:217-252 | a buffer with no tag at any scanned position yields no frames and exhausts the scan |
| Codec.UnpackWithoutTag | core/socket/connection.go:206-261 | a buffer of at most 10240 bytes with no tag occurrence is emitted once, verbatim, as a single item |
| Codec.ScanFramesBounded | core/socket/connection.go:228-247 | every payload the scan emits is no longer than the bytes scanned |
| Codec.UnpackItemsBounded | core/socket/connection.go:198-262 | every emitted item is no longer than the buffer |
| Codec.ScanViewsFrom | core/socket/connection.go:217-252 | the scan as written keeps each payload as the slice `buffer[dataIndex:dataIndex+messageLength]`, which lies inside the buffer |
| Codec.UnpackViews | core/socket/connection.go:198-262 | every item `unpackLoop` pushes is a slice of its argument: a payload slice, or the argument itself |
| Codec.ScanViewsObserved | core/socket/connection.go:217-252 | read before the buffer changes, the slices the scan pushes hold exactly the payloads `ScanFrom` copies, and the scan stops for the same reason |
| Codec.UnpackViewsObserved | core/socket/connection.go:198-262 | within one call, the pushed slices hold exactly the items of `Unpack`, and the call panics exactly when `Unpack` does |
| Codec.UnpackViewsPacket | core/socket/connection.go:225-243 | a buffer holding one frame pushes the one slice that starts right after the 10-byte frame head |
| Channels.SelectCase | core/socket/connection.go:81-96 | a `select` runs a ready case; it blocks only when neither case is ready; with both ready, `closeWins` decides |
| Channels.WriterStep | core/socket/connection.go:156-190 | one `writeLoop` wake-up takes at most the head of the queue and appends at most one accepted write; it leaves exactly on a failed write or a close notice on a closed connection |
| Channels.RunWriter | core/socket/connection.go:156-190 | a run of wake-ups leaves a suffix of the queue |
| Channels.RunWriterKeepsWritten | core/socket/connection.go:156-190 | writes the transport accepted stay accepted: a run only appends |
| Channels.RunWriterDeliversInOrder | core/socket/connection.go:159-176 | FIFO: n successful queue wake-ups write the first n queued items, framed, in queue order, and leave the rest queued |
| Channels.RunWriterStopsOnlyOnFailure | core/socket/connection.go:156-190 | on an open connection where every write succeeds, the loop never leaves |
| Channels.Deliveries | core/socket/connection.go:159-176 | n successful queue wake-ups in a row |
| Registry.ConnTable.constructor | core/socket/server.go:106-107 | a registry starts empty |
| Registry.Clients | core/socket/server.go:90 | the connections visited by `range`, one per key in `order`, in that order |
| Registry.Broadcast | core/socket/server.go:90-97 | the client loop writes the payload to each client in turn; the writes made are a prefix of the clients, all of which accepted; it stops exactly when a client refuses, and that client is the next one |
| Registry.BroadcastFromIsBroadcast | core/socket/server.go:90-97 | the loop's accumulator form makes the remaining writes of `Broadcast` |
| Registry.BroadcastFromStart | core/socket/server.go:90-97 | from the first client with no writes yet, the loop's form is `Broadcast` |
| Registry.BroadcastReachesEveryClient | core/socket/server.go:84-98 | when every client accepts, each registered connection is written the payload exactly once, one write per registry key |
| Registry.OrderCoversKeys | core/socket/server.go:90 | an enumeration of the registry has as many entries as the registry has keys |
| Business.Parse | core/socket/server.go:63-70 | a payload yields a message exactly when it is valid JSON and unmarshals |
| Business.Route | core/socket/server.go:71-75 | `"socket"` overwrites the sender's entry in the socket table, `"websocket"` in the websocket table (last write wins); any other protocol changes nothing |
| Business.Receive | core/socket/server.go:63-75 | invalid JSON or a failed unmarshal leaves both tables unchanged; otherwise the parsed message is routed |
| Business.RouteAllSnoc | core/socket/server.go:56-77 | routing a stream message by message: one more message is one more `Route` |
| Business.RouteAllLastWins | core/socket/server.go:71-75 | after a stream of messages, a user's entry in a table is that user's last message for that protocol, or the entry from before if there was none |
| Business.RouteAllIgnoresOtherProtocols | core/socket/server.go:71-75 | messages with neither protocol leave both tables unchanged |
| Business.PendingTables.constructor | global/business_data.go:10-13 | both pending tables start empty |
| Business.PendingTables.Store | core/socket/server.go:63-75 | storing a read payload updates the tables exactly as `Receive` says |
| Business.PendingTables.ResetSocketInfo | core/socket/server.go:98 | the socket table becomes empty and the websocket table is untouched |
| Business.PendingTables.ResetWebSocketInfo | core/websocket/ws_server.go:134 | the websocket table becomes empty and the socket table is untouched |
| SocketConnection.UnpackAll | core/socket/connection.go:133-153 | the read loop's output over several reads: one `unpackLoop` per read, stopping at the first panicking read |
| SocketConnection.PacketEach | core/socket/connection.go:193-195 | one frame per payload, in order |
| SocketConnection.UnpackAllOneFramePerRead | core/socket/connection.go:133-153 | reads that each carry exactly one frame deliver the payloads in order |
| SocketConnection.SplitFrameNotReassembled | core/socket/connection.go:137-149 | no state survives between reads: a frame split across two reads of under ten bytes each is pushed as the two raw pieces, not as its payload |
| SocketConnection.KeepAliveArrivesRaw | core/socket/connection.go:182 | the unframed keep-alive "time out leave out" holds no tag, so this decoder, applied to the keep-alive, pushes it as one raw item |
| SocketConnection.UnpackAllStopsAtPanic | core/socket/connection.go:133-153 | once a read panics, that read decides the outcome of the whole run |
| SocketConnection.ReadInto | core/socket/connection.go:137-141 | a read overwrites the first bytes of the single read buffer with the bytes read and keeps the rest |
| SocketConnection.ReadAllShared | core/socket/connection.go:133-153 | the read loop as written: every read goes into the same buffer and the queued items are slices of it, all of which stay inside it |
| SocketConnection.ReadSharedPacket | core/socket/connection.go:137-149 | a read holding one frame queues the slice right after the frame head of the shared buffer |
| SocketConnection.SharedBufferOverwritesQueuedPayload | core/socket/connection.go:137-149 | two reads of one frame each ("ab", then "xy"), both queued before the handler dequeues, are dequeued as "xy" twice; copies taken at push time give "ab" then "xy" |
| SocketConnection.SConnection.constructor | core/socket/connection.go:62-78 | a new connection is open, with empty queues and nothing written |
| SocketConnection.SConnection.Close | core/socket/connection.go:114-130 | every call closes the transport; only the first sets `isClosed` and deletes `sid` from the registry; later calls change neither; `isClosed` is never reset |
| SocketConnection.SConnection.ReadMessage | core/socket/connection.go:81-96 | returns the head of the inbound queue and removes it, or the closed error, as the `select` picks |
| SocketConnection.SConnection.WriteMessage | core/socket/connection.go:99-111 | appends the payload unchanged to the outbound queue, or fails only when the connection is closed and the close case is picked |
| SocketConnection.SConnection.Push | core/socket/connection.go:242-247 | an item joins the inbound queue, except on a closed connection whose `select` takes the close case: then it is dropped and the transport is closed once more, with the registry untouched |
| SocketConnection.SConnection.PushAll | core/socket/connection.go:198-262 | the items of one `unpackLoop` call join the queue in order, or, on a closed connection whose `select`s take the close case, are all dropped with one transport close each |
| SocketConnection.SConnection.ReadChunk | core/socket/connection.go:149 | one `unpackLoop` call on a read: the queue gains that read's `Unpack` items unless they are dropped on a closed connection, and the call panics exactly when `Unpack` does |
| SocketConnection.SConnection.ReadLoop | core/socket/connection.go:133-262 | the inbound queue gains exactly the decoded items of each read, in order, unless the connection was already closed and the pushes take the close case, which drops every item and closes the transport once per item; a transport error closes the connection; a decoder panic ends the loop without that final close |
| SocketConnection.SConnection.WriteStep | core/socket/connection.go:159-188 | one wake-up behaves as `WriterStep`: a successful dequeue writes the head payload framed by `packetLoop` and removes it, a successful tick writes the keep-alive unframed; the connection is closed when the loop leaves |
| SocketConnection.SConnection.WriteLoop | core/socket/connection.go:156-190 | the queue left and the writes made are those of `RunWriter`; the connection is closed exactly when the loop leaves |
| WsConnection.PingPeriodBeforePongWait | core/websocket/ws_connection.go:23-26 | `pingPeriod` (9/10 of `pongWait`) is 5400 s, strictly less than `pongWait` |
| WsConnection.WsConnection.constructor | core/websocket/ws_connection.go:60-78 | a new connection is open, with empty queues and nothing written |
| WsConnection.WsConnection.Close | core/websocket/ws_connection.go:115-131 | every call closes the transport; only the first sets `isClosed` and removes `wsID` from the registry; later calls change neither; `isClosed` is never reset |
| WsConnection.WsConnection.ReadMessage | core/websocket/ws_connection.go:81-96 | returns the head of the inbound queue and removes it, or the closed error, as the `select` picks |
| WsConnection.WsConnection.WriteMessage | core/websocket/ws_connection.go:99-112 | appends `Message{messageType, data}` unchanged to the outbound queue, or fails only when the connection is closed and the close case is picked |
| WsConnection.WsConnection.ReadLoop | core/websocket/ws_connection.go:153-179 | each transport message is queued as `Message{msgType, data}` in arrival order, unless the connection was already closed and the `select` takes the close case, which drops the message and ends the loop; the loop then closes the connection |
| WsConnection.WsConnection.ProcessLoop | core/websocket/ws_connection.go:134-150 | echoes every inbound message to the outbound queue with the same type and data, in order, unless the first `select` takes the close case |
| WsConnection.WsConnection.WriteStep | core/websocket/ws_connection.go:185-211 | one wake-up behaves as `WriterStep`: a successful dequeue hands the head message to the transport with its type and data unchanged and removes it, a successful tick sends a `PingMessage` with no payload; the connection is closed when the loop leaves |
| WsConnection.WsConnection.WriteLoop | core/websocket/ws_connection.go:182-213 | the queue left and the writes made are those of `RunWriter`; the connection is closed exactly when the loop leaves |
| SocketServer.ServerSocket | core/socket/server.go:106-107 | the registry is created empty |
| SocketServer.Serve | core/socket/server.go:25-52 | a nil connection is rejected before anything is registered; otherwise a new open connection is registered under `connID` |
| SocketServer.SocketHandler.constructor | core/socket/server.go:54-103 | both loops start running with nothing sent |
| SocketServer.SocketHandler.ReadStep | core/socket/server.go:56-77 | a read payload is routed into the tables as `Receive` says; a read error closes the handler's connection and ends the read loop |
| SocketServer.SocketHandler.Deliver | core/socket/server.go:90-97 | the writes made are exactly those of `Broadcast` over the registry in `order`, and a failure is reported exactly when `Broadcast` stops at a refusing client |
| SocketServer.SocketHandler.Publish | core/socket/server.go:90-98 | after a full broadcast the socket table is reset; on the first failed write the handler's own connection is closed, the loop ends, and the table is kept |
| SocketServer.SocketHandler.Flush | core/socket/server.go:81-102 | nothing happens while the socket table is empty or does not marshal; otherwise the serialized table is broadcast as in `Publish` |
| WsServer.StartWebsocket | core/websocket/ws_server.go:155-156 | the registry is created empty |
| WsServer.Serve | core/websocket/ws_server.go:45-73 | a failed upgrade returns before anything is registered; otherwise a new open connection is registered under `connID` |
| WsServer.Repeat | core/websocket/ws_server.go:81-87 | n copies of a value |
| WsServer.WsHandler.constructor | core/websocket/ws_server.go:46-51 | the loops start running with `msg` nil and nothing sent |
| WsServer.WsHandler.HeartbeatLoop | core/websocket/ws_server.go:77-88 | queues `PongMessage` with payload "heartbeat" once per wake-up, and stops at the first write error, which happens only on a closed connection |
| WsServer.WsHandler.ReadStep | core/websocket/ws_server.go:90-114 | a read message becomes the last message and its data is routed as `Receive` says; a read error sets the last message to nil, closes the connection and ends the read loop |
| WsServer.WsHandler.Deliver | core/websocket/ws_server.go:126-133 | every client is written the serialized table with the last-read message's type, as `Broadcast` says; with no last message and at least one client, the flush panics on the nil dereference before writing |
| WsServer.WsHandler.Publish | core/websocket/ws_server.go:126-134 | after a full broadcast the websocket table is reset; on a failed write the handler's own connection is closed and the table kept; on the nil panic nothing changes |
| WsServer.WsHandler.Flush | core/websocket/ws_server.go:117-138 | nothing happens while the websocket table is empty or does not marshal; the nil panic happens exactly when there is no last message and the registry is not empty; otherwise the serialized table is broadcast as in `Publish` |

## Left out

- Goroutines, concurrency and the data races between them are not modelled. These include the race on the pending tables shared by every handler, and on `msg`, which the websocket read and flush loops share. Each loop is modelled as sequential steps over the state.
- A `select` with both cases ready picks at random in Go. Here `closeWins` decides, and it is fixed for one call or one loop: every `select` in that loop makes the same choice.
- Channel capacity (4096) is not modelled: the queues are unbounded, so a send is always ready.
- Tickers, read and write deadlines, `time.Sleep` and `pongWait` expiry are left out. Ticker wake-ups are `Tick` events, and heartbeats are counted by `beats`.
- `net`, `http` and gorilla/websocket calls are represented by what they were asked to do, or by parameters: the accept loop, `Upgrade`, transport reads and writes, `SetReadLimit(512)`, the transport's message types and its errors. A transport error ending a read loop is the end of the input sequence.
- JSON `Valid`, `Unmarshal` and `Marshal` are uninterpreted functions. Their internals are a foreign library.
- All logging is left out.
- Connection ids come from `utils.Get49UUID`, which uses wall-clock time and a random UUID. Here they are parameters.
- Configuration, `main.go`, `global/global.go`, the log configuration and `utils/common_result.go` are not part of this model.
- `core/socket/client.go` is not part of this model. It is stdin and network I/O, and its frame construction is the same as `packetLoop`.
- The error branches after `InitConnection` in both handlers are left out. `InitConnection` never returns an error, so they are dead code.
- A Go panic ends the whole process. Here it is an outcome: `SlicePanic` for a negative frame length, `NilMessagePanic` for the websocket flush. The model stops the affected loop and leaves the rest of the state as it was.
- No reassembly: each read is parsed on its own, and no partial frame is kept from one read to the next (connection.go:137-149). `SplitFrameNotReassembled` shows the consequence.
- SocketConnection.SConnection.ReadLoop queues copies taken at push time. In the source every queued item is a slice of the single 10240-byte `databuf` (connection.go:137, 141, 149, 209, 239, 243, 256), so the next read overwrites items that are still queued. That is a latent bug in the source, recorded under Findings; `ReadAllShared` models the read loop as written.
- SocketConnection.SConnection.ReadLoop pushes a read's items after scanning it, where `unpackLoop` pushes each one as it finds it. Nothing else changes the state during one scan, so the pushes and their order are the same.
- Codec.Unpack and Codec.UnpackLoop take Go's `int` to be 64 bits wide, so `dataIndex + messageLength` (connection.go:234, 239) cannot wrap. On a 32-bit target a declared length near 2^31 would wrap, and the slice would panic where `Unpack` reports a truncated frame.
- `readLoop` reads at most 10240 bytes (the size of its buffer), so `unpackLoop`'s oversize branch cannot be reached from it. `Unpack` still models that branch, and `ReadLoop` requires each read to fit the buffer.
- WsServer.WsHandler.Deliver checks for a nil last message once, before the loop. Go dereferences `msg` on every iteration, but `msg` cannot change during the loop except through the data race left out above.
- Which connection a registry entry points to is represented by its id (`map<string, ConnId>`). The writes a flush makes to other connections are recorded in the handler's `sent` log, not in those connections' queues.

## Findings

| source | as written | input that shows it | evidently intended | confidence | as-written member | corrected member |
|---|---|---|---|---|---|---|
| core/socket/connection.go:137-149 | `readLoop` allocates one 10240-byte `databuf` and reads into it again and again; `unpackLoop` pushes slices of it (`data` and `buffer`) onto `inChan` without copying them | two reads, the frame of "ab" and then the frame of "xy", both before the handler's `ReadMessage` dequeues: the handler receives "xy" twice | each queued payload keeps the bytes it had when it was pushed, so the handler receives "ab" then "xy" | not executed; follows from Go's slice semantics | SocketConnection.SharedBufferOverwritesQueuedPayload | SocketConnection.UnpackAllOneFramePerRead |
