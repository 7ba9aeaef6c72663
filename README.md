# bie one-time file relay — a Dafny model

bie moves one file from an uploader to a waiting downloader through a relay, once.
The repository holds two generations of the relay, and this project models the
token registry and the rules that move data through each of them.

- **WebSocket relay** (`bie-server`). A downloading client opens a WebSocket and is
  sent a 32-character alphanumeric token as text. An uploader posts a multipart form
  to `/upload/<token>`. The body of every part named `file` reaches the client as
  binary `FileChunk` frames, followed by `EndOfFile` and a close frame. The session's
  token is then unregistered. `relay_server.dfy` models the registry, the session
  channel (an unbounded FIFO with a closed flag), the socket's write half, and the
  forwarder and watcher tasks as separately callable steps, so any interleaving is a
  sequence of calls. It also models the upload handler and the health count.
  `bie_common.dfy` models the protocol messages and the byte-to-character token
  mapping.
- **SNI relay** (Go `cmd/relay`). A receiver registers over a multiplexed TLS
  session. It is issued the token `lower(shardID + "-" + base32(32 random bytes))`,
  whose data stream goes into a connection store. A sender connects with the token as
  the first label of its TLS server name. The relay takes the stream out of the
  store, so the token works once, and pipes the two connections together.
  `sni_relay.dfy` models the store, token construction and extraction, and the
  sender and receiver handlers. `base32.dfy` is the unpadded base32 encoding of
  section 6 of RFC 4648, with a decoder proving that it loses nothing.
- **Helpers of the Go side**:
  - `biewire.dfy`: the 4-byte big-endian length-prefixed framing, with a writer and a
    reader over a byte stream.
  - `bielog.dfy`: log-level parsing, handler choice, and the logger carried in a
    context.
  - `tui.dfy`: the progress screen's `Update` reducer, with Go's 64-bit wrap-around
    written out.

Randomness is a parameter: the bytes the random source would have produced. The
socket, the network and the TLS peek are replaced by their outcomes. Those are a
sink that may be broken, a setup outcome, and the peeked server name or a failure.

## Model

| member | source | states |
|---|---|---|
| `BieCommon.CharOfByte` | bie-common/src/lib.rs:26-31 | byte `b` becomes an alphanumeric character whose position in `0-9a-zA-Z` is `b % 62`; each arm stays within `u8` |
| `BieCommon.CharOfByteInAlphabet` | bie-common/src/lib.rs:26-31 | the character for byte `b` is the `(b % 62)`-th character of `0-9a-zA-Z` |
| `BieCommon.SameCharIffSameResidue` | bie-common/src/lib.rs:26-31 | two bytes give the same character if and only if they agree mod 62 |
| `BieCommon.GenerateSecureRandomString` | bie-common/src/lib.rs:16-35 | exactly `length` characters, character `i` is the mapping of random byte `i` |
| `BieCommon.GenerateAppend` | bie-common/src/lib.rs:24-32 | the mapping is pointwise: the string of `a + b` is the string of `a` followed by that of `b` |
| `BieCommon.SameTokenIffSameResidues` | bie-common/src/lib.rs:24-32 | two buffers give the same token if and only if they agree byte by byte mod 62 |
| `RelayServer.HttpStatus` | bie-server/src/main.rs:220-226 | the three upload answers are 202, 404 and 500, one to one |
| `RelayServer.Channel.Send` | bie-server/src/main.rs:198-205 | an unbounded send appends the message exactly when the receiver is not closed, and fails otherwise |
| `RelayServer.Channel.TryRecv` | bie-server/src/main.rs:96 | the forwarder receives in FIFO order; an empty queue yields nothing (the receive would wait) |
| `RelayServer.Channel.Close` | bie-server/src/main.rs:114 | closing the receiver keeps the buffered messages and makes later sends fail |
| `RelayServer.Sink.Send` | bie-server/src/main.rs:102 | a frame reaches the client exactly when the socket is healthy and not closed |
| `RelayServer.Sink.Close` | bie-server/src/main.rs:115 | closing succeeds exactly on a healthy transport; it sends a close frame unless one was already sent or received, and the socket refuses writes afterwards |
| `RelayServer.Sink.ReceiveClose` | bie-server/src/main.rs:149-153 | reading the peer's close answers it with a close frame, unless the socket has already closed or its transport failed, and closes the socket to further writes |
| `RelayServer.Registry.Insert` | bie-server/src/main.rs:136-139 | the token maps to the new channel, all other entries unchanged |
| `RelayServer.Registry.Remove` | bie-server/src/main.rs:177 | the token is removed, all other entries unchanged |
| `RelayServer.Registry.Get` | bie-server/src/main.rs:186 | a channel is found exactly for a registered token, and it is that token's channel |
| `RelayServer.HandleHealth` | bie-server/src/main.rs:234-241 | the reported count is the number of registered tokens |
| `RelayServer.Connect` | bie-server/src/main.rs:66-142 | the token is generated from the random bytes and sent first, as text; only if that send succeeds is the token registered with a fresh empty channel and both tasks started; otherwise the socket is closed, nothing is registered and no frame is written |
| `RelayServer.Session.ForwarderStep` | bie-server/src/main.rs:96-130 | one message is taken in FIFO order and its frames written: a binary frame for `Token` and `FileChunk`, a ping for `Ping`, nothing for `Pong`, the EOF frame then a close frame for `EndOfFile`; the task ends on `EndOfFile`, on `Close`, and on the first failed write (the unwrap panics), and the channel is closed then; an empty queue changes nothing |
| `RelayServer.Session.RunForwarder` | bie-server/src/main.rs:94-131 | over a writable socket the frames written are `Forwarded` of the queue: each message in order up to the first `EndOfFile` or `Close`, after which the socket is closed; over one that refuses writes nothing is written and the task ends at the first message other than `Pong`; a task still running has drained the queue and seen no ending message |
| `RelayServer.Session.WatcherStep` | bie-server/src/main.rs:146-168 | a close message, any other message or a read error pushes exactly one `Close` (when the channel is open) and ends the watcher; the end of the stream pushes nothing; a close message is answered by the socket |
| `RelayServer.Session.WatcherStepEvicting` | bie-server/src/main.rs:146-168 | corrected: as `WatcherStep`, and any inbound item also removes the session's token, leaving every other entry |
| `RelayServer.Session.JoinAndUnregister` | bie-server/src/main.rs:170-177 | once the forwarder has ended, whichever way, the token is removed and every other entry keeps its channel |
| `RelayServer.BeginUpload` | bie-server/src/main.rs:186 | an upload starts exactly for a registered token, into that token's channel, having pushed nothing; an unknown token starts nothing (the handler answers 404) |
| `RelayServer.Upload.Step` | bie-server/src/main.rs:188-212 | one turn of the form loop: a part not named `file`, a form error, the end of a body or a body read error moves to the next item; an empty chunk is stepped over; a non-empty chunk is pushed whole as one `FileChunk`, and if the push fails the rest of the part is abandoned; each successful push is the next message of the whole form's messages |
| `RelayServer.Upload.TakeChunk` | bie-server/src/main.rs:193-207 | a chunk becomes one `FileChunk` with its bytes copied; a failed push abandons the part (the closure's `return`) and the upload goes on with the next item |
| `RelayServer.Upload.NextItem` | bie-server/src/main.rs:188-191 | leaving an item keeps what was pushed, which stays a prefix of the form's messages |
| `RelayServer.Upload.Finish` | bie-server/src/main.rs:214-224 | `EndOfFile` is pushed after the form; the answer is 500 exactly when the channel is closed by then, otherwise 202, and an upload answered 202 has pushed every message of the form |
| `RelayServer.HandleUpload` | bie-server/src/main.rs:180-227 | run without interruption: an unknown token is answered 404 and nothing is pushed; for a known token with an open channel the queue gains the form's `FileChunk` messages then `EndOfFile`, answered 202; with a closed channel nothing is queued and the answer is 500 |
| `RelayServer.SentByIsPrefix` | bie-server/src/main.rs:188-209 | wherever an upload stands in the form, what it has pushed so far is a prefix of the whole form's messages |
| `RelayServer.PrefixMessagesGrow` | bie-server/src/main.rs:188-212 | the messages of the form's first items are a prefix of those of any longer run of its items |
| `RelayServer.ForwardedSnoc` | bie-server/src/main.rs:96-130 | before any ending message, forwarding one more message appends exactly its frames (FIFO order) |
| `RelayServer.ForwardedAfterEnd` | bie-server/src/main.rs:109-128 | nothing queued after the first `EndOfFile` or `Close` is ever written |
| `RelayServer.ForwardedPayloads` | bie-server/src/main.rs:104-107 | the binary chunk frames carry, in order and unchanged, the chunks queued before the first ending message |
| `RelayServer.CloseFrameIsLast` | bie-server/src/main.rs:109-117 | a close frame is written only for an ending message and is the last frame written |
| `RelayServer.ChunkMessagesAreChunks` | bie-server/src/main.rs:193-198 | every message pushed for a part is a `FileChunk` with at least one byte |
| `RelayServer.ChunkMessagesCarryBody` | bie-server/src/main.rs:193-208 | the pushed chunks of a part concatenate to the part's bytes before its first read error |
| `RelayServer.FormMessagesCarryFile` | bie-server/src/main.rs:188-212 | an upload pushes only `FileChunk`s, and they concatenate to the bytes of the `file` parts, in order |
| `RelayServer.UploadDelivered` | bie-server/src/main.rs:104-117 | for an uploaded form the forwarder writes the chunk frames carrying the file's bytes, then the EOF frame and a close frame, and stops |
| `RelayServer.ChunksForwarded` | bie-server/src/main.rs:104-107 | a queue of chunks is forwarded one binary frame per chunk, with its message |
| `RelayServer.ClientView` | bie-server/src/main.rs:76-117 | the client sees its token first, then the file's bytes in chunk frames, then the EOF frame and a close frame |
| `RelayServer.Scenario` | bie-server/src/main.rs:66-226 | connect, upload, forward, join: the upload is answered 202, the client receives token, file bytes, EOF and close, and the token is gone from the registry |
| `RelayServer.ClosedAfterToken` | bie-server/src/main.rs:96-168 | a client that closes after its token has its close answered and makes the watcher push `Close`; the forwarder then closes the channel and ends; the client has received its token and one close frame, and the token stays registered until the handler removes it |
| `RelayServer.DisconnectScenario` | bie-server/src/main.rs:146-226 | a client that disconnects first gets its token and a close frame; an upload before the token is removed is answered 500, after it 404 |
| `RelayServer.MidUploadDisconnect` | bie-server/src/main.rs:146-224 | a client leaving mid-upload has received its token, the first chunk and a close frame; the next push fails and abandons the part, the `EndOfFile` push fails and the upload is answered 500, having queued a proper prefix of the form's messages |
| `RelayServer.AbandonAfterDisconnect` | bie-server/src/main.rs:198-224 | once the channel is closed, the next chunk push fails, nothing more is pushed, and the upload ends with 500 |
| `RelayServer.FirstChunkForwarded` | bie-server/src/main.rs:96-107 | a lone upload's first chunk is pushed and forwarded while the session goes on |
| `RelayServer.CloseBeforeUpload` | bie-server/src/main.rs:123-127 | as written: a client that closes before an upload and before the forwarder runs leaves its `Close` queued; the upload is answered 202, yet the forwarder stops at `Close` and the client receives no part of the file |
| `RelayServer.UploadBehindClose` | bie-server/src/main.rs:180-226 | an upload to a token whose channel still holds an unread `Close` finds the token registered and the channel open, is answered 202, and leaves `Close` at the head of the queue ahead of its messages |
| `RelayServer.CloseBeforeUploadEvicted` | bie-server/src/main.rs:146-186 | corrected: with the evicting watcher the same upload is answered 404, the client receives its token and a close frame, and the token is gone |
| `RelayServer.BrokenSocketScenario` | bie-server/src/main.rs:96-177 | with a failed transport the upload is still accepted, the forwarder panics on its first write, and the token is still removed; the client has received only its token |
| `Common.Lower` | cmd/relay/main.go:152 | lower-casing keeps the length and lowers each ASCII capital, leaving other characters as they are |
| `Common.LowerIdempotent` | pkg/bielog/logger.go:51 | lower-casing twice is lower-casing once |
| `Common.LowerAppend` | cmd/relay/main.go:96 | lower-casing distributes over concatenation |
| `Base32.CharOfValue` | cmd/relay/main.go:63 | the character of a 5-bit value is its entry in the standard alphabet `A-Z2-7` |
| `Base32.Encode` | cmd/relay/main.go:63 | unpadded base32 of `n` bytes has `ceil(8n/5)` characters, all from the alphabet |
| `Base32.GroupBitsOfGroups` | cmd/relay/main.go:63 | cutting the bit string into 5-bit groups loses nothing: the groups' bits are the input and then zero fill bits |
| `Base32.DecodeEncode` | cmd/relay/main.go:63 | decoding an encoding gives back the original bytes |
| `Base32.EncodeInjective` | cmd/relay/main.go:58-63 | distinct random buffers give distinct encodings |
| `SniRelay.GenerateSecureToken` | cmd/relay/main.go:57-64 | the `xid` of 32 random bytes has 52 characters, all from the base32 alphabet |
| `SniRelay.MakeToken` | cmd/relay/main.go:93-96 | the token is the lower-cased shard id, a `-`, then the lower-cased `xid`; it has no capital letters |
| `SniRelay.LowerInjectiveOnBase32` | cmd/relay/main.go:96 | lower-casing base32 text loses nothing |
| `SniRelay.TokensOfShardAreDistinct` | cmd/relay/main.go:93-96 | within one shard, distinct random buffers give distinct tokens |
| `SniRelay.TokenHasNoDot` | cmd/relay/main.go:94-96 | with a shard id without `.`, the token has no `.` |
| `SniRelay.FirstLabel` | cmd/relay/main.go:155 | the result is the longest prefix without `.`: it is followed by `.` or is the whole string |
| `SniRelay.TokenFromServerName` | cmd/relay/main.go:152-155 | the sender's token is the first label of the lower-cased server name: lower-case, without `.`, no longer than the name |
| `SniRelay.FirstLabelOfDotted` | cmd/relay/main.go:155 | the first label of `token + "." + rest` is the token when it has no `.` |
| `SniRelay.ServerNameRoundTrip` | cmd/cli/main.go:59-60 | the host name the client builds, `token + "." + domain`, routes back to its token |
| `SniRelay.ConnectionStore.Register` | cmd/relay/main.go:114-116 | the token maps to the receiver's data stream, all other entries unchanged |
| `SniRelay.ConnectionStore.Take` | cmd/relay/main.go:158-168 | lookup and delete in one critical section: a present token yields its stream and is removed; an absent one yields nothing and changes nothing |
| `SniRelay.ConnectionStore.Expire` | cmd/relay/main.go:131-133 | teardown deletes the token, and is a no-op once a sender has taken it |
| `SniRelay.RegisterReceiver` | cmd/relay/main.go:67-118 | a failure before the request is read, or while sending the token, issues nothing; a failure opening the data stream issues the token but stores nothing; success stores the token with its stream |
| `SniRelay.ReceiverTeardown` | cmd/relay/main.go:130-134 | after the session closes the token is deleted, other entries unchanged |
| `SniRelay.ForwardSender` | cmd/relay/main.go:138-174 | a failed peek or an empty server name is rejected before the store is touched; otherwise a present token is piped and removed (one-time use), an absent one leaves the store unchanged |
| `SniRelay.RelayScenario` | cmd/relay/main.go:67-174 | register, then two senders with the client's host name: the first is piped to the receiver's stream, the second finds nothing, teardown leaves the store empty |
| `SniRelay.ContextLoggerAsWritten` | cmd/relay/main.go:198-199 | as written, the context carries the fallback logger |
| `SniRelay.ContextLoggerIgnoresConfiguration` | cmd/relay/main.go:198-199 | as written, the context's logger differs from the configured one: no level set, text output |
| `SniRelay.ContextLogger` | cmd/relay/main.go:198-199 | corrected: the context carries the configured logger, at the parsed level |
| `Biewire.ValueOfBE32` | pkg/biewire/json.go:16 | a 32-bit length written big-endian reads back as the same value |
| `Biewire.BE32OfValue` | pkg/biewire/json.go:25 | any four prefix bytes are the big-endian form of the value read from them |
| `Biewire.Frame` | pkg/biewire/json.go:15-20 | a frame is 4 + len bytes, the payload after the prefix |
| `Biewire.ParseFrame` | pkg/biewire/json.go:24-31 | reading fails exactly when fewer than 4 bytes, or fewer than `length` payload bytes, are available (`EOF` when none, `ErrUnexpectedEOF` when some); otherwise it yields `length` bytes and leaves the rest |
| `Biewire.FrameRoundTrip` | pkg/biewire/json.go:9-34 | for a payload shorter than 2^32 bytes, reading what was sent gives the payload back and consumes nothing after the frame |
| `Biewire.TruncatedLengthSplitsPayload` | pkg/biewire/json.go:15 | a payload of 2^32 bytes or more is cut at `len % 2^32` by the truncated prefix |
| `Biewire.ParseAllFrames` | pkg/biewire/json.go:23-32 | back-to-back frames are read back in order, each with its own payload |
| `Biewire.Writer.Write` | pkg/biewire/json.go:19 | a write passes through the bytes the destination accepts, and fails when that is fewer than asked |
| `Biewire.SendJSON` | pkg/biewire/json.go:9-21 | success writes exactly `Frame(payload)`; a failed prefix write makes no second write call, so no payload byte is written; otherwise the payload write's error is returned |
| `Biewire.Reader.ShortRead` | pkg/biewire/json.go:25-32 | a read that runs short reports the transport's own error exactly on a failing stream, and `EOF` or `ErrUnexpectedEOF` on one that ended |
| `Biewire.Reader.ReadFull` | pkg/biewire/json.go:30 | fills the buffer with the next bytes of the stream, or consumes everything left and reports `EOF`, `ErrUnexpectedEOF` or the transport's error |
| `Biewire.ReceiveJSON` | pkg/biewire/json.go:23-35 | returns the payload `ParseFrame` finds and leaves the stream right after the frame; on a short read it returns that read's error, the transport's own on a failing stream |
| `Biewire.BrokenAfterFrame` | pkg/biewire/json.go:23-32 | a stream that fails after a whole frame still yields that frame's payload, then the transport error |
| `Biewire.BrokenAfterPrefix` | pkg/biewire/json.go:29-32 | a stream that fails right after a length prefix reports the transport error, not `ErrUnexpectedEOF` |
| `Biewire.ExchangeScenario` | pkg/biewire/json.go:9-35 | two messages sent back to back are received in order, and a third receive reports `EOF` |
| `Biewire.ReceiveBackToBack` | pkg/biewire/json.go:23-35 | a stream holding two frames yields the two payloads in order, then `EOF` |
| `Bielog.ParseLogLevel` | pkg/bielog/logger.go:50-63 | a level other than Info is chosen exactly when the lower-cased string is that level's name; names map to their levels |
| `Bielog.ParseLevelName` | pkg/bielog/logger.go:51-59 | `debug`, `info`, `warn` and `error` parse to Debug, Info, Warn and Error |
| `Bielog.ParseUnknownIsInfo` | pkg/bielog/logger.go:60-61 | any other string, the empty one included, parses to Info |
| `Bielog.ParseIgnoresCase` | pkg/bielog/logger.go:51 | a string and its lower-case form parse to the same level |
| `Bielog.HandlerFor` | pkg/bielog/logger.go:25-32 | the JSON handler is chosen for exactly the string `json`; everything else gets text |
| `Bielog.UpperCaseJsonIsText` | pkg/bielog/logger.go:25-32 | the match is case-sensitive: `JSON` gets text |
| `Bielog.NewLogger` | pkg/bielog/logger.go:12-35 | the caller's options are copied (zero options for nil), the level is always the parsed one, the handler is chosen by type |
| `Bielog.NewLoggerOverridesLevel` | pkg/bielog/logger.go:17-23 | the caller's level never survives |
| `Bielog.Lookup` | pkg/bielog/logger.go:38 | a context yields the newest value stored under a key, nothing for the empty context |
| `Bielog.FromCtx` | pkg/bielog/logger.go:37-43 | without a value under the logger key, the fallback text logger |
| `Bielog.CtxWithLogger` | pkg/bielog/logger.go:45-47 | the new context yields the logger under the logger key and agrees with the old one on every other key |
| `Bielog.FromCtxWithLogger` | pkg/bielog/logger.go:37-47 | a stored logger, even a nil one, comes back out |
| `Bielog.FromCtxSkipsOtherKeys` | pkg/bielog/logger.go:38 | values under other keys do not hide the logger |
| `Bielog.FromCtxWithoutLogger` | pkg/bielog/logger.go:41-42 | a context with no logger stored anywhere gives the fallback logger |
| `Tui.Wrap64` | cmd/cli/tui.go:47 | the 64-bit result agrees with the exact one modulo 2^64, and equals it when in range |
| `Tui.WrapAddWrap` | cmd/cli/tui.go:47 | wrapping an intermediate sum does not change the wrapped total |
| `Tui.Init` | cmd/cli/tui.go:33-35 | no start-up command |
| `Tui.ProgressWidth` | cmd/cli/tui.go:52-55 | the bar width is the terminal width less 8, at most 80, with no lower bound; a width within 8 of the least `int` wraps and is clamped to 80 |
| `Tui.NarrowTerminalNegativeWidth` | cmd/cli/tui.go:52-55 | a terminal narrower than 8 columns gives a negative bar width |
| `Tui.Update` | cmd/cli/tui.go:37-60 | `ctrl+c` and `q` quit and other keys do nothing; progress adds to the count modulo 2^64; a resize records width, height and bar width; nothing else changes the model or issues a command |
| `Tui.RunUploaded` | cmd/cli/tui.go:46-47 | after any sequence of messages the count is the start plus all reported progress, modulo 2^64 |
| `Tui.WrapStep` | cmd/cli/tui.go:46-47 | adding progress to an already wrapped count wraps to the same value as adding it to the exact sum |
| `Tui.RunUploadedExact` | cmd/cli/tui.go:47 | while the total fits in `int64`, the count is the exact sum |
| `Tui.RunKeepsUpload` | cmd/cli/tui.go:37-60 | no message changes the file path, the command or the file size |
| `Tui.ResizeIdempotent` | cmd/cli/tui.go:48-55 | handling the same resize twice is handling it once |
| `Tui.ProgressCommutesWithResize` | cmd/cli/tui.go:46-55 | progress and resize messages give the same model in either order |

## Left out

- Async runtime: warp routing and filters (bie-server/src/main.rs:24-64), tokio tasks and the WebSocket split are not modelled. The `RwLock` taken at bie-server/src/main.rs:136-139, 177, 186 and 236 is modelled only by each registry operation being one call. The forwarder, the watcher and an upload are step methods (`Upload.Step`, `Upload.Finish`), so their pushes and reads interleave in any order; the upload's read guard keeps the token registered, not its channel open.
- RelayServer.HandleUpload: runs a whole upload with no forwarder or watcher step in between, so its channel's closed flag cannot change during it. Uploads that interleave with a disconnect, and two concurrent uploads to one token, are modelled through `BeginUpload`, `Upload.Step` and `Upload.Finish` instead (see `MidUploadDisconnect`).
- The forwarder's "channel exhausted" exit (`recv` returning `None`) is not modelled. `handle_connection` keeps a sender alive until after it joins the forwarder (bie-server/src/main.rs:68, 133, 144, 171), so that exit cannot happen. An empty queue is a pending receive.
- `Err` items in the session channel are not modelled, because no code path sends one.
- The upload size limit, enforced by warp's multipart `max_length` (bie-server/src/main.rs:43), is not modelled.
- The server's `protocol` module is not part of this model. The six variants the forwarder matches on are modelled; bie-common/src/lib.rs:4-8 declares only three.
- CBOR serialisation is not modelled. A binary frame carries the message value itself, which makes the encoding injective by construction.
- Randomness (`ring` and `crypto/rand`) is a parameter. Entropy, the mod-62 bias and the failure of the random source (a panic or `log.Fatal`) are not modelled.
- Logging calls (`trace!`, `info!`, `log.Printf` and the like) are not modelled.
- Go relay plumbing is not modelled: smux sessions, TLS listeners, the 5-second ticker that waits for the session to close, `pipeConnections`, the accept loops and signal handling (cmd/relay/main.go:70-128, 177-304). `Setup` stands for how far a receiver's setup gets.
- The non-TCP connection check (cmd/relay/main.go:142-146) is not modelled, because the sender listener only yields TCP connections.
- The ClientHello peek and SNI parsing (pkg/biewire/util.go) are not part of this model. The peek's result is an input.
- JSON marshalling and unmarshalling (pkg/biewire/json.go:10, 34) are not modelled, so payloads are opaque bytes. The DTOs of pkg/biewire/wire.go are therefore not modelled either.
- Biewire.Writer.Write: models any `io.Writer` as a script of how many bytes each call accepts. Writers that fail without having accepted a byte count are covered; writers whose behaviour depends on the bytes are not.
- cmd/cli/main.go is not part of this model beyond the host name it builds (:59-60). The `TrimSpace` before it is not modelled.
- Certificates and the one-shot server (pkg/certs, pkg/biecy, pkg/osserver) are not part of this model. Neither are the settings files.
- bie/src/main.rs is not part of this model: its `Get` branch is commented out.
- Common.Lower: lowers ASCII capitals only. Go's `strings.ToLower` also lowers non-ASCII letters.
- `slog` internals are not modelled: handler output and `os.Stdout`. A `ReplaceAttr` callback is known only by identity.
- `View` in cmd/cli/tui.go (:62-83) is not modelled: floating-point percentage and rendering. The Bubble Tea runtime is not modelled either, including what happens to messages after `Quit`. Keys are identified by their string form.

## Findings

| source | as written | input that shows it | evidently intended | confidence | as-written member | corrected member |
|---|---|---|---|---|---|---|
| bie-server/src/main.rs:146-168 | a client's close is only queued as `Close`; until the forwarder reads it the token stays registered and its channel open, so an upload arriving in between is pushed whole and answered 202, and the forwarder then stops at `Close` without delivering any of it | a client closes right after receiving its token, and an upload arrives before the forwarder's next turn | an upload to a session whose client has left is refused, as the relay's cancellation evicts the session | low, not executed | `RelayServer.CloseBeforeUpload` | `RelayServer.CloseBeforeUploadEvicted` |
| cmd/relay/main.go:198-199 | the configured logger is built, but the context is given `FromCtx(ctx)` of the still empty context, which is the fallback text logger with no level set | `BIE_LOG_TYPE=json`, `BIE_LOG_LEVEL=debug`: the context's logger writes text at Info | the context carries `logger`, the configured one | medium, not executed | `SniRelay.ContextLoggerAsWritten` | `SniRelay.ContextLogger` |
