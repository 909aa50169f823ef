# aufloes TXID bookkeeping, modelled in Dafny

aufloes is a DNS forwarding proxy. It takes plain DNS queries over UDP from
local peers and forwards each one to one upstream resolver, over
DNS-over-HTTPS (RFC 8484) or over UDP. This project models the part of it
that keeps track of transaction IDs (TXIDs) around the network I/O, and
proves properties of that model:

- `proto.dfy` (module `Proto`): the TXID codec. A TXID is the 16-bit DNS
  header ID (section 4.1.1 of RFC 1035), stored big-endian in bytes 0 and 1.
  `WithTxid`/`WriteTxid` model the in-place write
  `data[0..2].copy_from_slice(&txid.to_be_bytes())`, which appears in three
  source files.
- `sockets.dfy` (module `Sockets`): what a receive into the 1024-byte buffer
  yields, after `split_to(n)`.
- `udp_client.dfy` (module `Udp`): the UDP multiplexing client. Class
  `UdpClient` holds the pending table (`map<Txid, Handle>`), the oneshot
  channels (`seq<Channel>`, indexed by `Handle`), the `shutdown_tx` flag and
  the receive task's liveness. `resolve_raw` is split at its await:
  `ResolveSend` registers, writes the TXID and sends; `AwaitResponse` takes
  the wait's outcome and cleans up. `ReceiveTask` runs the receive loop over
  events from the caller. The pure functions `Register`, `Dispatch`,
  `Abandon` and `RunReceive` specify these methods, and the lemmas about the
  loop are stated over them.
- `https_client.dfy` (module `Https`): `HttpsClient::new` URL validation, and
  `resolve_raw`. It sends the query with ID 0 (section 4.1 of RFC 8484),
  checks the status, and restores the caller's ID. The HTTP exchange is an
  oracle function from the request to the response.
- `resolver.dfy` (module `Resolver`): the `REQUEST_ID` counter as a class
  with a wrapping 64-bit `FetchAdd`, the `socket_handler` receive loop, and
  `request_handler` (the pure `Reply` and the imperative `RequestHandler`).
  Any upstream `Client` is a function from the forwarded bytes to a result.
- `proxy.dfy` (module `Proxy`): the resolver wired to the DoH client. It
  shows the TXID a downstream peer sees does not depend on the ID used
  upstream.

Message slices shorter than 2 bytes make the Rust code panic. The model makes
these panics explicit:
- a short datagram ends the UDP receive task (`LoopEnd.Panicked`);
- a short request or upstream answer ends that request's handler
  (`HandlerOutcome.Panicked`);
- a short DoH response body returns the error `ShortBody` instead.

The two `resolve_raw` methods require at least 2 bytes. Their only caller,
the resolver, reads the TXID of the same bytes first, so it panics before
calling them.

Points of behaviour the source has:
- If `socket.send` fails in the UDP client (udp_client.rs:125), the `?`
  returns and the pending entry stays in the table. `ResolveSend` states
  this leak.
- Only the two failed-wait outcomes remove the entry (`AwaitResponse`,
  `Abandon`).
- That removal uses the TXID alone. So a request whose timeout beats its own
  delivery can remove the entry of a later request that reused the same TXID.
  `AbandonCanEvictReusedTxid` shows such a sequence of steps.
- Delivery matches by TXID alone too. A request times out and its entry is
  removed (udp_client.rs:135-139). A later request draws the same TXID
  (udp_client.rs:58-66). The first request's late answer then goes to the later
  request (udp_client.rs:94-98). `LateAnswerReachesReusedTxid` shows this.
- Taken together, the send-failure leak and the re-sampling loop can hang the
  client. Each failed send pins its TXID until something else removes that
  entry: a datagram with that TXID (udp_client.rs:94), or the cleanup of an
  earlier timed-out request with the same TXID (udp_client.rs:132, 138).
  Once all 65536 TXIDs are pinned, `new_pending_request` loops forever while holding the `pending` lock
  it took at udp_client.rs:55. That also blocks the receive task at
  udp_client.rs:93. The model requires a free TXID among the draws, so it does
  not show the hang itself.

## Model

| member | source | states |
|---|---|---|
| Proto.ToBeBytes | src/proto/mod.rs:8 | the two big-endian bytes of a TXID `t` are valid bytes and satisfy 256·b0 + b1 = t |
| Proto.TxidFromBinaryMessage | src/proto/mod.rs:5-8 | the TXID read from a message of at least 2 bytes is the value whose big-endian encoding is bytes 0..1, so it lies in 0..65535 |
| Proto.WithTxid | src/client/udp/udp_client.rs:120 | writing a TXID keeps the length, puts its big-endian bytes at 0..1, leaves bytes 2.. unchanged |
| Proto.WriteTxid | src/resolver/resolver.rs:79 | the in-place write on a buffer leaves exactly `WithTxid` of the old contents |
| Proto.ReadAfterWrite | src/proto/mod.rs:5-8 | reading back a written TXID returns it (round trip) |
| Proto.WriteOwnTxid | src/proto/mod.rs:5-8 | writing back the TXID just read gives the original message |
| Proto.TxidDependsOnHeaderOnly | src/proto/mod.rs:7 | two messages have the same TXID if and only if their bytes 0..1 agree |
| Proto.WriteTwice | src/client/udp/udp_client.rs:120 | a later TXID write overrides an earlier one entirely |
| Proto.ToBeBytesInjective | src/proto/mod.rs:8 | distinct TXIDs have distinct encodings |
| Sockets.Received | src/client/udp/udp_client.rs:75-89 | the data kept from a datagram is its first min(len, 1024) bytes |
| Udp.FreeTxidExists | src/client/udp/udp_client.rs:58-64 | with fewer than 65536 pending entries a free TXID exists, so a fair re-sampling loop can end |
| Udp.PickUnusedTxid | src/client/udp/udp_client.rs:58-64 | the chosen TXID is not pending and is the first free candidate drawn |
| Udp.Register | src/client/udp/udp_client.rs:66-67 | the table gains exactly one entry, for the new TXID, pointing at a new waiting channel; existing entries are kept and well-formedness (distinct handles, answers carry their channel's TXID) is preserved |
| Udp.Dispatch | src/client/udp/udp_client.rs:91-98 | a datagram whose TXID is pending removes exactly that entry and delivers the bytes to its channel if still waiting, and that channel keeps its TXID; all other entries and channels are kept; well-formedness is preserved, so an answer sits only on a channel of its own TXID; a datagram with an unknown TXID changes nothing |
| Udp.Offer | src/client/udp/udp_client.rs:98 | a waiting receiver takes the payload; a dropped one leaves the channel unchanged; the channel keeps its TXID |
| Udp.Abandon | src/client/udp/udp_client.rs:129-140 | after a failed wait the request's TXID is absent and no entry refers to its handle; all other entries are untouched |
| Udp.RunReceive | src/client/udp/udp_client.rs:73-100 | the receive loop over any events keeps the table well-formed, the channel count and every channel's TXID |
| Udp.RunReceiveOnlyRemoves | src/client/udp/udp_client.rs:93-97 | the receive loop only removes entries, never adds or redirects one |
| Udp.RunReceiveDeliversMatching | src/client/udp/udp_client.rs:88-98 | a channel changes only from waiting to answered, with a received datagram whose TXID is that channel's; it is delivered only to the channel pending under the datagram's TXID, and the entry is gone afterwards, so the channel is answered at most once |
| Udp.RunReceiveRemovesOnlyAnswered | src/client/udp/udp_client.rs:94-98 | every entry the loop removes was answered, unless its receiver had already been dropped |
| Udp.UnsolicitedIgnored | src/client/udp/udp_client.rs:94-97 | an unsolicited datagram is dropped and the loop continues with the next event |
| Udp.RecvErrorIgnored | src/client/udp/udp_client.rs:84-87 | a receive error is skipped and the loop continues |
| Udp.AbandonIdempotent | src/client/udp/udp_client.rs:132-138 | removing an already-removed entry is a no-op |
| Udp.AbandonCanEvictReusedTxid | src/client/udp/udp_client.rs:135-139 | cleanup by TXID alone can remove a later request's entry that reuses the TXID |
| Udp.LateAnswerReachesReusedTxid | src/client/udp/udp_client.rs:94-98 | a late answer to a timed-out request is delivered to a later request that drew the same TXID |
| Udp.UdpClient.constructor | src/client/udp/udp_client.rs:37-48 | a new client has an empty table, holds its shutdown sender, and its receive task runs |
| Udp.UdpClient.NewPendingRequest | src/client/udp/udp_client.rs:53-69 | registers a TXID not pending before, with a fresh handle; the new state is `Register` of the old one |
| Udp.UdpClient.ResolveSend | src/client/udp/udp_client.rs:112-125 | the datagram sent is the request with the registered TXID; the entry is inserted before the send and stays even when the send fails |
| Udp.UdpClient.AwaitResponse | src/client/udp/udp_client.rs:127-141 | a delivered value is returned, and it is at least 2 bytes long and carries the request's own TXID; a closed channel or a timeout gives its own error after `Abandon`; in every case no entry refers to the handle afterwards |
| Udp.UdpClient.ReceiveTask | src/client/udp/udp_client.rs:73-100 | the task's new table and its end are those of `RunReceive`; the task stops on shutdown or on a short datagram |
| Udp.UdpClient.Drop | src/client/udp/udp_client.rs:103-107 | the shutdown sender is taken exactly once; nothing else changes |
| Https.New | src/client/https/https_client.rs:31-68 | construction fails with its own error when the scheme is not `https`, then when the host is missing; on success it keeps the URL and records a bootstrap address exactly when an IP was given |
| Https.QueryBody | src/client/https/https_client.rs:76-80 | the body sent upstream has ID 0, the query's length and its bytes 2.. |
| Https.PostRequest | src/client/https/https_client.rs:82-89 | the request is a POST to the configured URL with `application/dns-message` as Accept and Content-Type |
| Https.ResponseFor | src/client/https/https_client.rs:89-102 | transport failure, non-2xx status and an unreadable body each give an error and no payload; success holds the caller's TXID, the body's length and the body's bytes 2.. |
| Https.ResolveRaw | src/client/https/https_client.rs:73-103 | the result is `ResponseFor` the caller's TXID and the oracle's answer to the zero-ID POST |
| Resolver.RequestCounter.constructor | src/resolver/resolver.rs:22 | the counter starts at 0 |
| Resolver.RequestCounter.FetchAdd | src/resolver/resolver.rs:44 | returns the old value and increments modulo 2^64 |
| Resolver.SocketHandler | src/resolver/resolver.rs:31-52 | the requests spawned and the counter afterwards are those of `Spawned` over the events |
| Resolver.Spawned | src/resolver/resolver.rs:32-50 | the requests the receive loop spawns: no more than the events, each numbered below 2^64 and holding at most 1024 bytes; `SpawnedAreDatagrams` characterises them fully |
| Resolver.SpawnedAreDatagrams | src/resolver/resolver.rs:32-50 | the spawned requests are exactly the received datagrams in order: their peers, their first min(n, 1024) bytes, numbered consecutively modulo 2^64; receive errors create none |
| Resolver.SpawnedIdsIncrease | src/resolver/resolver.rs:43-44 | until the counter wraps, request numbers strictly increase |
| Resolver.Reply | src/resolver/resolver.rs:65-87 | a reply is sent exactly when the upstream succeeds, to the recorded peer, with the downstream TXID and the upstream answer's length and bytes 2..; on upstream error nothing is sent |
| Resolver.RequestHandler | src/resolver/resolver.rs:54-91 | the handler's outcome is `Reply` of the request and the upstream's result for the request's own bytes |
| Proxy.DohTxidTransparency | src/resolver/resolver.rs:66-79 | over DoH the upstream sees ID 0, and a reply reaches the original peer with the original TXID whatever ID the upstream answered with |

## Left out

- Sockets, timers and tasks: `bind`, `connect`, `recv`, `send`,
  `send_to`, `tokio::spawn`, `select!` and the 5 s and 10 s deadlines are I/O
  or scheduling. Their results are events or parameters supplied by the
  caller. Concurrency is modelled as the caller interleaving method calls.
- `Mutex` and `Arc`: each table operation is one atomic method call, which
  is the serialisation the lock provides. Reference counting is not modelled.
- `UdpClient::new` failing to bind or connect: the constructor models the
  success path only.
- `rand::thread_rng`: its draws are an arbitrary candidate sequence that
  contains a free TXID. The distribution is not modelled. If all 65536 IDs
  are pending, the source loops forever.
- Udp.UdpClient.AwaitResponse: the timeout and the cleanup after it are one
  step here. A delivery that loses the race to the deadline is modelled by
  allowing `TimedOut` on a channel already answered.
- Udp.UdpClient.AwaitResponse: the wait's outcome is chosen freely by the
  caller, apart from the `Sent` constraints. `SenderDropped` is allowed on a
  channel still `Waiting` in the table. In the source that outcome
  (udp_client.rs:129) needs the sender to be dropped unsent, which happens
  only when another request's cleanup evicts the entry. The model admits more
  schedules than the source has; it does not track evicted senders.
- The `Ok(response?)` at udp_client.rs:128: the receive task only ever sends
  `Ok`, so channels carry payloads only.
- `assert!(prev_value.is_none())` at udp_client.rs:67: it is proved (the TXID
  is free), not modelled as a runtime check.
- Https.ResponseFor: a response body shorter than 2 bytes panics in the
  source. The model returns the error `ShortBody` instead.
- The reqwest client configuration: redirect policy, timeout, https_only,
  HTTP/2 and the bootstrap `resolve` call are foreign. Only the bootstrap
  pair is recorded. URL parsing is foreign too; a URL is its scheme, optional
  host and path.
- Resolver.RequestHandler: whether `send_to` succeeds, and the
  `assert_eq!(n, data.len())` at resolver.rs:93, are OS results. `SendTo` is
  the send attempt.
- `Instant` stamps, elapsed times and all logging.
- src/main.rs (CLI parsing, logging setup, process wiring),
  src/client/mod.rs (module declarations) and src/client/client.rs (the
  `Client` trait, modelled as a function parameter) are not part of this
  model.
