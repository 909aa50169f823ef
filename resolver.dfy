/**
 * The resolver's downstream side: the receive loop of `socket_handler`,
 * which numbers every received datagram and hands it to its own task, and
 * `request_handler`, which forwards one request upstream and sends the
 * answer, with the downstream TXID put back, to the peer it came from.
 *
 * The upstream is any `Client` (DoH or UDP): a function from the bytes
 * handed to `resolve_raw` to its result. Sockets supply events; spawning a
 * task is modelled by returning the request that task would handle.
 */
module Resolver {
  import opened Proto
  import opened Sockets
  import opened Outcomes

  /** `AtomicU64` arithmetic: `fetch_add` wraps around at 2^64. */
  const U64_MODULUS: nat := 0x1_0000_0000_0000_0000

  /** A downstream peer's `SocketAddr`. */
  datatype Peer = Peer(ip: seq<Byte>, port: int)

  /** `Request` without its `Instant` stamp. */
  datatype Request = Request(id: nat, peer: Peer, data: seq<Byte>)

  /** What one `recv_from` on the downstream socket yields. */
  datatype RecvFromEvent =
    | RecvFromError                          // `recv_from` failed
    | Datagram(bytes: seq<Byte>, peer: Peer) // a datagram from `peer`

  /** The process-wide `REQUEST_ID` counter. */
  class RequestCounter {
    var value: nat

    ghost predicate Valid()
      reads this
    {
      value < U64_MODULUS
    }

    /** `AtomicU64::new(0)`. */
    constructor ()
      ensures Valid() && value == 0
    {
      value := 0;
    }

    /** `fetch_add(1, Ordering::SeqCst)`: the old value, and a wrapping increment. */
    method FetchAdd() returns (previous: nat)
      requires Valid()
      modifies this
      ensures Valid()
      ensures previous == old(value) && value == (old(value) + 1) % U64_MODULUS
    {
      previous := value;
      value := (value + 1) % U64_MODULUS;
    }
  }

  /** The datagrams among the events, in order. */
  function Datagrams(events: seq<RecvFromEvent>): (ds: seq<RecvFromEvent>)
    ensures |ds| <= |events|
    ensures forall k :: 0 <= k < |ds| ==> ds[k].Datagram? && ds[k] in events
  {
    if events == [] then []
    else if events[0].Datagram? then [events[0]] + Datagrams(events[1..])
    else Datagrams(events[1..])
  }

  /** The requests `socket_handler` spawns for `events`, numbered from `first`. */
  function Spawned(events: seq<RecvFromEvent>, first: nat): (sp: seq<Request>)
    requires first < U64_MODULUS
    ensures |sp| <= |events|
    ensures forall k :: 0 <= k < |sp| ==> sp[k].id < U64_MODULUS && |sp[k].data| <= RECV_BUFFER_SIZE
  {
    if events == [] then []
    else
      match events[0]
      case RecvFromError => Spawned(events[1..], first)
      case Datagram(bytes, peer) =>
        [Request(first, peer, Received(bytes))] + Spawned(events[1..], (first + 1) % U64_MODULUS)
  }

  /**
   * `socket_handler` over the events its socket produces: a receive error
   * is skipped; every datagram becomes a request with the next counter
   * value, the peer it came from and the bytes received into the
   * 1024-byte buffer, handed to its own `request_handler` task.
   */
  method SocketHandler(counter: RequestCounter, events: seq<RecvFromEvent>) returns (spawned: seq<Request>)
    requires counter.Valid()
    modifies counter
    ensures counter.Valid()
    ensures spawned == Spawned(events, old(counter.value))
    ensures counter.value == (old(counter.value) + |spawned|) % U64_MODULUS
  {
    spawned := [];
    var i := 0;
    while i < |events|
      invariant 0 <= i <= |events| && counter.Valid()
      invariant spawned + Spawned(events[i..], counter.value) == Spawned(events, old(counter.value))
      invariant counter.value == (old(counter.value) + |spawned|) % U64_MODULUS
    {
      assert events[i..][1..] == events[i + 1..];
      match events[i] {
        case RecvFromError =>
          // warn and continue
        case Datagram(bytes, peer) =>
          var data := Received(bytes);
          ghost var count := |spawned|;
          var id := counter.FetchAdd();
          spawned := spawned + [Request(id, peer, data)];
          WrapAdd(old(counter.value) + count, 1);
      }
      i := i + 1;
    }
  }

  /**
   * The spawned requests are exactly the received datagrams, in order,
   * numbered consecutively (modulo 2^64) from the counter's value.
   */
  lemma SpawnedAreDatagrams(events: seq<RecvFromEvent>, first: nat)
    requires first < U64_MODULUS
    ensures var sp, ds := Spawned(events, first), Datagrams(events);
      && |sp| == |ds|
      && forall k :: 0 <= k < |sp| ==>
           sp[k] == Request((first + k) % U64_MODULUS, ds[k].peer, Received(ds[k].bytes))
  {
    SpawnedLength(events, first);
    forall k | 0 <= k < |Spawned(events, first)|
      ensures Spawned(events, first)[k]
        == Request((first + k) % U64_MODULUS, Datagrams(events)[k].peer, Received(Datagrams(events)[k].bytes))
    {
      SpawnedAt(events, first, k);
    }
  }

  lemma {:induction false} SpawnedLength(events: seq<RecvFromEvent>, first: nat)
    requires first < U64_MODULUS
    ensures |Spawned(events, first)| == |Datagrams(events)|
  {
    if events != [] {
      SpawnedLength(events[1..], if events[0].Datagram? then (first + 1) % U64_MODULUS else first);
    }
  }

  lemma {:induction false} SpawnedAt(events: seq<RecvFromEvent>, first: nat, k: nat)
    requires first < U64_MODULUS && k < |Datagrams(events)|
    ensures |Spawned(events, first)| == |Datagrams(events)|
    ensures Spawned(events, first)[k]
      == Request((first + k) % U64_MODULUS, Datagrams(events)[k].peer, Received(Datagrams(events)[k].bytes))
  {
    SpawnedLength(events, first);
    match events[0]
    case RecvFromError =>
      SpawnedAt(events[1..], first, k);
    case Datagram(_, _) =>
      if k > 0 {
        SpawnedAt(events[1..], (first + 1) % U64_MODULUS, k - 1);
        WrapAdd(first + 1, k - 1);
      }
  }

  /** Reducing modulo 2^64 before an addition does not change the reduced sum. */
  lemma WrapAdd(x: nat, j: nat)
    ensures (x % U64_MODULUS + j) % U64_MODULUS == (x + j) % U64_MODULUS
  {
    var q := x / U64_MODULUS;
    assert x == q * U64_MODULUS + x % U64_MODULUS;
    ModMultipleAdd(q, x % U64_MODULUS + j);
  }

  lemma {:induction false} ModMultipleAdd(q: nat, y: nat)
    ensures (q * U64_MODULUS + y) % U64_MODULUS == y % U64_MODULUS
  {
    if q > 0 {
      ModMultipleAdd(q - 1, y);
      assert q * U64_MODULUS + y == (q - 1) * U64_MODULUS + y + U64_MODULUS;
    }
  }

  /** Until the counter wraps, request numbers strictly increase in arrival order. */
  lemma SpawnedIdsIncrease(events: seq<RecvFromEvent>, first: nat)
    requires first < U64_MODULUS && first + |Datagrams(events)| <= U64_MODULUS
    ensures var sp := Spawned(events, first);
      forall j, k :: 0 <= j < k < |sp| ==> sp[j].id < sp[k].id
  {
    SpawnedAreDatagrams(events, first);
  }

  /** What one `request_handler` task ends with. */
  datatype HandlerOutcome =
    | NoReply                           // the upstream failed: logged, nothing sent
    | SendTo(peer: Peer, data: seq<Byte>) // `socket.send_to(&data, request.peer)`
    | Panicked                          // a message shorter than 2 bytes made a TXID slice panic

  /**
   * The effect of `request_handler` for a request whose upstream call
   * returned `result`: the TXID read from the downstream request is written
   * over the TXID of the upstream's answer.
   */
  function Reply<E>(request: Request, result: Result<seq<Byte>, E>): (o: HandlerOutcome)
    ensures o.SendTo? <==> |request.data| >= 2 && result.Ok? && |result.value| >= 2
    ensures o.NoReply? <==> |request.data| >= 2 && result.Err?
    ensures o.SendTo? ==>
      && o.peer == request.peer
      && |o.data| == |result.value|
      && TxidFromBinaryMessage(o.data) == TxidFromBinaryMessage(request.data)
      && o.data[2..] == result.value[2..]
  {
    if |request.data| < 2 then Panicked
    else
      var txid := TxidFromBinaryMessage(request.data);
      match result
      case Err(_) => NoReply
      case Ok(response) =>
        if |response| < 2 then Panicked
        else
          ReadAfterWrite(response, txid);
          SendTo(request.peer, WithTxid(response, txid))
  }

  /**
   * `request_handler`: capture the TXID, forward the request's bytes
   * unchanged, drop the request on an upstream error, otherwise copy the
   * answer (`to_vec`), overwrite its TXID in place and send it to the
   * peer recorded with the request.
   */
  method RequestHandler<E>(request: Request, upstream: seq<Byte> -> Result<seq<Byte>, E>)
      returns (o: HandlerOutcome)
    ensures o == Reply(request, upstream(request.data))
  {
    if |request.data| < 2 {
      return Panicked;
    }
    var txid := TxidFromBinaryMessage(request.data);
    var result := upstream(request.data);
    if result.Err? {
      return NoReply;
    }
    var response := result.value;
    if |response| < 2 {
      return Panicked;
    }
    var data := new Byte[|response|](i requires 0 <= i < |response| => response[i]);
    assert data[..] == response;
    WriteTxid(data, txid);
    o := SendTo(request.peer, data[..]);
  }
}
