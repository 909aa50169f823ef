/**
 * The UDP multiplexing client: one socket connected to the upstream, a table
 * of pending requests keyed by TXID, and a background task that correlates
 * inbound datagrams with the table.
 *
 * The oneshot channels that link a `resolve_raw` call with the receive task
 * are modelled as `channels`, indexed by `Handle`: a channel is created when
 * its request is registered and remembers the TXID it was registered under.
 * Sockets, timers and the scheduler are outside the model; their results
 * are supplied by the caller as events and outcomes.
 */
module Udp {
  import opened Proto
  import opened Sockets
  import opened Outcomes

  /** A completion handle: the index of the oneshot channel of one request. */
  type Handle = nat

  /** The state of a oneshot channel, as its receiving side would see it. */
  datatype ChannelState =
    | Waiting                    // nothing sent yet, receiver still alive
    | Sent(payload: seq<Byte>)   // the receive task sent a response
    | Closed                     // the receiver was consumed or dropped

  datatype Channel = Channel(txid: Txid, state: ChannelState)

  /** The client's shared state: the pending table and every channel created so far. */
  datatype Table = Table(pending: map<Txid, Handle>, channels: seq<Channel>)

  /**
   * Every pending entry points to an existing channel that was created for
   * that TXID and has not been answered. In particular no two entries share
   * a handle. Every answered channel holds a response carrying its own TXID.
   */
  ghost predicate WellFormed(s: Table) {
    && (forall t :: t in s.pending ==>
         && s.pending[t] < |s.channels|
         && s.channels[s.pending[t]].txid == t
         && !s.channels[s.pending[t]].state.Sent?)
    && AnswersMatch(s.channels)
  }

  /** No cross-delivery: a response sent on a channel carries that channel's TXID. */
  ghost predicate AnswersMatch(channels: seq<Channel>) {
    forall h :: 0 <= h < |channels| && channels[h].state.Sent? ==>
      && |channels[h].state.payload| >= 2
      && TxidFromBinaryMessage(channels[h].state.payload) == channels[h].txid
  }

  /** No entry of the table refers to handle `h`. */
  ghost predicate Released(s: Table, h: Handle) {
    forall t :: t in s.pending ==> s.pending[t] != h
  }

  /** Fewer than 65536 pending entries always leave a TXID free. */
  lemma FreeTxidExists(pending: map<Txid, Handle>)
    requires |pending| < 0x1_0000
    ensures exists t: Txid :: t !in pending
  {
    if forall t: Txid :: t in pending {
      var all := TxidsBelow(0x1_0000);
      assert all <= pending.Keys;
      SubsetCardinality(all, pending.Keys);
      assert false;
    }
  }

  /** The set of the TXIDs below `n`. */
  function TxidsBelow(n: nat): (r: set<Txid>)
    requires n <= 0x1_0000
    ensures |r| == n
    ensures forall t: Txid :: t in r <==> t < n
  {
    if n == 0 then {} else TxidsBelow(n - 1) + {n - 1}
  }

  lemma {:induction false} SubsetCardinality(a: set<Txid>, b: set<Txid>)
    requires a <= b
    ensures |a| <= |b|
    decreases |b|
  {
    if a != {} {
      var x :| x in a;
      SubsetCardinality(a - {x}, b - {x});
    }
  }

  /**
   * The TXID-selection loop of `new_pending_request`: draw candidates (the
   * successive `rng.gen()` values) until one is not a key of `pending`. The
   * draw is arbitrary here; the source's loop ends only once the generator
   * produces a free TXID, which `samples` is assumed to contain.
   */
  method PickUnusedTxid(pending: map<Txid, Handle>, samples: seq<Txid>) returns (txid: Txid)
    requires exists k :: 0 <= k < |samples| && samples[k] !in pending
    ensures txid !in pending
    ensures exists k :: 0 <= k < |samples| && samples[k] == txid
                        && forall j :: 0 <= j < k ==> samples[j] in pending
  {
    var i := 0;
    while samples[i] in pending
      invariant 0 <= i < |samples|
      invariant forall j :: 0 <= j < i ==> samples[j] in pending
      invariant exists k :: i <= k < |samples| && samples[k] !in pending
      decreases |samples| - i
    {
      i := i + 1;
    }
    txid := samples[i];
  }

  /**
   * Registration (`pending.insert(txid, sender)` with a fresh channel): the
   * table gains exactly one entry, for a TXID that was free.
   */
  function Register(s: Table, txid: Txid): (r: Table)
    requires WellFormed(s) && txid !in s.pending
    ensures WellFormed(r)
    ensures r.pending.Keys == s.pending.Keys + {txid} && |r.pending| == |s.pending| + 1
    ensures r.pending[txid] == |s.channels| && forall t :: t in s.pending ==> r.pending[t] == s.pending[t]
    ensures r.channels == s.channels + [Channel(txid, Waiting)]
  {
    Table(s.pending[txid := |s.channels|], s.channels + [Channel(txid, Waiting)])
  }

  /** `sender.send(Ok(data))`: taken by a live receiver, ignored by a dropped one. */
  function Offer(c: Channel, payload: seq<Byte>): (r: Channel)
    ensures r.txid == c.txid
    ensures c.state.Waiting? ==> r.state == Sent(payload)
    ensures !c.state.Waiting? ==> r == c
  {
    if c.state.Waiting? then c.(state := Sent(payload)) else c
  }

  /**
   * One received datagram in `receive_task`: remove the entry for its TXID
   * and deliver the bytes to that entry's channel; a datagram whose TXID is
   * not pending leaves everything as it was.
   */
  function Dispatch(s: Table, data: seq<Byte>): (r: Table)
    requires WellFormed(s) && |data| >= 2
    ensures WellFormed(r) && |r.channels| == |s.channels|
    ensures TxidFromBinaryMessage(data) !in s.pending ==> r == s
    ensures var t := TxidFromBinaryMessage(data);
      t in s.pending ==>
        && r.pending.Keys == s.pending.Keys - {t}
        && (forall u :: u in r.pending ==> r.pending[u] == s.pending[u])
        && r.channels[s.pending[t]].txid == s.channels[s.pending[t]].txid
        && r.channels[s.pending[t]].state ==
             (if s.channels[s.pending[t]].state.Waiting? then Sent(data) else s.channels[s.pending[t]].state)
        && (forall h :: 0 <= h < |s.channels| && h != s.pending[t] ==> r.channels[h] == s.channels[h])
  {
    var t := TxidFromBinaryMessage(data);
    if t in s.pending then
      var h := s.pending[t];
      Table(s.pending - {t}, s.channels[h := Offer(s.channels[h], data)])
    else
      s
  }

  /**
   * The failure paths of `resolve_raw` after a successful send (lines
   * 129-140): the receiver is dropped and `pending.remove(&txid)` runs for
   * the TXID the request was registered under.
   */
  function Abandon(s: Table, h: Handle): (r: Table)
    requires WellFormed(s) && h < |s.channels|
    ensures WellFormed(r) && Released(r, h)
    ensures s.channels[h].txid !in r.pending
    ensures r.pending.Keys == s.pending.Keys - {s.channels[h].txid}
    ensures forall t :: t in r.pending ==> r.pending[t] == s.pending[t]
    ensures r.channels == s.channels[h := s.channels[h].(state := Closed)]
  {
    Table(s.pending - {s.channels[h].txid}, s.channels[h := s.channels[h].(state := Closed)])
  }

  /** Dropping a receiver keeps the table well-formed, whatever the entries. */
  lemma CloseKeepsWellFormed(s: Table, h: Handle)
    requires WellFormed(s) && h < |s.channels|
    ensures WellFormed(Table(s.pending, s.channels[h := s.channels[h].(state := Closed)]))
  {
  }

  /** What the background task can observe on one turn of its `select!`. */
  datatype RecvEvent =
    | Shutdown                   // the shutdown oneshot fired
    | RecvError                  // `socket.recv` failed
    | Datagram(bytes: seq<Byte>) // a datagram arrived from the upstream

  /** How a run of the receive loop over a sequence of events ends. */
  datatype LoopEnd =
    | ShutDown   // the loop broke on the shutdown signal
    | Panicked   // a datagram shorter than 2 bytes made the TXID read panic, ending the task
    | Exhausted  // every event was handled and the loop is still running

  /** The receive loop of `receive_task` over the events it observes, in order. */
  function RunReceive(s: Table, events: seq<RecvEvent>): (r: (Table, LoopEnd))
    requires WellFormed(s)
    ensures WellFormed(r.0) && |r.0.channels| == |s.channels|
    ensures forall h :: 0 <= h < |s.channels| ==> r.0.channels[h].txid == s.channels[h].txid
    decreases |events|
  {
    if events == [] then (s, Exhausted)
    else
      match events[0]
      case Shutdown => (s, ShutDown)
      case RecvError => RunReceive(s, events[1..])
      case Datagram(bytes) =>
        var data := Received(bytes);
        if |data| < 2 then (s, Panicked) else RunReceive(Dispatch(s, data), events[1..])
  }

  /**
   * The receive loop only ever removes entries, never adds or redirects one,
   * and never changes which TXID a channel belongs to.
   */
  lemma {:induction false} RunReceiveOnlyRemoves(s: Table, events: seq<RecvEvent>)
    requires WellFormed(s)
    ensures var r := RunReceive(s, events).0;
      && (forall t :: t in r.pending ==> t in s.pending && r.pending[t] == s.pending[t])
      && (forall h :: 0 <= h < |s.channels| ==> r.channels[h].txid == s.channels[h].txid)
    decreases |events|
  {
    if events != [] {
      match events[0]
      case Shutdown =>
      case RecvError => RunReceiveOnlyRemoves(s, events[1..]);
      case Datagram(bytes) =>
        var data := Received(bytes);
        if |data| >= 2 {
          RunReceiveOnlyRemoves(Dispatch(s, data), events[1..]);
        }
    }
  }

  /**
   * At-most-once, TXID-correlated delivery: a channel changes during
   * the receive loop only by going from waiting to answered, the answer is
   * a received datagram carrying that channel's TXID, the channel was the
   * one pending under that TXID, and the entry is gone afterwards.
   */
  lemma {:induction false} RunReceiveDeliversMatching(s: Table, events: seq<RecvEvent>)
    requires WellFormed(s)
    ensures var r := RunReceive(s, events).0;
      forall h :: 0 <= h < |s.channels| && r.channels[h] != s.channels[h] ==>
        && s.channels[h].state.Waiting?
        && r.channels[h].state.Sent?
        && |r.channels[h].state.payload| >= 2
        && TxidFromBinaryMessage(r.channels[h].state.payload) == s.channels[h].txid
        && (exists i :: 0 <= i < |events| && events[i].Datagram? && Received(events[i].bytes) == r.channels[h].state.payload)
        && s.channels[h].txid in s.pending && s.pending[s.channels[h].txid] == h
        && s.channels[h].txid !in r.pending
    decreases |events|
  {
    if events != [] {
      match events[0]
      case Shutdown =>
      case RecvError =>
        var r := RunReceive(s, events).0;
        RunReceiveDeliversMatching(s, events[1..]);
        forall h | 0 <= h < |s.channels| && r.channels[h] != s.channels[h]
          ensures exists i :: 0 <= i < |events| && events[i].Datagram? && Received(events[i].bytes) == r.channels[h].state.payload
        {
          var i :| 0 <= i < |events[1..]| && events[1..][i].Datagram? && Received(events[1..][i].bytes) == r.channels[h].state.payload;
          assert events[i + 1] == events[1..][i];
        }
      case Datagram(bytes) =>
        var data := Received(bytes);
        if |data| >= 2 {
          var s1 := Dispatch(s, data);
          var r := RunReceive(s1, events[1..]).0;
          RunReceiveDeliversMatching(s1, events[1..]);
          RunReceiveOnlyRemoves(s1, events[1..]);
          forall h | 0 <= h < |s.channels| && r.channels[h] != s.channels[h]
            ensures s.channels[h].state.Waiting? && r.channels[h].state.Sent?
            ensures |r.channels[h].state.payload| >= 2
            ensures TxidFromBinaryMessage(r.channels[h].state.payload) == s.channels[h].txid
            ensures exists i :: 0 <= i < |events| && events[i].Datagram? && Received(events[i].bytes) == r.channels[h].state.payload
            ensures s.channels[h].txid in s.pending && s.pending[s.channels[h].txid] == h
            ensures s.channels[h].txid !in r.pending
          {
            if s1.channels[h] != s.channels[h] {
              // answered by this datagram; a later event cannot touch it again
              assert r.channels[h] == s1.channels[h];
              assert events[0].Datagram? && Received(events[0].bytes) == data;
            } else {
              var i :| 0 <= i < |events[1..]| && events[1..][i].Datagram? && Received(events[1..][i].bytes) == r.channels[h].state.payload;
              assert events[i + 1] == events[1..][i];
            }
          }
        }
    }
  }

  /**
   * Every entry the receive loop removes was answered, unless its receiver
   * had already gone away (the send on a dropped oneshot is ignored).
   */
  lemma {:induction false} RunReceiveRemovesOnlyAnswered(s: Table, events: seq<RecvEvent>)
    requires WellFormed(s)
    ensures var r := RunReceive(s, events).0;
      forall t :: t in s.pending && t !in r.pending ==>
        r.channels[s.pending[t]].state.Sent? || s.channels[s.pending[t]].state.Closed?
    decreases |events|
  {
    if events != [] {
      match events[0]
      case Shutdown =>
      case RecvError => RunReceiveRemovesOnlyAnswered(s, events[1..]);
      case Datagram(bytes) =>
        var data := Received(bytes);
        if |data| >= 2 {
          var s1 := Dispatch(s, data);
          RunReceiveRemovesOnlyAnswered(s1, events[1..]);
          RunReceiveDeliversMatching(s1, events[1..]);
        }
    }
  }

  /** An unsolicited datagram is dropped and the loop goes on with the next event. */
  lemma UnsolicitedIgnored(s: Table, bytes: seq<Byte>, rest: seq<RecvEvent>)
    requires WellFormed(s)
    requires |Received(bytes)| >= 2 && TxidFromBinaryMessage(Received(bytes)) !in s.pending
    ensures RunReceive(s, [Datagram(bytes)] + rest) == RunReceive(s, rest)
  {
    assert ([Datagram(bytes)] + rest)[1..] == rest;
  }

  /** A receive error is logged and the loop goes on with the next event. */
  lemma RecvErrorIgnored(s: Table, rest: seq<RecvEvent>)
    requires WellFormed(s)
    ensures RunReceive(s, [RecvError] + rest) == RunReceive(s, rest)
  {
    assert ([RecvError] + rest)[1..] == rest;
  }

  /** The entry is removed by TXID alone, so a removal is idempotent. */
  lemma AbandonIdempotent(s: Table, h: Handle)
    requires WellFormed(s) && h < |s.channels|
    ensures Abandon(Abandon(s, h), h) == Abandon(s, h)
  {
  }

  /**
   * Because the cleanup on timeout removes whatever entry is under the
   * request's TXID, it can remove the entry of a later request that reused
   * that TXID: request 0 is answered by the receive task, request 1
   * registers the same TXID, and request 0's timeout (which won the race
   * against its delivery) then removes request 1's entry.
   */
  lemma AbandonCanEvictReusedTxid()
    ensures var s0 := Table(map[], []);
      var s1 := Register(s0, 5);
      var s2 := Dispatch(s1, [0, 5, 0x81, 0x80]);
      var s3 := Register(s2, 5);
      var s4 := Abandon(s3, 0);
      && s3.pending == map[5 := 1]
      && s4.pending == map[]
      && s4.channels[1].state.Waiting?
  {
    var s0 := Table(map[], []);
    var s1 := Register(s0, 5);
    assert TxidFromBinaryMessage([0, 5, 0x81, 0x80]) == 5;
  }

  /**
   * The other side of the same reuse: a request times out, a later request
   * draws the same TXID, and the first request's late answer is delivered
   * to the later one. Delivery matches by TXID, not by request.
   */
  lemma LateAnswerReachesReusedTxid()
    ensures var s0 := Table(map[], []);
      var s1 := Register(s0, 5);
      var s2 := Abandon(s1, 0);
      var s3 := Register(s2, 5);
      var s4 := Dispatch(s3, [0, 5, 0xAA, 0xBB]);
      && s3.pending == map[5 := 1]
      && s4.pending == map[]
      && s4.channels[0].state.Closed?
      && s4.channels[1] == Channel(5, Sent([0, 5, 0xAA, 0xBB]))
  {
    assert TxidFromBinaryMessage([0, 5, 0xAA, 0xBB]) == 5;
  }

  /** What ends the wait of `timeout(timeout_duration, receiver)` in `resolve_raw`. */
  datatype WaitOutcome =
    | Delivered      // the receive task's value was ready
    | SenderDropped  // the channel closed without a value
    | TimedOut       // the 5-second deadline passed first

  datatype UdpError = SendFailed | ReceiveFailed | Timeout

  /**
   * The client object: `UdpClient` together with the `UdpClientInner` it
   * shares with its receive task.
   */
  class UdpClient {
    var pending: map<Txid, Handle>
    var channels: seq<Channel>
    /** `shutdown_tx` still holds its sender. */
    var shutdownTx: bool
    /** The background receive task has not exited. */
    var receiving: bool

    function State(): Table
      reads this
    {
      Table(pending, channels)
    }

    ghost predicate Valid()
      reads this
    {
      WellFormed(State())
    }

    /** `UdpClient::new` once the socket is bound and connected: empty table, task spawned. */
    constructor ()
      ensures Valid()
      ensures pending == map[] && channels == [] && shutdownTx && receiving
    {
      pending := map[];
      channels := [];
      shutdownTx := true;
      receiving := true;
    }

    /**
     * `new_pending_request`: pick a TXID that is not pending and insert it
     * with a fresh channel, under the lock, before anything is sent.
     */
    method NewPendingRequest(samples: seq<Txid>) returns (txid: Txid, h: Handle)
      requires Valid()
      requires exists k :: 0 <= k < |samples| && samples[k] !in pending
      modifies this
      ensures Valid()
      ensures txid !in old(pending) && h == |old(channels)|
      ensures State() == Register(old(State()), txid)
      ensures shutdownTx == old(shutdownTx) && receiving == old(receiving)
    {
      txid := PickUnusedTxid(pending, samples);
      h := |channels|;
      ghost var next := Register(State(), txid);
      channels := channels + [Channel(txid, Waiting)];
      pending := pending[txid := h];
      assert State() == next;
    }

    /**
     * The first half of `resolve_raw`: register, overwrite the request's
     * TXID with the registered one, send. `sendOk` is what
     * `socket.send` reports. When it fails the `?` returns at once: the
     * receiver is dropped but the pending entry stays in the table.
     */
    method ResolveSend(request: seq<Byte>, samples: seq<Txid>, sendOk: bool)
        returns (txid: Txid, h: Handle, datagram: seq<Byte>, r: Option<UdpError>)
      requires Valid()
      requires |request| >= 2
      requires exists k :: 0 <= k < |samples| && samples[k] !in pending
      modifies this
      ensures Valid()
      ensures txid !in old(pending) && h == |old(channels)|
      ensures datagram == WithTxid(request, txid)
      ensures pending == old(pending)[txid := h]
      ensures channels == old(channels) + [Channel(txid, if sendOk then Waiting else Closed)]
      ensures r == if sendOk then None else Some(SendFailed)
      ensures shutdownTx == old(shutdownTx) && receiving == old(receiving)
    {
      txid, h := NewPendingRequest(samples);
      var data := new Byte[|request|](i requires 0 <= i < |request| => request[i]);
      assert data[..] == request;
      WriteTxid(data, txid);
      datagram := data[..];
      if !sendOk {
        CloseKeepsWellFormed(State(), h);
        channels := channels[h := channels[h].(state := Closed)];
        return txid, h, datagram, Some(SendFailed);
      }
      r := None;
    }

    /**
     * The second half of `resolve_raw`: the wait on the receiver and the
     * cleanup after either failed outcome. Each receiver is awaited once,
     * after its request was sent.
     */
    method AwaitResponse(h: Handle, outcome: WaitOutcome) returns (r: Result<seq<Byte>, UdpError>)
      requires Valid() && h < |channels| && !channels[h].state.Closed?
      requires outcome.Delivered? ==> channels[h].state.Sent?
      requires outcome.SenderDropped? ==> !channels[h].state.Sent?
      modifies this
      ensures Valid()
      ensures Released(State(), h)
      ensures outcome.Delivered? ==>
        r == Ok(old(channels[h].state.payload)) && pending == old(pending)
        && |r.value| >= 2 && TxidFromBinaryMessage(r.value) == old(channels[h].txid)
        && channels == old(channels[h := channels[h].(state := Closed)])
      ensures !outcome.Delivered? ==>
        r == Err(if outcome.TimedOut? then Timeout else ReceiveFailed)
        && State() == Abandon(old(State()), h)
      ensures shutdownTx == old(shutdownTx) && receiving == old(receiving)
    {
      match outcome
      case Delivered =>
        r := Ok(channels[h].state.payload);
        channels := channels[h := channels[h].(state := Closed)];
      case SenderDropped =>
        pending := pending - {channels[h].txid};
        channels := channels[h := channels[h].(state := Closed)];
        r := Err(ReceiveFailed);
      case TimedOut =>
        pending := pending - {channels[h].txid};
        channels := channels[h := channels[h].(state := Closed)];
        r := Err(Timeout);
    }

    /**
     * `receive_task`, run by the still-running task over the events it
     * observes next. The shutdown signal can only fire once `Drop` has sent
     * it, that is once `shutdown_tx` was taken.
     */
    method ReceiveTask(events: seq<RecvEvent>) returns (end: LoopEnd)
      requires Valid() && receiving
      requires forall i :: 0 <= i < |events| && events[i].Shutdown? ==> !shutdownTx
      modifies this
      ensures Valid()
      ensures (State(), end) == RunReceive(old(State()), events)
      ensures receiving == end.Exhausted? && shutdownTx == old(shutdownTx)
    {
      var i := 0;
      while i < |events|
        invariant 0 <= i <= |events|
        invariant Valid() && receiving && shutdownTx == old(shutdownTx)
        invariant RunReceive(old(State()), events) == RunReceive(State(), events[i..])
      {
        ghost var before := State();
        assert events[i..][1..] == events[i + 1..];
        match events[i] {
          case Shutdown =>
            receiving := false;
            return ShutDown;
          case RecvError =>
          case Datagram(bytes) =>
            var data := Received(bytes);
            if |data| < 2 {
              receiving := false;
              return Panicked;
            }
            var txid := TxidFromBinaryMessage(data);
            if txid in pending {
              var h := pending[txid];
              pending := pending - {txid};
              if channels[h].state.Waiting? {
                channels := channels[h := Channel(txid, Sent(data))];
              }
            }
            assert State() == Dispatch(before, data);
        }
        i := i + 1;
      }
      end := Exhausted;
    }

    /** `Drop`: take the shutdown sender and fire it, once. */
    method Drop()
      requires shutdownTx
      modifies this
      ensures !shutdownTx
      ensures pending == old(pending) && channels == old(channels) && receiving == old(receiving)
    {
      shutdownTx := false;
    }
  }
}
