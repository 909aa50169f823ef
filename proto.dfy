/**
 * The transaction-ID codec: the 16-bit DNS header ID (section 4.1.1 of
 * RFC 1035) stored big-endian in bytes 0 and 1 of a wire-format message.
 */
module Proto {

  type Byte = b: int | 0 <= b < 0x100

  /** A `u16` transaction ID. */
  type Txid = t: int | 0 <= t < 0x1_0000

  /** `u16::to_be_bytes`: high byte first. */
  function ToBeBytes(t: Txid): (b: seq<Byte>)
    ensures |b| == 2 && 0x100 * (b[0] as int) + b[1] == t
  {
    [t / 0x100, t % 0x100]
  }

  /**
   * `txid_from_binary_message`: bytes 0..2 read as a big-endian `u16`. The
   * Rust slice `message[0..2]` panics on a shorter message, so callers must
   * supply at least two bytes.
   */
  function TxidFromBinaryMessage(message: seq<Byte>): (t: Txid)
    requires |message| >= 2
    ensures ToBeBytes(t) == message[..2]
  {
    0x100 * (message[0] as int) + message[1]
  }

  /**
   * The message after `message[0..2].copy_from_slice(&t.to_be_bytes())`, the
   * in-place TXID write repeated in the UDP client, the DoH client and the
   * resolver.
   */
  function WithTxid(message: seq<Byte>, t: Txid): (m: seq<Byte>)
    requires |message| >= 2
    ensures |m| == |message|
    ensures m[..2] == ToBeBytes(t) && m[2..] == message[2..]
  {
    ToBeBytes(t) + message[2..]
  }

  /** The in-place write itself, on a mutable buffer of at least two bytes. */
  method WriteTxid(data: array<Byte>, t: Txid)
    requires data.Length >= 2
    modifies data
    ensures data[..] == WithTxid(old(data[..]), t)
  {
    var bytes := ToBeBytes(t);
    data[0] := bytes[0];
    data[1] := bytes[1];
    assert data[..] == bytes + old(data[..])[2..];
  }

  /** Reading back a written TXID gives that TXID. */
  lemma ReadAfterWrite(message: seq<Byte>, t: Txid)
    requires |message| >= 2
    ensures TxidFromBinaryMessage(WithTxid(message, t)) == t
  {
    ToBeBytesInjective(TxidFromBinaryMessage(WithTxid(message, t)), t);
  }

  /** Writing back the TXID just read leaves the message as it was. */
  lemma WriteOwnTxid(message: seq<Byte>)
    requires |message| >= 2
    ensures WithTxid(message, TxidFromBinaryMessage(message)) == message
  {
    assert message == message[..2] + message[2..];
  }

  /** Only bytes 0 and 1 determine the TXID. */
  lemma TxidDependsOnHeaderOnly(m1: seq<Byte>, m2: seq<Byte>)
    requires |m1| >= 2 && |m2| >= 2
    ensures TxidFromBinaryMessage(m1) == TxidFromBinaryMessage(m2) <==> m1[..2] == m2[..2]
  {
    if m1[..2] == m2[..2] {
      assert m1[0] == m2[0] && m1[1] == m2[1];
    } else {
      ToBeBytesInjective(TxidFromBinaryMessage(m1), TxidFromBinaryMessage(m2));
    }
  }

  /** A later write overrides an earlier one. */
  lemma WriteTwice(message: seq<Byte>, t1: Txid, t2: Txid)
    requires |message| >= 2
    ensures WithTxid(WithTxid(message, t1), t2) == WithTxid(message, t2)
  {
  }

  /** Distinct TXIDs have distinct encodings. */
  lemma ToBeBytesInjective(t1: Txid, t2: Txid)
    ensures ToBeBytes(t1) == ToBeBytes(t2) ==> t1 == t2
  {
  }
}
