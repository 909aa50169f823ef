/** What a `recv`/`recv_from` into a freshly zeroed receive buffer yields. */
module Sockets {
  import opened Proto

  /** Both receive loops allocate `BytesMut::zeroed(1024)` for every datagram. */
  const RECV_BUFFER_SIZE: nat := 1024

  /**
   * The bytes kept after `recv` has written `n` bytes of `datagram` into the
   * receive buffer and `split_to(n)` has cut the buffer down to them. A
   * datagram longer than the buffer is truncated (the excess is discarded by
   * the socket layer).
   */
  function Received(datagram: seq<Byte>): (data: seq<Byte>)
    ensures |data| <= RECV_BUFFER_SIZE
    ensures |data| == if |datagram| <= RECV_BUFFER_SIZE then |datagram| else RECV_BUFFER_SIZE
    ensures data == datagram[..|data|]
  {
    if |datagram| <= RECV_BUFFER_SIZE then datagram else datagram[..RECV_BUFFER_SIZE]
  }
}
