/** The transmit path up to the batcher's channel. */
module TxEncode {
  import opened Bytes
  import opened ProtoError
  import opened PacketBuffers
  import opened TunnelHandles
  import Gre
  import Etherip

  /** The header the tunnel's address family calls for. */
  function Header(tunnelId: u16, remote: IpAddr, payloadLen: u16): seq<byte>
    requires remote.V6? ==> tunnelId <= Etherip.MAX_EOIPV6_TUNNEL_ID
  {
    if remote.V6? then Etherip.EtheripHeader(tunnelId) else Gre.EoipHeader(tunnelId, payloadLen)
  }

  /** An id above twelve bits cannot be encoded for an IPv6 peer. */
  predicate Encodable(tunnelId: u16, remote: IpAddr) {
    remote.V6? ==> tunnelId <= Etherip.MAX_EOIPV6_TUNNEL_ID
  }

  datatype TxResult = Packet(buf: PacketBuf, dest: IpAddr) | ReadError | EncodeError

  /** A header spliced in at `lo`, read together with the n bytes behind it. */
  lemma HeaderInFront(before: seq<byte>, after: seq<byte>, lo: nat, h: seq<byte>, n: nat)
    requires lo + |h| + n <= |before| && after == before[..lo] + h + before[lo + |h|..]
    ensures after[lo..lo + (|h| + n)] == h + before[lo + |h|..lo + |h| + n]
  {
  }

  /** `prepend_header`, then the encoder writes into the headroom: the frame is not moved. */
  method EncodeInPlace(tunnelId: u16, remote: IpAddr, buf: PacketBuf) returns (ok: bool)
    requires buf.Usable() && buf.head == HEADER_HEADROOM
    modifies buf`head, buf`len, buf.data
    ensures buf.Usable() && buf.data == old(buf.data)
    ensures ok <==> Encodable(tunnelId, remote)
    ensures ok ==> buf.Slice() == Header(tunnelId, remote, |old(buf.Slice())|) + old(buf.Slice())
  {
    var n := buf.len;
    var hdrLen := if remote.V6? then Etherip.ETHERIP_HEADER_LEN else Gre.EOIP_HEADER_LEN;
    buf.PrependHeader(hdrLen);
    ghost var was := buf.data[..];
    assert was[HEADER_HEADROOM..HEADER_HEADROOM + n] == old(buf.Slice());
    var r: Result<()>;
    if remote.V6? {
      r := Etherip.EncodeEoipv6Header(tunnelId, buf.data, buf.head, buf.head + hdrLen);
    } else {
      r := Gre.EncodeEoipHeader(tunnelId, n, buf.data, buf.head, buf.head + hdrLen);
    }
    ok := r.Ok?;
    if ok {
      HeaderInFront(was, buf.data[..], buf.head, Header(tunnelId, remote, n), n);
    }
  }

  /** The buffer drawn for a read that fails goes straight back. */
  method ReadFailed(pool: BufferPool)
    requires pool.Valid() && pool.Conserved()
    modifies pool
    ensures pool.Valid() && pool.Conserved()
    ensures Took(old(pool.pooled), old(pool.standalone), pool.pooled, pool.standalone, None)
  {
    var unused := pool.Get();
    pool.DropTaken(unused, old(pool.pooled), old(pool.standalone));
  }

  /** One pass of the TAP reader: `tapRead` is what the device returned (`None` for an error), at most a full
      payload area. Statistics count the frame even when its header cannot be encoded. */
  method ReadAndEncode(tapRead: Option<seq<byte>>, handle: TunnelHandle, pool: BufferPool, nowMs: int)
    returns (r: TxResult)
    requires pool.Valid() && pool.Conserved()
    requires tapRead.Some? ==> |tapRead.value| <= MAX_FRAME_SIZE
    modifies pool, if pool.queue == [] then {} else {pool.queue[0].data}
    modifies handle`txPackets, handle`txBytes, handle`lastTx
    ensures pool.Valid() && pool.Conserved()
    ensures if tapRead.None? then r == ReadError
            else if !Encodable(handle.tunnelId, handle.remote) then r == EncodeError
            else r.Packet? && r.dest == handle.remote && r.buf in pool.Live() && r.buf.Usable()
                 && r.buf.Slice() == Header(handle.tunnelId, handle.remote, |tapRead.value|) + tapRead.value
    ensures Took(old(pool.pooled), old(pool.standalone), pool.pooled, pool.standalone,
                 if r.Packet? then Some(r.buf) else None)
    ensures r.Packet? ==> fresh(r.buf)
    ensures if tapRead.None? then unchanged(handle)
            else handle.txPackets == old(handle.txPackets) + 1
                 && handle.txBytes == old(handle.txBytes) + |tapRead.value|
                 && handle.lastTx == if old(handle.txPackets) % 64 == 0 then nowMs else old(handle.lastTx)
  {
    if tapRead.None? {
      ReadFailed(pool);
      return ReadError;
    }
    handle.CountSent(|tapRead.value|, nowMs);
    r := Encapsulate(handle.tunnelId, handle.remote, tapRead.value, pool);
  }

  /** The read into a drawn buffer, then the header in front of it. */
  method Encapsulate(tunnelId: u16, remote: IpAddr, frame: seq<byte>, pool: BufferPool) returns (r: TxResult)
    requires pool.Valid() && pool.Conserved() && |frame| <= MAX_FRAME_SIZE
    modifies pool, if pool.queue == [] then {} else {pool.queue[0].data}
    ensures pool.Valid() && pool.Conserved()
    ensures if Encodable(tunnelId, remote)
            then r.Packet? && r.dest == remote && r.buf in pool.Live() && r.buf.Usable()
                 && r.buf.Slice() == Header(tunnelId, remote, |frame|) + frame
                 && fresh(r.buf)
            else r == EncodeError
    ensures Took(old(pool.pooled), old(pool.standalone), pool.pooled, pool.standalone,
                 if r.Packet? then Some(r.buf) else None)
  {
    var buf := pool.GetFilled(frame);
    r := Encoded(tunnelId, remote, buf, pool, old(pool.pooled), old(pool.standalone));
  }

  /** Writing a header into a live buffer concerns nothing but that buffer. */
  method EncodeLive(tunnelId: u16, remote: IpAddr, buf: PacketBuf, pool: BufferPool) returns (ok: bool)
    requires pool.Valid() && buf in pool.Live() && buf.Usable() && buf.head == HEADER_HEADROOM
    modifies buf`head, buf`len, buf.data
    ensures pool.Valid() && buf.Usable() && buf.data == old(buf.data)
    ensures ok <==> Encodable(tunnelId, remote)
    ensures ok ==> buf.Slice() == Header(tunnelId, remote, |old(buf.Slice())|) + old(buf.Slice())
  {
    ok := EncodeInPlace(tunnelId, remote, buf);
  }

  /** The end of the pass: a buffer whose header cannot be encoded is dropped on the way out. */
  method Encoded(tunnelId: u16, remote: IpAddr, buf: PacketBuf, pool: BufferPool, ghost pooled0: set<PacketBuf>,
                 ghost standalone0: set<PacketBuf>) returns (r: TxResult)
    requires Took(pooled0, standalone0, pool.pooled, pool.standalone, Some(buf))
    requires buf !in pooled0 && buf !in standalone0
    requires pool.Valid() && pool.Conserved()
    requires buf in pool.Live() && buf.Usable() && buf.head == HEADER_HEADROOM
    modifies pool, buf, buf.data
    ensures pool.Valid() && pool.Conserved()
    ensures if Encodable(tunnelId, remote)
            then r == Packet(buf, remote) && buf in pool.Live() && buf.Usable()
                 && buf.Slice() == Header(tunnelId, remote, |old(buf.Slice())|) + old(buf.Slice())
            else r == EncodeError
    ensures Took(pooled0, standalone0, pool.pooled, pool.standalone, if r.Packet? then Some(buf) else None)
  {
    var ok := EncodeLive(tunnelId, remote, buf, pool);
    if !ok {
      pool.DropTaken(buf, pooled0, standalone0);
      return EncodeError;
    }
    return Packet(buf, remote);
  }

  /** The eight-byte scratch buffer holds the header alone; the first two bytes of it are sent to an IPv6 peer. */
  method KeepaliveBytes(tunnelId: u16, remote: IpAddr) returns (sent: Option<seq<byte>>)
    ensures sent == if Encodable(tunnelId, remote) then Some(Header(tunnelId, remote, 0)) else None
  {
    var hdrBuf := new byte[8](_ => 0);
    if remote.V6? {
      var r := Etherip.EncodeEoipv6Header(tunnelId, hdrBuf, 0, Etherip.ETHERIP_HEADER_LEN);
      if r.Err? {
        return None;
      }
      assert hdrBuf[..][..2] == Etherip.EtheripHeader(tunnelId);
      return Some(hdrBuf[..2]);
    } else {
      var r := Gre.EncodeEoipHeader(tunnelId, 0, hdrBuf, 0, 8);
      if r.Err? {
        return None;
      }
      assert hdrBuf[..] == Gre.EoipHeader(tunnelId, 0);
      return Some(hdrBuf[..]);
    }
  }
}
