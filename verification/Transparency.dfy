/** What one end sends, the other end delivers. */
module Transparency {
  import opened Bytes
  import opened ProtoError
  import opened Gre
  import opened Etherip
  import opened PacketBuffers
  import opened TunnelHandles
  import opened Rx
  import opened TxEncode

  /** An IPv4 header (RFC 791, section 3.1): IHL words long, the source address in bytes 12 to 15. */
  predicate IpHeader(h: seq<byte>, src: seq<byte>) {
    20 <= |h| <= 60 && |h| == h[0] % 0x10 * 4 && h[12..16] == src
  }

  /** The receive path sees exactly the tunnel id, the source, and all bytes behind the EoIP header. */
  lemma ParsesBackV4(h: seq<byte>, src: seq<byte>, tunnelId: u16, announced: u16, rest: seq<byte>)
    requires IpHeader(h, src)
    ensures ParseV4(h + EoipHeader(tunnelId, announced) + rest)
         == Some(Arrival(DemuxKey(tunnelId, V4(src)), announced == 0, rest))
  {
    var e := EoipHeader(tunnelId, announced);
    var packet := h + e + rest;
    assert packet[|h|..] == e + rest;
    assert packet[12..16] == h[12..16];
    EoipCodecBijection(e + rest, tunnelId, announced);
    assert (e + rest)[8..] == rest;
  }

  lemma ParsesBackV6(src: IpAddr, tunnelId: u16, rest: seq<byte>)
    requires tunnelId <= MAX_EOIPV6_TUNNEL_ID
    ensures ParseV6(EtheripHeader(tunnelId) + rest, src) == Some(Arrival(DemuxKey(tunnelId, src), false, rest))
  {
    var packet := EtheripHeader(tunnelId) + rest;
    EtheripCodecBijection(packet, tunnelId);
    assert packet[2..] == rest;
  }

  /** Some bytes up to the length that the IHL nibble gives, an EoIP header, and the delivered rest. (The nibble is
      not checked against its minimum of 5.) */
  predicate LaidOutV4(packet: seq<byte>, a: Arrival, announced: u16) {
    && |packet| >= 20
    && a.key.peer == V4(packet[12..16]) && a.announcesNothing == (announced == 0)
    && packet[0] % 0x10 * 4 <= |packet|
    && packet[packet[0] % 0x10 * 4..] == EoipHeader(a.key.tunnelId, announced) + a.frame
  }

  lemma LaidOutParses(packet: seq<byte>, a: Arrival, announced: u16)
    requires LaidOutV4(packet, a, announced)
    ensures ParseV4(packet) == Some(a)
  {
    var data := packet[packet[0] % 0x10 * 4..];
    EoipCodecBijection(data, a.key.tunnelId, announced);
    assert data[8..] == a.frame;
  }

  lemma ParsedIsLaidOut(packet: seq<byte>, a: Arrival) returns (announced: u16)
    requires ParseV4(packet) == Some(a)
    ensures LaidOutV4(packet, a, announced)
  {
    var data := packet[packet[0] % 0x10 * 4..];
    announced := DecodeEoipHeader(data).value.1;
    EoipCodecBijection(data, a.key.tunnelId, announced);
    assert data == EoipHeader(a.key.tunnelId, announced) + data[8..];
  }

  /** The IPv4 receive path accepts exactly the packets laid out this way. */
  lemma ParseV4Exact(packet: seq<byte>, a: Arrival)
    ensures ParseV4(packet) == Some(a) <==> exists announced: u16 :: LaidOutV4(packet, a, announced)
  {
    if ParseV4(packet) == Some(a) {
      var announced := ParsedIsLaidOut(packet, a);
    }
    forall announced: u16 | LaidOutV4(packet, a, announced)
      ensures ParseV4(packet) == Some(a)
    {
      LaidOutParses(packet, a, announced);
    }
  }

  /** And the IPv6 receive path exactly those made of a twelve-bit id's header and the frame; whatever starts otherwise,
      with another version for instance, is dropped. */
  lemma ParseV6Exact(packet: seq<byte>, src: IpAddr, a: Arrival)
    ensures ParseV6(packet, src) == Some(a)
      <==> && a.key.peer == src && !a.announcesNothing && a.key.tunnelId <= 4095
           && packet == EtheripHeader(a.key.tunnelId) + a.frame
  {
    EtheripCodecBijection(packet, a.key.tunnelId);
    if ParseV6(packet, src) == Some(a) {
      assert packet == packet[..2] + a.frame;
    } else if a.key.tunnelId <= 4095 && packet == EtheripHeader(a.key.tunnelId) + a.frame {
      assert packet[2..] == a.frame;
    }
  }

  /** In bytes: the first byte's low nibble is the version 3, its high nibble and the second byte are the id. */
  lemma ParseV6OnBytes(packet: seq<byte>, src: IpAddr)
    ensures ParseV6(packet, src)
         == if |packet| < 2 || packet[0] % 16 != 3 then None
            else Some(Arrival(DemuxKey(NibbleId(packet[0], packet[1]), src), false, packet[2..]))
  {
  }

  /** Frame transparency over IPv4, trailing link padding included: the receiver of (tunnelId, src) counts the packet
      and queues the frame followed by the padding, cut to a full payload area. The frame arrives unchanged exactly
      when there is no padding or no room for it; a zero-length frame is never queued. */
  lemma TransparencyV4(v: RxView, room: nat, stamp: int, h: seq<byte>, src: seq<byte>, peer: IpAddr, tunnelId: u16,
                       frame: seq<byte>, padding: seq<byte>)
    requires IpHeader(h, src) && peer.V4? && |frame| <= MAX_FRAME_SIZE
    ensures var packet := h + Header(tunnelId, peer, |frame|) + frame + padding;
      && ParseV4(packet).Some? && ParseV4(packet).value.key == DemuxKey(tunnelId, V4(src))
      && var after := Received(v, room, ParseV4(packet).value, stamp);
      && after.rxPackets == v.rxPackets + 1 && after.rxBytes == v.rxBytes + |frame| + |padding|
      && (frame == [] ==> after.frames == v.frames && after.rxErrors == v.rxErrors)
      && (frame != [] && |v.frames| >= room ==> after.frames == v.frames && after.rxErrors == v.rxErrors + 1)
      && (frame != [] && |v.frames| < room ==>
            && after.frames == v.frames + [Truncated(frame + padding)]
            && (after.frames == v.frames + [frame] <==> padding == [] || |frame| == MAX_FRAME_SIZE))
  {
    var packet := h + Header(tunnelId, peer, |frame|) + frame + padding;
    assert packet == h + EoipHeader(tunnelId, |frame|) + (frame + padding);
    ParsesBackV4(h, src, tunnelId, |frame|, frame + padding);
    TruncationKeeps(frame, padding);
    LastOf(v.frames, Truncated(frame + padding));
    LastOf(v.frames, frame);
  }

  lemma TruncationKeeps(frame: seq<byte>, padding: seq<byte>)
    requires |frame| <= MAX_FRAME_SIZE
    ensures Truncated(frame + padding) == frame <==> padding == [] || |frame| == MAX_FRAME_SIZE
  {
    if padding == [] {
      assert frame + padding == frame;
    } else if |frame| == MAX_FRAME_SIZE {
      assert (frame + padding)[..MAX_FRAME_SIZE] == frame;
    } else {
      assert |Truncated(frame + padding)| > |frame|;
    }
  }

  /** A frame is cut to the 1522 bytes of a payload area, at its end. */
  lemma TruncatedIsPrefix(frame: seq<byte>)
    ensures Truncated(frame) <= frame && |Truncated(frame)| == if |frame| <= 1522 then |frame| else 1522
  {
  }

  lemma LastOf<T>(xs: seq<T>, x: T)
    ensures (xs + [x])[|xs|] == x
  {
  }

  /** Frame transparency over IPv6, for the twelve-bit ids that the configuration admits. */
  lemma TransparencyV6(v: RxView, room: nat, stamp: int, src: IpAddr, peer: IpAddr, tunnelId: u16, frame: seq<byte>)
    requires peer.V6? && tunnelId <= MAX_EOIPV6_TUNNEL_ID && |frame| <= MAX_FRAME_SIZE
    ensures var packet := Header(tunnelId, peer, |frame|) + frame;
      && ParseV6(packet, src).Some? && ParseV6(packet, src).value.key == DemuxKey(tunnelId, src)
      && Received(v, room, ParseV6(packet, src).value, stamp)
         == var counted := v.(rxPackets := v.rxPackets + 1, rxBytes := v.rxBytes + |frame|, lastRx := stamp);
            if frame == [] then counted
            else if |v.frames| < room then counted.(frames := v.frames + [frame])
            else counted.(rxErrors := v.rxErrors + 1)
  {
    ParsesBackV6(src, tunnelId, frame);
  }

  /** A keepalive is counted and refreshes the timestamp, and nothing else happens. Over IPv4, where the header
      announces the length, that holds padded or not; over IPv6 it holds if and only if there is no padding. */
  lemma KeepaliveIsQuiet(v: RxView, room: nat, stamp: int, h: seq<byte>, src: seq<byte>, peer: IpAddr, tunnelId: u16,
                         padding: seq<byte>)
    requires IpHeader(h, src) && Encodable(tunnelId, peer)
    ensures peer.V4? ==> var a := ParseV4(h + Header(tunnelId, peer, 0) + padding);
              a.Some? && !CarriesFrame(a.value) && Received(v, room, a.value, stamp).frames == v.frames
    ensures peer.V6? ==> var a := ParseV6(Header(tunnelId, peer, 0), V6(src));
              a.Some? && !CarriesFrame(a.value) && Received(v, room, a.value, stamp).frames == v.frames
    ensures peer.V6? ==> var a := ParseV6(Header(tunnelId, peer, 0) + padding, V6(src));
              && a.Some? && (CarriesFrame(a.value) <==> padding != [])
              && (padding == [] ==> Received(v, room, a.value, stamp).frames == v.frames)
  {
    if peer.V4? {
      ParsesBackV4(h, src, tunnelId, 0, padding);
    } else {
      ParsesBackV6(V6(src), tunnelId, padding);
      ParsesBackV6(V6(src), tunnelId, []);
      assert EtheripHeader(tunnelId) + [] == EtheripHeader(tunnelId);
    }
  }

  /** The IP header in front of the bytes of a buffer. */
  function OnTheWire(h: seq<byte>, hdr: seq<byte>, frame: seq<byte>, bytes: seq<byte>): (packet: seq<byte>)
    requires bytes == hdr + frame
    ensures packet == h + hdr + frame + []
  {
    h + bytes
  }

  /** The sending end over IPv4: TAP read, header written in place, and the IP header the kernel puts in front. */
  method SendV4(frame: seq<byte>, sender: TunnelHandle, pool: BufferPool, h: seq<byte>, nowMs: int)
    returns (packet: seq<byte>)
    requires 0 < |frame| <= MAX_FRAME_SIZE && sender.remote.V4?
    requires pool.Valid() && pool.Conserved()
    modifies pool, Storage(pool), sender`txPackets, sender`txBytes, sender`lastTx
    ensures pool.Valid() && pool.Conserved()
    ensures packet == h + Header(sender.tunnelId, sender.remote, |frame|) + frame + []
  {
    var sent := ReadAndEncode(Some(frame), sender, pool, nowMs);
    packet := OnTheWire(h, Header(sender.tunnelId, sender.remote, |frame|), frame, sent.buf.Slice());
  }

  /** The receiving end: the frame of a packet made by the sending end is queued byte for byte on the handle that is
      registered under (tunnelId, src), if its channel has room. The modifies clause names no other handle. */
  method ReceiveV4(packet: seq<byte>, receiver: RxPath, reading: int, h: seq<byte>, src: seq<byte>, tunnelId: u16,
                   peer: IpAddr, frame: seq<byte>)
    requires 0 < |frame| <= MAX_FRAME_SIZE && IpHeader(h, src) && peer.V4?
    requires packet == h + Header(tunnelId, peer, |frame|) + frame + []
    requires receiver.pool.Valid() && receiver.pool.Conserved()
    requires DemuxKey(tunnelId, V4(src)) in receiver.registry
    modifies receiver.pool, Storage(receiver.pool), receiver.clock, receiver.registry[DemuxKey(tunnelId, V4(src))]
    ensures receiver.pool.Valid() && receiver.pool.Conserved()
    ensures var g := receiver.registry[DemuxKey(tunnelId, V4(src))];
      && g.rxPackets == old(g.rxPackets) + 1
      && g.channel == if old(|g.channel|) < g.room then old(g.channel) + [frame] else old(g.channel)
  {
    ghost var g := receiver.registry[DemuxKey(tunnelId, V4(src))];
    assert packet[..|packet|] == packet;
    assert receiver.Target(ParseV4(packet)) == {g} by {
      TransparencyV4(g.View(), g.room, 0, h, src, peer, tunnelId, frame, []);
    }
    ghost var _ := receiver.ProcessV4Packet(packet, |packet|, reading);
    TransparencyV4(old(g.View()), g.room, receiver.clock.cached, h, src, peer, tunnelId, frame, []);
  }

  /** Both ends together. */
  method EndToEndV4(frame: seq<byte>, sender: TunnelHandle, senderPool: BufferPool, h: seq<byte>, src: seq<byte>,
                    receiver: RxPath, nowMs: int, reading: int)
    requires 0 < |frame| <= MAX_FRAME_SIZE && sender.remote.V4? && IpHeader(h, src)
    requires senderPool.Valid() && senderPool.Conserved() && receiver.pool.Valid() && receiver.pool.Conserved()
    requires senderPool != receiver.pool && Storage(senderPool) !! Storage(receiver.pool)
    requires DemuxKey(sender.tunnelId, V4(src)) in receiver.registry
    modifies senderPool, Storage(senderPool), sender`txPackets, sender`txBytes, sender`lastTx
    modifies receiver.pool, Storage(receiver.pool), receiver.clock
    modifies receiver.registry[DemuxKey(sender.tunnelId, V4(src))]
    ensures var g := receiver.registry[DemuxKey(sender.tunnelId, V4(src))];
      g.channel == if old(|g.channel|) < g.room then old(g.channel) + [frame] else old(g.channel)
  {
    var packet := SendV4(frame, sender, senderPool, h, nowMs);
    ReceiveV4(packet, receiver, reading, h, src, sender.tunnelId, sender.remote, frame);
  }

  /** The sending end over IPv6, for an id that can be encoded; the raw socket strips the IP header on the way in. */
  method SendV6(frame: seq<byte>, sender: TunnelHandle, pool: BufferPool, nowMs: int) returns (packet: seq<byte>)
    requires 0 < |frame| <= MAX_FRAME_SIZE && sender.remote.V6? && sender.tunnelId <= MAX_EOIPV6_TUNNEL_ID
    requires pool.Valid() && pool.Conserved()
    modifies pool, Storage(pool), sender`txPackets, sender`txBytes, sender`lastTx
    ensures pool.Valid() && pool.Conserved()
    ensures packet == Header(sender.tunnelId, sender.remote, |frame|) + frame
  {
    var sent := ReadAndEncode(Some(frame), sender, pool, nowMs);
    packet := sent.buf.Slice();
  }

  method ReceiveV6(packet: seq<byte>, receiver: RxPath, reading: int, src: IpAddr, tunnelId: u16, peer: IpAddr,
                   frame: seq<byte>)
    requires 0 < |frame| <= MAX_FRAME_SIZE && peer.V6? && tunnelId <= MAX_EOIPV6_TUNNEL_ID
    requires packet == Header(tunnelId, peer, |frame|) + frame
    requires receiver.pool.Valid() && receiver.pool.Conserved()
    requires DemuxKey(tunnelId, src) in receiver.registry
    modifies receiver.pool, Storage(receiver.pool), receiver.clock, receiver.registry[DemuxKey(tunnelId, src)]
    ensures receiver.pool.Valid() && receiver.pool.Conserved()
    ensures var g := receiver.registry[DemuxKey(tunnelId, src)];
      && g.rxPackets == old(g.rxPackets) + 1
      && g.channel == if old(|g.channel|) < g.room then old(g.channel) + [frame] else old(g.channel)
  {
    ghost var g := receiver.registry[DemuxKey(tunnelId, src)];
    assert packet[..|packet|] == packet;
    assert receiver.Target(ParseV6(packet, src)) == {g} by {
      TransparencyV6(g.View(), g.room, 0, src, peer, tunnelId, frame);
    }
    ghost var _ := receiver.ProcessV6Packet(packet, |packet|, src, reading);
    TransparencyV6(old(g.View()), g.room, receiver.clock.cached, src, peer, tunnelId, frame);
  }

  method EndToEndV6(frame: seq<byte>, sender: TunnelHandle, senderPool: BufferPool, src: IpAddr, receiver: RxPath,
                    nowMs: int, reading: int)
    requires 0 < |frame| <= MAX_FRAME_SIZE && sender.remote.V6? && sender.tunnelId <= MAX_EOIPV6_TUNNEL_ID
    requires senderPool.Valid() && senderPool.Conserved() && receiver.pool.Valid() && receiver.pool.Conserved()
    requires senderPool != receiver.pool && Storage(senderPool) !! Storage(receiver.pool)
    requires DemuxKey(sender.tunnelId, src) in receiver.registry
    modifies senderPool, Storage(senderPool), sender`txPackets, sender`txBytes, sender`lastTx
    modifies receiver.pool, Storage(receiver.pool), receiver.clock
    modifies receiver.registry[DemuxKey(sender.tunnelId, src)]
    ensures var g := receiver.registry[DemuxKey(sender.tunnelId, src)];
      g.channel == if old(|g.channel|) < g.room then old(g.channel) + [frame] else old(g.channel)
  {
    var packet := SendV6(frame, sender, senderPool, nowMs);
    ReceiveV6(packet, receiver, reading, src, sender.tunnelId, sender.remote, frame);
  }
}
