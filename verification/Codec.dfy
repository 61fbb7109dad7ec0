/** What the protocol crate reports when it refuses a packet. */
module ProtoError {
  import opened Bytes

  datatype EoipError =
    | PacketTooShort(got: nat, need: nat)
    | TunnelIdOutOfRange(id: u16, max: u16)
    | PayloadTooLarge(size: nat, limit: nat)
    | PayloadTooSmall(size: nat, min: nat)
    | InvalidMagicBytes(magic: seq<byte>)
    | InvalidVersion(expected: byte, version: byte)
    | InvalidEtherIpHeader(len: nat, declared: nat)

  datatype Result<+T> = Ok(value: T) | Err(error: EoipError) {
    predicate IsFailure() { Err? }

    function PropagateFailure<U>(): Result<U>
      requires Err?
    {
      Err(error)
    }

    function Extract(): T
      requires Ok?
    {
      value
    }
  }
}

/** The EoIP header over IPv4: fixed magic, big-endian length, little-endian tunnel id. */
module Gre {
  import opened Bytes
  import opened ProtoError

  const EOIP_MAGIC: seq<byte> := [0x20, 0x01, 0x64, 0x00]
  const EOIP_HEADER_LEN := 8
  const MIN_ETHERNET_FRAME := 14

  /** The eight header bytes as docs/design/protocol.md lays them out. */
  function EoipHeader(tunnelId: u16, payloadLen: u16): (h: seq<byte>)
    ensures |h| == EOIP_HEADER_LEN
  {
    EOIP_MAGIC + Be16(payloadLen) + Le16(tunnelId)
  }

  /** Writes into the slice buf[lo..hi] and nowhere else. */
  method EncodeEoipHeader(tunnelId: u16, payloadLen: u16, buf: array<byte>, lo: nat, hi: nat) returns (r: Result<()>)
    requires lo <= hi <= buf.Length
    modifies buf
    ensures r == if hi - lo < EOIP_HEADER_LEN then Err(PacketTooShort(hi - lo, EOIP_HEADER_LEN)) else Ok(())
    ensures buf[..] == if r.Err? then old(buf[..])
                       else old(buf[..][..lo]) + EoipHeader(tunnelId, payloadLen) + old(buf[..][lo + EOIP_HEADER_LEN..])
  {
    if hi - lo < EOIP_HEADER_LEN {
      return Err(PacketTooShort(hi - lo, EOIP_HEADER_LEN));
    }
    buf[lo], buf[lo + 1], buf[lo + 2], buf[lo + 3] := EOIP_MAGIC[0], EOIP_MAGIC[1], EOIP_MAGIC[2], EOIP_MAGIC[3];
    buf[lo + 4], buf[lo + 5] := payloadLen / 0x100, payloadLen % 0x100;
    buf[lo + 6], buf[lo + 7] := tunnelId % 0x100, tunnelId / 0x100;
    Spliced(old(buf[..]), buf[..], lo, EoipHeader(tunnelId, payloadLen));
    return Ok(());
  }

  function DecodeEoipHeader(buf: seq<byte>): Result<(u16, u16, nat)> {
    if |buf| < EOIP_HEADER_LEN then Err(PacketTooShort(|buf|, EOIP_HEADER_LEN))
    else if buf[0..4] != EOIP_MAGIC then Err(InvalidMagicBytes(buf[0..4]))
    else Ok((FromLe16(buf[6], buf[7]), FromBe16(buf[4], buf[5]), EOIP_HEADER_LEN))
  }

  function ValidateEoipPacket(buf: seq<byte>, ipPayloadLen: nat): Result<()> {
    var (_, payloadLen, _) :- DecodeEoipHeader(buf);
    if payloadLen != 0 && payloadLen < MIN_ETHERNET_FRAME then Err(PayloadTooSmall(payloadLen, MIN_ETHERNET_FRAME))
    else if ipPayloadLen < EOIP_HEADER_LEN then Err(PacketTooShort(ipPayloadLen, EOIP_HEADER_LEN))
    else if payloadLen > ipPayloadLen - EOIP_HEADER_LEN then
      Err(PayloadTooLarge(payloadLen, ipPayloadLen - EOIP_HEADER_LEN))
    else if |buf| < EOIP_HEADER_LEN + payloadLen then Err(PacketTooShort(|buf|, EOIP_HEADER_LEN + payloadLen))
    else Ok(())
  }

  /** Decoding and encoding are inverse: a buffer decodes to (t, p) exactly when it starts with the header of (t, p). */
  lemma EoipCodecBijection(buf: seq<byte>, tunnelId: u16, payloadLen: u16)
    ensures DecodeEoipHeader(buf) == Ok((tunnelId, payloadLen, EOIP_HEADER_LEN))
      <==> EoipHeader(tunnelId, payloadLen) <= buf
  {
    var h := EoipHeader(tunnelId, payloadLen);
    if h <= buf {
      assert forall i :: 0 <= i < 8 ==> buf[i] == h[i];
      assert buf[0..4] == EOIP_MAGIC;
    }
    if DecodeEoipHeader(buf) == Ok((tunnelId, payloadLen, EOIP_HEADER_LEN)) {
      assert buf[..8] == buf[0..4] + [buf[4], buf[5], buf[6], buf[7]];
      assert h == buf[..8];
    }
  }

  /** Two bytes as a number, the more significant one given first. */
  function Word(hi: int, lo: int): u16
    requires 0 <= hi < 0x100 && 0 <= lo < 0x100
  {
    hi * 256 + lo
  }

  /** The decoder on bytes: the magic 20 01 64 00, the length most significant byte first, the id least significant byte
      first; and what it says about a buffer it refuses. */
  lemma EoipOnBytes(buf: seq<byte>)
    ensures |buf| < 8 ==> DecodeEoipHeader(buf) == Err(PacketTooShort(|buf|, 8))
    ensures |buf| >= 8 && buf[..4] != [0x20, 0x01, 0x64, 0x00] ==>
              DecodeEoipHeader(buf) == Err(InvalidMagicBytes(buf[..4]))
    ensures |buf| >= 8 && buf[..4] == [0x20, 0x01, 0x64, 0x00] ==>
              DecodeEoipHeader(buf) == Ok((Word(buf[7], buf[6]), Word(buf[4], buf[5]), 8))
  {
  }

  /** Decoding fails only for a short buffer or a foreign magic; otherwise some (t, p) comes back. */
  lemma EoipDecodeTotal(buf: seq<byte>)
    ensures DecodeEoipHeader(buf).Ok? <==> exists t: u16, p: u16 :: EoipHeader(t, p) <= buf
  {
    if DecodeEoipHeader(buf).Ok? {
      var (t, p, _) := DecodeEoipHeader(buf).value;
      EoipCodecBijection(buf, t, p);
    }
    forall t: u16, p: u16 | EoipHeader(t, p) <= buf
      ensures DecodeEoipHeader(buf).Ok?
    {
      EoipCodecBijection(buf, t, p);
    }
  }
}

/** The EtherIP header over IPv6 (RFC 3378 section 3) with the reserved bits carrying a 12-bit tunnel id. */
module Etherip {
  import opened Bytes
  import opened ProtoError

  const ETHERIP_VERSION: byte := 0x03
  const ETHERIP_HEADER_LEN := 2
  const MAX_EOIPV6_TUNNEL_ID: u16 := 4095
  const MIN_ETHERNET_FRAME := 14

  /** High nibble of the id beside the version nibble, then the low byte of the id. */
  function EtheripHeader(tunnelId: u16): (h: seq<byte>)
    requires tunnelId <= MAX_EOIPV6_TUNNEL_ID
    ensures |h| == ETHERIP_HEADER_LEN
  {
    [tunnelId / 0x100 * 0x10 + ETHERIP_VERSION, tunnelId % 0x100]
  }

  /** The shifts and masks of the source compute exactly these quotients and remainders, when packing... */
  lemma NibblePacking(tunnelId: bv16, tidHi: bv8)
    requires tunnelId <= 4095 && tidHi <= 15
    ensures ((tunnelId & 0x0FFF) >> 8) as int == tunnelId as int / 0x100
    ensures ((tunnelId & 0x0FFF) & 0xFF) as int == tunnelId as int % 0x100
    ensures ((tidHi << 4) | 0x03) as int == tidHi as int * 0x10 + 0x03
  {
  }

  /** ...and when unpacking. */
  lemma NibbleUnpacking(b0: bv8, b1: bv8)
    ensures (b0 & 0x0F) as int == b0 as int % 0x10
    ensures (((b0 >> 4) as bv16 << 8) | b1 as bv16) as int == b0 as int / 0x10 * 0x100 + b1 as int
  {
  }

  method EncodeEoipv6Header(tunnelId: u16, buf: array<byte>, lo: nat, hi: nat) returns (r: Result<()>)
    requires lo <= hi <= buf.Length
    modifies buf
    ensures r == if tunnelId > MAX_EOIPV6_TUNNEL_ID then Err(TunnelIdOutOfRange(tunnelId, MAX_EOIPV6_TUNNEL_ID))
                 else if hi - lo < ETHERIP_HEADER_LEN then Err(PacketTooShort(hi - lo, ETHERIP_HEADER_LEN))
                 else Ok(())
    ensures buf[..] == if r.Err? then old(buf[..])
                       else old(buf[..][..lo]) + EtheripHeader(tunnelId) + old(buf[..][lo + ETHERIP_HEADER_LEN..])
  {
    if tunnelId > MAX_EOIPV6_TUNNEL_ID {
      return Err(TunnelIdOutOfRange(tunnelId, MAX_EOIPV6_TUNNEL_ID));
    }
    if hi - lo < ETHERIP_HEADER_LEN {
      return Err(PacketTooShort(hi - lo, ETHERIP_HEADER_LEN));
    }
    var tid := tunnelId % 0x1000;
    var tidHi, tidLo := tid / 0x100, tid % 0x100;
    buf[lo] := tidHi * 0x10 + ETHERIP_VERSION;
    buf[lo + 1] := tidLo;
    Spliced(old(buf[..]), buf[..], lo, EtheripHeader(tunnelId));
    return Ok(());
  }

  function DecodeEoipv6Header(buf: seq<byte>): Result<(u16, nat)> {
    if |buf| < ETHERIP_HEADER_LEN then Err(PacketTooShort(|buf|, ETHERIP_HEADER_LEN))
    else if buf[0] % 0x10 != ETHERIP_VERSION then Err(InvalidVersion(ETHERIP_VERSION, buf[0] % 0x10))
    else Ok((FromBe16(buf[0] / 0x10, buf[1]), ETHERIP_HEADER_LEN))
  }

  function ValidateEoipv6Packet(buf: seq<byte>, ipv6PayloadLen: nat): Result<()> {
    if |buf| < ETHERIP_HEADER_LEN + MIN_ETHERNET_FRAME then
      Err(PacketTooShort(|buf|, ETHERIP_HEADER_LEN + MIN_ETHERNET_FRAME))
    else if buf[0] % 0x10 != ETHERIP_VERSION then Err(InvalidVersion(ETHERIP_VERSION, buf[0] % 0x10))
    else if |buf| != ipv6PayloadLen then Err(InvalidEtherIpHeader(|buf|, ipv6PayloadLen))
    else Ok(())
  }

  /** High nibble and second byte as a number. */
  function NibbleId(b0: int, b1: int): u16
    requires 0 <= b0 < 0x100 && 0 <= b1 < 0x100
  {
    b0 / 16 * 256 + b1
  }

  /** The decoder on bytes: the low nibble of the first byte must be 3, the rest is the id. */
  lemma EtheripOnBytes(buf: seq<byte>)
    ensures |buf| < 2 ==> DecodeEoipv6Header(buf) == Err(PacketTooShort(|buf|, 2))
    ensures |buf| >= 2 && buf[0] % 16 != 3 ==> DecodeEoipv6Header(buf) == Err(InvalidVersion(3, buf[0] % 16))
    ensures |buf| >= 2 && buf[0] % 16 == 3 ==> DecodeEoipv6Header(buf) == Ok((NibbleId(buf[0], buf[1]), 2))
  {
  }

  /** Decoding inverts encoding on 12-bit ids, and every accepted header is the encoding of a 12-bit id. */
  lemma EtheripCodecBijection(buf: seq<byte>, tunnelId: u16)
    ensures DecodeEoipv6Header(buf) == Ok((tunnelId, ETHERIP_HEADER_LEN))
      <==> tunnelId <= MAX_EOIPV6_TUNNEL_ID && EtheripHeader(tunnelId) <= buf
  {
    if tunnelId <= MAX_EOIPV6_TUNNEL_ID && |buf| >= 2 {
      var h := EtheripHeader(tunnelId);
      assert h <= buf <==> h[0] == buf[0] && h[1] == buf[1] by {
        assert buf[..2] == [buf[0], buf[1]];
      }
    }
  }
}

/** The four-byte shim in front of either header when it travels inside UDP. */
module UdpShim {
  import opened Bytes
  import opened ProtoError

  const UDP_SHIM_MAGIC: seq<byte> := [0x45, 0x4F]
  const UDP_SHIM_HEADER_LEN := 4
  const INNER_EOIP: byte := 0x04
  const INNER_EOIPV6: byte := 0x06

  predicate KnownInner(innerType: byte) {
    innerType == INNER_EOIP || innerType == INNER_EOIPV6
  }

  function Shim(innerType: byte): seq<byte> {
    UDP_SHIM_MAGIC + [innerType, 0x00]
  }

  method EncodeUdpShim(innerType: byte, buf: array<byte>, lo: nat, hi: nat) returns (r: Result<()>)
    requires lo <= hi <= buf.Length
    modifies buf
    ensures r == if !KnownInner(innerType) then Err(InvalidVersion(INNER_EOIP, innerType))
                 else if hi - lo < UDP_SHIM_HEADER_LEN then Err(PacketTooShort(hi - lo, UDP_SHIM_HEADER_LEN))
                 else Ok(())
    ensures buf[..] == if r.Ok? then old(buf[..][..lo]) + Shim(innerType) + old(buf[..][lo + UDP_SHIM_HEADER_LEN..])
                       else old(buf[..])
  {
    if innerType != INNER_EOIP && innerType != INNER_EOIPV6 {
      return Err(InvalidVersion(INNER_EOIP, innerType));
    }
    if hi - lo < UDP_SHIM_HEADER_LEN {
      return Err(PacketTooShort(hi - lo, UDP_SHIM_HEADER_LEN));
    }
    buf[lo], buf[lo + 1] := UDP_SHIM_MAGIC[0], UDP_SHIM_MAGIC[1];
    buf[lo + 2] := innerType;
    buf[lo + 3] := 0x00;
    Spliced(old(buf[..]), buf[..], lo, Shim(innerType));
    return Ok(());
  }

  function DecodeUdpShim(buf: seq<byte>): Result<(byte, nat)> {
    if |buf| < UDP_SHIM_HEADER_LEN then Err(PacketTooShort(|buf|, UDP_SHIM_HEADER_LEN))
    else if buf[0..2] != UDP_SHIM_MAGIC then Err(InvalidMagicBytes([buf[0], buf[1], 0, 0]))
    else if buf[2] != INNER_EOIP && buf[2] != INNER_EOIPV6 then Err(InvalidVersion(INNER_EOIP, buf[2]))
    else Ok((buf[2], UDP_SHIM_HEADER_LEN))
  }

  /** The decoder on bytes: 45 4F, then 04 for EoIP or 06 for EtherIP, then any byte. */
  lemma ShimOnBytes(buf: seq<byte>)
    ensures |buf| < 4 ==> DecodeUdpShim(buf) == Err(PacketTooShort(|buf|, 4))
    ensures |buf| >= 4 && (buf[0] != 0x45 || buf[1] != 0x4F) ==>
              DecodeUdpShim(buf) == Err(InvalidMagicBytes([buf[0], buf[1], 0, 0]))
    ensures |buf| >= 4 && buf[0] == 0x45 && buf[1] == 0x4F ==>
              DecodeUdpShim(buf) == if buf[2] == 4 || buf[2] == 6 then Ok((buf[2], 4))
                                    else Err(InvalidVersion(4, buf[2]))
  {
    if |buf| >= 4 {
      assert buf[0..2] == [buf[0], buf[1]];
    }
  }

  /** What an encoder writes is what the decoder reads, for both types. */
  lemma ShimRoundTrip(innerType: byte, rest: seq<byte>)
    ensures DecodeUdpShim(Shim(innerType) + rest) == if KnownInner(innerType) then Ok((innerType, 4))
                                                     else Err(InvalidVersion(INNER_EOIP, innerType))
  {
    var buf := Shim(innerType) + rest;
    assert buf[0..2] == UDP_SHIM_MAGIC;
  }
}

/** The three receive-side validation pipelines of the protocol crate. */
module Proto {
  import opened Bytes
  import opened ProtoError
  import opened Gre
  import opened Etherip
  import opened UdpShim

  function ValidateAndParseEoip(buf: seq<byte>): Result<(u16, nat)> {
    var _ :- ValidateEoipPacket(buf, |buf|);
    var (tunnelId, _, hdrLen) :- DecodeEoipHeader(buf);
    Ok((tunnelId, hdrLen))
  }

  function ValidateAndParseEoipv6(buf: seq<byte>): Result<(u16, nat)> {
    var _ :- ValidateEoipv6Packet(buf, |buf|);
    var (tunnelId, hdrLen) :- DecodeEoipv6Header(buf);
    Ok((tunnelId, hdrLen))
  }

  function ValidateAndParseUdpEncap(buf: seq<byte>): Result<(u16, nat)> {
    var (innerType, shimLen) :- DecodeUdpShim(buf);
    var inner := buf[shimLen..];
    if innerType == INNER_EOIP then
      var (tunnelId, innerOffset) :- ValidateAndParseEoip(inner);
      Ok((tunnelId, shimLen + innerOffset))
    else
      assert innerType == INNER_EOIPV6; // so the third, `unreachable!` arm of the match is never taken
      var (tunnelId, innerOffset) :- ValidateAndParseEoipv6(inner);
      Ok((tunnelId, shimLen + innerOffset))
  }

  /** What the validator asks of a packet whose header is known. */
  lemma EoipDecided(buf: seq<byte>, tunnelId: u16, payloadLen: u16)
    requires DecodeEoipHeader(buf) == Ok((tunnelId, payloadLen, EOIP_HEADER_LEN))
    ensures ValidateAndParseEoip(buf).Ok? <==> payloadLen == 0 || 14 <= payloadLen <= |buf| - 8
    ensures ValidateAndParseEoip(buf).Ok? ==> ValidateAndParseEoip(buf).value == (tunnelId, 8)
  {
  }

  /** Which error the EoIP validator reports for a packet that starts with a header. */
  lemma EoipRefusal(buf: seq<byte>, tunnelId: u16, payloadLen: u16)
    requires EoipHeader(tunnelId, payloadLen) <= buf
    ensures 0 < payloadLen < 14 ==> ValidateAndParseEoip(buf) == Err(PayloadTooSmall(payloadLen, 14))
    ensures payloadLen >= 14 && payloadLen > |buf| - 8 ==>
              ValidateAndParseEoip(buf) == Err(PayloadTooLarge(payloadLen, |buf| - 8))
  {
    EoipCodecBijection(buf, tunnelId, payloadLen);
  }

  predicate StartsWith(buf: seq<byte>, tunnelId: u16, payloadLen: u16) {
    EoipHeader(tunnelId, payloadLen) <= buf
  }

  /** An EoIP packet passes exactly when it is a header, then at least the announced frame of zero or 14+ bytes. */
  lemma EoipAcceptance(buf: seq<byte>, tunnelId: u16, offset: nat)
    ensures ValidateAndParseEoip(buf) == Ok((tunnelId, offset))
      <==> offset == 8 && exists p: u16 :: StartsWith(buf, tunnelId, p) && (p == 0 || 14 <= p <= |buf| - 8)
  {
    if ValidateAndParseEoip(buf) == Ok((tunnelId, offset)) {
      var (t, p, _) := DecodeEoipHeader(buf).value;
      EoipDecided(buf, t, p);
      EoipCodecBijection(buf, t, p);
      assert StartsWith(buf, tunnelId, p);
    }
    forall p: u16 | StartsWith(buf, tunnelId, p) && (p == 0 || 14 <= p <= |buf| - 8)
      ensures ValidateAndParseEoip(buf) == Ok((tunnelId, 8))
    {
      EoipCodecBijection(buf, tunnelId, p);
      EoipDecided(buf, tunnelId, p);
    }
  }

  lemma Eoipv6Acceptance(buf: seq<byte>, tunnelId: u16, offset: nat)
    ensures ValidateAndParseEoipv6(buf) == Ok((tunnelId, offset))
      <==> offset == 2 && |buf| >= 16 && tunnelId <= 4095 && EtheripHeader(tunnelId) <= buf
  {
    EtheripCodecBijection(buf, tunnelId);
  }

  /** The shim adds four to the offset and nothing else: neither a new acceptance nor a new refusal,
      whatever the reserved byte holds. */
  lemma ShimNesting(innerType: byte, reserved: byte, p: seq<byte>, tunnelId: u16, offset: nat)
    ensures ValidateAndParseUdpEncap(UDP_SHIM_MAGIC + [innerType, reserved] + p) == Ok((tunnelId, offset))
      <==> offset >= 4 && ((innerType == INNER_EOIP && ValidateAndParseEoip(p) == Ok((tunnelId, offset - 4)))
                           || (innerType == INNER_EOIPV6 && ValidateAndParseEoipv6(p) == Ok((tunnelId, offset - 4))))
  {
    var buf := UDP_SHIM_MAGIC + [innerType, reserved] + p;
    assert buf[0..2] == UDP_SHIM_MAGIC;
    assert buf[4..] == p;
  }
}
