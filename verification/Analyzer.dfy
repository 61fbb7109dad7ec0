/** The analyzer's conformance checks and decoders, which must agree with the daemon's validators. */
module AnalyzerDecode {
  import opened Bytes
  import opened ProtoError
  import opened Gre
  import opened Etherip
  import opened UdpShim
  import opened Proto

  datatype Severity = Warn | Severe

  datatype Deviation = Deviation(severity: Severity, field: string)

  function CheckEoipDeviations(magic: seq<byte>, payloadLen: u16, actualRemaining: nat): seq<Deviation> {
    (if magic != EOIP_MAGIC then [Deviation(Severe, "gre.magic")] else [])
    + (if payloadLen > 0 && payloadLen != actualRemaining
       then [Deviation(if payloadLen > actualRemaining then Severe else Warn, "gre.payload_len")] else [])
    + (if 0 < payloadLen < 14 then [Deviation(Severe, "gre.payload_len")] else [])
  }

  function CheckEoipv6Deviations(versionNibble: byte): seq<Deviation> {
    if versionNibble != 0x03 then [Deviation(Severe, "etherip.version")] else []
  }

  function CheckUdpShimDeviations(reserved: byte): seq<Deviation> {
    if reserved != 0 then [Deviation(Warn, "udp_shim.reserved")] else []
  }

  datatype Variant =
    | Eoip(payloadLen: u16)
    | EoipV6(versionNibble: byte)
    | UdpEncap(innerType: byte, reserved: byte, inner: Variant)
    | StandardGre
    | NonEoipUdp
    | Skipped(protocol: byte)

  /** What the decoders learn from a packet, or that they give up on it. */
  datatype Decoded =
    | Parsed(variant: Variant, tunnelId: u16, isKeepalive: bool, ethertype: Option<u16>, deviations: seq<Deviation>)
    | Refused

  /** The type of an Ethernet frame, behind its VLAN tag if it has one. */
  function Ethertype(frame: seq<byte>): Option<u16> {
    if |frame| < 14 then None
    else if FromBe16(frame[12], frame[13]) != 0x8100 then Some(FromBe16(frame[12], frame[13]))
    else if |frame| < 18 then None
    else Some(FromBe16(frame[16], frame[17]))
  }

  function DecodeEoip(payload: seq<byte>, deviations: seq<Deviation>): Decoded {
    if |payload| < 4 then Refused
    else if payload[0..4] != EOIP_MAGIC then
      Parsed(StandardGre, 0, false, None, deviations + [Deviation(Warn, "ip.protocol")])
    else
      match DecodeEoipHeader(payload)
      case Err(_) => Refused
      case Ok((tunnelId, payloadLen, _)) =>
        var frame := payload[EOIP_HEADER_LEN..];
        Parsed(Eoip(payloadLen), tunnelId, payloadLen == 0, if payloadLen != 0 then Ethertype(frame) else None,
               deviations + CheckEoipDeviations(payload[0..4], payloadLen, |frame|))
  }

  function DecodeEoipv6(payload: seq<byte>, deviations: seq<Deviation>): Decoded {
    if |payload| < 2 then Refused
    else
      match DecodeEoipv6Header(payload)
      case Err(_) => Refused
      case Ok((tunnelId, hdrLen)) =>
        var frame := payload[hdrLen..];
        Parsed(EoipV6(payload[0] % 0x10), tunnelId, frame == [], Ethertype(frame),
               deviations + CheckEoipv6Deviations(payload[0] % 0x10))
  }

  const UDP_HEADER_LEN := 8

  /** `payload` starts with the UDP header. */
  function DecodeUdp(payload: seq<byte>, port: u16): Decoded {
    if |payload| < UDP_HEADER_LEN then Refused
    else if FromBe16(payload[0], payload[1]) != port && FromBe16(payload[2], payload[3]) != port then
      Parsed(NonEoipUdp, 0, false, None, [])
    else
      var inside := payload[UDP_HEADER_LEN..];
      match DecodeUdpShim(inside)
      case Err(_) => Parsed(NonEoipUdp, 0, false, None, [])
      case Ok((innerType, shimLen)) =>
        var deviations := CheckUdpShimDeviations(inside[3]);
        var inner := if innerType == INNER_EOIP then DecodeEoip(inside[shimLen..], deviations)
                     else DecodeEoipv6(inside[shimLen..], deviations);
        if inner.Refused? then Refused else inner.(variant := UdpEncap(innerType, inside[3], inner.variant))
  }

  const PROTO_GRE: byte := 47
  const PROTO_ETHERIP: byte := 97
  const PROTO_UDP: byte := 17

  function DecodePacket(protocol: byte, payload: seq<byte>, port: u16): Decoded {
    if protocol == PROTO_GRE then DecodeEoip(payload, [])
    else if protocol == PROTO_ETHERIP then DecodeEoipv6(payload, [])
    else if protocol == PROTO_UDP then DecodeUdp(payload, port)
    else Parsed(Skipped(protocol), 0, false, None, [])
  }

  /** A keepalive never has an inner frame. */
  lemma KeepaliveHasNoFrame(protocol: byte, payload: seq<byte>, port: u16)
    ensures var d := DecodePacket(protocol, payload, port); d.Parsed? && d.isKeepalive ==> d.ethertype.None?
  {
  }

  const GRE_MAGIC: seq<byte> := [0x20, 0x01, 0x64, 0x00]

  /** The type of a frame is in bytes 12 and 13, or in 16 and 17 behind a VLAN tag, which starts with 81 00. */
  lemma EthertypeOnBytes(frame: seq<byte>)
    ensures |frame| < 14 ==> Ethertype(frame) == None
    ensures |frame| >= 14 && frame[12..14] != [0x81, 0x00] ==> Ethertype(frame) == Some(Word(frame[12], frame[13]))
    ensures |frame| >= 14 && frame[12..14] == [0x81, 0x00] ==>
              Ethertype(frame) == if |frame| < 18 then None else Some(Word(frame[16], frame[17]))
  {
    if |frame| >= 14 {
      assert frame[12..14] == [frame[12], frame[13]];
    }
  }

  /** Protocol 47 on bytes: another magic is standard GRE; EoIP is a keepalive exactly if it announces no bytes. */
  lemma EoipDecodedExactly(payload: seq<byte>, earlier: seq<Deviation>)
    ensures var d := DecodeEoip(payload, earlier);
      && (d.Refused? <==> |payload| < 4 || (|payload| < 8 && payload[..4] == GRE_MAGIC))
      && (d.Parsed? && payload[..4] != GRE_MAGIC ==>
            d == Parsed(StandardGre, 0, false, None, earlier + [Deviation(Warn, "ip.protocol")]))
      && (d.Parsed? && payload[..4] == GRE_MAGIC ==>
            && d.variant == Eoip(Word(payload[4], payload[5])) && d.tunnelId == Word(payload[7], payload[6])
            && (d.isKeepalive <==> payload[4] == 0 && payload[5] == 0)
            && d.ethertype == if d.isKeepalive then None else Ethertype(payload[8..]))
  {
    if |payload| >= 8 {
      EoipOnBytes(payload);
    }
  }

  /** Protocol 97 on bytes: another version is an error, and what is left never draws a deviation of its own; it is a
      keepalive exactly if nothing follows the header. */
  lemma Eoipv6DecodedExactly(payload: seq<byte>, earlier: seq<Deviation>)
    ensures var d := DecodeEoipv6(payload, earlier);
      if |payload| < 2 || payload[0] % 16 != 3 then d == Refused
      else d == Parsed(EoipV6(3), NibbleId(payload[0], payload[1]), |payload| == 2, Ethertype(payload[2..]), earlier)
  {
    assert earlier + [] == earlier;
  }

  /** Protocol 17: the UDP header names the port as source or destination. */
  predicate OnPort(h: seq<byte>, port: u16)
    requires |h| >= 4
  {
    Word(h[0], h[1]) == port || Word(h[2], h[3]) == port
  }

  /** Behind a shim a packet is decoded as it would be on its own, a reserved byte other than zero drawing a warning; a
      datagram that names another port, or has no shim, is not looked into. */
  lemma UdpDecodedExactly(h: seq<byte>, inside: seq<byte>, port: u16)
    requires |h| == 8
    ensures var d := DecodeUdp(h + inside, port);
      if |inside| < 4 || inside[..2] != [0x45, 0x4F] || inside[2] !in {4, 6} || !OnPort(h, port)
      then d == Parsed(NonEoipUdp, 0, false, None, [])
      else
        var earlier := if inside[3] == 0 then [] else [Deviation(Warn, "udp_shim.reserved")];
        var inner := if inside[2] == 4 then DecodeEoip(inside[4..], earlier) else DecodeEoipv6(inside[4..], earlier);
        d == if inner.Refused? then Refused else inner.(variant := UdpEncap(inside[2], inside[3], inner.variant))
  {
    var udp := h + inside;
    assert udp[8..] == inside;
    ShimOnBytes(inside);
    if |inside| >= 4 {
      assert inside[..2] == [inside[0], inside[1]];
    }
  }

  /** Each protocol reaches its own decoder. */
  lemma Dispatch(protocol: byte, payload: seq<byte>, port: u16)
    ensures DecodePacket(47, payload, port) == DecodeEoip(payload, [])
    ensures DecodePacket(97, payload, port) == DecodeEoipv6(payload, [])
    ensures DecodePacket(17, payload, port) == DecodeUdp(payload, port)
    ensures var d := DecodePacket(protocol, payload, port); d.Parsed? ==>
      && (d.variant.Eoip? || d.variant.StandardGre? <==> protocol == 47) && (d.variant.EoipV6? <==> protocol == 97)
      && (d.variant.UdpEncap? || d.variant.NonEoipUdp? <==> protocol == 17)
      && (d.variant.Skipped? ==> d == Parsed(Skipped(protocol), 0, false, None, []))
  {
  }

  predicate Reportable(x: Deviation) {
    || x.field == "gre.payload_len"
    || x in {Deviation(Warn, "udp_shim.reserved"), Deviation(Warn, "ip.protocol")}
  }

  predicate AllReportable(ds: seq<Deviation>) {
    forall i :: 0 <= i < |ds| ==> Reportable(ds[i])
  }

  lemma EoipReports(payload: seq<byte>, earlier: seq<Deviation>)
    requires AllReportable(earlier)
    ensures var d := DecodeEoip(payload, earlier); d.Parsed? ==> AllReportable(d.deviations)
  {
    if |payload| >= 8 && payload[0..4] == EOIP_MAGIC {
      EoipOnBytes(payload);
      LengthReports(Word(payload[4], payload[5]), |payload| - 8);
    }
  }

  lemma LengthReports(payloadLen: u16, remaining: nat)
    ensures AllReportable(CheckEoipDeviations(EOIP_MAGIC, payloadLen, remaining))
  {
  }

  /** The checks of the magic and of the version never report anything on a decoded packet, because the decoders turn
      away or reclassify what fails them; the length of an EoIP packet is the one thing ever called severe. */
  lemma OnlyTheLengthIsSevere(protocol: byte, payload: seq<byte>, port: u16)
    ensures var d := DecodePacket(protocol, payload, port); d.Parsed? ==> AllReportable(d.deviations)
  {
    Dispatch(protocol, payload, port);
    if protocol == 47 {
      EoipReports(payload, []);
    } else if protocol == 97 {
      Eoipv6DecodedExactly(payload, []);
    } else if protocol == 17 && |payload| >= 8 {
      var h, inside := payload[..8], payload[8..];
      assert payload == h + inside;
      UdpDecodedExactly(h, inside, port);
      if |inside| >= 4 {
        var earlier := if inside[3] == 0 then [] else [Deviation(Warn, "udp_shim.reserved")];
        EoipReports(inside[4..], earlier);
        Eoipv6DecodedExactly(inside[4..], earlier);
      }
    }
  }

  predicate NoSevere(ds: seq<Deviation>) {
    forall i :: 0 <= i < |ds| ==> ds[i].severity == Warn
  }

  lemma NoSevereAppend(xs: seq<Deviation>, ys: seq<Deviation>)
    ensures NoSevere(xs + ys) <==> NoSevere(xs) && NoSevere(ys)
  {
    if NoSevere(xs + ys) {
      assert forall i :: 0 <= i < |xs| ==> xs[i] == (xs + ys)[i];
      assert forall i :: 0 <= i < |ys| ==> ys[i] == (xs + ys)[|xs| + i];
    }
  }

  /** The analyzer takes the packet for EoIP of tunnel t and finds nothing severe. */
  predicate CleanEoip(d: Decoded, tunnelId: u16) {
    d.Parsed? && d.variant.Eoip? && d.tunnelId == tunnelId && NoSevere(d.deviations)
  }

  predicate CleanEoipV6(d: Decoded, tunnelId: u16) {
    d.Parsed? && d.variant.EoipV6? && d.tunnelId == tunnelId && NoSevere(d.deviations)
  }

  lemma EoipDeviationsExactly(payloadLen: u16, remaining: nat)
    ensures NoSevere(CheckEoipDeviations(EOIP_MAGIC, payloadLen, remaining))
      <==> payloadLen == 0 || 14 <= payloadLen <= remaining
    ensures CheckEoipDeviations(EOIP_MAGIC, payloadLen, remaining) == []
      <==> payloadLen == 0 || 14 <= payloadLen == remaining
  {
    var mismatch := if payloadLen > 0 && payloadLen != remaining
                    then [Deviation(if payloadLen > remaining then Severe else Warn, "gre.payload_len")] else [];
    var small := if 0 < payloadLen < 14 then [Deviation(Severe, "gre.payload_len")] else [];
    assert CheckEoipDeviations(EOIP_MAGIC, payloadLen, remaining) == mismatch + small;
    NoSevereAppend(mismatch, small);
    assert payloadLen > remaining ==> mismatch[0].severity == Severe;
    assert 0 < payloadLen < 14 ==> small[0].severity == Severe;
  }

  /** Two checkers agree on every buffer: the analyzer finds a clean EoIP packet of tunnel t exactly when the daemon's
      validator accepts the packet for tunnel t. Earlier warnings do not matter. */
  lemma EoipCheckersAgree(buf: seq<byte>, earlier: seq<Deviation>, tunnelId: u16)
    requires NoSevere(earlier)
    ensures CleanEoip(DecodeEoip(buf, earlier), tunnelId) <==> ValidateAndParseEoip(buf) == Ok((tunnelId, 8))
  {
    if DecodeEoipHeader(buf).Ok? {
      var (t, p, _) := DecodeEoipHeader(buf).value;
      NoSevereAppend(earlier, CheckEoipDeviations(EOIP_MAGIC, p, |buf| - 8));
      EoipDeviationsExactly(p, |buf| - 8);
    }
  }

  /** The analyzer and the validator disagree about tunnel t. */
  predicate V6Differs(buf: seq<byte>, earlier: seq<Deviation>, tunnelId: u16) {
    CleanEoipV6(DecodeEoipv6(buf, earlier), tunnelId) != (ValidateAndParseEoipv6(buf) == Ok((tunnelId, 2)))
  }

  /** On EtherIP the two disagree exactly on headers of version 3 followed by fewer than 14 bytes, among them the
      daemon's own keepalives: the analyzer finds nothing wrong with them, and the validator refuses them. */
  lemma Eoipv6CheckersDiffer(buf: seq<byte>, earlier: seq<Deviation>)
    requires NoSevere(earlier)
    ensures (exists t: u16 :: V6Differs(buf, earlier, t)) <==> 2 <= |buf| < 16 && buf[0] % 0x10 == 0x03
  {
    NoSevereAppend(earlier, []);
    assert earlier + [] == earlier;
    if |buf| >= 2 && buf[0] % 0x10 == 0x03 {
      var t := FromBe16(buf[0] / 0x10, buf[1]);
      assert CleanEoipV6(DecodeEoipv6(buf, earlier), t);
      assert |buf| >= 16 ==> ValidateAndParseEoipv6(buf) == Ok((t, 2));
      assert |buf| < 16 ==> V6Differs(buf, earlier, t);
    }
  }

  predicate CleanEncap(d: Decoded, tunnelId: u16) {
    d.Parsed? && d.variant.UdpEncap? && d.variant.inner.Eoip? && d.tunnelId == tunnelId && NoSevere(d.deviations)
  }

  /** The agreement holds through the UDP shim, on every datagram of the port and whatever the reserved byte, which only
      ever draws a warning. Offset 12 is that of EoIP behind a shim. */
  lemma EncapCheckersAgree(udp: seq<byte>, port: u16, tunnelId: u16)
    requires |udp| >= UDP_HEADER_LEN
    requires FromBe16(udp[0], udp[1]) == port || FromBe16(udp[2], udp[3]) == port
    ensures CleanEncap(DecodeUdp(udp, port), tunnelId)
      <==> ValidateAndParseUdpEncap(udp[UDP_HEADER_LEN..]) == Ok((tunnelId, 12))
  {
    var inside := udp[UDP_HEADER_LEN..];
    if DecodeUdpShim(inside).Ok? {
      EoipCheckersAgree(inside[4..], CheckUdpShimDeviations(inside[3]), tunnelId);
    }
  }

  predicate CleanEncapV6(d: Decoded, tunnelId: u16) {
    d.Parsed? && d.variant.UdpEncap? && d.variant.inner.EoipV6? && d.tunnelId == tunnelId && NoSevere(d.deviations)
  }

  predicate EncapV6Differs(udp: seq<byte>, port: u16, tunnelId: u16)
    requires |udp| >= UDP_HEADER_LEN
  {
    CleanEncapV6(DecodeUdp(udp, port), tunnelId)
    != (ValidateAndParseUdpEncap(udp[UDP_HEADER_LEN..]) == Ok((tunnelId, 6)))
  }

  lemma EncapV6DiffersInside(udp: seq<byte>, port: u16, tunnelId: u16)
    requires |udp| >= UDP_HEADER_LEN
    requires FromBe16(udp[0], udp[1]) == port || FromBe16(udp[2], udp[3]) == port
    ensures var inside := udp[UDP_HEADER_LEN..];
      EncapV6Differs(udp, port, tunnelId)
      <==> DecodeUdpShim(inside) == Ok((INNER_EOIPV6, 4))
           && V6Differs(inside[4..], CheckUdpShimDeviations(inside[3]), tunnelId)
  {
  }

  /** Behind the shim an inner EtherIP packet is judged as on its own: the two differ exactly on datagrams of the port
      that carry a version-3 header followed by fewer than 14 bytes. */
  lemma EncapV6CheckersDiffer(udp: seq<byte>, port: u16)
    requires |udp| >= UDP_HEADER_LEN
    requires FromBe16(udp[0], udp[1]) == port || FromBe16(udp[2], udp[3]) == port
    ensures (exists t: u16 :: EncapV6Differs(udp, port, t))
      <==> var inside := udp[UDP_HEADER_LEN..];
           && DecodeUdpShim(inside) == Ok((INNER_EOIPV6, 4))
           && 2 <= |inside[4..]| < 16 && inside[4] % 0x10 == 0x03
  {
    var inside := udp[UDP_HEADER_LEN..];
    forall t: u16
      ensures EncapV6Differs(udp, port, t)
        <==> DecodeUdpShim(inside) == Ok((INNER_EOIPV6, 4))
             && V6Differs(inside[4..], CheckUdpShimDeviations(inside[3]), t)
    {
      EncapV6DiffersInside(udp, port, t);
    }
    if DecodeUdpShim(inside) == Ok((INNER_EOIPV6, 4)) {
      Eoipv6CheckersDiffer(inside[4..], CheckUdpShimDeviations(inside[3]));
    }
  }
}

/** Session statistics, kept incrementally. */
module SessionStatistics {
  import opened Bytes
  import opened AnalyzerDecode

  /** A decoded packet with what the statistics use of its surroundings. */
  datatype Packet = Packet(parsed: Decoded, src: seq<byte>, dst: seq<byte>, rawLen: nat, timestamp: nat)

  const NO_PACKET := Packet(Parsed(StandardGre, 0, false, None, []), [], [], 0, 0)

  type DecodedPacket = p: Packet | p.parsed.Parsed? witness NO_PACKET

  /** One call on the statistics. */
  datatype Entry = Record(p: DecodedPacket) | Undecodable | NotParsed

  datatype Kind = KEoip | KEoipV6 | KUdp | KGre | KSkipped | KError

  function KindOf(e: Entry): Kind {
    match e
    case Undecodable => KError
    case NotParsed => KSkipped
    case Record(p) =>
      match p.parsed.variant
      case Eoip(_) => KEoip
      case EoipV6(_) => KEoipV6
      case UdpEncap(_, _, _) => KUdp
      case StandardGre => KGre
      case NonEoipUdp | Skipped(_) => KSkipped
  }

  /** The calls each counter is for. */
  predicate IsEoip(e: Entry) { e.Record? && e.p.parsed.variant.Eoip? }

  predicate IsEoipV6(e: Entry) { e.Record? && e.p.parsed.variant.EoipV6? }

  predicate IsUdpEncap(e: Entry) { e.Record? && e.p.parsed.variant.UdpEncap? }

  predicate IsStandardGre(e: Entry) { e.Record? && e.p.parsed.variant.StandardGre? }

  predicate IsSkipped(e: Entry) {
    e.NotParsed? || (e.Record? && (e.p.parsed.variant.NonEoipUdp? || e.p.parsed.variant.Skipped?))
  }

  predicate IsError(e: Entry) { e.Undecodable? }

  predicate OfTunnel(e: Entry) {
    IsEoip(e) || IsEoipV6(e) || IsUdpEncap(e)
  }

  function Before(log: seq<Entry>): seq<Entry>
    requires log != []
  {
    log[..|log| - 1]
  }

  function Latest(log: seq<Entry>): Entry
    requires log != []
  {
    log[|log| - 1]
  }

  function CountOf(log: seq<Entry>, counted: Entry -> bool): nat {
    if log == [] then 0 else CountOf(Before(log), counted) + if counted(Latest(log)) then 1 else 0
  }

  /** The packets of the log, or those of one tunnel. */
  function Packets(log: seq<Entry>): seq<DecodedPacket> {
    if log == [] then [] else Packets(Before(log)) + if Latest(log).Record? then [Latest(log).p] else []
  }

  function TunnelPackets(log: seq<Entry>): seq<DecodedPacket> {
    if log == [] then [] else TunnelPackets(Before(log)) + if OfTunnel(Latest(log)) then [Latest(log).p] else []
  }

  function WithId(ps: seq<DecodedPacket>, id: u16): seq<DecodedPacket> {
    if ps == [] then []
    else WithId(ps[..|ps| - 1], id) + if ps[|ps| - 1].parsed.tunnelId == id then [ps[|ps| - 1]] else []
  }

  /** A sum over packets. */
  function Total(ps: seq<DecodedPacket>, weight: DecodedPacket -> nat): nat {
    if ps == [] then 0 else Total(ps[..|ps| - 1], weight) + weight(ps[|ps| - 1])
  }

  function One(p: DecodedPacket): nat { 1 }

  function Keepalive(p: DecodedPacket): nat {
    if p.parsed.isKeepalive then 1 else 0
  }

  function RawLen(p: DecodedPacket): nat {
    p.rawLen
  }

  function Deviations(p: DecodedPacket): nat {
    |p.parsed.deviations|
  }

  function HasEthertype(p: DecodedPacket): nat {
    if p.parsed.ethertype.Some? then 1 else 0
  }

  datatype TunnelStats = TunnelStats(
    packetCount: nat, keepaliveCount: nat, byteCount: nat, peers: set<seq<byte>>, firstSeen: nat, lastSeen: nat,
    ethertypeCount: map<u16, nat>)

  function Peers(ps: seq<DecodedPacket>): set<seq<byte>> {
    if ps == [] then {} else Peers(ps[..|ps| - 1]) + {ps[|ps| - 1].src, ps[|ps| - 1].dst}
  }

  function Typed(ps: seq<DecodedPacket>, ethertype: u16): nat {
    if ps == [] then 0
    else Typed(ps[..|ps| - 1], ethertype) + if ps[|ps| - 1].parsed.ethertype == Some(ethertype) then 1 else 0
  }

  /** The counts by Ethernet type, with no entry for a type that never occurred. */
  predicate CountsTypes(counts: map<u16, nat>, ps: seq<DecodedPacket>) {
    forall t: u16 :: Typed(ps, t) == (if t in counts then counts[t] else 0) && (t in counts ==> counts[t] > 0)
  }

  /** One tunnel's statistics are those of its packets. */
  ghost predicate Describes(t: TunnelStats, ps: seq<DecodedPacket>) {
    && ps != []
    && t.packetCount == |ps| && t.keepaliveCount == Total(ps, Keepalive) && t.byteCount == Total(ps, RawLen)
    && t.peers == Peers(ps) && t.firstSeen == ps[0].timestamp && t.lastSeen == ps[|ps| - 1].timestamp
    && CountsTypes(t.ethertypeCount, ps)
  }

  /** A tunnel without packets has no entry; every other one is described by its entry. */
  ghost predicate TableOk(tunnels: map<u16, TunnelStats>, ps: seq<DecodedPacket>) {
    forall id: u16 :: EntryOk(tunnels, ps, id)
  }

  ghost predicate EntryOk(tunnels: map<u16, TunnelStats>, ps: seq<DecodedPacket>, id: u16) {
    if id in tunnels then Describes(tunnels[id], WithId(ps, id)) else WithId(ps, id) == []
  }

  function NewEntry(p: DecodedPacket): TunnelStats {
    TunnelStats(0, 0, 0, {}, p.timestamp, p.timestamp, map[])
  }

  function OneMore(t: TunnelStats, p: DecodedPacket): TunnelStats {
    t.(packetCount := t.packetCount + 1, byteCount := t.byteCount + p.rawLen, lastSeen := p.timestamp,
       peers := t.peers + {p.src} + {p.dst},
       keepaliveCount := t.keepaliveCount + Keepalive(p),
       ethertypeCount := if p.parsed.ethertype.Some? then Bumped(t.ethertypeCount, p.parsed.ethertype.value)
                         else t.ethertypeCount)
  }

  /** The entry of a packet's tunnel after that packet. */
  function Updated(tunnels: map<u16, TunnelStats>, p: DecodedPacket): TunnelStats {
    OneMore(if p.parsed.tunnelId in tunnels then tunnels[p.parsed.tunnelId] else NewEntry(p), p)
  }

  function Bumped(counts: map<u16, nat>, t: u16): map<u16, nat> {
    counts[t := (if t in counts then counts[t] else 0) + 1]
  }

  lemma LogSnoc(log: seq<Entry>, e: Entry)
    ensures Packets(log + [e]) == if e.Record? then Packets(log) + [e.p] else Packets(log)
    ensures TunnelPackets(log + [e]) == if OfTunnel(e) then TunnelPackets(log) + [e.p] else TunnelPackets(log)
  {
    assert Before(log + [e]) == log && Latest(log + [e]) == e;
  }

  lemma WithIdSnoc(ps: seq<DecodedPacket>, p: DecodedPacket, id: u16)
    ensures WithId(ps + [p], id) == if p.parsed.tunnelId == id then WithId(ps, id) + [p] else WithId(ps, id)
  {
    assert (ps + [p])[..|ps|] == ps;
  }

  lemma TotalSnoc(ps: seq<DecodedPacket>, p: DecodedPacket, weight: DecodedPacket -> nat)
    ensures Total(ps + [p], weight) == Total(ps, weight) + weight(p)
  {
    assert (ps + [p])[..|ps|] == ps;
  }

  lemma PeersSnoc(ps: seq<DecodedPacket>, p: DecodedPacket)
    ensures Peers(ps + [p]) == Peers(ps) + {p.src} + {p.dst}
  {
    assert (ps + [p])[..|ps|] == ps;
  }

  lemma TypesUpdated(counts: map<u16, nat>, ps: seq<DecodedPacket>, p: DecodedPacket)
    requires CountsTypes(counts, ps)
    ensures CountsTypes(if p.parsed.ethertype.Some? then Bumped(counts, p.parsed.ethertype.value) else counts, ps + [p])
  {
    assert (ps + [p])[..|ps|] == ps;
  }

  /** One more packet for an entry that describes the ones before it. */
  lemma DescribesOneMore(t: TunnelStats, mine: seq<DecodedPacket>, p: DecodedPacket)
    requires Describes(t, mine)
    ensures Describes(OneMore(t, p), mine + [p])
  {
    TypesUpdated(t.ethertypeCount, mine, p);
    PeersSnoc(mine, p);
    TotalSnoc(mine, p, Keepalive);
    TotalSnoc(mine, p, RawLen);
  }

  lemma DescribesFirst(p: DecodedPacket)
    ensures Describes(OneMore(NewEntry(p), p), [p])
  {
    TypesUpdated(map[], [], p);
    PeersSnoc([], p);
    TotalSnoc([], p, Keepalive);
    TotalSnoc([], p, RawLen);
    assert [] + [p] == [p];
  }

  lemma EntryUpdated(tunnels: map<u16, TunnelStats>, ps: seq<DecodedPacket>, p: DecodedPacket)
    requires EntryOk(tunnels, ps, p.parsed.tunnelId)
    ensures Describes(Updated(tunnels, p), WithId(ps, p.parsed.tunnelId) + [p])
  {
    var id := p.parsed.tunnelId;
    if id in tunnels {
      DescribesOneMore(tunnels[id], WithId(ps, id), p);
    } else {
      DescribesFirst(p);
      assert [] + [p] == [p];
    }
  }

  lemma OtherEntryKept(tunnels: map<u16, TunnelStats>, ps: seq<DecodedPacket>, p: DecodedPacket, id: u16)
    requires EntryOk(tunnels, ps, id) && p.parsed.tunnelId != id
    ensures EntryOk(tunnels[p.parsed.tunnelId := Updated(tunnels, p)], ps + [p], id)
  {
    WithIdSnoc(ps, p, id);
  }

  lemma TableUpdated(tunnels: map<u16, TunnelStats>, ps: seq<DecodedPacket>, p: DecodedPacket)
    requires TableOk(tunnels, ps)
    ensures TableOk(tunnels[p.parsed.tunnelId := Updated(tunnels, p)], ps + [p])
  {
    assert EntryOk(tunnels, ps, p.parsed.tunnelId);
    EntryUpdated(tunnels, ps, p);
    WithIdSnoc(ps, p, p.parsed.tunnelId);
    var tunnels', ps' := tunnels[p.parsed.tunnelId := Updated(tunnels, p)], ps + [p];
    forall id: u16
      ensures EntryOk(tunnels', ps', id)
    {
      assert EntryOk(tunnels, ps, id);
      if id != p.parsed.tunnelId {
        OtherEntryKept(tunnels, ps, p, id);
      }
    }
  }

  /** All counters at one moment. */
  datatype Counters = Counters(
    total: nat, eoip: nat, eoipv6: nat, udp: nat, gre: nat, skipped: nat, error: nat, keepalives: nat, deviations: nat,
    bytes: nat, first: Option<nat>, last: Option<nat>, tunnels: map<u16, TunnelStats>)

  const ZERO := Counters(0, 0, 0, 0, 0, 0, 0, 0, 0, 0, None, None, map[])

  /** One more call of a kind. */
  function Counted(c: Counters, k: Kind): Counters {
    var c' := c.(total := c.total + 1);
    match k
    case KEoip => c'.(eoip := c.eoip + 1)
    case KEoipV6 => c'.(eoipv6 := c.eoipv6 + 1)
    case KUdp => c'.(udp := c.udp + 1)
    case KGre => c'.(gre := c.gre + 1)
    case KSkipped => c'.(skipped := c.skipped + 1)
    case KError => c'.(error := c.error + 1)
  }

  /** Sizes, deviations and times of one more packet. */
  function Measured(c: Counters, p: DecodedPacket): Counters {
    c.(bytes := c.bytes + p.rawLen, deviations := c.deviations + |p.parsed.deviations|,
       first := if c.first.None? then Some(p.timestamp) else c.first, last := Some(p.timestamp))
  }

  function Tunnelled(c: Counters, p: DecodedPacket): Counters {
    c.(keepalives := c.keepalives + Keepalive(p),
       tunnels := c.tunnels[p.parsed.tunnelId := Updated(c.tunnels, p)])
  }

  function Recorded(c: Counters, e: Entry): Counters {
    var counted := Counted(c, KindOf(e));
    var measured := if e.Record? then Measured(counted, e.p) else counted;
    if OfTunnel(e) then Tunnelled(measured, e.p) else measured
  }

  class SessionStats {
    var totalPackets: nat
    var eoipPackets: nat
    var eoipv6Packets: nat
    var udpEncapPackets: nat
    var standardGrePackets: nat
    var skippedPackets: nat
    var errorPackets: nat
    var keepalivePackets: nat
    var deviationCount: nat
    var totalBytes: nat
    var firstTimestamp: Option<nat>
    var lastTimestamp: Option<nat>
    var tunnels: map<u16, TunnelStats>

    function View(): Counters
      reads this
    {
      Counters(totalPackets, eoipPackets, eoipv6Packets, udpEncapPackets, standardGrePackets, skippedPackets,
               errorPackets, keepalivePackets, deviationCount, totalBytes, firstTimestamp, lastTimestamp, tunnels)
    }

    constructor ()
      ensures View() == ZERO
    {
      totalPackets, eoipPackets, eoipv6Packets, udpEncapPackets := 0, 0, 0, 0;
      standardGrePackets, skippedPackets, errorPackets, keepalivePackets := 0, 0, 0, 0;
      deviationCount, totalBytes, firstTimestamp, lastTimestamp := 0, 0, None, None;
      tunnels := map[];
    }

    /** The entry of the packet's tunnel, created if need be, and updated in place. */
    method UpdateEntry(p: DecodedPacket)
      modifies this`tunnels
      ensures tunnels == old(tunnels)[p.parsed.tunnelId := Updated(old(tunnels), p)]
    {
      var id := p.parsed.tunnelId;
      if id !in tunnels {
        tunnels := tunnels[id := NewEntry(p)];
      }
      var t := tunnels[id];
      t := t.(packetCount := t.packetCount + 1);
      t := t.(byteCount := t.byteCount + p.rawLen);
      t := t.(lastSeen := p.timestamp);
      t := t.(peers := t.peers + {p.src});
      t := t.(peers := t.peers + {p.dst});
      if p.parsed.isKeepalive {
        t := t.(keepaliveCount := t.keepaliveCount + 1);
      }
      if p.parsed.ethertype.Some? {
        t := t.(ethertypeCount := Bumped(t.ethertypeCount, p.parsed.ethertype.value));
      }
      tunnels := tunnels[id := t];
    }

    /** Sizes, deviations and times. */
    method Measure(p: DecodedPacket)
      modifies this`totalBytes, this`deviationCount, this`firstTimestamp, this`lastTimestamp
      ensures View() == Measured(old(View()), p)
    {
      totalBytes := totalBytes + p.rawLen;
      deviationCount := deviationCount + |p.parsed.deviations|;
      if firstTimestamp.None? {
        firstTimestamp := Some(p.timestamp);
      }
      lastTimestamp := Some(p.timestamp);
    }

    /** The total and the match on the variant; only the first three kinds go on to the tunnel table. */
    method Classify(p: DecodedPacket) returns (ofTunnel: bool)
      modifies this
      ensures View() == Counted(old(View()), KindOf(Entry.Record(p))) && ofTunnel == OfTunnel(Entry.Record(p))
    {
      totalPackets := totalPackets + 1;
      match p.parsed.variant
      case Eoip(_) =>
        eoipPackets := eoipPackets + 1;
        return true;
      case EoipV6(_) =>
        eoipv6Packets := eoipv6Packets + 1;
        return true;
      case UdpEncap(_, _, _) =>
        udpEncapPackets := udpEncapPackets + 1;
        return true;
      case StandardGre =>
        standardGrePackets := standardGrePackets + 1;
        return false;
      case NonEoipUdp | Skipped(_) =>
        skippedPackets := skippedPackets + 1;
        return false;
    }

    method Record(result: Option<DecodedPacket>)
      modifies this
      ensures View() == Recorded(old(View()), if result.Some? then Entry.Record(result.value) else Undecodable)
    {
      if result.None? {
        RecordError();
        return;
      }
      var p := result.value;
      var ofTunnel := Classify(p);
      Measure(p);
      if ofTunnel {
        if p.parsed.isKeepalive {
          keepalivePackets := keepalivePackets + 1;
        }
        UpdateEntry(p);
      }
    }

    method RecordSkipped()
      modifies this
      ensures View() == Recorded(old(View()), NotParsed)
    {
      totalPackets := totalPackets + 1;
      skippedPackets := skippedPackets + 1;
    }

    method RecordError()
      modifies this
      ensures View() == Recorded(old(View()), Undecodable)
    {
      totalPackets := totalPackets + 1;
      errorPackets := errorPackets + 1;
    }
  }

  /** The counters after any sequence of calls. */
  function Replay(log: seq<Entry>): Counters {
    if log == [] then ZERO else Recorded(Replay(Before(log)), Latest(log))
  }

  predicate KindsMatch(c: Counters, log: seq<Entry>) {
    && c.total == |log|
    && c.eoip == CountOf(log, IsEoip) && c.eoipv6 == CountOf(log, IsEoipV6) && c.udp == CountOf(log, IsUdpEncap)
    && c.gre == CountOf(log, IsStandardGre) && c.skipped == CountOf(log, IsSkipped) && c.error == CountOf(log, IsError)
  }

  predicate SumsMatch(c: Counters, ps: seq<DecodedPacket>) {
    && c.bytes == Total(ps, RawLen) && c.deviations == Total(ps, Deviations)
    && c.first == (if ps == [] then None else Some(ps[0].timestamp))
    && c.last == (if ps == [] then None else Some(ps[|ps| - 1].timestamp))
  }

  ghost predicate TunnelsMatch(c: Counters, ps: seq<DecodedPacket>) {
    c.keepalives == Total(ps, Keepalive) && TableOk(c.tunnels, ps)
  }

  lemma KindsOneMore(c: Counters, log: seq<Entry>)
    requires log != [] && KindsMatch(c, Before(log))
    ensures KindsMatch(Counted(c, KindOf(Latest(log))), log)
  {
  }

  lemma SumsOneMore(c: Counters, ps: seq<DecodedPacket>, p: DecodedPacket)
    requires SumsMatch(c, ps)
    ensures SumsMatch(Measured(c, p), ps + [p])
  {
    TotalSnoc(ps, p, RawLen);
    TotalSnoc(ps, p, Deviations);
  }

  lemma TunnelsOneMore(c: Counters, ps: seq<DecodedPacket>, p: DecodedPacket)
    requires TunnelsMatch(c, ps)
    ensures TunnelsMatch(Tunnelled(c, p), ps + [p])
  {
    TotalSnoc(ps, p, Keepalive);
    TableUpdated(c.tunnels, ps, p);
  }

  lemma {:induction false} ReplayKinds(log: seq<Entry>)
    ensures KindsMatch(Replay(log), log)
  {
    if log != [] {
      ReplayKinds(Before(log));
      KindsOneMore(Replay(Before(log)), log);
    }
  }

  lemma SumsStep(c: Counters, ps: seq<DecodedPacket>, e: Entry)
    requires SumsMatch(c, ps)
    ensures SumsMatch(Recorded(c, e), if e.Record? then ps + [e.p] else ps)
  {
    if e.Record? {
      SumsOneMore(Counted(c, KindOf(e)), ps, e.p);
    }
  }

  lemma TunnelsStep(c: Counters, ps: seq<DecodedPacket>, e: Entry)
    requires TunnelsMatch(c, ps)
    ensures TunnelsMatch(Recorded(c, e), if OfTunnel(e) then ps + [e.p] else ps)
  {
    if OfTunnel(e) {
      TunnelsOneMore(Measured(Counted(c, KindOf(e)), e.p), ps, e.p);
    }
  }

  lemma {:induction false} ReplaySums(log: seq<Entry>)
    ensures SumsMatch(Replay(log), Packets(log))
  {
    if log != [] {
      ReplaySums(Before(log));
      LogSnoc(Before(log), Latest(log));
      assert log == Before(log) + [Latest(log)];
      SumsStep(Replay(Before(log)), Packets(Before(log)), Latest(log));
    }
  }

  lemma {:induction false} ReplayTunnels(log: seq<Entry>)
    ensures TunnelsMatch(Replay(log), TunnelPackets(log))
  {
    if log != [] {
      ReplayTunnels(Before(log));
      LogSnoc(Before(log), Latest(log));
      assert log == Before(log) + [Latest(log)];
      TunnelsStep(Replay(Before(log)), TunnelPackets(Before(log)), Latest(log));
    }
  }

  /** Every call is of one of the six kinds. */
  lemma {:induction false} KindsAddUp(log: seq<Entry>)
    ensures CountOf(log, IsEoip) + CountOf(log, IsEoipV6) + CountOf(log, IsUdpEncap)
            + CountOf(log, IsStandardGre) + CountOf(log, IsSkipped) + CountOf(log, IsError) == |log|
    ensures |TunnelPackets(log)| == CountOf(log, IsEoip) + CountOf(log, IsEoipV6) + CountOf(log, IsUdpEncap)
  {
    if log != [] {
      KindsAddUp(Before(log));
    }
  }

  lemma {:induction false} TunnelBytesBounded(log: seq<Entry>)
    ensures Total(TunnelPackets(log), RawLen) <= Total(Packets(log), RawLen)
  {
    if log != [] {
      var before, e := Before(log), Latest(log);
      TunnelBytesBounded(before);
      assert log == before + [e];
      LogSnoc(before, e);
      if e.Record? {
        TotalSnoc(Packets(before), e.p, RawLen);
        TotalSnoc(TunnelPackets(before), e.p, RawLen);
      }
    }
  }

  /** The sum over the tunnels with ids below n. */
  function SumOver(ps: seq<DecodedPacket>, n: nat, weight: DecodedPacket -> nat): nat
    requires n <= 0x1_0000
  {
    if n == 0 then 0 else SumOver(ps, n - 1, weight) + Total(WithId(ps, n - 1), weight)
  }

  lemma TotalWithIdSnoc(ps: seq<DecodedPacket>, p: DecodedPacket, id: u16, weight: DecodedPacket -> nat)
    ensures Total(WithId(ps + [p], id), weight)
         == Total(WithId(ps, id), weight) + if p.parsed.tunnelId == id then weight(p) else 0
  {
    WithIdSnoc(ps, p, id);
    TotalSnoc(WithId(ps, id), p, weight);
  }

  lemma {:induction false} SumOverSnoc(ps: seq<DecodedPacket>, p: DecodedPacket, n: nat, weight: DecodedPacket -> nat)
    requires n <= 0x1_0000
    ensures SumOver(ps + [p], n, weight) == SumOver(ps, n, weight) + if p.parsed.tunnelId < n then weight(p) else 0
  {
    if n > 0 {
      var more, last := ps + [p], n - 1;
      SumOverSnoc(ps, p, last, weight);
      TotalWithIdSnoc(ps, p, last, weight);
      assert SumOver(more, n, weight) == SumOver(more, last, weight) + Total(WithId(more, last), weight);
    }
  }

  lemma {:induction false} SumOverNone(n: nat, weight: DecodedPacket -> nat)
    requires n <= 0x1_0000
    ensures SumOver([], n, weight) == 0
  {
    if n > 0 {
      SumOverNone(n - 1, weight);
    }
  }

  /** Splitting packets by tunnel id loses none of a total. */
  lemma {:induction false} SumOverAllIds(ps: seq<DecodedPacket>, weight: DecodedPacket -> nat)
    ensures SumOver(ps, 0x1_0000, weight) == Total(ps, weight)
  {
    if ps == [] {
      SumOverNone(0x1_0000, weight);
    } else {
      var front, p := ps[..|ps| - 1], ps[|ps| - 1];
      SumOverAllIds(front, weight);
      SumOverSnoc(front, p, 0x1_0000, weight);
      assert ps == front + [p];
    }
  }

  /** Three sums of the entries of the tunnel table. */
  function TableSum(tunnels: map<u16, TunnelStats>, n: nat, field: TunnelStats -> nat): nat
    requires n <= 0x1_0000
  {
    if n == 0 then 0 else TableSum(tunnels, n - 1, field) + if n - 1 in tunnels then field(tunnels[n - 1]) else 0
  }

  predicate FieldCountsAt(tunnels: map<u16, TunnelStats>, ps: seq<DecodedPacket>, field: TunnelStats -> nat,
                          weight: DecodedPacket -> nat, id: u16)
  {
    Total(WithId(ps, id), weight) == if id in tunnels then field(tunnels[id]) else 0
  }

  ghost predicate FieldCounts(tunnels: map<u16, TunnelStats>, ps: seq<DecodedPacket>, field: TunnelStats -> nat,
                              weight: DecodedPacket -> nat)
  {
    forall id: u16 :: FieldCountsAt(tunnels, ps, field, weight, id)
  }

  lemma {:induction false} TableSumIsTotal(tunnels: map<u16, TunnelStats>, ps: seq<DecodedPacket>, n: nat,
                                           field: TunnelStats -> nat, weight: DecodedPacket -> nat)
    requires n <= 0x1_0000 && FieldCounts(tunnels, ps, field, weight)
    ensures TableSum(tunnels, n, field) == SumOver(ps, n, weight)
  {
    if n > 0 {
      TableSumIsTotal(tunnels, ps, n - 1, field, weight);
      assert FieldCountsAt(tunnels, ps, field, weight, n - 1);
    }
  }

  lemma {:induction false} TotalOne(ps: seq<DecodedPacket>)
    ensures Total(ps, One) == |ps|
  {
    if ps != [] {
      TotalOne(ps[..|ps| - 1]);
    }
  }

  const ALL_IDS := 0x1_0000

  function PacketCount(t: TunnelStats): nat { t.packetCount }

  function KeepaliveCount(t: TunnelStats): nat { t.keepaliveCount }

  function ByteCount(t: TunnelStats): nat { t.byteCount }

  lemma EntryCounts(tunnels: map<u16, TunnelStats>, ps: seq<DecodedPacket>, id: u16)
    requires EntryOk(tunnels, ps, id)
    ensures FieldCountsAt(tunnels, ps, PacketCount, One, id)
    ensures FieldCountsAt(tunnels, ps, KeepaliveCount, Keepalive, id)
    ensures FieldCountsAt(tunnels, ps, ByteCount, RawLen, id)
  {
    TotalOne(WithId(ps, id));
  }

  lemma EntriesCount(tunnels: map<u16, TunnelStats>, ps: seq<DecodedPacket>)
    requires TableOk(tunnels, ps)
    ensures FieldCounts(tunnels, ps, PacketCount, One)
    ensures FieldCounts(tunnels, ps, KeepaliveCount, Keepalive)
    ensures FieldCounts(tunnels, ps, ByteCount, RawLen)
  {
    forall id: u16
      ensures FieldCountsAt(tunnels, ps, PacketCount, One, id)
    {
      assert EntryOk(tunnels, ps, id);
      EntryCounts(tunnels, ps, id);
    }
    forall id: u16
      ensures FieldCountsAt(tunnels, ps, KeepaliveCount, Keepalive, id)
    {
      assert EntryOk(tunnels, ps, id);
      EntryCounts(tunnels, ps, id);
    }
    forall id: u16
      ensures FieldCountsAt(tunnels, ps, ByteCount, RawLen, id)
    {
      assert EntryOk(tunnels, ps, id);
      EntryCounts(tunnels, ps, id);
    }
  }

  /** The peers are all sources and all destinations. */
  lemma {:induction false} PeersExactly(ps: seq<DecodedPacket>, peer: seq<byte>)
    ensures peer in Peers(ps) <==> exists i :: 0 <= i < |ps| && (ps[i].src == peer || ps[i].dst == peer)
  {
    if ps != [] {
      var front := ps[..|ps| - 1];
      PeersExactly(front, peer);
      assert forall i :: 0 <= i < |front| ==> front[i] == ps[i];
    }
  }

  /** After any calls every counter equals its recount... */
  lemma CountersAreRecounts(log: seq<Entry>)
    ensures KindsMatch(Replay(log), log) && SumsMatch(Replay(log), Packets(log))
    ensures TunnelsMatch(Replay(log), TunnelPackets(log))
  {
    ReplayKinds(log);
    ReplaySums(log);
    ReplayTunnels(log);
  }

  /** ...the kinds add up to the total; the tunnels' packets add up to the EoIP, EoIPv6 and UDP packets, their
      keepalives to all keepalives, and their bytes to no more than all bytes. */
  lemma CountersAgree(log: seq<Entry>)
    ensures var c := Replay(log);
      && c.total == c.eoip + c.eoipv6 + c.udp + c.gre + c.skipped + c.error
      && TableSum(c.tunnels, ALL_IDS, PacketCount) == c.eoip + c.eoipv6 + c.udp
      && TableSum(c.tunnels, ALL_IDS, KeepaliveCount) == c.keepalives
      && TableSum(c.tunnels, ALL_IDS, ByteCount) <= c.bytes
  {
    var ps := TunnelPackets(log);
    var tunnels := Replay(log).tunnels;
    CountersAreRecounts(log);
    KindsAddUp(log);
    TunnelBytesBounded(log);
    EntriesCount(tunnels, ps);
    TableSumIsTotal(tunnels, ps, ALL_IDS, PacketCount, One);
    TableSumIsTotal(tunnels, ps, ALL_IDS, KeepaliveCount, Keepalive);
    TableSumIsTotal(tunnels, ps, ALL_IDS, ByteCount, RawLen);
    SumOverAllIds(ps, One);
    SumOverAllIds(ps, Keepalive);
    SumOverAllIds(ps, RawLen);
    TotalOne(ps);
  }

  /** As the decoder makes them, packets are keepalives or have an inner frame, but not both. */
  predicate WellDecoded(ps: seq<DecodedPacket>) {
    forall i :: 0 <= i < |ps| ==> (ps[i].parsed.isKeepalive ==> ps[i].parsed.ethertype.None?)
  }

  /** The counted Ethernet types with numbers below n. */
  function TypeSum(counts: map<u16, nat>, n: nat): nat
    requires n <= 0x1_0000
  {
    if n == 0 then 0 else TypeSum(counts, n - 1) + if n - 1 in counts then counts[n - 1] else 0
  }

  function TypedBelow(ps: seq<DecodedPacket>, n: nat): nat
    requires n <= 0x1_0000
  {
    if n == 0 then 0 else TypedBelow(ps, n - 1) + Typed(ps, n - 1)
  }

  lemma {:induction false} TypeSumIsTyped(counts: map<u16, nat>, ps: seq<DecodedPacket>, n: nat)
    requires n <= 0x1_0000 && CountsTypes(counts, ps)
    ensures TypeSum(counts, n) == TypedBelow(ps, n)
  {
    if n > 0 {
      TypeSumIsTyped(counts, ps, n - 1);
      assert Typed(ps, n - 1) == if n - 1 in counts then counts[n - 1] else 0;
    }
  }

  lemma {:induction false} TypedBelowSnoc(ps: seq<DecodedPacket>, p: DecodedPacket, n: nat)
    requires n <= 0x1_0000
    ensures TypedBelow(ps + [p], n)
         == TypedBelow(ps, n) + if p.parsed.ethertype.Some? && p.parsed.ethertype.value < n then 1 else 0
  {
    if n > 0 {
      TypedBelowSnoc(ps, p, n - 1);
      assert (ps + [p])[..|ps|] == ps;
    }
  }

  lemma {:induction false} TypedBelowNone(n: nat)
    requires n <= 0x1_0000
    ensures TypedBelow([], n) == 0
  {
    if n > 0 {
      TypedBelowNone(n - 1);
    }
  }

  lemma {:induction false} TypedAreNotKeepalives(ps: seq<DecodedPacket>)
    requires WellDecoded(ps)
    ensures Total(ps, Keepalive) + TypedBelow(ps, ALL_IDS) <= |ps|
  {
    if ps == [] {
      TypedBelowNone(ALL_IDS);
    } else {
      var front, p := ps[..|ps| - 1], ps[|ps| - 1];
      TypedAreNotKeepalives(front);
      assert ps == front + [p];
      TypedBelowSnoc(front, p, ALL_IDS);
      TotalSnoc(front, p, Keepalive);
    }
  }

  lemma {:induction false} WithIdWellDecoded(ps: seq<DecodedPacket>, id: u16)
    requires WellDecoded(ps)
    ensures WellDecoded(WithId(ps, id))
  {
    if ps != [] {
      WithIdWellDecoded(ps[..|ps| - 1], id);
    }
  }

  lemma {:induction false} TunnelPacketsWellDecoded(log: seq<Entry>)
    requires WellDecoded(Packets(log))
    ensures WellDecoded(TunnelPackets(log))
  {
    if log != [] {
      var before, e := Before(log), Latest(log);
      assert log == before + [e];
      LogSnoc(before, e);
      if e.Record? {
        assert forall i :: 0 <= i < |Packets(before)| ==> Packets(before)[i] == Packets(log)[i];
        assert Packets(log)[|Packets(log)| - 1] == e.p;
      }
      TunnelPacketsWellDecoded(before);
    }
  }

  /** The packet is one that the decoder made. */
  ghost predicate FromDecoder(p: DecodedPacket) {
    exists protocol, payload, port :: p.parsed == DecodePacket(protocol, payload, port)
  }

  ghost predicate AllFromDecoder(ps: seq<DecodedPacket>) {
    forall i :: 0 <= i < |ps| ==> FromDecoder(ps[i])
  }

  lemma DecodedIsWellDecoded(ps: seq<DecodedPacket>)
    requires AllFromDecoder(ps)
    ensures WellDecoded(ps)
  {
    forall i | 0 <= i < |ps|
      ensures ps[i].parsed.isKeepalive ==> ps[i].parsed.ethertype.None?
    {
      assert FromDecoder(ps[i]);
      var protocol, payload, port :| ps[i].parsed == DecodePacket(protocol, payload, port);
      KeepaliveHasNoFrame(protocol, payload, port);
    }
  }

  /** In any session of decoded packets, for each tunnel, keepalives and counted Ethernet types together never exceed
      its packets. */
  lemma TypesAndKeepalivesFit(log: seq<Entry>, id: u16)
    requires AllFromDecoder(Packets(log)) && id in Replay(log).tunnels
    ensures var t := Replay(log).tunnels[id]; t.keepaliveCount + TypeSum(t.ethertypeCount, ALL_IDS) <= t.packetCount
  {
    var t, mine := Replay(log).tunnels[id], WithId(TunnelPackets(log), id);
    DecodedIsWellDecoded(Packets(log));
    ReplayTunnels(log);
    assert EntryOk(Replay(log).tunnels, TunnelPackets(log), id);
    TunnelPacketsWellDecoded(log);
    WithIdWellDecoded(TunnelPackets(log), id);
    TypeSumIsTyped(t.ethertypeCount, mine, ALL_IDS);
    TypedAreNotKeepalives(mine);
  }
}
