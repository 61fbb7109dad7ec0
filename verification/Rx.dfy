/** Runtime state of one tunnel, as far as the packet path uses it. */
module TunnelHandles {
  import opened Bytes
  import opened PacketBuffers

  datatype IpAddr = V4(octets: seq<byte>) | V6(octets: seq<byte>)

  datatype DemuxKey = DemuxKey(tunnelId: u16, peer: IpAddr)

  /** The receive statistics and the frames waiting for the TAP writer. */
  datatype RxView = RxView(rxPackets: nat, rxBytes: nat, rxErrors: nat, lastRx: int, frames: seq<seq<byte>>)

  class TunnelHandle {
    const tunnelId: u16
    const remote: IpAddr
    /** Capacity of the bounded channel to the TAP writer. */
    const room: nat
    var txPackets: nat
    var txBytes: nat
    var lastTx: int
    var rxPackets: nat
    var rxBytes: nat
    var rxErrors: nat
    var lastRx: int
    /** The contents of the buffers that the channel owns, oldest first. */
    var channel: seq<seq<byte>>

    constructor (tunnelId: u16, remote: IpAddr, room: nat)
      ensures this.tunnelId == tunnelId && this.remote == remote && this.room == room
      ensures View() == RxView(0, 0, 0, 0, []) && txPackets == txBytes == 0 && lastTx == 0
    {
      this.tunnelId, this.remote, this.room := tunnelId, remote, room;
      txPackets, txBytes, lastTx := 0, 0, 0;
      rxPackets, rxBytes, rxErrors, lastRx := 0, 0, 0, 0;
      channel := [];
    }

    function View(): RxView
      reads this`rxPackets, this`rxBytes, this`rxErrors, this`lastRx, this`channel
    {
      RxView(rxPackets, rxBytes, rxErrors, lastRx, channel)
    }

    /** The transmit statistics; the timestamp is refreshed by every 64th packet only. */
    method CountSent(size: nat, nowMs: int)
      modifies this`txPackets, this`txBytes, this`lastTx
      ensures txPackets == old(txPackets) + 1 && txBytes == old(txBytes) + size
      ensures lastTx == if old(txPackets) % 64 == 0 then nowMs else old(lastTx)
    {
      txBytes := txBytes + size;
      if txPackets % 64 == 0 {
        lastTx := nowMs;
      }
      txPackets := txPackets + 1;
    }

    method CountReceived(size: nat, stamp: int)
      modifies this`rxPackets, this`rxBytes, this`lastRx
      ensures View() == old(View()).(rxPackets := old(rxPackets) + 1, rxBytes := old(rxBytes) + size, lastRx := stamp)
    {
      rxPackets := rxPackets + 1;
      rxBytes := rxBytes + size;
      lastRx := stamp;
    }
  }
}

/** The receive path: parse, demultiplex, count, and hand frames to the TAP writer. */
module Rx {
  import opened Bytes
  import opened ProtoError
  import opened Gre
  import opened Etherip
  import opened PacketBuffers
  import opened TunnelHandles

  /** A packet that parses: where it is bound, whether it announces no payload, and the bytes behind its header. */
  datatype Arrival = Arrival(key: DemuxKey, announcesNothing: bool, frame: seq<byte>)

  function ParseV4(packet: seq<byte>): Option<Arrival> {
    if |packet| < 20 then None
    else
      var ipHdrLen := packet[0] % 0x10 * 4;
      if |packet| < ipHdrLen + EOIP_HEADER_LEN then None
      else
        match DecodeEoipHeader(packet[ipHdrLen..])
        case Err(_) => None
        case Ok((tunnelId, payloadLen, hdrLen)) =>
          Some(Arrival(DemuxKey(tunnelId, V4(packet[12..16])), payloadLen == 0, packet[ipHdrLen..][hdrLen..]))
  }

  function ParseV6(packet: seq<byte>, src: IpAddr): Option<Arrival> {
    if |packet| < 2 then None
    else
      match DecodeEoipv6Header(packet)
      case Err(_) => None
      case Ok((tunnelId, hdrLen)) => Some(Arrival(DemuxKey(tunnelId, src), false, packet[hdrLen..]))
  }

  function Truncated(frame: seq<byte>): seq<byte> {
    if |frame| <= MAX_FRAME_SIZE then frame else frame[..MAX_FRAME_SIZE]
  }

  /** What one arrival does to the tunnel it is bound for. */
  function Counted(v: RxView, a: Arrival, stamp: int): RxView {
    v.(rxPackets := v.rxPackets + 1, rxBytes := v.rxBytes + |a.frame|, lastRx := stamp)
  }

  predicate CarriesFrame(a: Arrival) {
    !a.announcesNothing && a.frame != []
  }

  /** A bounded channel takes a frame while it has room, and counts an error otherwise. */
  function Offered(v: RxView, room: nat, frame: seq<byte>): RxView {
    if |v.frames| < room then v.(frames := v.frames + [frame]) else v.(rxErrors := v.rxErrors + 1)
  }

  function Received(v: RxView, room: nat, a: Arrival, stamp: int): RxView {
    var counted := Counted(v, a, stamp);
    if CarriesFrame(a) then Offered(counted, room, Truncated(a.frame)) else counted
  }

  /** The thread-local cell behind `coarse_timestamp_ms`: a call count and the last clock reading. */
  class CoarseClock {
    var count: nat
    var cached: int

    constructor ()
      ensures count == 0
    {
      count, cached := 0, 0;
    }

    /** One more call: every 64th one, counting from the first, takes a new reading. */
    predicate Ticked(count0: nat, cached0: int, reading: int)
      reads this
    {
      count == count0 + 1 && cached == if count0 % 64 == 0 then reading else cached0
    }

    /** `reading` is what the system clock would say now; it is used by every 64th call only. */
    method Timestamp(reading: int) returns (stamp: int)
      modifies this
      ensures stamp == cached && Ticked(old(count), old(cached), reading)
    {
      if count % 64 == 0 {
        cached := reading;
      }
      count := count + 1;
      return cached;
    }
  }

  class RxPath {
    const pool: BufferPool
    const clock: CoarseClock
    var registry: map<DemuxKey, TunnelHandle>

    constructor (pool: BufferPool, clock: CoarseClock, registry: map<DemuxKey, TunnelHandle>)
      ensures this.pool == pool && this.clock == clock && this.registry == registry
    {
      this.pool, this.clock, this.registry := pool, clock, registry;
    }

    /** The one handle an arrival may touch. */
    function Target(a: Option<Arrival>): set<TunnelHandle>
      reads this
    {
      if a.Some? && a.value.key in registry then {registry[a.value.key]} else {}
    }

    /** The tail of both processors: a buffer is drawn, filled and offered to the channel; a refused one is dropped. */
    method Deliver(h: TunnelHandle, frame: seq<byte>) returns (ghost taken: Option<PacketBuf>)
      requires pool.Valid() && pool.Conserved()
      modifies pool, if pool.queue == [] then {} else {pool.queue[0].data}
      modifies h`rxErrors, h`channel
      ensures pool.Valid() && pool.Conserved()
      ensures if old(|h.channel|) < h.room
              then h.channel == old(h.channel) + [Truncated(frame)] && h.rxErrors == old(h.rxErrors)
              else h.channel == old(h.channel) && h.rxErrors == old(h.rxErrors) + 1
      ensures Took(old(pool.pooled), old(pool.standalone), pool.pooled, pool.standalone, taken)
      ensures taken.Some? ==> fresh(taken.value)
      ensures taken.Some? <==> old(|h.channel|) < h.room
    {
      var copyLen := if |frame| < MAX_FRAME_SIZE then |frame| else MAX_FRAME_SIZE;
      var copied := frame[..copyLen];
      assert copied == Truncated(frame);
      var pbuf := pool.GetFilled(copied);
      taken := if |h.channel| < h.room then Some(pbuf) else None;
      Offer(h, pbuf, copied, old(pool.pooled), old(pool.standalone));
    }

    /** `try_send`: the channel takes the buffer while it has room; otherwise the buffer is dropped and counted. */
    method Offer(h: TunnelHandle, pbuf: PacketBuf, ghost frame: seq<byte>, ghost pooled0: set<PacketBuf>,
                 ghost standalone0: set<PacketBuf>)
      requires Took(pooled0, standalone0, pool.pooled, pool.standalone, Some(pbuf))
      requires pbuf !in pooled0 && pbuf !in standalone0
      requires pool.Valid() && pool.Conserved() && pbuf in pool.Live() && pbuf.Usable() && pbuf.Slice() == frame
      modifies pool, pbuf, h`rxErrors, h`channel
      ensures pool.Valid() && pool.Conserved()
      ensures if old(|h.channel|) < h.room
              then h.channel == old(h.channel) + [frame] && h.rxErrors == old(h.rxErrors)
              else h.channel == old(h.channel) && h.rxErrors == old(h.rxErrors) + 1
      ensures Took(pooled0, standalone0, pool.pooled, pool.standalone,
                   if old(|h.channel|) < h.room then Some(pbuf) else None)
    {
      if |h.channel| < h.room {
        h.channel := h.channel + [pbuf.Slice()];
      } else {
        h.rxErrors := h.rxErrors + 1;
        pool.DropTaken(pbuf, pooled0, standalone0);
      }
    }

    /** Lookup, counters and delivery, the part both processors share. */
    method Accept(a: Arrival, reading: int) returns (ghost taken: Option<PacketBuf>)
      requires pool.Valid() && pool.Conserved()
      modifies pool, if pool.queue == [] then {} else {pool.queue[0].data}
      modifies clock, Target(Some(a))`rxPackets, Target(Some(a))`rxBytes, Target(Some(a))`lastRx
      modifies Target(Some(a))`rxErrors, Target(Some(a))`channel
      ensures pool.Valid() && pool.Conserved()
      ensures forall h :: h in Target(Some(a)) ==> Outcome(h, old(h.View()), h.View(), a)
      ensures Target(Some(a)) == {} ==> unchanged(clock) && unchanged(pool)
      ensures Target(Some(a)) != {} ==> clock.Ticked(old(clock.count), old(clock.cached), reading)
      ensures Took(old(pool.pooled), old(pool.standalone), pool.pooled, pool.standalone, taken)
      ensures taken.Some? ==> fresh(taken.value)
      ensures Target(Some(a)) == {} ==> taken.None?
      ensures forall h :: h in Target(Some(a)) ==> Grown(old(h.View()), h.View(), taken)
    {
      taken := None;
      if a.key in registry {
        assert Target(Some(a)) == {registry[a.key]};
        taken := Take(registry[a.key], a, reading);
      }
    }

    method Count(h: TunnelHandle, a: Arrival, reading: int)
      modifies clock, h`rxPackets, h`rxBytes, h`lastRx
      ensures h.View() == Counted(old(h.View()), a, clock.cached)
      ensures clock.Ticked(old(clock.count), old(clock.cached), reading)
    {
      var stamp := clock.Timestamp(reading);
      h.CountReceived(|a.frame|, stamp);
    }

    /** The counters, and the delivery of a frame if there is one. */
    method Take(h: TunnelHandle, a: Arrival, reading: int) returns (ghost taken: Option<PacketBuf>)
      requires pool.Valid() && pool.Conserved()
      modifies pool, if pool.queue == [] then {} else {pool.queue[0].data}
      modifies clock, h`rxPackets, h`rxBytes, h`lastRx, h`rxErrors, h`channel
      ensures pool.Valid() && pool.Conserved()
      ensures Outcome(h, old(h.View()), h.View(), a) && clock.Ticked(old(clock.count), old(clock.cached), reading)
      ensures Took(old(pool.pooled), old(pool.standalone), pool.pooled, pool.standalone, taken)
      ensures taken.Some? ==> fresh(taken.value)
      ensures Grown(old(h.View()), h.View(), taken)
    {
      Count(h, a, reading);
      if a.announcesNothing || a.frame == [] {
        return None;
      }
      taken := Deliver(h, a.frame);
    }

    /** The channel grows by one frame exactly when one more buffer is live. */
    ghost predicate Grown(before: RxView, after: RxView, taken: Option<PacketBuf>) {
      |after.frames| == |before.frames| + if taken.Some? then 1 else 0
    }

    ghost predicate Outcome(h: TunnelHandle, before: RxView, after: RxView, a: Arrival)
      reads clock
    {
      after == Received(before, h.room, a, clock.cached)
    }

    method ProcessV4Packet(buf: seq<byte>, n: nat, reading: int)
      returns (ghost taken: Option<PacketBuf>)
      requires n <= |buf|
      requires pool.Valid() && pool.Conserved()
      modifies pool, if pool.queue == [] then {} else {pool.queue[0].data}
      modifies clock, Target(ParseV4(buf[..n]))`rxPackets, Target(ParseV4(buf[..n]))`rxBytes
      modifies Target(ParseV4(buf[..n]))`lastRx
      modifies Target(ParseV4(buf[..n]))`rxErrors, Target(ParseV4(buf[..n]))`channel
      ensures pool.Valid() && pool.Conserved()
      ensures forall h :: h in Target(ParseV4(buf[..n])) ==>
                Outcome(h, old(h.View()), h.View(), ParseV4(buf[..n]).value)
      ensures Target(ParseV4(buf[..n])) == {} ==> unchanged(clock) && unchanged(pool)
      ensures Target(ParseV4(buf[..n])) != {} ==> clock.Ticked(old(clock.count), old(clock.cached), reading)
      ensures Took(old(pool.pooled), old(pool.standalone), pool.pooled, pool.standalone, taken)
      ensures taken.Some? ==> fresh(taken.value)
      ensures Target(ParseV4(buf[..n])) == {} ==> taken.None?
      ensures forall h :: h in Target(ParseV4(buf[..n])) ==> Grown(old(h.View()), h.View(), taken)
    {
      taken := None;
      if n < 20 {
        return;
      }
      var ihl := buf[0] % 0x10;
      var ipHdrLen := ihl * 4;
      if n < ipHdrLen + EOIP_HEADER_LEN {
        return;
      }
      var srcIp := V4([buf[12], buf[13], buf[14], buf[15]]);
      assert buf[..n][12..16] == srcIp.octets;
      var eoipData := buf[ipHdrLen..n];
      assert eoipData == buf[..n][ipHdrLen..];
      match DecodeEoipHeader(eoipData)
      case Err(_) =>
        return;
      case Ok((tunnelId, payloadLen, hdrLen)) =>
        taken := Accept(Arrival(DemuxKey(tunnelId, srcIp), payloadLen == 0, eoipData[hdrLen..]), reading);
    }

    method ProcessV6Packet(buf: seq<byte>, n: nat, srcIp: IpAddr, reading: int)
      returns (ghost taken: Option<PacketBuf>)
      requires n <= |buf|
      requires pool.Valid() && pool.Conserved()
      modifies pool, if pool.queue == [] then {} else {pool.queue[0].data}
      modifies clock, Target(ParseV6(buf[..n], srcIp))`rxPackets, Target(ParseV6(buf[..n], srcIp))`rxBytes
      modifies Target(ParseV6(buf[..n], srcIp))`lastRx
      modifies Target(ParseV6(buf[..n], srcIp))`rxErrors, Target(ParseV6(buf[..n], srcIp))`channel
      ensures pool.Valid() && pool.Conserved()
      ensures forall h :: h in Target(ParseV6(buf[..n], srcIp)) ==>
                Outcome(h, old(h.View()), h.View(), ParseV6(buf[..n], srcIp).value)
      ensures Target(ParseV6(buf[..n], srcIp)) == {} ==> unchanged(clock) && unchanged(pool)
      ensures Target(ParseV6(buf[..n], srcIp)) != {} ==> clock.Ticked(old(clock.count), old(clock.cached), reading)
      ensures Took(old(pool.pooled), old(pool.standalone), pool.pooled, pool.standalone, taken)
      ensures taken.Some? ==> fresh(taken.value)
      ensures Target(ParseV6(buf[..n], srcIp)) == {} ==> taken.None?
      ensures forall h :: h in Target(ParseV6(buf[..n], srcIp)) ==> Grown(old(h.View()), h.View(), taken)
    {
      taken := None;
      if n < 2 {
        return;
      }
      match DecodeEoipv6Header(buf[..n])
      case Err(_) =>
        return;
      case Ok((tunnelId, hdrLen)) =>
        assert buf[hdrLen..n] == buf[..n][hdrLen..];
        taken := Accept(Arrival(DemuxKey(tunnelId, srcIp), false, buf[hdrLen..n]), reading);
    }
  }

  const MAX_WRITE_BATCH := 32

  /** The thread that moves frames from the channel to the TAP device, one write call per frame. */
  class TapWriter {
    const handle: TunnelHandle
    var written: seq<seq<byte>>

    constructor (handle: TunnelHandle)
      ensures this.handle == handle && written == []
    {
      this.handle, written := handle, [];
    }

    /** One round of the loop: `recv`, then `try_recv` while there is room and something waits, then the writes. */
    method WriteBatch() returns (n: nat)
      modifies this`written, handle`channel
      ensures n == if |old(handle.channel)| < MAX_WRITE_BATCH then |old(handle.channel)| else MAX_WRITE_BATCH
      ensures written == old(written) + old(handle.channel)[..n]
      ensures handle.channel == old(handle.channel)[n..]
    {
      var bufs: seq<seq<byte>> := [];
      if handle.channel == [] {
        n := 0; // `recv` blocks
        return;
      }
      bufs := bufs + [handle.channel[0]];
      handle.channel := handle.channel[1..];
      while |bufs| < MAX_WRITE_BATCH && handle.channel != []
        invariant 1 <= |bufs| <= MAX_WRITE_BATCH && |bufs| <= |old(handle.channel)|
        invariant written == old(written)
        invariant bufs == old(handle.channel)[..|bufs|] && handle.channel == old(handle.channel)[|bufs|..]
      {
        bufs := bufs + [handle.channel[0]];
        handle.channel := handle.channel[1..];
      }
      n := |bufs|;
      for i := 0 to |bufs|
        invariant handle.channel == old(handle.channel)[n..]
        invariant written == old(written) + bufs[..i]
      {
        written := written + [bufs[i]];
      }
    }
  }

  /** The two threads of one tunnel: arrivals, single receives of the writer, and its write calls, in any order. */
  datatype Event = Packet(a: Arrival, stamp: int) | Take | Write

  datatype Tunnel = Tunnel(v: RxView, bufs: seq<seq<byte>>, written: seq<seq<byte>>)

  function Step(t: Tunnel, room: nat, e: Event): Tunnel {
    match e
    case Packet(a, stamp) => t.(v := Received(t.v, room, a, stamp))
    case Take =>
      if t.v.frames != [] && |t.bufs| < MAX_WRITE_BATCH
      then t.(v := t.v.(frames := t.v.frames[1..]), bufs := t.bufs + [t.v.frames[0]]) else t
    case Write =>
      if t.bufs != [] then t.(bufs := t.bufs[1..], written := t.written + [t.bufs[0]]) else t
  }

  function Run(t: Tunnel, room: nat, es: seq<Event>): Tunnel
    decreases |es|
  {
    if es == [] then t else Run(Step(t, room, es[0]), room, es[1..])
  }

  /** The arrivals that carry no frame. */
  function Quiet(es: seq<Event>): nat {
    if es == [] then 0
    else (if es[0].Packet? && !CarriesFrame(es[0].a) then 1 else 0) + Quiet(es[1..])
  }

  /** The frame of an arrival that finds room. */
  function Admitted(t: Tunnel, room: nat, e: Event): seq<seq<byte>> {
    if e.Packet? && CarriesFrame(e.a) && |t.v.frames| < room then [Truncated(e.a.frame)] else []
  }

  /** All admitted frames, in arrival order. */
  function Accepted(t: Tunnel, room: nat, es: seq<Event>): seq<seq<byte>>
    decreases |es|
  {
    if es == [] then [] else Admitted(t, room, es[0]) + Accepted(Step(t, room, es[0]), room, es[1..])
  }

  function InTransit(t: Tunnel): seq<seq<byte>> {
    t.written + t.bufs + t.v.frames
  }

  lemma StepAccounting(t: Tunnel, room: nat, e: Event)
    ensures var t1 := Step(t, room, e);
      && InTransit(t1) == InTransit(t) + Admitted(t, room, e)
      && t1.v.rxPackets - t.v.rxPackets == Quiet([e]) + |Admitted(t, room, e)| + (t1.v.rxErrors - t.v.rxErrors)
  {
    var t1 := Step(t, room, e);
    assert Quiet([e]) == if e.Packet? && !CarriesFrame(e.a) then 1 else 0;
    if e.Take? && t1 != t {
      assert t.v.frames == [t.v.frames[0]] + t1.v.frames;
    } else if e.Write? && t1 != t {
      assert t.bufs == [t.bufs[0]] + t1.bufs;
    }
  }

  /** Every accepted frame is written once, in order: what is written, batched and queued is what was accepted.
      Every counted packet was quiet, accepted, or an error. */
  lemma {:induction false} RxAccounting(t: Tunnel, room: nat, es: seq<Event>)
    ensures InTransit(Run(t, room, es)) == InTransit(t) + Accepted(t, room, es)
    ensures Run(t, room, es).v.rxPackets - t.v.rxPackets
         == Quiet(es) + |Accepted(t, room, es)| + (Run(t, room, es).v.rxErrors - t.v.rxErrors)
    decreases |es|
  {
    if es == [] {
      assert InTransit(t) == InTransit(t) + [];
    } else {
      StepAccounting(t, room, es[0]);
      RxAccounting(Step(t, room, es[0]), room, es[1..]);
      assert Quiet(es) == Quiet([es[0]]) + Quiet(es[1..]);
    }
  }

  const FRESH := Tunnel(RxView(0, 0, 0, 0, []), [], [])

  /** For a tunnel that starts empty, at every moment: packets = quiet + written or on their way + errors, and the
      TAP device has seen a prefix of the accepted frames. */
  lemma RxConservation(room: nat, es: seq<Event>)
    ensures var end := Run(FRESH, room, es);
      && end.v.rxPackets == Quiet(es) + |end.written| + |end.bufs| + |end.v.frames| + end.v.rxErrors
      && end.written <= Accepted(FRESH, room, es)
  {
    RxAccounting(FRESH, room, es);
    var end := Run(FRESH, room, es);
    assert InTransit(FRESH) == [];
    assert Accepted(FRESH, room, es) == InTransit(end) == end.written + (end.bufs + end.v.frames);
  }

  /** What happens to a whole registry: raw packets, and the writer threads of its tunnels. */
  datatype RawEvent = RawV4(packet: seq<byte>, stamp: int) | RawV6(packet: seq<byte>, src: IpAddr, stamp: int)
                    | Writer(key: DemuxKey, write: bool)

  function ParseRaw(e: RawEvent): Option<Arrival> {
    match e
    case RawV4(packet, _) => ParseV4(packet)
    case RawV6(packet, src, _) => ParseV6(packet, src)
    case Writer(_, _) => None
  }

  /** What an event is to the tunnel of one key: packets that do not parse to its key are nothing. */
  function EventFor(e: RawEvent, key: DemuxKey): seq<Event> {
    match e
    case Writer(k, write) => if k == key then [if write then Write else Take] else []
    case _ => if ParseRaw(e).Some? && ParseRaw(e).value.key == key then [Packet(ParseRaw(e).value, e.stamp)] else []
  }

  function EventsFor(es: seq<RawEvent>, key: DemuxKey): seq<Event> {
    if es == [] then [] else EventFor(es[0], key) + EventsFor(es[1..], key)
  }

  /** The one tunnel an event is for. */
  function KeyOf(e: RawEvent): Option<DemuxKey> {
    match e
    case Writer(k, _) => Some(k)
    case _ => if ParseRaw(e).Some? then Some(ParseRaw(e).value.key) else None
  }

  function StepAll(sys: map<DemuxKey, Tunnel>, rooms: DemuxKey -> nat, e: RawEvent): map<DemuxKey, Tunnel> {
    var k := KeyOf(e);
    if k.Some? && k.value in sys then sys[k.value := Run(sys[k.value], rooms(k.value), EventFor(e, k.value))] else sys
  }

  function RunAll(sys: map<DemuxKey, Tunnel>, rooms: DemuxKey -> nat, es: seq<RawEvent>): map<DemuxKey, Tunnel>
    decreases |es|
  {
    if es == [] then sys else RunAll(StepAll(sys, rooms, es[0]), rooms, es[1..])
  }

  lemma {:induction false} RunAppend(t: Tunnel, room: nat, es: seq<Event>, more: seq<Event>)
    ensures Run(t, room, es + more) == Run(Run(t, room, es), room, more)
    decreases |es|
  {
    if es == [] {
      assert es + more == more;
    } else {
      assert (es + more)[1..] == es[1..] + more;
      RunAppend(Step(t, room, es[0]), room, es[1..], more);
    }
  }

  /** Demultiplexing: over any raw packets, each registered tunnel runs exactly as it would on the packets that parse to
      its own key, and nothing else reaches it. */
  lemma {:induction false} TunnelsRunApart(sys: map<DemuxKey, Tunnel>, rooms: DemuxKey -> nat, es: seq<RawEvent>,
                                           key: DemuxKey)
    requires key in sys
    ensures RunAll(sys, rooms, es).Keys == sys.Keys
    ensures RunAll(sys, rooms, es)[key] == Run(sys[key], rooms(key), EventsFor(es, key))
    decreases |es|
  {
    if es != [] {
      var sys' := StepAll(sys, rooms, es[0]);
      assert sys'.Keys == sys.Keys;
      assert sys'[key] == Run(sys[key], rooms(key), EventFor(es[0], key));
      TunnelsRunApart(sys', rooms, es[1..], key);
      RunAppend(sys[key], rooms(key), EventFor(es[0], key), EventsFor(es[1..], key));
    }
  }

  /** So for every tunnel that starts empty, over any raw packets: its packets are those quiet, written, on their way,
      or counted as errors, and its TAP device has seen a prefix of its accepted frames. */
  lemma RegistryConservation(sys: map<DemuxKey, Tunnel>, rooms: DemuxKey -> nat, es: seq<RawEvent>, key: DemuxKey)
    requires key in sys && sys[key] == FRESH
    ensures var all := RunAll(sys, rooms, es); var mine := EventsFor(es, key);
      && all.Keys == sys.Keys
      && var end := all[key];
      && end.v.rxPackets == Quiet(mine) + |end.written| + |end.bufs| + |end.v.frames| + end.v.rxErrors
      && end.written <= Accepted(FRESH, rooms(key), mine)
  {
    TunnelsRunApart(sys, rooms, es, key);
    RxConservation(rooms(key), EventsFor(es, key));
  }
}
