/** One block of the shared TPACKET_V3 receive ring: its layout, and the walk over it. */
module RingBlock {
  import opened Bytes

  const BLOCK_SIZE := 262144
  const BLOCK_NR := 16
  const DESC_LEN := 48
  const STATUS_AT := 8
  const NUM_PKTS_AT := 12
  const FIRST_PKT_AT := 16
  const PKT_HDR_LEN := 48
  const TP_STATUS_KERNEL: u32 := 0
  const TP_STATUS_USER: u32 := 1

  type Block = b: seq<byte> | |b| == BLOCK_SIZE witness Zeros(BLOCK_SIZE)

  function Status(b: Block): u32 {
    U32At(b, STATUS_AT)
  }

  /** The `& TP_STATUS_USER` test. */
  predicate UserOwned(b: Block) {
    Status(b) % 2 == 1
  }

  function NumPkts(b: Block): u32 {
    U32At(b, NUM_PKTS_AT)
  }

  function FirstPkt(b: Block): u32 {
    U32At(b, FIRST_PKT_AT)
  }

  /** The block with its status word overwritten. */
  function WithStatus(b: Block, status: u32): Block {
    b[..STATUS_AT] + Le32(status) + b[STATUS_AT + 4..]
  }

  datatype PktHdr = PktHdr(next: u32, snaplen: u32, mac: u16, net: u16)

  function HdrAt(b: Block, off: nat): PktHdr
    requires off + PKT_HDR_LEN <= BLOCK_SIZE
  {
    PktHdr(U32At(b, off), U32At(b, off + 12), U16At(b, off + 24), U16At(b, off + 26))
  }

  /** `snaplen.saturating_sub(net - mac)`. */
  function DataLen(h: PktHdr): nat
    requires h.mac <= h.net
  {
    if h.snaplen < h.net - h.mac then 0 else h.snaplen - (h.net - h.mac)
  }

  /** What the kernel promises of one record: the header and the captured bytes lie inside the block. */
  predicate Fits(b: Block, off: nat) {
    off + PKT_HDR_LEN <= BLOCK_SIZE && var h := HdrAt(b, off); h.mac <= h.net && off + h.mac + h.snaplen <= BLOCK_SIZE
  }

  /** The bytes from the network header on. */
  function PacketAt(b: Block, off: nat): seq<byte>
    requires Fits(b, off)
  {
    var h := HdrAt(b, off);
    if DataLen(h) == 0 then [] else b[off + h.net..off + h.net + DataLen(h)]
  }

  /** A 32-bit word from its bytes in memory order, and a 16-bit one. */
  function Word(b0: int, b1: int, b2: int, b3: int): int {
    b0 + b1 * 0x100 + b2 * 0x1_0000 + b3 * 0x100_0000
  }

  function Half(b0: int, b1: int): int {
    b0 + b1 * 0x100
  }

  /** The bytes of a packet run from the network header to the end of the capture; a capture that ends before the
      network header has none. */
  lemma PacketOnBytes(b: Block, off: nat)
    requires Fits(b, off)
    ensures var mac := Half(b[off + 24], b[off + 25]); var net := Half(b[off + 26], b[off + 27]);
      var end := mac + Word(b[off + 12], b[off + 13], b[off + 14], b[off + 15]);
      && mac <= net && off + end <= BLOCK_SIZE
      && PacketAt(b, off) == if end <= net then [] else b[off + net..off + end]
    ensures HdrAt(b, off).next == Word(b[off], b[off + 1], b[off + 2], b[off + 3])
  {
  }

  /** Status, packet count and first offset in the descriptor. */
  lemma DescriptorOnBytes(b: Block)
    ensures Status(b) == Word(b[8], b[9], b[10], b[11])
    ensures NumPkts(b) == Word(b[12], b[13], b[14], b[15])
    ensures FirstPkt(b) == Word(b[16], b[17], b[18], b[19])
  {
  }

  /** The kernel's chain: the records of `pkts`, linked by relative offsets, the last link being zero. */
  predicate Chain(b: Block, off: nat, pkts: seq<seq<byte>>)
    decreases |pkts|
  {
    pkts == [] ||
    (&& Fits(b, off) && PacketAt(b, off) == pkts[0]
     && (HdrAt(b, off).next == 0 <==> |pkts| == 1)
     && (|pkts| > 1 ==> Chain(b, off + HdrAt(b, off).next, pkts[1..])))
  }

  predicate Holds(b: Block, pkts: seq<seq<byte>>) {
    NumPkts(b) == |pkts| && Chain(b, FirstPkt(b), pkts)
  }

  function NonEmpty(pkts: seq<seq<byte>>): seq<seq<byte>> {
    if pkts == [] then []
    else if pkts[0] == [] then NonEmpty(pkts[1..])
    else [pkts[0]] + NonEmpty(pkts[1..])
  }

  lemma {:induction false} NonEmptyAppend(xs: seq<seq<byte>>, ys: seq<seq<byte>>)
    ensures NonEmpty(xs + ys) == NonEmpty(xs) + NonEmpty(ys)
  {
    if xs == [] {
      assert xs + ys == ys;
    } else {
      assert (xs + ys)[1..] == xs[1..] + ys;
      NonEmptyAppend(xs[1..], ys);
    }
  }

  /** With `NonEmptyAppend` this says what is kept: every packet with bytes, and no other. */
  lemma NonEmptyOne(p: seq<byte>)
    ensures NonEmpty([p]) == if |p| > 0 then [p] else []
  {
    assert [p][1..] == [];
  }

  lemma Regroup<T>(xs: seq<T>, x: T, ys: seq<T>)
    ensures xs + ([x] + ys) == xs + [x] + ys
  {
  }

  /** The loop over a ready block: the callback sees the non-empty packets, in order, and nothing else. */
  method WalkBlock(b: Block, ghost pkts: seq<seq<byte>>) returns (seen: seq<seq<byte>>)
    requires Holds(b, pkts)
    ensures seen == NonEmpty(pkts)
  {
    var numPkts := NumPkts(b);
    var offset: nat := FirstPkt(b);
    seen := [];
    var i := 0;
    ghost var rest := pkts;
    while i < numPkts
      invariant 0 <= i <= numPkts && |rest| == numPkts - i
      invariant Chain(b, offset, rest)
      invariant seen + NonEmpty(rest) == NonEmpty(pkts)
    {
      var hdr := HdrAt(b, offset);
      var l2Len := hdr.net - hdr.mac;
      var dataLen := if hdr.snaplen < l2Len then 0 else hdr.snaplen - l2Len;
      assert PacketAt(b, offset) == rest[0];
      if dataLen == 0 {
        rest := rest[1..];
        if hdr.next != 0 {
          offset := offset + hdr.next;
        } else {
          break;
        }
        i := i + 1;
        continue;
      }
      var data := b[offset + hdr.net..offset + hdr.net + dataLen];
      assert data == rest[0];
      Regroup(seen, data, NonEmpty(rest[1..]));
      seen := seen + [data];
      rest := rest[1..];
      if hdr.next != 0 {
        offset := offset + hdr.next;
      } else {
        break;
      }
      i := i + 1;
    }
    assert NonEmpty(rest) == [];
  }
}

/** The kernel's side of one block: how captured packets are laid out. */
module RingLayout {
  import opened Bytes
  import opened RingBlock

  /** A packet header: link, times, captured length, length and status, the two offsets, and the variant part. */
  function HeaderOf(next: u32, snaplen: u32, mac: u16, net: u16): (h: seq<byte>)
    ensures |h| == PKT_HDR_LEN
  {
    Le32(next) + (Zeros(8) + (Le32(snaplen) + (Zeros(8) + (Le16(mac) + (Le16(net) + Zeros(20))))))
  }

  /** A captured packet: alignment gap, link-layer header, network bytes, alignment tail. */
  datatype Capture = Capture(gap: seq<byte>, l2: seq<byte>, ip: seq<byte>, tail: seq<byte>) {
    predicate Encodable() {
      PKT_HDR_LEN + |gap| + |l2| < 0x1_0000 && RecordLen() < 0x1_0000_0000
    }

    function RecordLen(): nat {
      PKT_HDR_LEN + |gap| + |l2| + |ip| + |tail|
    }

    function HeaderBytes(last: bool): (h: seq<byte>)
      requires Encodable()
      ensures |h| == PKT_HDR_LEN
    {
      HeaderOf(if last then 0 else RecordLen(), |l2| + |ip|, PKT_HDR_LEN + |gap|, PKT_HDR_LEN + |gap| + |l2|)
    }

    function Record(last: bool): (r: seq<byte>)
      requires Encodable()
      ensures |r| == RecordLen()
    {
      HeaderBytes(last) + (gap + (l2 + (ip + tail)))
    }
  }

  predicate AllEncodable(cs: seq<Capture>) {
    forall i :: 0 <= i < |cs| ==> cs[i].Encodable()
  }

  function Records(cs: seq<Capture>): seq<byte>
    requires AllEncodable(cs)
  {
    if cs == [] then [] else cs[0].Record(|cs| == 1) + Records(cs[1..])
  }

  function Payloads(cs: seq<Capture>): seq<seq<byte>> {
    if cs == [] then [] else [cs[0].ip] + Payloads(cs[1..])
  }

  function Descriptor(status: u32, n: u32, first: u32): (d: seq<byte>)
    ensures |d| == DESC_LEN
  {
    Zeros(8) + (Le32(status) + (Le32(n) + (Le32(first) + Zeros(28))))
  }

  /** A whole block: descriptor, private area, records, and whatever is left over. */
  function Layout(status: u32, lead: seq<byte>, cs: seq<Capture>, spare: seq<byte>): seq<byte>
    requires AllEncodable(cs) && |cs| < 0x1_0000_0000 && DESC_LEN + |lead| < 0x1_0000_0000
  {
    Descriptor(status, |cs|, DESC_LEN + |lead|) + (lead + (Records(cs) + spare))
  }

  /** The bytes `s` stand at `at`. */
  predicate Present(b: Block, at: nat, s: seq<byte>) {
    at + |s| <= BLOCK_SIZE && forall i :: 0 <= i < |s| ==> b[at + i] == s[i]
  }

  lemma PresentSplit(b: Block, at: nat, s: seq<byte>, t: seq<byte>)
    requires Present(b, at, s + t)
    ensures Present(b, at, s) && Present(b, at + |s|, t)
  {
    forall i | 0 <= i < |s|
      ensures b[at + i] == s[i]
    {
      assert (s + t)[i] == s[i];
    }
    forall i | 0 <= i < |t|
      ensures b[at + |s| + i] == t[i]
    {
      assert (s + t)[|s| + i] == t[i];
    }
  }

  lemma ReadLe16(b: Block, at: nat, x: u16)
    requires Present(b, at, Le16(x))
    ensures U16At(b, at) == x
  {
    assert b[at + 0] == Le16(x)[0] && b[at + 1] == Le16(x)[1];
  }

  lemma ReadLe32(b: Block, at: nat, x: u32)
    requires Present(b, at, Le32(x))
    ensures U32At(b, at) == x
  {
    PresentSplit(b, at, Le16(x % 0x1_0000), Le16(x / 0x1_0000));
    ReadLe16(b, at, x % 0x1_0000);
    ReadLe16(b, at + 2, x / 0x1_0000);
  }

  lemma HeaderReadsBack(b: Block, at: nat, next: u32, snaplen: u32, mac: u16, net: u16)
    requires Present(b, at, HeaderOf(next, snaplen, mac, net))
    ensures HdrAt(b, at) == PktHdr(next, snaplen, mac, net)
  {
    var offsets := Le16(mac) + (Le16(net) + Zeros(20));
    var sizes := Le32(snaplen) + (Zeros(8) + offsets);
    PresentSplit(b, at, Le32(next), Zeros(8) + sizes);
    PresentSplit(b, at + 4, Zeros(8), sizes);
    PresentSplit(b, at + 12, Le32(snaplen), Zeros(8) + offsets);
    PresentSplit(b, at + 16, Zeros(8), offsets);
    PresentSplit(b, at + 24, Le16(mac), Le16(net) + Zeros(20));
    PresentSplit(b, at + 26, Le16(net), Zeros(20));
    ReadLe32(b, at, next);
    ReadLe32(b, at + 12, snaplen);
    ReadLe16(b, at + 24, mac);
    ReadLe16(b, at + 26, net);
  }

  lemma PresentIsSlice(b: Block, at: nat, s: seq<byte>)
    requires Present(b, at, s)
    ensures b[at..at + |s|] == s
  {
  }

  /** A record reads back from wherever it lies in the block. */
  lemma RecordReadsBack(b: Block, at: nat, c: Capture, last: bool)
    requires c.Encodable() && Present(b, at, c.Record(last))
    ensures Fits(b, at) && PacketAt(b, at) == c.ip
    ensures HdrAt(b, at).next == if last then 0 else c.RecordLen()
  {
    var net := PKT_HDR_LEN + |c.gap| + |c.l2|;
    var body := c.l2 + (c.ip + c.tail);
    PresentSplit(b, at, c.HeaderBytes(last), c.gap + body);
    PresentSplit(b, at + PKT_HDR_LEN, c.gap, body);
    PresentSplit(b, at + PKT_HDR_LEN + |c.gap|, c.l2, c.ip + c.tail);
    PresentSplit(b, at + net, c.ip, c.tail);
    HeaderReadsBack(b, at, if last then 0 else c.RecordLen(), |c.l2| + |c.ip|, PKT_HDR_LEN + |c.gap|, net);
    PresentIsSlice(b, at + net, c.ip);
  }

  lemma {:induction false} RecordsChain(b: Block, at: nat, cs: seq<Capture>)
    requires AllEncodable(cs) && Present(b, at, Records(cs))
    ensures Chain(b, at, Payloads(cs)) && |Payloads(cs)| == |cs|
    decreases |cs|
  {
    if cs != [] {
      PresentSplit(b, at, cs[0].Record(|cs| == 1), Records(cs[1..]));
      RecordReadsBack(b, at, cs[0], |cs| == 1);
      RecordsChain(b, at + cs[0].RecordLen(), cs[1..]);
      assert Payloads(cs)[1..] == Payloads(cs[1..]);
    }
  }

  lemma DescriptorReadsBack(b: Block, status: u32, n: u32, first: u32)
    requires Present(b, 0, Descriptor(status, n, first))
    ensures Status(b) == status && NumPkts(b) == n && FirstPkt(b) == first
  {
    var rest := Le32(first) + Zeros(28);
    PresentSplit(b, 0, Zeros(8), Le32(status) + (Le32(n) + rest));
    PresentSplit(b, 8, Le32(status), Le32(n) + rest);
    PresentSplit(b, 12, Le32(n), rest);
    PresentSplit(b, 16, Le32(first), Zeros(28));
    ReadLe32(b, 8, status);
    ReadLe32(b, 12, n);
    ReadLe32(b, 16, first);
  }

  lemma PresentParts(b: Block, d: seq<byte>, lead: seq<byte>, records: seq<byte>, spare: seq<byte>)
    requires b == d + (lead + (records + spare))
    ensures Present(b, 0, d) && Present(b, |d| + |lead|, records)
  {
    PresentSplit(b, 0, d, lead + (records + spare));
    PresentSplit(b, |d|, lead, records + spare);
    PresentSplit(b, |d| + |lead|, records, spare);
  }

  /** The walk inverts the layout: a block laid out from captured packets holds their payloads, whatever else the
      status word, the private area and the left-over bytes contain. */
  lemma LayoutHolds(b: Block, status: u32, lead: seq<byte>, cs: seq<Capture>, spare: seq<byte>)
    requires AllEncodable(cs) && |cs| < 0x1_0000_0000 && DESC_LEN + |lead| < 0x1_0000_0000
    requires b == Layout(status, lead, cs, spare)
    ensures Status(b) == status && Holds(b, Payloads(cs))
  {
    var first := DESC_LEN + |lead|;
    PresentParts(b, Descriptor(status, |cs|, first), lead, Records(cs), spare);
    DescriptorReadsBack(b, status, |cs|, first);
    RecordsChain(b, first, cs);
  }
}

/** The daemon's side of the ring: sixteen blocks in one mapping, and the block to look at next. */
module PacketMmap {
  import opened Bytes
  import opened RingBlock

  function BlockIn(mapping: seq<byte>, k: nat): Block
    requires |mapping| == BLOCK_SIZE * BLOCK_NR && k < BLOCK_NR
  {
    mapping[k * BLOCK_SIZE..(k + 1) * BLOCK_SIZE]
  }

  /** Writing inside block `k` changes that block only. */
  lemma OnlyBlockChanged(before: seq<byte>, after: seq<byte>, k: nat, b: Block)
    requires |before| == |after| == BLOCK_SIZE * BLOCK_NR && k < BLOCK_NR
    requires forall i :: 0 <= i < BLOCK_SIZE ==> after[k * BLOCK_SIZE + i] == b[i]
    requires forall i :: 0 <= i < |after| && !(k * BLOCK_SIZE <= i < (k + 1) * BLOCK_SIZE) ==> after[i] == before[i]
    ensures BlockIn(after, k) == b
    ensures forall j :: 0 <= j < BLOCK_NR && j != k ==> BlockIn(after, j) == BlockIn(before, j)
  {
  }

  class PacketMmapRing {
    const ring: array<byte>
    var currentBlock: nat

    predicate Valid()
      reads this
    {
      ring.Length == BLOCK_SIZE * BLOCK_NR && currentBlock < BLOCK_NR
    }

    constructor (mapping: array<byte>)
      requires mapping.Length == BLOCK_SIZE * BLOCK_NR
      ensures Valid() && ring == mapping && currentBlock == 0
    {
      ring, currentBlock := mapping, 0;
    }

    /** The bytes behind `block_ptr(k)`. */
    function BlockAt(k: nat): Block
      reads ring
      requires ring.Length == BLOCK_SIZE * BLOCK_NR && k < BLOCK_NR
    {
      BlockIn(ring[..], k)
    }

    /** What the kernel has stored in block `k` by the time `poll` returns. */
    method KernelStores(k: nat, b: Block)
      requires Valid() && k < BLOCK_NR
      modifies ring
      ensures BlockAt(k) == b && forall j :: 0 <= j < BLOCK_NR && j != k ==> BlockAt(j) == old(BlockAt(j))
    {
      var base := k * BLOCK_SIZE;
      for i := 0 to BLOCK_SIZE
        invariant forall j :: 0 <= j < i ==> ring[base + j] == b[j]
        invariant forall j :: 0 <= j < ring.Length && !(base <= j < base + i) ==> ring[j] == old(ring[j])
      {
        ring[base + i] := b[i];
      }
      OnlyBlockChanged(old(ring[..]), ring[..], k, b);
    }

    /** `published` is what the current block holds when `poll` returns; it matters only if the block was not ready
        before. `pkts` names the packets of the block that ends up ready. */
    method ProcessBlock(polled: int, published: Block, ghost pkts: seq<seq<byte>>)
      returns (count: nat, delivered: seq<seq<byte>>)
      requires Valid()
      requires var b := if UserOwned(BlockAt(currentBlock)) then BlockAt(currentBlock) else published;
        UserOwned(b) ==> Holds(b, pkts)
      modifies this`currentBlock, ring
      ensures Valid()
      ensures var k := old(currentBlock); var b := if UserOwned(old(BlockAt(k))) then old(BlockAt(k)) else published;
        && (forall j :: 0 <= j < BLOCK_NR && j != k ==> BlockAt(j) == old(BlockAt(j)))
        && if UserOwned(b) && (UserOwned(old(BlockAt(k))) || polled > 0) then
             && delivered == NonEmpty(pkts) && count == |pkts|
             && BlockAt(k) == WithStatus(b, TP_STATUS_KERNEL) && currentBlock == (k + 1) % BLOCK_NR
           else
             delivered == [] && count == 0 && BlockAt(k) == b && currentBlock == k
    {
      var k := currentBlock;
      if !UserOwned(BlockAt(k)) {
        KernelStores(k, published);
        if polled <= 0 {
          return 0, [];
        }
        if !UserOwned(BlockAt(k)) {
          return 0, [];
        }
      }
      count := NumPkts(BlockAt(k));
      delivered := WalkBlock(BlockAt(k), pkts);
      ReleaseBlock(k);
      currentBlock := (currentBlock + 1) % BLOCK_NR;
    }

    /** The status word of block `k` goes back to the kernel; no other byte of the ring changes. */
    method ReleaseBlock(k: nat)
      requires Valid() && k < BLOCK_NR
      modifies ring
      ensures BlockAt(k) == WithStatus(old(BlockAt(k)), TP_STATUS_KERNEL)
      ensures forall j :: 0 <= j < BLOCK_NR && j != k ==> BlockAt(j) == old(BlockAt(j))
    {
      var at := k * BLOCK_SIZE + STATUS_AT;
      ring[at], ring[at + 1], ring[at + 2], ring[at + 3] := 0, 0, 0, 0;
      ghost var before, b := old(ring[..]), old(BlockAt(k));
      forall i | 0 <= i < BLOCK_SIZE
        ensures ring[..][k * BLOCK_SIZE + i] == WithStatus(b, TP_STATUS_KERNEL)[i]
      {
        if STATUS_AT <= i < STATUS_AT + 4 {
          assert WithStatus(b, TP_STATUS_KERNEL)[i] == Le32(TP_STATUS_KERNEL)[i - STATUS_AT] == 0;
        } else {
          assert before[k * BLOCK_SIZE + i] == b[i];
        }
      }
      OnlyBlockChanged(before, ring[..], k, WithStatus(b, TP_STATUS_KERNEL));
    }
  }
}

/** What one call of `ProcessBlock` delivers, in terms of what the kernel laid out. */
module RingDelivery {
  import opened Bytes
  import opened RingBlock
  import opened RingLayout
  import opened PacketMmap

  /** A block as the kernel lays it out, with any status word. */
  datatype Filling = Filling(status: u32, lead: seq<byte>, cs: seq<Capture>, spare: seq<byte>) {
    predicate Ok() {
      AllEncodable(cs) && |cs| < 0x1_0000_0000 && DESC_LEN + |lead| < 0x1_0000_0000
    }

    function Bytes(): seq<byte>
      requires Ok()
    {
      Layout(status, lead, cs, spare)
    }

    /** The user bit of the status word, whatever its other bits say. */
    predicate Ready() {
      status % 2 == 1
    }
  }

  /** The `status & TP_STATUS_USER` of the source is that bit, which is in the lowest byte. */
  lemma UserBit(low: bv8, status: u32)
    requires low as int == status % 0x100
    ensures low & 1 != 0 <==> status % 2 == 1
  {
    LowBit(low);
  }

  lemma LowBit(low: bv8)
    ensures low & 1 != 0 <==> low as int % 2 == 1
  {
  }

  /** The four status bytes are zero and every other byte is as it was. */
  predicate GivenBack(b: Block, b': Block) {
    forall i :: 0 <= i < BLOCK_SIZE ==> b'[i] == if 8 <= i < 12 then 0 else b[i]
  }

  lemma WithStatusGivesBack(b: Block)
    ensures GivenBack(b, WithStatus(b, TP_STATUS_KERNEL))
  {
    var b' := WithStatus(b, TP_STATUS_KERNEL);
    forall i | 0 <= i < BLOCK_SIZE
      ensures b'[i] == if 8 <= i < 12 then 0 else b[i]
    {
      if 8 <= i < 12 {
        assert b'[i] == Le32(TP_STATUS_KERNEL)[i - 8] == 0;
      }
    }
  }

  /** The user bit of a block, as it lies in memory. */
  predicate UserBitSet(b: Block) {
    b[8] % 2 == 1
  }

  lemma WordParity(b0: int, b1: int, b2: int, b3: int)
    ensures Word(b0, b1, b2, b3) % 2 == b0 % 2
  {
    var k := b1 * 0x80 + b2 * 0x8000 + b3 * 0x80_0000;
    assert Word(b0, b1, b2, b3) == b0 + 2 * k;
    EvenAdded(b0, k);
  }

  lemma EvenAdded(x: int, k: int)
    ensures (x + 2 * k) % 2 == x % 2
  {
  }

  lemma OwnedByUserBit(b: Block)
    ensures UserOwned(b) <==> UserBitSet(b)
  {
    DescriptorOnBytes(b);
    WordParity(b[8], b[9], b[10], b[11]);
  }

  lemma FillingFacts(f: Filling, b: Block)
    requires f.Ok() && b == f.Bytes()
    ensures (UserBitSet(b) <==> f.Ready()) && Holds(b, Payloads(f.cs)) && |Payloads(f.cs)| == |f.cs|
  {
    LayoutHolds(b, f.status, f.lead, f.cs, f.spare);
    OwnedByUserBit(b);
    PayloadCount(f.cs);
  }

  lemma {:induction false} PayloadCount(cs: seq<Capture>)
    ensures |Payloads(cs)| == |cs|
  {
    if cs != [] {
      PayloadCount(cs[1..]);
    }
  }

  /** One call, by the user bits: a block whose bit is set, now or after a poll that did not time out, is delivered,
      given back, and left behind; otherwise nothing is delivered and the daemon stays. */
  method ProcessByBit(ring: PacketMmapRing, polled: int, published: Block, ghost pkts: seq<seq<byte>>)
    returns (count: nat, delivered: seq<seq<byte>>)
    requires ring.Valid()
    requires Holds(if UserBitSet(ring.BlockAt(ring.currentBlock)) then ring.BlockAt(ring.currentBlock) else published,
                   pkts)
    modifies ring`currentBlock, ring.ring
    ensures ring.Valid()
    ensures var k := old(ring.currentBlock); var b := old(ring.BlockAt(k));
      if UserBitSet(b) || (UserBitSet(published) && polled > 0) then
        && delivered == NonEmpty(pkts) && count == |pkts| && ring.currentBlock == (k + 1) % 16
        && GivenBack(if UserBitSet(b) then b else published, ring.BlockAt(k))
      else
        delivered == [] && count == 0 && ring.currentBlock == k && ring.BlockAt(k) == published
    ensures forall j :: 0 <= j < BLOCK_NR && j != old(ring.currentBlock) ==> ring.BlockAt(j) == old(ring.BlockAt(j))
  {
    OwnedByUserBit(ring.BlockAt(ring.currentBlock));
    OwnedByUserBit(published);
    WithStatusGivesBack(ring.BlockAt(ring.currentBlock));
    WithStatusGivesBack(published);
    count, delivered := ring.ProcessBlock(polled, published, pkts);
  }

  /** One call on a block that the kernel laid out with the user bit set: its payloads are delivered, it is given back,
      and the next index follows. */
  method DeliverReady(ring: PacketMmapRing, polled: int, published: Block, ghost f: Filling)
    returns (count: nat, delivered: seq<seq<byte>>)
    requires ring.Valid() && f.Ok() && f.Ready() && ring.BlockAt(ring.currentBlock) == f.Bytes()
    modifies ring`currentBlock, ring.ring
    ensures ring.Valid() && delivered == NonEmpty(Payloads(f.cs)) && count == |f.cs|
    ensures var k := old(ring.currentBlock);
      ring.currentBlock == (k + 1) % 16 && GivenBack(old(ring.BlockAt(k)), ring.BlockAt(k))
  {
    assert Holds(ring.BlockAt(ring.currentBlock), Payloads(f.cs)) && UserBitSet(ring.BlockAt(ring.currentBlock))
           && |Payloads(f.cs)| == |f.cs| by {
      FillingFacts(f, ring.BlockAt(ring.currentBlock));
    }
    count, delivered := ProcessByBit(ring, polled, published, Payloads(f.cs));
  }

  /** One call on a block without the user bit: what the kernel laid out there by the end of the poll is delivered if
      the poll did not time out and its user bit is set, and not otherwise. */
  method DeliverAfterPoll(ring: PacketMmapRing, polled: int, published: Block, ghost f: Filling)
    returns (count: nat, delivered: seq<seq<byte>>)
    requires ring.Valid() && !UserBitSet(ring.BlockAt(ring.currentBlock)) && f.Ok() && published == f.Bytes()
    modifies ring`currentBlock, ring.ring
    ensures ring.Valid()
    ensures var k := old(ring.currentBlock);
      if f.Ready() && polled > 0 then
        && delivered == NonEmpty(Payloads(f.cs)) && count == |f.cs|
        && ring.currentBlock == (k + 1) % 16 && GivenBack(published, ring.BlockAt(k))
      else
        delivered == [] && count == 0 && ring.currentBlock == k && ring.BlockAt(k) == published
  {
    assert Holds(published, Payloads(f.cs)) && (UserBitSet(published) <==> f.Ready()) && |Payloads(f.cs)| == |f.cs| by {
      FillingFacts(f, published);
    }
    count, delivered := ProcessByBit(ring, polled, published, Payloads(f.cs));
  }
}
