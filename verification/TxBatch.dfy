/** The batcher and the scatter/gather builder behind `sendmmsg`. */
module TxBatch {
  import opened Bytes
  import opened TunnelHandles

  /** A packet as the batcher sees it: the bytes its buffer exposes, and where they go. */
  datatype TxPacket = TxPacket(bytes: seq<byte>, dest: IpAddr)

  /** The packets of one address family, in order. */
  function Family(v6: bool, xs: seq<TxPacket>): seq<TxPacket> {
    if xs == [] then [] else (if xs[0].dest.V6? == v6 then [xs[0]] else []) + Family(v6, xs[1..])
  }

  lemma {:induction false} FamilyAppend(v6: bool, xs: seq<TxPacket>, ys: seq<TxPacket>)
    ensures Family(v6, xs + ys) == Family(v6, xs) + Family(v6, ys)
  {
    if xs == [] {
      assert xs + ys == ys;
    } else {
      assert (xs + ys)[1..] == xs[1..] + ys;
      FamilyAppend(v6, xs[1..], ys);
    }
  }

  lemma FamilySnoc(v6: bool, xs: seq<TxPacket>, x: TxPacket)
    ensures Family(v6, xs + [x]) == Family(v6, xs) + if x.dest.V6? == v6 then [x] else []
  {
    FamilyAppend(v6, xs, [x]);
    assert Family(v6, [x][1..]) == [];
  }

  function Select(batch: seq<TxPacket>, indices: seq<nat>): (xs: seq<TxPacket>)
    requires forall i :: 0 <= i < |indices| ==> indices[i] < |batch|
    ensures |xs| == |indices| && forall i :: 0 <= i < |xs| ==> xs[i] == batch[indices[i]]
  {
    seq(|indices|, i requires 0 <= i < |indices| => batch[indices[i]])
  }

  /** A place in one of the two address vectors. */
  datatype NamePtr = IntoV4(i: nat) | IntoV6(i: nat)

  /** A message header: its place in the iovec vector and the place of its address. */
  datatype MsgHdr = MsgHdr(iov: nat, name: NamePtr)

  function Dests(xs: seq<TxPacket>): (ds: seq<IpAddr>)
    ensures |ds| == |xs| && forall i :: 0 <= i < |xs| ==> ds[i] == xs[i].dest
  {
    seq(|xs|, i requires 0 <= i < |xs| => xs[i].dest)
  }

  /** The address of packet `i` sits behind those of its family that come earlier. */
  function Place(xs: seq<TxPacket>, i: nat): NamePtr
    requires i < |xs|
  {
    if xs[i].dest.V6? then IntoV6(|Family(true, xs[..i])|) else IntoV4(|Family(false, xs[..i])|)
  }

  /** A family holds packets of its own kind only, and the two families hold all packets. */
  lemma {:induction false} FamiliesSplit(xs: seq<TxPacket>)
    ensures forall v6, i :: 0 <= i < |Family(v6, xs)| ==> Family(v6, xs)[i].dest.V6? == v6
    ensures |Family(false, xs)| + |Family(true, xs)| == |xs|
  {
    if xs != [] {
      FamiliesSplit(xs[1..]);
    }
  }

  lemma NthOfFamily(xs: seq<TxPacket>, i: nat)
    requires i < |xs|
    ensures var v6 := xs[i].dest.V6?; var n := |Family(v6, xs[..i])|;
      n < |Family(v6, xs)| && Family(v6, xs)[n] == xs[i]
    ensures forall v6 :: |Family(v6, xs[..i + 1])| == |Family(v6, xs[..i])| + if xs[i].dest.V6? == v6 then 1 else 0
  {
    var v6 := xs[i].dest.V6?;
    assert xs == xs[..i] + xs[i..];
    FamilyAppend(v6, xs[..i], xs[i..]);
    assert Family(v6, xs[i..])[0] == xs[i];
    assert xs[..i + 1] == xs[..i] + [xs[i]];
    FamilySnoc(true, xs[..i], xs[i]);
    FamilySnoc(false, xs[..i], xs[i]);
  }

  /** Vectors that are cleared and refilled by every flush. */
  class TxBatchBuffers {
    var iovecs: seq<seq<byte>>
    var addrsV4: seq<IpAddr>
    var addrsV6: seq<IpAddr>
    var isV6: seq<bool>
    var msgs: seq<MsgHdr>

    constructor ()
    {
      iovecs, addrsV4, addrsV6, isV6, msgs := [], [], [], [], [];
    }

    predicate PointsInside(m: MsgHdr)
      reads this
    {
      m.iov < |iovecs| && m.name.i < if m.name.IntoV4? then |addrsV4| else |addrsV6|
    }

    /** What the kernel reads through a message header. */
    function Deref(m: MsgHdr): TxPacket
      reads this
      requires PointsInside(m)
    {
      TxPacket(iovecs[m.iov], if m.name.IntoV4? then addrsV4[m.name.i] else addrsV6[m.name.i])
    }

    /** The four data vectors are exactly those of `xs`... */
    ghost predicate Gathered(xs: seq<TxPacket>)
      reads this
    {
      && |iovecs| == |isV6| == |xs|
      && (forall i :: 0 <= i < |xs| ==> iovecs[i] == xs[i].bytes && isV6[i] == xs[i].dest.V6?)
      && addrsV4 == Dests(Family(false, xs)) && addrsV6 == Dests(Family(true, xs))
    }

    /** ...and message i points at iovec i and at the place of its address. */
    ghost predicate Addressed(xs: seq<TxPacket>)
      reads this
    {
      |msgs| == |xs| && forall i :: 0 <= i < |xs| ==> msgs[i] == MsgHdr(i, Place(xs, i))
    }

    /** Whatever the vectors held before, message i ends up carrying the bytes and the address of batch[indices[i]].
        Every vector is determined by the selected packets, so a reused set of vectors cannot differ from a new one. */
    method Build(batch: seq<TxPacket>, indices: seq<nat>)
      requires forall i :: 0 <= i < |indices| ==> indices[i] < |batch|
      modifies this
      ensures |msgs| == |indices|
      ensures forall i :: 0 <= i < |indices| ==> PointsInside(msgs[i]) && Deref(msgs[i]) == batch[indices[i]]
      ensures Gathered(Select(batch, indices)) && Addressed(Select(batch, indices))
    {
      Gather(batch, indices);
      Address(Select(batch, indices));
      MessagesResolve(Select(batch, indices));
    }

    method Gather(batch: seq<TxPacket>, indices: seq<nat>)
      requires forall i :: 0 <= i < |indices| ==> indices[i] < |batch|
      modifies this
      ensures Gathered(Select(batch, indices))
    {
      ghost var xs := Select(batch, indices);
      iovecs, addrsV4, addrsV6, isV6 := [], [], [], [];
      for i := 0 to |indices|
        invariant |iovecs| == |isV6| == i
        invariant forall j :: 0 <= j < i ==> iovecs[j] == xs[j].bytes && isV6[j] == xs[j].dest.V6?
        invariant addrsV4 == Dests(Family(false, xs[..i])) && addrsV6 == Dests(Family(true, xs[..i]))
      {
        var pkt := batch[indices[i]];
        assert xs[..i + 1] == xs[..i] + [pkt];
        FamilySnoc(false, xs[..i], pkt);
        FamilySnoc(true, xs[..i], pkt);
        iovecs := iovecs + [pkt.bytes];
        match pkt.dest
        case V4(_) =>
          isV6 := isV6 + [false];
          addrsV4 := addrsV4 + [pkt.dest];
        case V6(_) =>
          isV6 := isV6 + [true];
          addrsV6 := addrsV6 + [pkt.dest];
      }
      assert xs[..|indices|] == xs;
    }

    method Address(ghost xs: seq<TxPacket>)
      requires Gathered(xs)
      modifies this`msgs
      ensures Gathered(xs) && Addressed(xs)
    {
      msgs := [];
      var v4Idx, v6Idx := 0, 0;
      for i := 0 to |isV6|
        invariant Gathered(xs) && |msgs| == i
        invariant v4Idx == |Family(false, xs[..i])| && v6Idx == |Family(true, xs[..i])|
        invariant forall j :: 0 <= j < i ==> msgs[j] == MsgHdr(j, Place(xs, j))
      {
        NthOfFamily(xs, i);
        if isV6[i] {
          msgs := msgs + [MsgHdr(i, IntoV6(v6Idx))];
          v6Idx := v6Idx + 1;
        } else {
          msgs := msgs + [MsgHdr(i, IntoV4(v4Idx))];
          v4Idx := v4Idx + 1;
        }
      }
    }

    lemma MessagesResolve(xs: seq<TxPacket>)
      requires Gathered(xs) && Addressed(xs)
      ensures forall i :: 0 <= i < |xs| ==> PointsInside(msgs[i]) && Deref(msgs[i]) == xs[i]
    {
      forall i | 0 <= i < |xs|
        ensures PointsInside(msgs[i]) && Deref(msgs[i]) == xs[i]
      {
        NthOfFamily(xs, i);
      }
    }
  }

  /** What the two selects of the batcher observe: a receive that completes, or the other branch
      (cancellation in the outer one, the deadline in the inner one). */
  datatype Choice = Receive | Other

  datatype Filled = Filled(batch: seq<TxPacket>, incoming: seq<TxPacket>, choices: seq<Choice>)

  /** The inner loop: packets join the batch up to the high-water mark, until the deadline or the end of the channel. */
  function Fill(batch: seq<TxPacket>, incoming: seq<TxPacket>, choices: seq<Choice>, highWater: nat): (r: Filled)
    ensures |r.choices| <= |choices|
    decreases |choices|
  {
    if |batch| >= highWater || choices == [] then Filled(batch, incoming, choices)
    else if choices[0].Other? || incoming == [] then Filled(batch, incoming, choices[1..])
    else Fill(batch + [incoming[0]], incoming[1..], choices[1..], highWater)
  }

  /** The batches of a whole run, in order. */
  function Batches(incoming: seq<TxPacket>, choices: seq<Choice>, lowWater: nat, highWater: nat): seq<seq<TxPacket>>
    decreases |choices|
  {
    if choices == [] || choices[0].Other? || incoming == [] then []
    else if 1 < lowWater then [[incoming[0]]] + Batches(incoming[1..], choices[1..], lowWater, highWater)
    else
      var filled := Fill([incoming[0]], incoming[1..], choices[1..], highWater);
      [filled.batch] + Batches(filled.incoming, filled.choices, lowWater, highWater)
  }

  /** The sizes a flush can have: the fill loop runs only if a single packet reaches the low-water mark. */
  predicate FlushSize(lowWater: nat, highWater: nat, n: nat) {
    if lowWater >= 2 then n == 1 else 1 <= n <= if highWater > 1 then highWater else 1
  }

  lemma {:induction false} FillSize(batch: seq<TxPacket>, incoming: seq<TxPacket>, choices: seq<Choice>, highWater: nat)
    requires 1 <= |batch| <= if highWater > 1 then highWater else 1
    ensures 1 <= |Fill(batch, incoming, choices, highWater).batch| <= if highWater > 1 then highWater else 1
    decreases |choices|
  {
    if |batch| < highWater && choices != [] && choices[0].Receive? && incoming != [] {
      FillSize(batch + [incoming[0]], incoming[1..], choices[1..], highWater);
    }
  }

  predicate AllSizes(lowWater: nat, highWater: nat, bs: seq<seq<TxPacket>>) {
    forall i :: 0 <= i < |bs| ==> FlushSize(lowWater, highWater, |bs[i]|)
  }

  lemma SizesCons(lowWater: nat, highWater: nat, b: seq<TxPacket>, later: seq<seq<TxPacket>>)
    requires FlushSize(lowWater, highWater, |b|) && AllSizes(lowWater, highWater, later)
    ensures AllSizes(lowWater, highWater, [b] + later)
  {
  }

  lemma {:induction false} BatchSizes(incoming: seq<TxPacket>, choices: seq<Choice>, lowWater: nat, highWater: nat)
    ensures AllSizes(lowWater, highWater, Batches(incoming, choices, lowWater, highWater))
    decreases |choices|
  {
    if choices != [] && choices[0].Receive? && incoming != [] {
      if 1 < lowWater {
        BatchSizes(incoming[1..], choices[1..], lowWater, highWater);
        SizesCons(lowWater, highWater, [incoming[0]], Batches(incoming[1..], choices[1..], lowWater, highWater));
      } else {
        var filled := Fill([incoming[0]], incoming[1..], choices[1..], highWater);
        FillSize([incoming[0]], incoming[1..], choices[1..], highWater);
        BatchSizes(filled.incoming, filled.choices, lowWater, highWater);
        SizesCons(lowWater, highWater, filled.batch, Batches(filled.incoming, filled.choices, lowWater, highWater));
      }
    }
  }

  function Receives(n: nat): seq<Choice> {
    seq(n, _ => Receive)
  }

  lemma {:induction false} FillTakesAll(batch: seq<TxPacket>, incoming: seq<TxPacket>, highWater: nat)
    requires |batch| + |incoming| <= highWater || incoming == []
    ensures Fill(batch, incoming, Receives(|incoming|), highWater) == Filled(batch + incoming, [], [])
    decreases |incoming|
  {
    if incoming == [] {
      assert batch + incoming == batch;
    } else {
      assert Receives(|incoming|)[1..] == Receives(|incoming[1..]|);
      FillTakesAll(batch + [incoming[0]], incoming[1..], highWater);
      assert batch + [incoming[0]] + incoming[1..] == batch + incoming;
    }
  }

  /** A run in which n packets arrive at once and leave together. */
  lemma OneFlush(incoming: seq<TxPacket>, lowWater: nat, highWater: nat)
    requires FlushSize(lowWater, highWater, |incoming|)
    ensures Batches(incoming, Receives(|incoming|), lowWater, highWater) == [incoming]
  {
    var first, later := incoming[0], incoming[1..];
    assert incoming == [first] + later;
    assert Receives(|incoming|)[1..] == Receives(|later|);
    if lowWater < 2 {
      FillTakesAll([first], later, highWater);
      assert Fill([incoming[0]], incoming[1..], Receives(|incoming|)[1..], highWater) == Filled(incoming, [], []);
      assert Batches([], [], lowWater, highWater) == [];
    } else {
      assert incoming == [first] && later == [];
      assert Batches(later, Receives(0), lowWater, highWater) == [];
    }
  }

  /** What a run does next, in every case: it is over when nothing is chosen any more, at a shutdown, or when the
      channel has closed... */
  lemma RunEnds(incoming: seq<TxPacket>, choices: seq<Choice>, lowWater: nat, highWater: nat)
    ensures Batches(incoming, [], lowWater, highWater) == []
    ensures Batches(incoming, [Other] + choices, lowWater, highWater) == []
    ensures Batches([], choices, lowWater, highWater) == []
  {
  }

  lemma ConsTail<T>(x: T, xs: seq<T>)
    ensures ([x] + xs)[0] == x && ([x] + xs)[1..] == xs
  {
  }

  /** ...a packet leaves at once, and the run goes on, unless batching is possible... */
  lemma PacketAtOnce(x: TxPacket, xs: seq<TxPacket>, cs: seq<Choice>, lowWater: nat, highWater: nat)
    requires lowWater >= 2 || highWater <= 1
    ensures Batches([x] + xs, [Receive] + cs, lowWater, highWater) == [[x]] + Batches(xs, cs, lowWater, highWater)
  {
    ConsTail(x, xs);
    ConsTail(Receive, cs);
  }

  lemma ReceivesTail(n: nat, cs: seq<Choice>)
    requires n > 0
    ensures (Receives(n) + cs)[0] == Receive && (Receives(n) + cs)[1..] == Receives(n - 1) + cs
  {
  }

  /** Receives that find packets only let a batch grow. */
  lemma {:induction false} FillGrows(batch: seq<TxPacket>, xs: seq<TxPacket>, ys: seq<TxPacket>, cs: seq<Choice>,
                                     highWater: nat)
    requires |batch| + |xs| <= highWater
    ensures Fill(batch, xs + ys, Receives(|xs|) + cs, highWater) == Fill(batch + xs, ys, cs, highWater)
    decreases |xs|
  {
    if xs == [] {
      assert xs + ys == ys && Receives(0) + cs == cs && batch + xs == batch;
    } else {
      ReceivesTail(|xs|, cs);
      assert (xs + ys)[0] == xs[0] && (xs + ys)[1..] == xs[1..] + ys;
      FillGrows(batch + [xs[0]], xs[1..], ys, cs, highWater);
      assert batch + [xs[0]] + xs[1..] == batch + xs;
    }
  }

  /** The first turn of a run in batching mode, all of whose receives find packets. */
  lemma FirstBatch(xs: seq<TxPacket>, ys: seq<TxPacket>, cs: seq<Choice>, lowWater: nat, highWater: nat)
    requires lowWater <= 1 && 1 <= |xs| <= highWater
    ensures var filled := Fill(xs, ys, cs, highWater);
      Batches(xs + ys, Receives(|xs|) + cs, lowWater, highWater)
      == [filled.batch] + Batches(filled.incoming, filled.choices, lowWater, highWater)
  {
    ReceivesTail(|xs|, cs);
    assert (xs + ys)[0] == xs[0] && (xs + ys)[1..] == xs[1..] + ys;
    FillGrows([xs[0]], xs[1..], ys, cs, highWater);
    assert [xs[0]] + xs[1..] == xs;
  }

  /** ...otherwise packets are gathered: a full batch leaves, and the run goes on... */
  lemma FullBatchLeaves(xs: seq<TxPacket>, ys: seq<TxPacket>, cs: seq<Choice>, lowWater: nat, highWater: nat)
    requires lowWater <= 1 && 1 <= |xs| == highWater
    ensures Batches(xs + ys, Receives(|xs|) + cs, lowWater, highWater) == [xs] + Batches(ys, cs, lowWater, highWater)
  {
    FirstBatch(xs, ys, cs, lowWater, highWater);
  }

  /** ...a deadline ends the batch and not the run... */
  lemma DeadlineEndsBatch(xs: seq<TxPacket>, ys: seq<TxPacket>, cs: seq<Choice>, lowWater: nat, highWater: nat)
    requires lowWater <= 1 && 1 <= |xs| < highWater
    ensures Batches(xs + ys, Receives(|xs|) + ([Other] + cs), lowWater, highWater)
         == [xs] + Batches(ys, cs, lowWater, highWater)
  {
    FirstBatch(xs, ys, [Other] + cs, lowWater, highWater);
    ConsTail(Other, cs);
  }

  /** ...and a channel that closes, or choices that run out, let the batch go that has been gathered. */
  lemma LastBatchLeaves(xs: seq<TxPacket>, ys: seq<TxPacket>, cs: seq<Choice>, lowWater: nat, highWater: nat)
    requires lowWater <= 1 && 1 <= |xs| < highWater
    ensures Batches(xs + [], Receives(|xs|) + ([Receive] + cs), lowWater, highWater) == [xs]
    ensures Batches(xs + ys, Receives(|xs|) + [], lowWater, highWater) == [xs]
  {
    FirstBatch(xs, [], [Receive] + cs, lowWater, highWater);
    FirstBatch(xs, ys, [], lowWater, highWater);
    RunEnds([], cs, lowWater, highWater);
    RunEnds(ys, [], lowWater, highWater);
  }

  /** A receive and a deadline, n times. */
  function DeadlineEach(n: nat): seq<Choice> {
    if n == 0 then [] else [Receive, Other] + DeadlineEach(n - 1)
  }

  function Singles(xs: seq<TxPacket>): seq<seq<TxPacket>> {
    if xs == [] then [] else [[xs[0]]] + Singles(xs[1..])
  }

  lemma {:induction false} SinglesFlatten(xs: seq<TxPacket>)
    ensures Flatten(Singles(xs)) == xs
  {
    if xs != [] {
      SinglesFlatten(xs[1..]);
    }
  }

  /** If the deadline passes after every packet, every packet leaves, each on its own. */
  lemma {:induction false} AllLeaveByDeadlines(xs: seq<TxPacket>, lowWater: nat, highWater: nat)
    requires lowWater <= 1 < highWater
    ensures Batches(xs, DeadlineEach(|xs|), lowWater, highWater) == Singles(xs)
    ensures Flatten(Batches(xs, DeadlineEach(|xs|), lowWater, highWater)) == xs
  {
    SinglesFlatten(xs);
    if xs == [] {
      RunEnds([], [], lowWater, highWater);
    } else {
      var x, later := [xs[0]], xs[1..];
      AllLeaveByDeadlines(later, lowWater, highWater);
      DeadlineEndsBatch(x, later, DeadlineEach(|later|), lowWater, highWater);
      assert x + later == xs;
      assert Receives(1) + ([Other] + DeadlineEach(|later|)) == DeadlineEach(|xs|);
    }
  }

  ghost predicate CanFlush(lowWater: nat, highWater: nat, n: nat) {
    exists incoming, choices, i: nat ::
      i < |Batches(incoming, choices, lowWater, highWater)| && |Batches(incoming, choices, lowWater, highWater)[i]| == n
  }

  /** Some run flushes n packets together if and only if n is one of the stated sizes. */
  lemma FlushSizesExactly(lowWater: nat, highWater: nat, n: nat)
    ensures CanFlush(lowWater, highWater, n) <==> FlushSize(lowWater, highWater, n)
  {
    if CanFlush(lowWater, highWater, n) {
      var incoming, choices, i: nat :|
        && i < |Batches(incoming, choices, lowWater, highWater)|
        && |Batches(incoming, choices, lowWater, highWater)[i]| == n;
      BatchSizes(incoming, choices, lowWater, highWater);
    }
    if FlushSize(lowWater, highWater, n) {
      var incoming := seq(n, _ => TxPacket([], V4([])));
      OneFlush(incoming, lowWater, highWater);
      var i: nat := 0;
      assert i < |Batches(incoming, Receives(n), lowWater, highWater)|;
      assert |Batches(incoming, Receives(n), lowWater, highWater)[i]| == n;
    }
  }

  /** So batching happens at all if and only if the low-water mark is at most 1 and the high-water mark at least 2. */
  lemma BatchingHappens(lowWater: nat, highWater: nat)
    ensures (exists n :: n >= 2 && CanFlush(lowWater, highWater, n)) <==> lowWater <= 1 && highWater >= 2
  {
    FlushSizesExactly(lowWater, highWater, 2);
    forall n | n >= 2
      ensures CanFlush(lowWater, highWater, n) ==> lowWater <= 1 && highWater >= 2
    {
      FlushSizesExactly(lowWater, highWater, n);
    }
  }

  /** One turn of the batcher, seen from places in the two lists: immediate mode... */
  lemma TurnAtOnce(incoming: seq<TxPacket>, choices: seq<Choice>, r: nat, c: nat, lowWater: nat, highWater: nat)
    requires r < |incoming| && c < |choices| && choices[c].Receive? && 1 < lowWater
    ensures Batches(incoming[r..], choices[c..], lowWater, highWater)
         == [[incoming[r]]] + Batches(incoming[r + 1..], choices[c + 1..], lowWater, highWater)
  {
    assert incoming[r..][1..] == incoming[r + 1..] && choices[c..][1..] == choices[c + 1..];
  }

  /** ...and batching mode. */
  lemma TurnFilled(incoming: seq<TxPacket>, choices: seq<Choice>, r: nat, c: nat, lowWater: nat, highWater: nat,
                   f: Filled)
    requires r < |incoming| && c < |choices| && choices[c].Receive? && lowWater <= 1
    requires f == Fill([incoming[r]], incoming[r + 1..], choices[c + 1..], highWater)
    ensures Batches(incoming[r..], choices[c..], lowWater, highWater)
         == [f.batch] + Batches(f.incoming, f.choices, lowWater, highWater)
  {
    assert incoming[r..][1..] == incoming[r + 1..] && choices[c..][1..] == choices[c + 1..];
  }

  lemma Regroup<T>(xs: seq<T>, x: T, ys: seq<T>)
    ensures xs + ([x] + ys) == xs + [x] + ys
  {
  }

  class TxBatcher {
    const lowWater: nat
    const highWater: nat
    const bufs: TxBatchBuffers
    var batch: seq<TxPacket>
    var v4Indices: seq<nat>
    var v6Indices: seq<nat>
    /** What has been handed to the two raw sockets, in order. */
    var v4Wire: seq<TxPacket>
    var v6Wire: seq<TxPacket>
    /** The batches flushed so far. */
    ghost var flushes: seq<seq<TxPacket>>

    constructor (lowWater: nat, highWater: nat)
      ensures this.lowWater == lowWater && this.highWater == highWater && fresh(bufs)
      ensures batch == [] && v4Wire == v6Wire == [] && flushes == []
    {
      this.lowWater, this.highWater := lowWater, highWater;
      bufs := new TxBatchBuffers();
      batch, v4Indices, v6Indices, v4Wire, v6Wire, flushes := [], [], [], [], [], [];
    }

    /** The messages built for one family are handed to its socket in index order. */
    method SendBatch(v6: bool, indices: seq<nat>)
      requires forall i :: 0 <= i < |indices| ==> indices[i] < |batch|
      modifies bufs, this`v4Wire, this`v6Wire
      ensures v4Wire == if v6 then old(v4Wire) else old(v4Wire) + Select(batch, indices)
      ensures v6Wire == if v6 then old(v6Wire) + Select(batch, indices) else old(v6Wire)
    {
      bufs.Build(batch, indices);
      var handed := seq(|bufs.msgs|, i requires 0 <= i < |bufs.msgs| && bufs.PointsInside(bufs.msgs[i]) reads bufs =>
        bufs.Deref(bufs.msgs[i]));
      assert handed == Select(batch, indices);
      if v6 {
        v6Wire := v6Wire + handed;
      } else {
        v4Wire := v4Wire + handed;
      }
    }

    /** Splits the batch by family, hands each part to its socket, and empties the batch. */
    method FlushBatch()
      modifies this`batch, this`v4Indices, this`v6Indices, this`v4Wire, this`v6Wire, this`flushes, bufs
      ensures batch == []
      ensures v4Wire == old(v4Wire) + Family(false, old(batch)) && v6Wire == old(v6Wire) + Family(true, old(batch))
      ensures flushes == if old(batch) == [] then old(flushes) else old(flushes) + [old(batch)]
    {
      if batch == [] {
        return;
      }
      Partition();
      if v4Indices != [] {
        SendBatch(false, v4Indices);
      }
      if v6Indices != [] {
        SendBatch(true, v6Indices);
      }
      flushes := flushes + [batch];
      batch := [];
    }

    method Partition()
      modifies this`v4Indices, this`v6Indices
      ensures forall i :: 0 <= i < |v4Indices| ==> v4Indices[i] < |batch|
      ensures forall i :: 0 <= i < |v6Indices| ==> v6Indices[i] < |batch|
      ensures Select(batch, v4Indices) == Family(false, batch) && Select(batch, v6Indices) == Family(true, batch)
    {
      v4Indices, v6Indices := [], [];
      for i := 0 to |batch|
        invariant forall j :: 0 <= j < |v4Indices| ==> v4Indices[j] < |batch|
        invariant forall j :: 0 <= j < |v6Indices| ==> v6Indices[j] < |batch|
        invariant Select(batch, v4Indices) == Family(false, batch[..i])
        invariant Select(batch, v6Indices) == Family(true, batch[..i])
      {
        assert batch[..i + 1] == batch[..i] + [batch[i]];
        FamilySnoc(false, batch[..i], batch[i]);
        FamilySnoc(true, batch[..i], batch[i]);
        match batch[i].dest
        case V4(_) => v4Indices := v4Indices + [i];
        case V6(_) => v6Indices := v6Indices + [i];
      }
      assert batch[..|batch|] == batch;
    }

    /** What is known whenever the batch is empty: the first `received` packets have left, in order. */
    ghost predicate Flushed(arrived: seq<TxPacket>)
      reads this`v4Wire, this`v6Wire, this`flushes
    {
      && v4Wire == Family(false, arrived) && v6Wire == Family(true, arrived)
      && Flatten(flushes) == arrived
    }

    method FlushAll(ghost arrived: seq<TxPacket>)
      requires Flushed(arrived) && batch != []
      modifies this`batch, this`v4Indices, this`v6Indices, this`v4Wire, this`v6Wire, this`flushes, bufs
      ensures batch == [] && Flushed(arrived + old(batch)) && flushes == old(flushes) + [old(batch)]
    {
      FlushBatch();
      FamilyAppend(false, arrived, old(batch));
      FamilyAppend(true, arrived, old(batch));
      FlattenAppend(old(flushes), [old(batch)]);
      FlattenSingle(old(batch));
    }

    /** The batcher loop. `incoming` is what arrives on the channel before it closes; `choices` decides every select,
        and a spent list of choices means cancellation. A receive on the closed channel yields nothing. */
    method Run(incoming: seq<TxPacket>, choices: seq<Choice>) returns (received: nat, ghost used: nat)
      requires batch == [] && v4Wire == v6Wire == [] && flushes == []
      modifies this, bufs
      ensures received <= |incoming| && batch == [] && Flushed(incoming[..received])
      ensures used <= |choices| && (received == |incoming| || used == |choices| || choices[used].Other?)
      ensures received <= used <= received + |flushes|
      ensures flushes == Batches(incoming, choices, lowWater, highWater)
      ensures AllSizes(lowWater, highWater, flushes)
    {
      ghost var goal := Batches(incoming, choices, lowWater, highWater);
      BatchSizes(incoming, choices, lowWater, highWater);
      received := 0;
      var c := 0;
      while true
        invariant c <= |choices| && received <= |incoming| && received <= c <= received + |flushes|
        invariant batch == [] && Flushed(incoming[..received])
        invariant flushes + Batches(incoming[received..], choices[c..], lowWater, highWater) == goal
        decreases |choices| - c
      {
        if c == |choices| || choices[c].Other? || received == |incoming| {
          break;
        }
        ghost var sofar, r0 := flushes, received;
        received, c := Round(incoming, choices, received, c);
        Regroup(sofar, incoming[r0..received], Batches(incoming[received..], choices[c..], lowWater, highWater));
      }
      // So the flush of a non-empty batch after the loop is never needed.
      assert batch == [];
      used := c;
    }

    /** One turn of the outer loop, whose receive completes. Both ways through it end in a flush. */
    method Round(incoming: seq<TxPacket>, choices: seq<Choice>, received0: nat, c0: nat) returns (received: nat, c: nat)
      requires received0 < |incoming| && c0 < |choices| && choices[c0].Receive?
      requires batch == [] && Flushed(incoming[..received0])
      modifies this, bufs
      ensures received0 < received <= |incoming| && c0 < c <= |choices|
      ensures received - received0 <= c - c0 <= received - received0 + 1
      ensures batch == [] && Flushed(incoming[..received])
      ensures flushes == old(flushes) + [incoming[received0..received]]
      ensures Batches(incoming[received0..], choices[c0..], lowWater, highWater)
           == [incoming[received0..received]] + Batches(incoming[received..], choices[c..], lowWater, highWater)
    {
      received, c := Collect(incoming, choices, received0, c0);
      assert incoming[..received0] + incoming[received0..received] == incoming[..received];
      FlushAll(incoming[..received0]);
    }

    /** The received packet, and more of them unless it is to be sent at once. */
    method Collect(incoming: seq<TxPacket>, choices: seq<Choice>, received0: nat, c0: nat)
      returns (received: nat, c: nat)
      requires received0 < |incoming| && c0 < |choices| && choices[c0].Receive? && batch == []
      modifies this`batch
      ensures received0 < received <= |incoming| && c0 < c <= |choices|
      ensures received - received0 <= c - c0 <= received - received0 + 1
      ensures batch == incoming[received0..received]
      ensures Batches(incoming[received0..], choices[c0..], lowWater, highWater)
           == [incoming[received0..received]] + Batches(incoming[received..], choices[c..], lowWater, highWater)
    {
      batch := batch + [incoming[received0]];
      assert batch == [incoming[received0]] == incoming[received0..received0 + 1];
      c, received := c0 + 1, received0 + 1;
      if |batch| < lowWater {
        TurnAtOnce(incoming, choices, received0, c0, lowWater, highWater);
        return;
      }
      received, c := FillBatch(incoming, choices, received, c);
      assert batch == incoming[received0..received];
      ghost var filled := Filled(batch, incoming[received..], choices[c..]);
      TurnFilled(incoming, choices, received0, c0, lowWater, highWater, filled);
    }

    /** The inner loop. */
    method FillBatch(incoming: seq<TxPacket>, choices: seq<Choice>, received0: nat, c0: nat)
      returns (received: nat, c: nat)
      requires received0 <= |incoming| && c0 <= |choices| && |batch| <= received0
      modifies this`batch
      ensures received0 <= received <= |incoming| && c0 <= c <= |choices|
      ensures received - received0 <= c - c0 <= received - received0 + 1
      ensures batch == old(batch) + incoming[received0..received]
      ensures Fill(old(batch), incoming[received0..], choices[c0..], highWater)
           == Filled(batch, incoming[received..], choices[c..])
    {
      received, c := received0, c0;
      ghost var goal := Fill(batch, incoming[received..], choices[c..], highWater);
      while true
        invariant received0 <= received <= |incoming| && c0 <= c <= |choices| && c - c0 == received - received0
        invariant batch == old(batch) + incoming[received0..received]
        invariant Fill(batch, incoming[received..], choices[c..], highWater) == goal
        decreases |choices| - c
      {
        if |batch| >= highWater || c == |choices| {
          break;
        }
        assert choices[c..][1..] == choices[c + 1..];
        if choices[c].Other? || received == |incoming| {
          c := c + 1;
          break;
        }
        assert incoming[received..][1..] == incoming[received + 1..];
        batch := batch + [incoming[received]];
        c, received := c + 1, received + 1;
      }
    }
  }
}
