/** The ring as a protocol between the kernel and the daemon, interleaved at single memory steps. */
module RingProtocol {
  import opened Bytes
  import opened RingBlock

  /** The block after block k, as both sides compute it. */
  function After(k: nat): (next: nat)
    requires k < BLOCK_NR
    ensures next == if k == BLOCK_NR - 1 then 0 else k + 1
  {
    (k + 1) % BLOCK_NR
  }

  /** The block d places further round the ring. */
  function Forward(k: nat, d: nat): nat
    requires k < BLOCK_NR && d <= BLOCK_NR
  {
    if k + d < BLOCK_NR then k + d else k + d - BLOCK_NR
  }

  /** How far block i is ahead of block k, going round the ring. */
  function Ahead(k: nat, i: nat): (d: nat)
    requires k < BLOCK_NR && i < BLOCK_NR
    ensures d < BLOCK_NR && Forward(k, d) == i
  {
    if i < k then i + BLOCK_NR - k else i - k
  }

  /** Where the daemon stands: polling, inside the packet loop, or about to give the block back. */
  datatype Reader = Idle | Walking(off: nat, left: nat) | Releasing

  /** `cur` and `head` are the daemon's and the kernel's block index. The last four fields are history: the packets of
      every block ever retired, block by block those of the blocks not yet given back, what the callback has seen, and
      the packets of the current block that are still to be read. */
  datatype State = State(
    mem: seq<Block>, cur: nat, head: nat, reader: Reader,
    retired: seq<seq<byte>>, waiting: seq<seq<seq<byte>>>, delivered: seq<seq<byte>>, rest: seq<seq<byte>>)

  predicate WellSized(s: State) {
    |s.mem| == BLOCK_NR && s.cur < BLOCK_NR && s.head < BLOCK_NR
  }

  /** What the daemon may rely on in a block that is waiting for it. */
  predicate Mine(b: Block, pkts: seq<seq<byte>>) {
    UserOwned(b) && Holds(b, pkts)
  }

  predicate Theirs(b: Block) {
    Status(b) == TP_STATUS_KERNEL
  }

  ghost predicate Init(s: State) {
    && WellSized(s) && (forall i :: 0 <= i < BLOCK_NR ==> Theirs(s.mem[i]))
    && s.cur == s.head == 0 && s.reader == Idle
    && s.retired == [] && s.waiting == [] && s.delivered == [] && s.rest == []
  }

  /** The kernel stores packet bytes in its next block, which it owns and keeps. */
  predicate KernelWrites(s: State, s': State, b: Block) {
    && WellSized(s) && Theirs(s.mem[s.head])
    && Theirs(b) && s' == s.(mem := s.mem[s.head := b])
  }

  /** The kernel closes its next block and publishes it. */
  predicate KernelRetires(s: State, s': State, b: Block, pkts: seq<seq<byte>>) {
    && WellSized(s) && Theirs(s.mem[s.head]) && Mine(b, pkts)
    && s' == s.(mem := s.mem[s.head := b], head := After(s.head), retired := s.retired + pkts,
                waiting := s.waiting + [pkts])
  }

  /** The daemon tests the status word, and on success reads the packet count and the first offset. */
  predicate Checks(s: State, s': State) {
    && WellSized(s) && s.reader == Idle
    && s' == if UserOwned(s.mem[s.cur])
             then s.(reader := Walking(FirstPkt(s.mem[s.cur]), NumPkts(s.mem[s.cur])),
                     rest := if s.waiting == [] then [] else s.waiting[0])
             else s
  }

  /** One iteration of the packet loop, or its end. */
  predicate Reads(s: State, s': State) {
    && WellSized(s) && s.reader.Walking?
    && if s.reader.left == 0 then s' == s.(reader := Releasing)
       else Fits(s.mem[s.cur], s.reader.off) && s' == AfterRead(s)
  }

  function AfterRead(s: State): State
    requires WellSized(s) && s.reader.Walking? && s.reader.left > 0 && Fits(s.mem[s.cur], s.reader.off)
  {
    var data := PacketAt(s.mem[s.cur], s.reader.off);
    var next := HdrAt(s.mem[s.cur], s.reader.off).next;
    s.(delivered := if data == [] then s.delivered else s.delivered + [data],
       reader := if next == 0 then Releasing else Walking(s.reader.off + next, s.reader.left - 1),
       rest := if s.rest == [] then [] else s.rest[1..])
  }

  predicate Releases(s: State, s': State) {
    && WellSized(s) && s.reader == Releasing
    && s' == s.(mem := s.mem[s.cur := WithStatus(s.mem[s.cur], TP_STATUS_KERNEL)], cur := After(s.cur),
                reader := Idle, waiting := if s.waiting == [] then [] else s.waiting[1..])
  }

  ghost predicate Next(s: State, s': State) {
    || (exists b :: KernelWrites(s, s', b)) || (exists b, pkts :: KernelRetires(s, s', b, pkts))
    || Checks(s, s') || Reads(s, s') || Releases(s, s')
  }

  ghost predicate Run(trace: seq<State>) {
    |trace| > 0 && Init(trace[0]) && forall k :: 0 < k < |trace| ==> Next(trace[k - 1], trace[k])
  }

  /** A block d places ahead of the daemon's: one of the waiting ones, or the kernel's. */
  predicate SlotOk<T, W>(mine: (T, W) -> bool, theirs: T -> bool, b: T, d: nat, waiting: seq<W>) {
    if d < |waiting| then mine(b, waiting[d]) else theirs(b)
  }

  predicate WindowOf<T, W>(mine: (T, W) -> bool, theirs: T -> bool, mem: seq<T>, cur: nat, head: nat, waiting: seq<W>) {
    && |mem| == BLOCK_NR && cur < BLOCK_NR && |waiting| <= BLOCK_NR && head == Forward(cur, |waiting|)
    && forall i :: 0 <= i < BLOCK_NR ==> SlotOk(mine, theirs, mem[i], Ahead(cur, i), waiting)
  }

  predicate Window(mem: seq<Block>, cur: nat, head: nat, waiting: seq<seq<seq<byte>>>) {
    WindowOf(Mine, Theirs, mem, cur, head, waiting)
  }

  predicate ReaderOk(b: Block, reader: Reader, rest: seq<seq<byte>>, held: nat) {
    match reader
    case Idle => rest == []
    case Walking(off, left) => held > 0 && |rest| == left && Chain(b, off, rest)
    case Releasing => held > 0 && rest == []
  }

  /** The packets that are retired but not yet seen. */
  function Unread(s: State): seq<seq<byte>> {
    if s.reader.Idle? || s.waiting == [] then Flatten(s.waiting) else s.rest + Flatten(s.waiting[1..])
  }

  predicate Accounted(s: State) {
    s.delivered + NonEmpty(Unread(s)) == NonEmpty(s.retired)
  }

  predicate Inv(s: State) {
    Window(s.mem, s.cur, s.head, s.waiting) && ReaderOk(s.mem[s.cur], s.reader, s.rest, |s.waiting|) && Accounted(s)
  }

  /** The kernel's next block is a waiting one only when all sixteen are waiting. */
  lemma HeadIsFree(mem: seq<Block>, cur: nat, head: nat, waiting: seq<seq<seq<byte>>>)
    requires Window(mem, cur, head, waiting) && Theirs(mem[head])
    ensures |waiting| < BLOCK_NR && (waiting != [] ==> head != cur)
  {
    assert SlotOk(Mine, Theirs, mem[head], Ahead(cur, head), waiting);
  }

  /** A block that stays the kernel's may change. */
  lemma WriteKeepsWindow<T, W>(mine: (T, W) -> bool, theirs: T -> bool, mem: seq<T>, cur: nat, head: nat,
                               waiting: seq<W>, b: T)
    requires WindowOf(mine, theirs, mem, cur, head, waiting) && |waiting| < BLOCK_NR && theirs(b)
    ensures WindowOf(mine, theirs, mem[head := b], cur, head, waiting)
  {
  }

  /** Publishing the head block makes the window one longer. */
  lemma RetireKeepsWindow<T, W>(mine: (T, W) -> bool, theirs: T -> bool, mem: seq<T>, cur: nat, head: nat,
                                waiting: seq<W>, b: T, w: W)
    requires WindowOf(mine, theirs, mem, cur, head, waiting) && |waiting| < BLOCK_NR && mine(b, w)
    ensures WindowOf(mine, theirs, mem[head := b], cur, After(head), waiting + [w])
  {
    forall i | 0 <= i < BLOCK_NR
      ensures SlotOk(mine, theirs, mem[head := b][i], Ahead(cur, i), waiting + [w])
    {
      assert SlotOk(mine, theirs, mem[i], Ahead(cur, i), waiting);
    }
  }

  /** Giving the first block back makes the window start at the next one. */
  lemma ReleaseKeepsWindow<T, W>(mine: (T, W) -> bool, theirs: T -> bool, mem: seq<T>, cur: nat, head: nat,
                                 waiting: seq<W>, b: T)
    requires WindowOf(mine, theirs, mem, cur, head, waiting) && waiting != [] && theirs(b)
    ensures WindowOf(mine, theirs, mem[cur := b], After(cur), head, waiting[1..])
  {
    forall i | 0 <= i < BLOCK_NR
      ensures SlotOk(mine, theirs, mem[cur := b][i], Ahead(After(cur), i), waiting[1..])
    {
      assert SlotOk(mine, theirs, mem[i], Ahead(cur, i), waiting);
    }
  }

  lemma ReleasedStatus(b: Block)
    ensures Theirs(WithStatus(b, TP_STATUS_KERNEL))
  {
    var b' := WithStatus(b, TP_STATUS_KERNEL);
    assert b'[STATUS_AT + 0] == 0 && b'[STATUS_AT + 1] == 0 && b'[STATUS_AT + 2] == 0 && b'[STATUS_AT + 3] == 0;
  }

  lemma KernelWritesInv(s: State, s': State, b: Block)
    requires Inv(s) && KernelWrites(s, s', b)
    ensures Inv(s')
  {
    HeadIsFree(s.mem, s.cur, s.head, s.waiting);
    WriteKeepsWindow(Mine, Theirs, s.mem, s.cur, s.head, s.waiting, b);
    assert Unread(s') == Unread(s);
  }

  lemma UnreadGrows(s: State, s': State, pkts: seq<seq<byte>>)
    requires s.waiting != [] || s.reader.Idle?
    requires s'.waiting == s.waiting + [pkts] && s'.reader == s.reader && s'.rest == s.rest
    ensures Unread(s') == Unread(s) + pkts
  {
    FlattenSingle(pkts);
    FlattenAppend(s.waiting, [pkts]);
    if !s.reader.Idle? {
      assert s'.waiting[1..] == s.waiting[1..] + [pkts];
      FlattenAppend(s.waiting[1..], [pkts]);
    }
  }

  lemma RetireAccounts(s: State, s': State, pkts: seq<seq<byte>>)
    requires Accounted(s) && (s.waiting != [] || s.reader.Idle?)
    requires s'.waiting == s.waiting + [pkts] && s'.reader == s.reader && s'.rest == s.rest
    requires s'.delivered == s.delivered && s'.retired == s.retired + pkts
    ensures Accounted(s')
  {
    UnreadGrows(s, s', pkts);
    NonEmptyAppend(Unread(s), pkts);
    NonEmptyAppend(s.retired, pkts);
  }

  lemma RetireKeepsReader(b: Block, reader: Reader, rest: seq<seq<byte>>, held: nat)
    requires ReaderOk(b, reader, rest, held)
    ensures ReaderOk(b, reader, rest, held + 1)
    ensures held > 0 || reader.Idle?
  {
  }

  lemma KernelRetiresInv(s: State, s': State, b: Block, pkts: seq<seq<byte>>)
    requires Inv(s) && KernelRetires(s, s', b, pkts)
    ensures Inv(s')
  {
    HeadIsFree(s.mem, s.cur, s.head, s.waiting);
    RetireKeepsWindow(Mine, Theirs, s.mem, s.cur, s.head, s.waiting, b, pkts);
    RetireKeepsReader(s.mem[s.cur], s.reader, s.rest, |s.waiting|);
    RetireAccounts(s, s', pkts);
    assert ReaderOk(s'.mem[s'.cur], s'.reader, s'.rest, |s'.waiting|);
  }

  lemma ChecksInv(s: State, s': State)
    requires Inv(s) && Checks(s, s')
    ensures Inv(s')
  {
    assert SlotOk(Mine, Theirs, s.mem[s.cur], Ahead(s.cur, s.cur), s.waiting);
  }

  lemma ReadKeepsReader(b: Block, off: nat, rest: seq<seq<byte>>, held: nat)
    requires rest != [] && held > 0 && Chain(b, off, rest)
    ensures Fits(b, off) && PacketAt(b, off) == rest[0]
    ensures var next := HdrAt(b, off).next;
      ReaderOk(b, if next == 0 then Releasing else Walking(off + next, |rest| - 1), rest[1..], held)
  {
  }

  lemma ReadAccounts(delivered: seq<seq<byte>>, rest: seq<seq<byte>>, later: seq<seq<byte>>)
    requires rest != []
    ensures var seen := if rest[0] == [] then delivered else delivered + [rest[0]];
      seen + NonEmpty(rest[1..] + later) == delivered + NonEmpty(rest + later)
  {
    assert (rest + later)[1..] == rest[1..] + later;
    Regroup(delivered, rest[0], NonEmpty(rest[1..] + later));
  }

  lemma ReadKeepsAccounts(s: State)
    requires WellSized(s) && s.reader.Walking? && s.reader.left > 0 && s.rest != [] && s.waiting != [] && Accounted(s)
    requires Fits(s.mem[s.cur], s.reader.off) && PacketAt(s.mem[s.cur], s.reader.off) == s.rest[0]
    ensures Accounted(AfterRead(s))
  {
    ReadAccounts(s.delivered, s.rest, Flatten(s.waiting[1..]));
  }

  lemma ReadsInv(s: State, s': State)
    requires Inv(s) && Reads(s, s')
    ensures Inv(s')
  {
    if s.reader.left > 0 {
      ReadKeepsReader(s.mem[s.cur], s.reader.off, s.rest, |s.waiting|);
      ReadKeepsAccounts(s);
    }
  }

  lemma ReleasesInv(s: State, s': State)
    requires Inv(s) && Releases(s, s')
    ensures Inv(s')
  {
    var b := WithStatus(s.mem[s.cur], TP_STATUS_KERNEL);
    ReleasedStatus(s.mem[s.cur]);
    ReleaseKeepsWindow(Mine, Theirs, s.mem, s.cur, s.head, s.waiting, b);
    assert Unread(s) == [] + Flatten(s.waiting[1..]) == Unread(s');
  }

  lemma NextInv(s: State, s': State)
    requires Inv(s) && Next(s, s')
    ensures Inv(s')
  {
    if b :| KernelWrites(s, s', b) {
      KernelWritesInv(s, s', b);
    } else if b, pkts :| KernelRetires(s, s', b, pkts) {
      KernelRetiresInv(s, s', b, pkts);
    } else if Checks(s, s') {
      ChecksInv(s, s');
    } else if Reads(s, s') {
      ReadsInv(s, s');
    } else {
      ReleasesInv(s, s');
    }
  }

  lemma {:induction false} RunInv(trace: seq<State>, k: nat)
    requires Run(trace) && k < |trace|
    ensures Inv(trace[k])
  {
    if k > 0 {
      RunInv(trace, k - 1);
      NextInv(trace[k - 1], trace[k]);
    }
  }

  lemma OwnedExactlyInWindow(mem: seq<Block>, cur: nat, head: nat, waiting: seq<seq<seq<byte>>>, i: nat)
    requires Window(mem, cur, head, waiting) && i < BLOCK_NR
    ensures UserOwned(mem[i]) <==> Ahead(cur, i) < |waiting|
  {
    assert SlotOk(Mine, Theirs, mem[i], Ahead(cur, i), waiting);
  }

  predicate OwnedInWindow(s: State, i: nat)
    requires WellSized(s) && i < BLOCK_NR
  {
    UserOwned(s.mem[i]) <==> Ahead(s.cur, i) < |s.waiting|
  }

  /** The user-owned blocks are the window of `|waiting|` blocks that starts at `current_block` and goes round the ring,
      and the kernel fills next the block that follows the window. */
  predicate UserOwnedIsWindow(s: State) {
    && WellSized(s) && |s.waiting| <= BLOCK_NR && s.head == (s.cur + |s.waiting|) % BLOCK_NR
    && forall i :: 0 <= i < BLOCK_NR ==> OwnedInWindow(s, i)
  }

  lemma WindowShape(mem: seq<Block>, cur: nat, head: nat, waiting: seq<seq<seq<byte>>>)
    requires Window(mem, cur, head, waiting)
    ensures |mem| == BLOCK_NR && cur < BLOCK_NR && head < BLOCK_NR && |waiting| <= BLOCK_NR
    ensures head == (cur + |waiting|) % BLOCK_NR
  {
  }

  lemma OwnedAt(s: State, i: nat)
    requires WellSized(s) && Window(s.mem, s.cur, s.head, s.waiting) && i < BLOCK_NR
    ensures OwnedInWindow(s, i)
  {
    OwnedExactlyInWindow(s.mem, s.cur, s.head, s.waiting, i);
  }

  lemma OwnedAreWindow(s: State)
    requires Window(s.mem, s.cur, s.head, s.waiting)
    ensures UserOwnedIsWindow(s)
  {
    WindowShape(s.mem, s.cur, s.head, s.waiting);
    forall i | 0 <= i < BLOCK_NR
      ensures OwnedInWindow(s, i)
    {
      OwnedAt(s, i);
    }
  }

  /** So it is in every run, at every moment. */
  lemma OwnershipWindow(trace: seq<State>, k: nat)
    requires Run(trace) && k < |trace|
    ensures UserOwnedIsWindow(trace[k])
  {
    RunInv(trace, k);
    OwnedAreWindow(trace[k]);
  }

  /** In every run the callback sees the retired packets once each and in order: what it has seen, followed by what
      is still in the window, is everything retired; when the window is empty, it has seen everything. */
  lemma FifoExactlyOnce(trace: seq<State>, k: nat)
    requires Run(trace) && k < |trace|
    ensures var s := trace[k];
      && s.delivered + NonEmpty(Unread(s)) == NonEmpty(s.retired)
      && s.delivered <= NonEmpty(s.retired)
      && (s.waiting == [] ==> s.delivered == NonEmpty(s.retired))
  {
    RunInv(trace, k);
  }

  /** The daemon reads only a block that is its own, with every index inside the block; and while it is inside a
      block, no kernel step can touch that block. */
  lemma ReadsAreSafe(trace: seq<State>, k: nat, s': State, b: Block, pkts: seq<seq<byte>>)
    requires Run(trace) && k < |trace|
    ensures var s := trace[k];
      && WellSized(s)
      && (!s.reader.Idle? ==> UserOwned(s.mem[s.cur]))
      && (s.reader.Walking? && s.reader.left > 0 ==> Fits(s.mem[s.cur], s.reader.off))
      && (!s.reader.Idle? && (KernelWrites(s, s', b) || KernelRetires(s, s', b, pkts)) ==>
            |s'.mem| == BLOCK_NR && s'.mem[s.cur] == s.mem[s.cur])
  {
    RunInv(trace, k);
    var s := trace[k];
    assert SlotOk(Mine, Theirs, s.mem[s.cur], Ahead(s.cur, s.cur), s.waiting);
    if Theirs(s.mem[s.head]) {
      HeadIsFree(s.mem, s.cur, s.head, s.waiting);
    }
  }

  /** The daemon's next step, which is always the same one. */
  function DaemonNext(s: State): State {
    if !WellSized(s) then s
    else
      var b := s.mem[s.cur];
      match s.reader
      case Idle =>
        if UserOwned(b) then
          s.(reader := Walking(FirstPkt(b), NumPkts(b)), rest := if s.waiting == [] then [] else s.waiting[0])
        else s
      case Walking(off, left) =>
        if left == 0 then s.(reader := Releasing) else if Fits(b, off) then AfterRead(s) else s
      case Releasing =>
        s.(mem := s.mem[s.cur := WithStatus(b, TP_STATUS_KERNEL)], cur := After(s.cur), reader := Idle,
           waiting := if s.waiting == [] then [] else s.waiting[1..])
  }

  /** With nothing published, the idle daemon stays as it is; with something published, it takes the oldest batch. */
  lemma IdleDaemon(s: State)
    requires Inv(s) && s.reader == Idle
    ensures s.waiting == [] ==> DaemonNext(s) == s
    ensures s.waiting != [] ==> DaemonNext(s).reader.Walking? && DaemonNext(s).rest == s.waiting[0]
  {
    assert SlotOk(Mine, Theirs, s.mem[s.cur], Ahead(s.cur, s.cur), s.waiting);
  }

  /** In a state that a run can reach, the daemon has exactly one step. */
  lemma DaemonHasOneStep(s: State, s': State)
    requires Inv(s)
    ensures Checks(s, s') || Reads(s, s') || Releases(s, s') <==> s' == DaemonNext(s)
  {
  }

  function Iterate<T>(f: T -> T, x: T, n: nat): T {
    if n == 0 then x else Iterate(f, f(x), n - 1)
  }

  lemma {:induction false} IterateAdd<T>(f: T -> T, x: T, m: nat, n: nat)
    ensures Iterate(f, x, m + n) == Iterate(f, Iterate(f, x, m), n)
  {
    if m > 0 {
      IterateAdd(f, f(x), m - 1, n);
    }
  }

  lemma IterateThrough<T>(f: T -> T, x: T, y: T, z: T, n: nat)
    requires f(x) == y && Iterate(f, y, n) == z
    ensures Iterate(f, x, 1 + n + 1) == f(z)
  {
    IterateAdd(f, x, 1, n);
    IterateAdd(f, x, 1 + n, 1);
    assert Iterate(f, x, 1) == Iterate(f, y, 0) == y;
    assert Iterate(f, z, 1) == Iterate(f, f(z), 0) == f(z);
  }

  lemma IterateOne<T>(f: T -> T, x: T, y: T, n: nat)
    requires f(x) == y
    ensures Iterate(f, x, n + 1) == Iterate(f, y, n)
  {
  }

  function DaemonSteps(s: State, n: nat): State {
    Iterate(DaemonNext, s, n)
  }

  /** How many steps the packet loop takes: one for each packet, or one to find that there is none. */
  function LoopSteps(left: nat): nat {
    if left == 0 then 1 else left
  }

  /** The state after one read of the packet loop. */
  function ReadState(s: State, next: nat): State
    requires s.reader.Walking? && s.rest != []
  {
    s.(delivered := if s.rest[0] == [] then s.delivered else s.delivered + [s.rest[0]],
       reader := if |s.rest| == 1 then Releasing else Walking(s.reader.off + next, |s.rest| - 1),
       rest := s.rest[1..])
  }

  lemma OneRead(s: State, b: Block, off: nat)
    requires WellSized(s) && b == s.mem[s.cur] && s.reader == Walking(off, |s.rest|)
    requires s.rest != [] && Chain(b, off, s.rest)
    ensures Fits(b, off) && DaemonNext(s) == ReadState(s, HdrAt(b, off).next)
  {
  }

  lemma ChainTail(b: Block, off: nat, rest: seq<seq<byte>>)
    requires |rest| > 1 && Chain(b, off, rest)
    ensures Fits(b, off) && Chain(b, off + HdrAt(b, off).next, rest[1..])
  {
  }

  /** A read, and then what follows it. */
  lemma ReadThen(s: State, b: Block, off: nat, next: nat, end: State)
    requires WellSized(s) && b == s.mem[s.cur] && s.reader == Walking(off, |s.rest|)
    requires s.rest != [] && Chain(b, off, s.rest) && Fits(b, off) && next == HdrAt(b, off).next
    requires DaemonSteps(ReadState(s, next), |s.rest| - 1) == end
    ensures DaemonSteps(s, |s.rest|) == end
  {
    OneRead(s, b, off);
    IterateOne(DaemonNext, s, ReadState(s, next), |s.rest| - 1);
  }

  lemma NoneToRead(s: State)
    requires WellSized(s) && s.reader.Walking? && s.reader.left == 0
    ensures DaemonSteps(s, 1) == s.(reader := Releasing)
  {
    IterateOne(DaemonNext, s, s.(reader := Releasing), 0);
  }

  lemma LastRead(s: State, b: Block, off: nat)
    requires WellSized(s) && b == s.mem[s.cur] && s.reader == Walking(off, |s.rest|) && Chain(b, off, s.rest)
    requires |s.rest| == 1
    ensures DaemonSteps(s, 1) == s.(delivered := s.delivered + NonEmpty(s.rest), reader := Releasing, rest := [])
  {
    OneRead(s, b, off);
    SeenFirst(s.delivered, s.rest);
    assert NonEmpty(s.rest[1..]) == [];
    IterateOne(DaemonNext, s, ReadState(s, HdrAt(b, off).next), 0);
  }

  lemma SeenFirst(delivered: seq<seq<byte>>, rest: seq<seq<byte>>)
    requires rest != []
    ensures var seen := if rest[0] == [] then delivered else delivered + [rest[0]];
      seen + NonEmpty(rest[1..]) == delivered + NonEmpty(rest)
  {
    ReadAccounts(delivered, rest, []);
    assert rest + [] == rest && rest[1..] + [] == rest[1..];
  }

  /** The rest of the packet loop, undisturbed. */
  lemma {:induction false} LoopEnds(s: State, b: Block, off: nat)
    requires WellSized(s) && b == s.mem[s.cur] && s.reader == Walking(off, |s.rest|) && Chain(b, off, s.rest)
    ensures DaemonSteps(s, LoopSteps(|s.rest|))
         == s.(delivered := s.delivered + NonEmpty(s.rest), reader := Releasing, rest := [])
    decreases |s.rest|
  {
    if s.rest == [] {
      NoneToRead(s);
      assert s.delivered + [] == s.delivered;
    } else if |s.rest| == 1 {
      LastRead(s, b, off);
    } else {
      ChainTail(b, off, s.rest);
      var next := HdrAt(b, off).next;
      var s' := ReadState(s, next);
      LoopEnds(s', b, off + next);
      SeenFirst(s.delivered, s.rest);
      ReadThen(s, b, off, next, DaemonSteps(s', |s.rest| - 1));
    }
  }

  /** Where the daemon stands after it has dealt with a whole block. */
  function Passed(s: State): State
    requires WellSized(s) && s.waiting != []
  {
    s.(mem := s.mem[s.cur := WithStatus(s.mem[s.cur], TP_STATUS_KERNEL)], cur := After(s.cur),
       delivered := s.delivered + NonEmpty(s.waiting[0]), waiting := s.waiting[1..])
  }

  /** The first step from a held block finds its packets. */
  lemma FirstStep(s: State)
    requires Inv(s) && s.reader == Idle && s.waiting != []
    ensures UserOwned(s.mem[s.cur]) && Holds(s.mem[s.cur], s.waiting[0])
    ensures DaemonNext(s) == s.(reader := Walking(FirstPkt(s.mem[s.cur]), |s.waiting[0]|), rest := s.waiting[0])
  {
    assert SlotOk(Mine, Theirs, s.mem[s.cur], Ahead(s.cur, s.cur), s.waiting);
  }

  lemma LastStep(s: State, releasing: State)
    requires WellSized(s) && s.reader == Idle && s.waiting != [] && s.rest == []
    requires releasing == s.(reader := Releasing, delivered := s.delivered + NonEmpty(s.waiting[0]))
    ensures DaemonNext(releasing) == Passed(s)
  {
  }

  lemma HeldPass(s: State, b: Block, pkts: seq<seq<byte>>)
    requires WellSized(s) && s.reader == Idle && s.rest == [] && s.waiting != []
    requires b == s.mem[s.cur] && pkts == s.waiting[0] && Chain(b, FirstPkt(b), pkts)
    requires DaemonNext(s) == s.(reader := Walking(FirstPkt(b), |pkts|), rest := pkts)
    ensures DaemonSteps(s, 1 + LoopSteps(|pkts|) + 1) == Passed(s)
  {
    var walking := DaemonNext(s);
    var releasing := s.(reader := Releasing, delivered := s.delivered + NonEmpty(pkts));
    LoopEnds(walking, b, FirstPkt(b));
    LastStep(s, releasing);
    IterateThrough(DaemonNext, s, walking, releasing, LoopSteps(|pkts|));
  }

  /** From a held block, the daemon's own steps lead through the block and out of it. */
  lemma DaemonPass(s: State)
    requires Inv(s) && s.reader == Idle && s.waiting != []
    ensures DaemonSteps(s, 1 + LoopSteps(|s.waiting[0]|) + 1) == Passed(s)
  {
    FirstStep(s);
    HeldPass(s, s.mem[s.cur], s.waiting[0]);
  }
}

/** The protocol's daemon and the daemon's code do the same. */
module RingRefinement {
  import opened Bytes
  import opened RingBlock
  import opened PacketMmap
  import opened RingProtocol

  /** `ProcessBlock` is the passage of `DaemonPass`: on a mapping that holds the protocol's blocks, with a held block at
      its index, it delivers what the daemon's steps deliver, and leaves the blocks and the index they end with. */
  method ProcessBlockIsPass(ring: PacketMmapRing, polled: int, published: Block, ghost s: State)
    returns (delivered: seq<seq<byte>>)
    requires ring.Valid() && ring.currentBlock == s.cur && Inv(s) && s.reader == Idle && s.waiting != []
    requires forall j :: 0 <= j < BLOCK_NR ==> ring.BlockAt(j) == s.mem[j]
    modifies ring`currentBlock, ring.ring
    ensures var end := DaemonSteps(s, 1 + LoopSteps(|s.waiting[0]|) + 1);
      && WellSized(end) && ring.Valid() && ring.currentBlock == end.cur && s.delivered + delivered == end.delivered
      && end.reader == Idle && forall j :: 0 <= j < BLOCK_NR ==> ring.BlockAt(j) == end.mem[j]
  {
    DaemonPass(s);
    FirstStep(s);
    delivered := HeldBlock(ring, polled, published, s.mem, s.waiting[0]);
  }

  /** `ProcessBlock` on a mapping whose blocks are `mem`, when the block at its index is ready. */
  method HeldBlock(ring: PacketMmapRing, polled: int, published: Block, ghost mem: seq<Block>,
                   ghost pkts: seq<seq<byte>>)
    returns (delivered: seq<seq<byte>>)
    requires ring.Valid() && |mem| == BLOCK_NR && forall j :: 0 <= j < BLOCK_NR ==> ring.BlockAt(j) == mem[j]
    requires UserOwned(mem[ring.currentBlock]) && Holds(mem[ring.currentBlock], pkts)
    modifies ring`currentBlock, ring.ring
    ensures ring.Valid() && ring.currentBlock == After(old(ring.currentBlock)) && delivered == NonEmpty(pkts)
    ensures var k := old(ring.currentBlock);
      forall j :: 0 <= j < BLOCK_NR ==> ring.BlockAt(j) == mem[k := WithStatus(mem[k], TP_STATUS_KERNEL)][j]
  {
    var _, seen := ring.ProcessBlock(polled, published, pkts);
    delivered := seen;
  }
}
