/** Tunnel states, the transition relation, and the shared cell that holds a state. */
module TunnelLifecycle {
  import opened Bytes

  datatype TunnelState = Initializing | Configured | Active | Stale | TearingDown | Destroyed

  function ToU8(s: TunnelState): byte {
    match s
    case Initializing => 0
    case Configured => 1
    case Active => 2
    case Stale => 3
    case TearingDown => 4
    case Destroyed => 5
  }

  function FromU8(v: byte): (r: Option<TunnelState>)
    ensures r.None? <==> v > 5
    ensures r.Some? ==> ToU8(r.value) == v
  {
    match v
    case 0 => Some(Initializing)
    case 1 => Some(Configured)
    case 2 => Some(Active)
    case 3 => Some(Stale)
    case 4 => Some(TearingDown)
    case 5 => Some(Destroyed)
    case _ => None
  }

  predicate IsValidTransition(from: TunnelState, to: TunnelState) {
    match from
    case Initializing => to == Configured || to == TearingDown
    case Configured => to == Active || to == TearingDown
    case Active => to == Stale || to == TearingDown
    case Stale => to == Active || to == TearingDown
    case TearingDown => to == Destroyed
    case Destroyed => false
  }

  /** The allowed moves, as pairs of stored bytes: 0 initializing, 1 configured, 2 active, 3 stale, 4 tearing down,
      5 destroyed. */
  const MOVES: set<(byte, byte)> := {(0, 1), (0, 4), (1, 2), (1, 4), (2, 3), (2, 4), (3, 2), (3, 4), (4, 5)}

  lemma MovesOnBytes(from: byte, to: byte)
    ensures (from, to) in MOVES
      <==> FromU8(from).Some? && FromU8(to).Some? && IsValidTransition(FromU8(from).value, FromU8(to).value)
  {
  }

  /** What a load makes of the stored byte. */
  function LoadOf(cell: byte): TunnelState {
    match FromU8(cell)
    case Some(s) => s
    case None => Destroyed
  }

  predicate CasHits(cell: byte, from: TunnelState, to: TunnelState) {
    IsValidTransition(from, to) && cell == ToU8(from)
  }

  datatype CasResult = Moved | Refused(actual: TunnelState)

  class AtomicTunnelState {
    var cell: byte

    constructor (s: TunnelState)
      ensures cell == ToU8(s)
    {
      cell := ToU8(s);
    }

    method Load() returns (s: TunnelState)
      ensures s == LoadOf(cell)
      ensures if cell <= 5 then ToU8(s) == cell else s == Destroyed
    {
      var decoded := FromU8(cell);
      s := if decoded.Some? then decoded.value else Destroyed;
    }

    /** The cell moves exactly when the move is allowed and the cell holds `from`; otherwise it keeps its value, and
        the caller learns that value. */
    method Transition(from: TunnelState, to: TunnelState) returns (r: CasResult)
      modifies this
      ensures r.Moved? <==> CasHits(old(cell), from, to)
      ensures cell == if CasHits(old(cell), from, to) then ToU8(to) else old(cell)
      ensures r.Refused? ==> r.actual == LoadOf(old(cell))
    {
      if !IsValidTransition(from, to) {
        var actual := Load();
        return Refused(actual);
      }
      if cell == ToU8(from) {
        cell := ToU8(to);
        return Moved;
      }
      var decoded := FromU8(cell);
      return Refused(if decoded.Some? then decoded.value else Destroyed);
    }
  }

  predicate Forwarding(s: TunnelState) {
    s == Active || s == Stale
  }

  /** Active and Stale share a rank; every other move goes up. */
  function Rank(s: TunnelState): nat {
    match s
    case Initializing => 0
    case Configured => 1
    case Active => 2
    case Stale => 2
    case TearingDown => 3
    case Destroyed => 4
  }

  /** A history of states in which each follows from the one before it. */
  predicate Path(h: seq<TunnelState>) {
    forall i :: 0 < i < |h| ==> IsValidTransition(h[i - 1], h[i])
  }

  /** Along a path the rank never falls. */
  lemma {:induction false} RankRises(h: seq<TunnelState>, i: nat, j: nat)
    requires Path(h) && i <= j < |h|
    ensures Rank(h[i]) <= Rank(h[j])
    ensures i < j && !(Forwarding(h[i]) && Forwarding(h[j])) ==> Rank(h[i]) < Rank(h[j])
    decreases j
  {
    if i < j {
      RankRises(h, i, j - 1);
      assert IsValidTransition(h[j - 1], h[j]);
    }
  }

  /** A path comes back to a state exactly by toggling an even number of times between Active and Stale. */
  lemma {:induction false} ReturnsByToggling(h: seq<TunnelState>, i: nat, j: nat)
    requires Path(h) && i <= j < |h|
    ensures h[i] == h[j] <==> i == j || (Forwarding(h[i]) && Forwarding(h[j]) && (j - i) % 2 == 0)
    decreases j
  {
    if i < j {
      RankRises(h, i, j);
      RankRises(h, i, j - 1);
      RankRises(h, j - 1, j);
      ReturnsByToggling(h, i, j - 1);
    }
  }

  /** The moves along a path that are not toggles. */
  function Raises(h: seq<TunnelState>): nat {
    if |h| < 2 then 0
    else Raises(h[..|h| - 1]) + if Forwarding(h[|h| - 2]) && Forwarding(h[|h| - 1]) then 0 else 1
  }

  lemma {:induction false} RaisesBounded(h: seq<TunnelState>)
    requires Path(h) && |h| > 0
    ensures Raises(h) <= Rank(h[|h| - 1]) - Rank(h[0])
  {
    if |h| > 1 {
      RaisesBounded(h[..|h| - 1]);
      RankRises(h, |h| - 2, |h| - 1);
    }
  }
}

/** One tunnel's cell under its concurrent users: the create path, the keepalive task, any number of destroy calls, and
    the receive path. Each event is one atomic step of one of them. */
module LifecycleRuns {
  import opened Bytes
  import opened TunnelLifecycle

  datatype CreatePc = ToConfigured | ToActive | Spawning | Created

  /** One round of the keepalive task reads the stamp, the clock and the state, and then perhaps moves the state. */
  datatype KeepPc = Off | Idle | Stamped(stamp: nat) | Timed(elapsed: nat) | Checked(elapsed: nat, seen: TunnelState)

  /** `loadedAt` and `swappedAt` are the lengths of the history at the load and at the compare-exchange. */
  datatype DestroyPc =
    | Called
    | Loaded(seen: TunnelState, loadedAt: nat)
    | Finished(seen: TunnelState, loadedAt: nat, swappedAt: nat, moved: bool)

  /** `history` lists the states the cell has gone through; `rxTime` is the time of the last stamp store, and `tickTime`
      the time at which the last keepalive round began, 0 if there was none. */
  datatype State = State(
    cell: byte, history: seq<TunnelState>, clock: nat, lastRx: nat, rxTime: nat, tickTime: nat,
    create: CreatePc, keep: KeepPc, destroys: seq<DestroyPc>)

  const START := State(0, [Initializing], 0, 0, 0, 0, ToConfigured, Off, [])

  datatype Event =
    | CreateStep | KeepStep | StopKeepalive | CallDestroy | DestroyStep(i: nat) | StampStore(stamp: nat) | Wait(ms: nat)

  function Swap(s: State, from: TunnelState, to: TunnelState): State {
    if CasHits(s.cell, from, to) then s.(cell := ToU8(to), history := s.history + [to]) else s
  }

  function CreateNext(s: State): State {
    match s.create
    case ToConfigured => Swap(s, Initializing, Configured).(create := ToActive)
    case ToActive => Swap(s, Configured, Active).(create := Spawning)
    case Spawning => s.(create := Created, keep := Idle)
    case Created => s
  }

  function KeepNext(timeout: nat, s: State): State {
    match s.keep
    case Off => s
    case Idle => s.(tickTime := s.clock, keep := if s.lastRx > 0 then Stamped(s.lastRx) else Idle)
    case Stamped(stamp) => s.(keep := Timed(if s.clock > stamp then s.clock - stamp else 0))
    case Timed(elapsed) => s.(keep := Checked(elapsed, LoadOf(s.cell)))
    case Checked(elapsed, seen) =>
      var s' := if elapsed > timeout && seen == Active then Swap(s, Active, Stale)
                else if elapsed <= timeout && seen == Stale then Swap(s, Stale, Active)
                else s;
      s'.(keep := Idle)
  }

  function DestroyNext(s: State, i: nat): State
    requires i < |s.destroys|
  {
    match s.destroys[i]
    case Called => s.(destroys := s.destroys[i := Loaded(LoadOf(s.cell), |s.history|)])
    case Loaded(seen, at) =>
      var end := Finished(seen, at, |s.history|, CasHits(s.cell, seen, TearingDown));
      Swap(s, seen, TearingDown).(destroys := s.destroys[i := end])
    case Finished(_, _, _, _) => s
  }

  /** An event that is not possible in a state leaves it as it is. */
  function Step(timeout: nat, s: State, e: Event): State {
    match e
    case CreateStep => CreateNext(s)
    case KeepStep => KeepNext(timeout, s)
    case StopKeepalive => if s.keep.Idle? then s.(keep := Off) else s
    case CallDestroy => s.(destroys := s.destroys + [Called])
    case DestroyStep(i) => if i < |s.destroys| then DestroyNext(s, i) else s
    case StampStore(stamp) => if 0 < stamp <= s.clock then s.(lastRx := stamp, rxTime := s.clock) else s
    case Wait(ms) => s.(clock := s.clock + ms)
  }

  function Run(timeout: nat, s: State, es: seq<Event>): State
    decreases |es|
  {
    if es == [] then s else Run(timeout, Step(timeout, s, es[0]), es[1..])
  }

  predicate HistoryOk(s: State) {
    && |s.history| > 0 && s.history[0] == Initializing && Path(s.history)
    && s.cell == ToU8(s.history[|s.history| - 1]) && s.history[|s.history| - 1] != Destroyed
  }

  predicate DestroyOk(h: seq<TunnelState>, d: DestroyPc) {
    match d
    case Called => true
    case Loaded(seen, at) => 0 < at <= |h| && h[at - 1] == seen
    case Finished(seen, at, end, moved) =>
      && 0 < at <= end <= |h| && h[at - 1] == seen
      && (moved <==> IsValidTransition(seen, TearingDown) && h[end - 1] == seen)
      && (moved ==> end < |h| && h[end] == TearingDown)
  }

  predicate DestroysOk(s: State) {
    forall i :: 0 <= i < |s.destroys| ==> DestroyOk(s.history, s.destroys[i])
  }

  /** The last stamp was stored so long before the round began that the round must find the tunnel silent. */
  predicate Overdue(timeout: nat, s: State) {
    s.lastRx > 0 && s.tickTime > s.rxTime + timeout
  }

  predicate TimingOk(timeout: nat, s: State) {
    && s.lastRx <= s.rxTime <= s.clock && s.tickTime <= s.clock
    && (s.create != Created ==> s.keep.Off? && s.tickTime == 0)
    && match s.keep
       case Off => true
       case Idle => Overdue(timeout, s) ==> s.cell != ToU8(Active)
       case Stamped(stamp) => Overdue(timeout, s) ==> stamp == s.lastRx
       case Timed(elapsed) => Overdue(timeout, s) ==> elapsed > timeout
       case Checked(elapsed, seen) =>
         (Overdue(timeout, s) ==> elapsed > timeout) && (s.cell == ToU8(Active) ==> seen == Active)
  }

  predicate Inv(timeout: nat, s: State) {
    HistoryOk(s) && DestroysOk(s) && TimingOk(timeout, s)
  }

  lemma SwapHistory(s: State, from: TunnelState, to: TunnelState)
    requires HistoryOk(s) && to != Destroyed
    ensures HistoryOk(Swap(s, from, to))
    ensures s.history <= Swap(s, from, to).history
  {
  }

  lemma DestroyOkExtends(h: seq<TunnelState>, h': seq<TunnelState>, d: DestroyPc)
    requires DestroyOk(h, d) && h <= h'
    ensures DestroyOk(h', d)
  {
  }

  lemma DestroysOkExtends(s: State, s': State)
    requires DestroysOk(s) && s.history <= s'.history && s'.destroys == s.destroys
    ensures DestroysOk(s')
  {
    forall i | 0 <= i < |s.destroys|
      ensures DestroyOk(s'.history, s'.destroys[i])
    {
      DestroyOkExtends(s.history, s'.history, s.destroys[i]);
    }
  }

  lemma CreateKeepsInv(timeout: nat, s: State)
    requires Inv(timeout, s)
    ensures Inv(timeout, CreateNext(s)) && s.history <= CreateNext(s).history
  {
    SwapHistory(s, Initializing, Configured);
    SwapHistory(s, Configured, Active);
    DestroysOkExtends(s, CreateNext(s));
  }

  lemma KeepTiming(timeout: nat, s: State)
    requires TimingOk(timeout, s) && s.cell < 5
    ensures TimingOk(timeout, KeepNext(timeout, s))
  {
  }

  lemma KeepHistory(timeout: nat, s: State)
    requires HistoryOk(s)
    ensures HistoryOk(KeepNext(timeout, s)) && s.history <= KeepNext(timeout, s).history
  {
    SwapHistory(s, Active, Stale);
    SwapHistory(s, Stale, Active);
  }

  lemma KeepKeepsInv(timeout: nat, s: State)
    requires Inv(timeout, s)
    ensures Inv(timeout, KeepNext(timeout, s)) && s.history <= KeepNext(timeout, s).history
  {
    KeepTiming(timeout, s);
    KeepHistory(timeout, s);
    DestroysOkExtends(s, KeepNext(timeout, s));
  }

  lemma DestroyKeepsInv(timeout: nat, s: State, i: nat)
    requires Inv(timeout, s) && i < |s.destroys|
    ensures Inv(timeout, DestroyNext(s, i)) && s.history <= DestroyNext(s, i).history
  {
    var s' := DestroyNext(s, i);
    if s.destroys[i].Loaded? {
      SwapHistory(s, s.destroys[i].seen, TearingDown);
    }
    assert DestroyOk(s.history, s.destroys[i]);
    assert DestroyOk(s'.history, s'.destroys[i]);
    forall j | 0 <= j < |s'.destroys| && j != i
      ensures DestroyOk(s'.history, s'.destroys[j])
    {
      DestroyOkExtends(s.history, s'.history, s.destroys[j]);
    }
  }

  lemma OtherKeepsInv(timeout: nat, s: State, e: Event)
    requires Inv(timeout, s) && (e.CallDestroy? || e.StopKeepalive? || e.StampStore? || e.Wait?)
    ensures Inv(timeout, Step(timeout, s, e)) && s.history <= Step(timeout, s, e).history
  {
  }

  lemma StepKeepsInv(timeout: nat, s: State, e: Event)
    requires Inv(timeout, s)
    ensures Inv(timeout, Step(timeout, s, e)) && s.history <= Step(timeout, s, e).history
  {
    match e
    case CreateStep => CreateKeepsInv(timeout, s);
    case KeepStep => KeepKeepsInv(timeout, s);
    case DestroyStep(i) => if i < |s.destroys| { DestroyKeepsInv(timeout, s, i); }
    case CallDestroy | StopKeepalive | StampStore(_) | Wait(_) => OtherKeepsInv(timeout, s, e);
  }

  lemma {:induction false} RunKeepsInv(timeout: nat, s: State, es: seq<Event>)
    requires Inv(timeout, s)
    ensures Inv(timeout, Run(timeout, s, es)) && s.history <= Run(timeout, s, es).history
    decreases |es|
  {
    if es != [] {
      StepKeepsInv(timeout, s, es[0]);
      RunKeepsInv(timeout, Step(timeout, s, es[0]), es[1..]);
    }
  }

  lemma StartInv(timeout: nat)
    ensures Inv(timeout, START)
  {
  }

  /** Lifecycle safety, in every run: the byte names a state other than Destroyed, the states gone through follow the
      transition relation from Initializing on, and at most three moves are anything but a toggle. */
  lemma HistoryIsPath(timeout: nat, es: seq<Event>)
    ensures var s := Run(timeout, START, es);
      && s.cell < 5 && s.history != [] && s.history[0] == Initializing && Path(s.history)
      && s.cell == ToU8(s.history[|s.history| - 1]) && Raises(s.history) <= 3
  {
    StartInv(timeout);
    RunKeepsInv(timeout, START, es);
    RaisesBounded(Run(timeout, START, es).history);
  }

  lemma {:induction false} RunAppend(timeout: nat, s: State, es: seq<Event>, more: seq<Event>)
    ensures Run(timeout, s, es + more) == Run(timeout, Run(timeout, s, es), more)
    decreases |es|
  {
    if es == [] {
      assert es + more == more;
    } else {
      assert (es + more)[1..] == es[1..] + more;
      RunAppend(timeout, Step(timeout, s, es[0]), es[1..], more);
    }
  }

  /** A tunnel that is being torn down stays so, whatever happens next. */
  lemma TearingDownIsFinal(timeout: nat, es: seq<Event>, more: seq<Event>)
    requires Run(timeout, START, es).cell == ToU8(TearingDown)
    ensures Run(timeout, START, es + more).cell == ToU8(TearingDown)
  {
    var s, s' := Run(timeout, START, es), Run(timeout, START, es + more);
    RunAppend(timeout, START, es, more);
    StartInv(timeout);
    RunKeepsInv(timeout, START, es);
    RunKeepsInv(timeout, s, more);
    RankRises(s'.history, |s.history| - 1, |s'.history| - 1);
  }

  /** Between its load and its compare-exchange, nothing happened to the state except perhaps an even number of toggles
      between Active and Stale. */
  predicate Undisturbed(h: seq<TunnelState>, d: DestroyPc)
    requires d.Finished? && 0 < d.loadedAt <= d.swappedAt <= |h|
  {
    || d.swappedAt == d.loadedAt
    || (Forwarding(d.seen) && Forwarding(h[d.swappedAt - 1]) && (d.swappedAt - d.loadedAt) % 2 == 0)
  }

  /** In every run, a finished destroy call moved the tunnel to TearingDown if and only if the state it loaded permits
      that and the state was undisturbed; and then the tunnel is in TearingDown now. */
  lemma DestroyExact(timeout: nat, es: seq<Event>, i: nat)
    requires i < |Run(timeout, START, es).destroys| && Run(timeout, START, es).destroys[i].Finished?
    ensures var s := Run(timeout, START, es); var d := s.destroys[i];
      && 0 < d.loadedAt <= d.swappedAt <= |s.history| && d.seen == s.history[d.loadedAt - 1]
      && (d.moved <==> Rank(d.seen) < 3 && Undisturbed(s.history, d))
      && (d.moved ==> s.cell == ToU8(TearingDown))
  {
    StartInv(timeout);
    RunKeepsInv(timeout, START, es);
    var s := Run(timeout, START, es);
    var d := s.destroys[i];
    assert DestroyOk(s.history, d);
    ReturnsByToggling(s.history, d.loadedAt - 1, d.swappedAt - 1);
    if d.moved {
      RankRises(s.history, d.swappedAt, |s.history| - 1);
    }
  }

  lemma Extend(timeout: nat, es: seq<Event>, s: State, e: Event) returns (es': seq<Event>, s': State)
    requires s == Run(timeout, START, es)
    ensures s' == Step(timeout, s, e) == Run(timeout, START, es')
  {
    es', s' := es + [e], Step(timeout, s, e);
    RunAppend(timeout, START, es, [e]);
    assert Run(timeout, s, [e]) == Run(timeout, s', []);
  }

  /** Four keepalive steps with nothing in between: one whole round. */
  function Round(timeout: nat, s: State): State {
    KeepNext(timeout, KeepNext(timeout, KeepNext(timeout, KeepNext(timeout, s))))
  }

  /** After a round that nothing interrupts, a tunnel that was Active or Stale is Stale if the stamp is older than the
      timeout and Active otherwise; a tunnel in any other state is left alone. */
  lemma UninterruptedRound(timeout: nat, s: State)
    requires HistoryOk(s) && s.keep.Idle? && s.lastRx > 0
    ensures var s' := Round(timeout, s); var st := LoadOf(s.cell);
      && s'.keep.Idle? && s'.tickTime == s.clock
      && (Forwarding(st) ==> LoadOf(s'.cell) == if s.clock - s.lastRx > timeout then Stale else Active)
      && (!Forwarding(st) ==> s'.cell == s.cell)
  {
    assert KeepNext(timeout, s).keep.Stamped?;
  }

  lemma ExtendRound(timeout: nat, es: seq<Event>, s: State) returns (es': seq<Event>, s': State)
    requires s == Run(timeout, START, es)
    ensures s' == Round(timeout, s) == Run(timeout, START, es')
  {
    es', s' := Extend(timeout, es, s, KeepStep);
    es', s' := Extend(timeout, es', s', KeepStep);
    es', s' := Extend(timeout, es', s', KeepStep);
    es', s' := Extend(timeout, es', s', KeepStep);
  }

  /** A run to the point where a destroy call has loaded Active and the tunnel has then gone stale. */
  lemma StaleAfterLoad(timeout: nat) returns (es: seq<Event>, s: State)
    ensures s == Run(timeout, START, es)
    ensures s == State(3, [Initializing, Configured, Active, Stale], timeout + 2, 1, 1, timeout + 2, Created, Idle,
                       [Loaded(Active, 3)])
  {
    es, s := [], START;
    es, s := Extend(timeout, es, s, CreateStep);
    es, s := Extend(timeout, es, s, CreateStep);
    es, s := Extend(timeout, es, s, CreateStep);
    assert s.history == [Initializing, Configured, Active];
    es, s := Extend(timeout, es, s, Wait(1));
    es, s := Extend(timeout, es, s, StampStore(1));
    es, s := Extend(timeout, es, s, CallDestroy);
    assert s.destroys == [Called];
    es, s := Extend(timeout, es, s, DestroyStep(0));
    assert s.destroys == [Loaded(Active, 3)];
    es, s := Extend(timeout, es, s, Wait(timeout + 1));
    es, s := ExtendRound(timeout, es, s);
    assert s.history == [Initializing, Configured, Active, Stale];
  }

  /** A destroy call can lose the race: it fails, and the tunnel, now out of the registry, is still Stale. */
  lemma DestroyCanLose(timeout: nat) returns (es: seq<Event>)
    ensures var s := Run(timeout, START, es);
      && s.destroys == [Finished(Active, 3, 4, false)] && s.cell == ToU8(Stale)
  {
    var s;
    es, s := StaleAfterLoad(timeout);
    es, s := Extend(timeout, es, s, DestroyStep(0));
  }

  /** And it can succeed although the state changed twice in between, which the compare-exchange cannot see. */
  lemma DestroyCanMissToggles(timeout: nat) returns (es: seq<Event>)
    ensures var s := Run(timeout, START, es);
      && s.destroys == [Finished(Active, 3, 5, true)] && s.cell == ToU8(TearingDown)
  {
    var s;
    es, s := StaleAfterLoad(timeout);
    es, s := Extend(timeout, es, s, StampStore(timeout + 2));
    es, s := ExtendRound(timeout, es, s);
    assert s.history == [Initializing, Configured, Active, Stale, Active];
    es, s := Extend(timeout, es, s, DestroyStep(0));
  }

  /** Stale detection in every run: after a round that began later than `timeout` after the last stamp store, the tunnel
      is not Active, even though the stored stamp may be older than the store. */
  lemma SilentTunnelNotActive(timeout: nat, es: seq<Event>)
    ensures var s := Run(timeout, START, es);
      s.keep.Idle? && s.lastRx > 0 && s.tickTime > s.rxTime + timeout ==> s.cell != ToU8(Active)
  {
    StartInv(timeout);
    RunKeepsInv(timeout, START, es);
  }

  /** While no stamp has been stored, no round gets beyond reading it, and the tunnel has never been Stale. */
  predicate Unheard(s: State) {
    s.lastRx == 0 ==> (s.keep.Off? || s.keep.Idle?) && Stale !in s.history
  }

  lemma StepKeepsUnheard(timeout: nat, s: State, e: Event)
    requires Unheard(s)
    ensures Unheard(Step(timeout, s, e))
  {
  }

  lemma {:induction false} RunKeepsUnheard(timeout: nat, s: State, es: seq<Event>)
    requires Unheard(s)
    ensures Unheard(Run(timeout, s, es))
    decreases |es|
  {
    if es != [] {
      StepKeepsUnheard(timeout, s, es[0]);
      RunKeepsUnheard(timeout, Step(timeout, s, es[0]), es[1..]);
    }
  }

  /** In every run, a tunnel that was never heard has never been Stale, however long it has been up. */
  lemma NeverHeardNeverStale(timeout: nat, es: seq<Event>)
    ensures var s := Run(timeout, START, es); s.lastRx == 0 ==> Stale !in s.history && s.cell != 3
  {
    RunKeepsUnheard(timeout, START, es);
    HistoryIsPath(timeout, es);
  }

  /** With rounds at most `gap` apart, a tunnel that heard its last packet at `rxTime` is not Active any more once
      `rxTime + timeout + gap` has passed. */
  lemma StaleByDeadline(timeout: nat, gap: nat, es: seq<Event>)
    requires var s := Run(timeout, START, es);
      s.keep.Idle? && s.lastRx > 0 && s.clock <= s.tickTime + gap && s.clock > s.rxTime + timeout + gap
    ensures Run(timeout, START, es).cell != ToU8(Active)
  {
    SilentTunnelNotActive(timeout, es);
  }
}

/** The keepalive round as code, and the effect of the 64-packet stamp cache on it. */
module Keepalive {
  import opened TunnelLifecycle
  import Rx

  class KeepaliveTask {
    const state: AtomicTunnelState
    const timeoutMs: nat

    constructor (state: AtomicTunnelState, timeoutMs: nat)
      ensures this.state == state && this.timeoutMs == timeoutMs
    {
      this.state, this.timeoutMs := state, timeoutMs;
    }

    /** The check made at every tick, given the stored stamp and the clock. */
    method CheckStale(lastRxMs: int, nowMs: int)
      requires state.cell <= 5
      modifies state
      ensures state.cell <= 5 && LoadOf(state.cell) == AfterCheck(timeoutMs, LoadOf(old(state.cell)), lastRxMs, nowMs)
      ensures lastRxMs <= 0 ==> state.cell == old(state.cell)
      ensures old(state.cell) != 2 && old(state.cell) != 3 ==> state.cell == old(state.cell)
      ensures lastRxMs > 0 && (old(state.cell) == 2 || old(state.cell) == 3) ==>
                state.cell == if nowMs > lastRxMs + timeoutMs then 3 else 2
    {
      if lastRxMs > 0 {
        var elapsed := if nowMs - lastRxMs > 0 then nowMs - lastRxMs else 0;
        var current := state.Load();
        if elapsed > timeoutMs && current == Active {
          var _ := state.Transition(Active, Stale);
        } else if elapsed <= timeoutMs && current == Stale {
          var _ := state.Transition(Stale, Active);
        }
      }
    }
  }

  /** A tunnel that forwards becomes what its stamp says; other states, and tunnels never heard, stay. */
  function AfterCheck(timeoutMs: nat, st: TunnelState, lastRxMs: int, nowMs: int): TunnelState {
    if lastRxMs > 0 && Forwarding(st) then (if nowMs - lastRxMs > timeoutMs then Stale else Active) else st
  }

  /** The call at which the stamp returned by call i was read. */
  function LastRefresh(i: nat): (k: nat)
    ensures k <= i < k + 64
  {
    i - i % 64
  }

  /** The stamps one receive thread gets for its packets, given what the clock would say at each. */
  method Stamps(clock: Rx.CoarseClock, readings: seq<int>) returns (stamps: seq<int>)
    requires clock.count == 0
    modifies clock
    ensures |stamps| == |readings|
    ensures forall i :: 0 <= i < |readings| ==> stamps[i] == readings[LastRefresh(i)]
  {
    stamps := [];
    for i := 0 to |readings|
      invariant clock.count == i == |stamps|
      invariant i > 0 ==> clock.cached == readings[LastRefresh(i - 1)]
      invariant forall k :: 0 <= k < i ==> stamps[k] == readings[LastRefresh(k)]
    {
      var stamp := clock.Timestamp(readings[i]);
      stamps := stamps + [stamp];
    }
  }

  /** When packet i arrives, if packets come one every `gap`. */
  function ArrivalTime(start: nat, gap: nat, i: nat): nat {
    start + i * gap
  }

  /** Whether a check made at the moment packet i arrives leaves the tunnel Active. */
  predicate StaysActive(timeoutMs: nat, start: nat, gap: nat, i: nat) {
    AfterCheck(timeoutMs, Active, ArrivalTime(start, gap, LastRefresh(i)), ArrivalTime(start, gap, i)) == Active
  }

  lemma StampLag(start: nat, gap: nat, i: nat)
    ensures ArrivalTime(start, gap, i) - ArrivalTime(start, gap, LastRefresh(i)) == i % 64 * gap <= 63 * gap
  {
    Distribute(LastRefresh(i), i % 64, gap);
    Distribute(i % 64, 63 - i % 64, gap);
  }

  lemma Distribute(a: nat, b: nat, c: nat)
    ensures (a + b) * c == a * c + b * c
  {
  }

  /** A tunnel that is heard every `gap` is never called stale at the moment it is heard, if and only if 63 gaps fit
      in the timeout. With the defaults, a keepalive every 10 s and a timeout of 100 s, they do not. */
  lemma CacheTolerance(timeoutMs: nat, start: nat, gap: nat)
    requires start > 0
    ensures (forall i: nat :: StaysActive(timeoutMs, start, gap, i)) <==> 63 * gap <= timeoutMs
  {
    forall i: nat
      ensures StaysActive(timeoutMs, start, gap, i) <==> i % 64 * gap <= timeoutMs
      ensures i % 64 * gap <= 63 * gap
    {
      StampLag(start, gap, i);
    }
    assert StaysActive(timeoutMs, start, gap, 63) <==> 63 % 64 * gap <= timeoutMs;
  }

  /** Whether a check made `late` ms after packet i arrives leaves the tunnel Active. */
  predicate StaysActiveAfter(timeoutMs: nat, start: nat, gap: nat, i: nat, late: nat) {
    AfterCheck(timeoutMs, Active, ArrivalTime(start, gap, LastRefresh(i)), ArrivalTime(start, gap, i) + late) == Active
  }

  /** Checks are made by a timer, at any moment before the next packet. None of them calls the tunnel stale if and only
      if 64 gaps, less one millisecond, fit in the timeout. */
  lemma ToleranceBetweenArrivals(timeoutMs: nat, start: nat, gap: nat)
    requires start > 0
    ensures (forall i: nat, late: nat :: late < gap ==> StaysActiveAfter(timeoutMs, start, gap, i, late))
      <==> 64 * gap <= timeoutMs + 1
  {
    forall i: nat, late: nat
      ensures StaysActiveAfter(timeoutMs, start, gap, i, late) <==> i % 64 * gap + late <= timeoutMs
      ensures i % 64 * gap <= 63 * gap
    {
      StampLag(start, gap, i);
    }
    if gap > 0 {
      assert StaysActiveAfter(timeoutMs, start, gap, 63, gap - 1) <==> 63 % 64 * gap + (gap - 1) <= timeoutMs;
    }
  }

  lemma DefaultsAreNotTolerated(start: nat)
    requires start > 0
    ensures exists i: nat :: !StaysActive(100_000, start, 10_000, i)
  {
    CacheTolerance(100_000, start, 10_000);
  }
}
