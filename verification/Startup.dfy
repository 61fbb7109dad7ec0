/** The privileged helper: which messages it sends for a tunnel, and its two once-only flags. */
module Helper {
  import opened Bytes

  const AF_INET := 2
  const AF_INET6 := 10

  /** TapCreated and RawSocket carry a file descriptor. */
  datatype HelperMsg = HelperReady | TapCreated(tunnelId: u16) | RawSocket(family: nat) | Error

  /** The last message of a reply about IPv6. */
  function V6Reply(v6Works: bool): HelperMsg {
    if v6Works then RawSocket(AF_INET6) else Error
  }

  /** All messages sent for one tunnel, when its TAP interface and the IPv4 socket can be had. */
  function Reply(id: u16, v4Created: bool, v6Created: bool, v6Works: bool): seq<HelperMsg> {
    [TapCreated(id)]
    + (if v4Created then [] else [RawSocket(AF_INET)])
    + (if v6Created then [] else [V6Reply(v6Works)])
  }

  /** The first tunnel is answered with everything, later ones with what was not sent before; a missing IPv6 is said
      again each time. */
  lemma ReplySpelledOut(id: u16)
    ensures Reply(id, false, false, true) == [TapCreated(id), RawSocket(2), RawSocket(10)]
    ensures Reply(id, false, false, false) == [TapCreated(id), RawSocket(2), Error]
    ensures Reply(id, true, true, true) == Reply(id, true, true, false) == [TapCreated(id)]
    ensures Reply(id, true, false, true) == [TapCreated(id), RawSocket(10)]
    ensures Reply(id, true, false, false) == [TapCreated(id), Error]
  {
  }

  class HelperProcess {
    var v4Created: bool
    var v6Created: bool

    constructor ()
      ensures !v4Created && !v6Created
    {
      v4Created, v6Created := false, false;
    }

    /** `tapOk`, `v4Ok` and `v6Ok` say whether the kernel grants the interface and the two sockets. */
    method HandleCreateTunnel(id: u16, tapOk: bool, v4Ok: bool, v6Ok: bool) returns (sent: seq<HelperMsg>, ok: bool)
      modifies this
      ensures ok <==> tapOk && (v4Ok || old(v4Created))
      ensures ok ==> sent == Reply(id, old(v4Created), old(v6Created), v6Ok)
      ensures !ok ==> sent == if tapOk then [TapCreated(id)] else []
      ensures v4Created <==> old(v4Created) || ok
      ensures v6Created <==> old(v6Created) || (ok && v6Ok)
    {
      if !tapOk {
        return [], false;
      }
      sent := [TapCreated(id)];
      if !v4Created {
        if !v4Ok {
          return sent, false;
        }
        sent := sent + [RawSocket(AF_INET)];
        v4Created := true;
      }
      if !v6Created {
        if v6Ok {
          sent := sent + [RawSocket(AF_INET6)];
          v6Created := true;
        } else {
          sent := sent + [Error];
        }
      }
      return sent, true;
    }

    /** One turn of the persist loop: a failure is answered with an error message. */
    method ServeCreate(id: u16, tapOk: bool, v4Ok: bool, v6Ok: bool) returns (sent: seq<HelperMsg>)
      modifies this
      ensures tapOk && (v4Ok || old(v4Created)) ==> sent == Reply(id, old(v4Created), old(v6Created), v6Ok)
      ensures !tapOk ==> sent == [Error]
      ensures tapOk && !v4Ok && !old(v4Created) ==> sent == [TapCreated(id), Error]
      ensures v4Created <==> old(v4Created) || (tapOk && v4Ok)
      ensures v6Created <==> old(v6Created) || (tapOk && (v4Ok || old(v4Created)) && v6Ok)
    {
      var ok;
      sent, ok := HandleCreateTunnel(id, tapOk, v4Ok, v6Ok);
      if !ok {
        sent := sent + [Error];
      }
    }
  }
}

/** The daemon's startup loop, run against a helper that answers each request before the daemon reads on. */
module DaemonStartup {
  import opened Bytes
  import opened Helper

  class Startup {
    const helper: HelperProcess
    var inbox: seq<HelperMsg>
    var v4Fd: bool
    var v6Fd: bool
    var active: seq<u16>

    constructor (helper: HelperProcess)
      ensures this.helper == helper && inbox == [] && !v4Fd && !v6Fd && active == []
    {
      this.helper, inbox, v4Fd, v6Fd, active := helper, [], false, false, [];
    }

    /** The raw sockets, read once, after the first tunnel's TAP. */
    method ReceiveRawSockets(v6Works: bool, ghost rest: seq<HelperMsg>)
      requires inbox == [RawSocket(AF_INET), V6Reply(v6Works)] + rest
      modifies this`inbox, this`v4Fd, this`v6Fd
      ensures inbox == rest && v4Fd && (v6Fd <==> old(v6Fd) || v6Works)
    {
      v4Fd := inbox[0].TapCreated? || inbox[0].RawSocket?;
      inbox := inbox[1..];
      var msg := inbox[0];
      inbox := inbox[1..];
      if msg == RawSocket(AF_INET6) {
        v6Fd := true;
      }
    }

    /** Where the loop stands after k tunnels. From the third on, the unread errors of a missing IPv6 show. */
    predicate After(ids: seq<u16>, k: nat, v6Works: bool)
      reads this, helper
    {
      && k <= |ids| && active == ids[..k] && helper.v4Created == v4Fd == (k > 0)
      && helper.v6Created == v6Fd == (k > 0 && v6Works)
      && inbox == (if v6Works || k < 2 then [] else [Error])
      && (k <= 2 || v6Works)
    }

    /** With TAP interfaces and the IPv4 socket granted, startup succeeds if and only if IPv6 works or there are at most
        two tunnels; it then activates all of them, in order, with both queues empty unless an error is left over. */
    method CreateAll(ids: seq<u16>, v6Works: bool) returns (ok: bool)
      requires After(ids, 0, v6Works)
      modifies this, helper
      ensures ok <==> v6Works || |ids| <= 2
      ensures ok ==> After(ids, |ids|, v6Works)
      ensures !ok ==> active == ids[..2]
    {
      for k := 0 to |ids|
        invariant After(ids, k, v6Works)
      {
        var sent := helper.ServeCreate(ids[k], true, true, v6Works);
        inbox := inbox + sent;
        var msg := inbox[0];
        inbox := inbox[1..];
        if !msg.TapCreated? {
          return false;
        }
        if !v4Fd {
          ReceiveRawSockets(v6Works, []);
        }
        active := active + [msg.tunnelId];
        assert ids[..k + 1] == ids[..k] + [ids[k]];
      }
      return true;
    }
  }
}

/** Both processes and their two queues, interleaved message by message. */
module StartupProtocol {
  import opened Bytes
  import opened Helper

  datatype HelperPc = Starting | Waiting | SendTap(id: u16) | SendV4 | SendV6

  datatype DaemonPc = AwaitReady | Sending | AwaitTap | AwaitV4 | AwaitV6 | Failed

  /** `served` counts the requests the helper has taken up, and `raws` lists the raw sockets it has sent. */
  datatype HelperState = HelperState(pc: HelperPc, v4Created: bool, v6Created: bool, served: nat, raws: seq<nat>)

  /** `active` lists the ids of the TapCreated messages the daemon has accepted, one for each tunnel. */
  datatype DaemonState = DaemonState(pc: DaemonPc, done: nat, v4Fd: bool, v6Fd: bool, active: seq<u16>)

  datatype State = State(toHelper: seq<u16>, toDaemon: seq<HelperMsg>, h: HelperState, d: DaemonState)

  const START := State([], [], HelperState(Starting, false, false, 0, []), DaemonState(AwaitReady, 0, false, false, []))

  datatype Turn = HelperTurn | DaemonTurn

  function Post(s: State, msg: HelperMsg, h: HelperState): State {
    s.(toDaemon := s.toDaemon + [msg], h := h)
  }

  function HelperNext(s: State, v6Works: bool): State {
    var h := s.h;
    match h.pc
    case Starting => Post(s, HelperReady, h.(pc := Waiting))
    case Waiting =>
      if s.toHelper == [] then s
      else s.(toHelper := s.toHelper[1..], h := h.(pc := SendTap(s.toHelper[0]), served := h.served + 1))
    case SendTap(id) =>
      Post(s, TapCreated(id), h.(pc := if !h.v4Created then SendV4 else if !h.v6Created then SendV6 else Waiting))
    case SendV4 =>
      Post(s, RawSocket(AF_INET),
           h.(pc := if !h.v6Created then SendV6 else Waiting, v4Created := true, raws := h.raws + [AF_INET]))
    case SendV6 =>
      if v6Works then
        Post(s, RawSocket(AF_INET6), h.(pc := Waiting, v6Created := true, raws := h.raws + [AF_INET6]))
      else
        Post(s, Error, h.(pc := Waiting))
  }

  /** The daemon's answer to a message. */
  function Take(d: DaemonState, msg: HelperMsg): DaemonState {
    match d.pc
    case AwaitReady => d.(pc := if msg == HelperReady then Sending else Failed)
    case AwaitTap =>
      if !msg.TapCreated? then d.(pc := Failed)
      else if !d.v4Fd then d.(pc := AwaitV4, active := d.active + [msg.tunnelId])
      else d.(pc := Sending, done := d.done + 1, active := d.active + [msg.tunnelId])
    case AwaitV4 => d.(pc := AwaitV6, v4Fd := msg.TapCreated? || msg.RawSocket?)
    case AwaitV6 => d.(pc := Sending, done := d.done + 1, v6Fd := d.v6Fd || msg == RawSocket(AF_INET6))
    case Sending | Failed => d
  }

  function DaemonNext(s: State, ids: seq<u16>): State {
    if s.d.pc == Sending then
      if s.d.done < |ids| then s.(toHelper := s.toHelper + [ids[s.d.done]], d := s.d.(pc := AwaitTap)) else s
    else if s.d.pc == Failed || s.toDaemon == [] then s
    else s.(toDaemon := s.toDaemon[1..], d := Take(s.d, s.toDaemon[0]))
  }

  function Step(s: State, ids: seq<u16>, v6Works: bool, t: Turn): State {
    match t
    case HelperTurn => HelperNext(s, v6Works)
    case DaemonTurn => DaemonNext(s, ids)
  }

  function Run(s: State, ids: seq<u16>, v6Works: bool, ts: seq<Turn>): State
    decreases |ts|
  {
    if ts == [] then s else Run(Step(s, ids, v6Works, ts[0]), ids, v6Works, ts[1..])
  }

  /** What the helper has still to send for the request it is working on. */
  function Pending(s: State, v6Works: bool): seq<HelperMsg> {
    match s.h.pc
    case Starting => [HelperReady]
    case Waiting => []
    case SendTap(id) => Reply(id, s.h.v4Created, s.h.v6Created, v6Works)
    case SendV4 => [RawSocket(AF_INET), V6Reply(v6Works)]
    case SendV6 => [V6Reply(v6Works)]
  }

  /** The flags after the first request is dealt with. */
  function ReplyTo(id: u16, first: bool, v6Works: bool): seq<HelperMsg> {
    Reply(id, !first, !first && v6Works, v6Works)
  }

  function Requested(s: State, v6Works: bool): seq<HelperMsg> {
    if s.toHelper == [] then [] else ReplyTo(s.toHelper[0], s.h.served == 0, v6Works)
  }

  /** Everything on its way to the daemon. */
  function Flow(s: State, v6Works: bool): seq<HelperMsg> {
    s.toDaemon + (Pending(s, v6Works) + Requested(s, v6Works))
  }

  /** The errors about IPv6 that nobody reads. */
  function Stray(done: nat, v6Works: bool): seq<HelperMsg> {
    if v6Works || done < 2 then [] else [Error]
  }

  /** What must be on its way, given where the daemon stands. */
  function Due(d: DaemonState, ids: seq<u16>, v6Works: bool): seq<HelperMsg>
    requires d.pc == AwaitTap ==> d.done < |ids|
  {
    match d.pc
    case AwaitReady => [HelperReady]
    case Sending => Stray(d.done, v6Works)
    case AwaitTap => Stray(d.done, v6Works) + ReplyTo(ids[d.done], d.done == 0, v6Works)
    case AwaitV4 => [RawSocket(AF_INET), V6Reply(v6Works)]
    case AwaitV6 => [V6Reply(v6Works)]
    case Failed => []
  }

  predicate HelperOk(s: State, v6Works: bool) {
    && s.h.raws == (if s.h.v4Created then [AF_INET] else []) + (if s.h.v6Created then [AF_INET6] else [])
    && match s.h.pc
       case Starting => s.h.served == 0 && !s.h.v4Created && !s.h.v6Created
       case Waiting => s.h.v4Created == (s.h.served > 0) && s.h.v6Created == (s.h.served > 0 && v6Works)
       case SendTap(_) =>
         s.h.served > 0 && s.h.v4Created == (s.h.served > 1) && s.h.v6Created == (s.h.served > 1 && v6Works)
       case SendV4 => s.h.served == 1 && !s.h.v4Created && !s.h.v6Created
       case SendV6 => s.h.served > 0 && s.h.v4Created && !s.h.v6Created && (s.h.served == 1 || !v6Works)
  }

  predicate Busy(pc: DaemonPc) {
    pc == AwaitTap || pc == AwaitV4 || pc == AwaitV6
  }

  predicate LoopOk(d: DaemonState, ids: seq<u16>, v6Works: bool) {
    && d.done <= |ids| && (Busy(d.pc) ==> d.done < |ids|)
    && (d.pc == AwaitReady || d.pc == AwaitV4 || d.pc == AwaitV6 ==> d.done == 0)
    && d.v4Fd == (d.done > 0 || d.pc == AwaitV6) && d.v6Fd == (d.done > 0 && v6Works)
    && d.active == ids[..if d.pc == AwaitV4 || d.pc == AwaitV6 then 1 else d.done]
    && (v6Works || d.done <= 2)
  }

  predicate RequestsOk(toHelper: seq<u16>, served: nat, d: DaemonState, ids: seq<u16>) {
    && d.done + (if Busy(d.pc) then 1 else 0) == served + |toHelper|
    && (|toHelper| > 0 ==> d.pc == AwaitTap && d.done < |ids| && |toHelper| == 1 && toHelper[0] == ids[d.done])
  }

  predicate DaemonOk(s: State, ids: seq<u16>, v6Works: bool) {
    LoopOk(s.d, ids, v6Works) && RequestsOk(s.toHelper, s.h.served, s.d, ids)
  }

  /** The daemon has met a stray error. */
  predicate Stuck(s: State, ids: seq<u16>, v6Works: bool) {
    s.d.pc == Failed && !v6Works && |ids| >= 3 && s.d.done == 2 && s.d.active == ids[..2]
  }

  predicate FlowOk(s: State, ids: seq<u16>, v6Works: bool) {
    DaemonOk(s, ids, v6Works) && Flow(s, v6Works) == Due(s.d, ids, v6Works)
  }

  predicate Inv(s: State, ids: seq<u16>, v6Works: bool) {
    && HelperOk(s, v6Works)
    && (Stuck(s, ids, v6Works)
        || (s.d.pc != Failed && FlowOk(s, ids, v6Works)))
  }

  lemma HelperKeepsOk(s: State, v6Works: bool)
    requires HelperOk(s, v6Works)
    ensures HelperOk(HelperNext(s, v6Works), v6Works)
  {
  }

  /** Taking up a request turns it into the messages it will be answered with. */
  lemma TakingKeepsFlow(s: State, v6Works: bool)
    requires HelperOk(s, v6Works) && s.h.pc == Waiting && |s.toHelper| == 1
    ensures Flow(HelperNext(s, v6Works), v6Works) == Flow(s, v6Works)
  {
  }

  /** Sending moves the first pending message into the queue. */
  lemma SendingKeepsFlow(s: State, v6Works: bool, msg: HelperMsg)
    requires HelperOk(s, v6Works) && s.h.pc != Waiting
    requires HelperNext(s, v6Works).toDaemon == s.toDaemon + [msg]
    ensures Flow(HelperNext(s, v6Works), v6Works) == Flow(s, v6Works)
  {
    var s' := HelperNext(s, v6Works);
    assert (s.toDaemon + [msg])[|s.toDaemon|] == msg;
    assert Pending(s, v6Works) == [msg] + Pending(s', v6Works);
    assert Requested(s', v6Works) == Requested(s, v6Works);
    Regroup(s.toDaemon, msg, Pending(s', v6Works), Requested(s, v6Works));
  }

  lemma Regroup(xs: seq<HelperMsg>, x: HelperMsg, ys: seq<HelperMsg>, zs: seq<HelperMsg>)
    ensures xs + (([x] + ys) + zs) == (xs + [x]) + (ys + zs)
  {
  }

  lemma HelperKeepsFlow(s: State, v6Works: bool)
    requires HelperOk(s, v6Works) && |s.toHelper| <= 1
    ensures Flow(HelperNext(s, v6Works), v6Works) == Flow(s, v6Works)
  {
    if s.h.pc == Waiting {
      if s.toHelper != [] {
        TakingKeepsFlow(s, v6Works);
      }
    } else {
      var msg: HelperMsg :| HelperNext(s, v6Works).toDaemon == s.toDaemon + [msg];
      SendingKeepsFlow(s, v6Works, msg);
    }
  }

  lemma HelperKeepsDaemon(s: State, ids: seq<u16>, v6Works: bool)
    ensures HelperNext(s, v6Works).d == s.d
    ensures DaemonOk(s, ids, v6Works) ==> DaemonOk(HelperNext(s, v6Works), ids, v6Works)
  {
  }

  lemma HelperKeepsFlowOk(s: State, ids: seq<u16>, v6Works: bool)
    requires HelperOk(s, v6Works) && FlowOk(s, ids, v6Works)
    ensures FlowOk(HelperNext(s, v6Works), ids, v6Works)
  {
    HelperKeepsFlow(s, v6Works);
    HelperKeepsDaemon(s, ids, v6Works);
  }

  lemma HelperKeepsInv(s: State, ids: seq<u16>, v6Works: bool)
    requires Inv(s, ids, v6Works)
    ensures Inv(HelperNext(s, v6Works), ids, v6Works)
  {
    HelperKeepsOk(s, v6Works);
    HelperKeepsDaemon(s, ids, v6Works);
    if s.d.pc != Failed {
      HelperKeepsFlowOk(s, ids, v6Works);
    }
  }

  /** The first message on its way is the first one due. */
  lemma NextIsDue(s: State, ids: seq<u16>, v6Works: bool)
    requires Inv(s, ids, v6Works) && s.d.pc != Failed && s.toDaemon != []
    ensures var due := Due(s.d, ids, v6Works);
      && due != [] && s.toDaemon[0] == due[0]
      && s.toDaemon[1..] + (Pending(s, v6Works) + Requested(s, v6Works)) == due[1..]
  {
    var flow := Flow(s, v6Works);
    assert flow[0] == s.toDaemon[0];
    assert flow[1..] == s.toDaemon[1..] + (Pending(s, v6Works) + Requested(s, v6Works));
  }

  lemma SendingKeepsFlowOk(s: State, ids: seq<u16>, v6Works: bool)
    requires FlowOk(s, ids, v6Works) && s.d.pc == Sending && s.d.done < |ids|
    ensures FlowOk(DaemonNext(s, ids), ids, v6Works)
  {
    var s' := DaemonNext(s, ids);
    var request := ReplyTo(ids[s.d.done], s.d.done == 0, v6Works);
    assert Requested(s, v6Works) == [] && Requested(s', v6Works) == request;
    assert Flow(s', v6Works) == Flow(s, v6Works) + request;
  }

  lemma DaemonKeepsHelper(s: State, ids: seq<u16>, v6Works: bool)
    requires HelperOk(s, v6Works)
    ensures HelperOk(DaemonNext(s, ids), v6Works)
  {
  }

  lemma DaemonSends(s: State, ids: seq<u16>, v6Works: bool)
    requires Inv(s, ids, v6Works) && s.d.pc == Sending
    ensures Inv(DaemonNext(s, ids), ids, v6Works)
  {
    DaemonKeepsHelper(s, ids, v6Works);
    if s.d.done < |ids| {
      SendingKeepsFlowOk(s, ids, v6Works);
    }
  }

  lemma DaemonReceivesFirstTap(s: State, ids: seq<u16>, v6Works: bool)
    requires Inv(s, ids, v6Works) && s.d.pc == AwaitTap && s.toDaemon != [] && s.d.done == 0
    ensures Inv(DaemonNext(s, ids), ids, v6Works)
  {
    DaemonKeepsHelper(s, ids, v6Works);
    NextIsDue(s, ids, v6Works);
    assert ids[..1] == [ids[0]];
  }

  lemma DaemonReceivesLaterTap(s: State, ids: seq<u16>, v6Works: bool)
    requires Inv(s, ids, v6Works) && s.d.pc == AwaitTap && s.toDaemon != [] && s.d.done > 0
    ensures Inv(DaemonNext(s, ids), ids, v6Works)
  {
    DaemonKeepsHelper(s, ids, v6Works);
    NextIsDue(s, ids, v6Works);
    if v6Works || s.d.done < 2 {
      assert ids[..s.d.done + 1] == ids[..s.d.done] + [ids[s.d.done]];
      assert Due(s.d, ids, v6Works) == [TapCreated(ids[s.d.done])] + Stray(s.d.done + 1, v6Works);
    }
  }

  lemma DaemonReceivesOther(s: State, ids: seq<u16>, v6Works: bool)
    requires Inv(s, ids, v6Works) && s.toDaemon != []
    requires s.d.pc == AwaitReady || s.d.pc == AwaitV4 || s.d.pc == AwaitV6
    ensures Inv(DaemonNext(s, ids), ids, v6Works)
  {
    DaemonKeepsHelper(s, ids, v6Works);
    NextIsDue(s, ids, v6Works);
  }

  lemma StepKeepsInv(s: State, ids: seq<u16>, v6Works: bool, t: Turn)
    requires Inv(s, ids, v6Works)
    ensures Inv(Step(s, ids, v6Works, t), ids, v6Works)
  {
    if t == HelperTurn {
      HelperKeepsInv(s, ids, v6Works);
    } else if s.d.pc == Sending {
      DaemonSends(s, ids, v6Works);
    } else if s.d.pc == AwaitTap && s.toDaemon != [] {
      if s.d.done == 0 {
        DaemonReceivesFirstTap(s, ids, v6Works);
      } else {
        DaemonReceivesLaterTap(s, ids, v6Works);
      }
    } else if s.d.pc != Failed && s.toDaemon != [] {
      DaemonReceivesOther(s, ids, v6Works);
    }
  }

  lemma {:induction false} RunKeepsInv(s: State, ids: seq<u16>, v6Works: bool, ts: seq<Turn>)
    requires Inv(s, ids, v6Works)
    ensures Inv(Run(s, ids, v6Works, ts), ids, v6Works)
    decreases |ts|
  {
    if ts != [] {
      StepKeepsInv(s, ids, v6Works, ts[0]);
      RunKeepsInv(Step(s, ids, v6Works, ts[0]), ids, v6Works, ts[1..]);
    }
  }

  lemma StartInv(ids: seq<u16>, v6Works: bool)
    ensures Inv(START, ids, v6Works)
  {
  }

  /** Nothing is on its way: both queues are empty and the helper waits. */
  lemma NothingFlows(s: State, v6Works: bool)
    requires |Flow(s, v6Works)| == 0
    ensures s.toDaemon == [] && s.toHelper == [] && s.h.pc == Waiting
  {
    assert |Pending(s, v6Works)| == 0 && |Requested(s, v6Works)| == 0;
  }

  /** With a working IPv6 socket, in every interleaving: the daemon never meets an unexpected message; whenever it is
      between two tunnels both queues are empty and the helper waits; every finished tunnel was answered by its own
      TapCreated; and each raw socket was sent once. */
  lemma Lockstep(ids: seq<u16>, ts: seq<Turn>)
    ensures var s := Run(START, ids, true, ts);
      && s.d.pc != Failed && s.d.done <= |ids|
      && (s.d.pc == Sending ==>
            s.toHelper == [] && s.toDaemon == [] && s.h.pc == Waiting && s.d.active == ids[..s.d.done])
      && (s.d.done > 0 ==> s.h.raws == [AF_INET, AF_INET6] && s.d.v4Fd && s.d.v6Fd)
      && s.h.raws <= [AF_INET, AF_INET6]
  {
    StartInv(ids, true);
    RunKeepsInv(START, ids, true, ts);
    LockstepAt(Run(START, ids, true, ts), ids);
  }

  lemma LockstepAt(s: State, ids: seq<u16>)
    requires Inv(s, ids, true)
    ensures s.d.pc == Sending ==> s.toHelper == [] && s.toDaemon == [] && s.h.pc == Waiting
    ensures s.d.done > 0 ==> s.h.raws == [AF_INET, AF_INET6]
    ensures s.h.raws <= [AF_INET, AF_INET6]
  {
    if s.d.pc == Sending {
      NothingFlows(s, true);
    }
    if s.d.done > 0 {
      assert s.h.v4Created && s.h.v6Created;
    }
  }

  /** How many steps are left at most. */
  function Measure(s: State, n: nat): int {
    4 * (n - s.d.done) + 5 * (n - s.h.served)
    + (match s.h.pc
       case Starting => 1
       case Waiting => 0
       case SendTap(_) => 3
       case SendV4 => 2
       case SendV6 => 1)
    + (match s.d.pc
       case AwaitReady => 1
       case Sending => 0
       case AwaitTap => -1
       case AwaitV4 => -2
       case AwaitV6 => -3
       case Failed => -4)
  }

  lemma HelperMoves(s: State, ids: seq<u16>, v6Works: bool)
    requires HelperOk(s, v6Works) && HelperNext(s, v6Works) != s
    ensures Measure(HelperNext(s, v6Works), |ids|) < Measure(s, |ids|)
  {
  }

  lemma DaemonMoves(s: State, ids: seq<u16>, v6Works: bool)
    requires DaemonOk(s, ids, v6Works) && DaemonNext(s, ids) != s
    ensures Measure(DaemonNext(s, ids), |ids|) < Measure(s, |ids|)
  {
  }

  lemma SomeoneMoves(s: State, ids: seq<u16>, v6Works: bool)
    requires Inv(s, ids, v6Works) && s.d.pc != Failed && !(s.d.pc == Sending && s.d.done == |ids|)
    ensures HelperNext(s, v6Works) != s || DaemonNext(s, ids) != s
  {
    if s.d.pc == Sending {
      assert DaemonNext(s, ids).d.pc == AwaitTap;
    } else if s.toDaemon != [] {
      assert |DaemonNext(s, ids).toDaemon| < |s.toDaemon|;
    } else if s.h.pc != Waiting {
      assert HelperNext(s, v6Works).toDaemon != [];
    } else {
      assert Requested(s, v6Works) == Flow(s, v6Works) != [];
      assert HelperNext(s, v6Works).h.pc.SendTap?;
    }
  }

  predicate Through(s: State, ids: seq<u16>) {
    s.d.pc == Sending && s.d.done == |ids|
  }

  predicate Moves(s: State, ids: seq<u16>, v6Works: bool, t: Turn) {
    Step(s, ids, v6Works, t) != s
  }

  lemma ProgressFrom(s: State, ids: seq<u16>, v6Works: bool, t: Turn)
    requires Inv(s, ids, v6Works) && s.d.pc != Failed
    ensures Through(s, ids) || Moves(s, ids, v6Works, HelperTurn) || Moves(s, ids, v6Works, DaemonTurn)
    ensures Moves(s, ids, v6Works, t) ==> Measure(Step(s, ids, v6Works, t), |ids|) < Measure(s, |ids|)
  {
    if Moves(s, ids, v6Works, t) {
      if t == HelperTurn {
        HelperMoves(s, ids, v6Works);
      } else {
        DaemonMoves(s, ids, v6Works);
      }
    }
    if !Through(s, ids) {
      SomeoneMoves(s, ids, v6Works);
    }
  }

  /** No deadlock and no endless run: in every interleaving, until the daemon is through, one of the two can move; and
      every move brings a bounded measure down. */
  lemma Progress(ids: seq<u16>, v6Works: bool, ts: seq<Turn>, t: Turn)
    ensures var s := Run(START, ids, v6Works, ts);
      s.d.pc != Failed ==>
        && (Through(s, ids) || Moves(s, ids, v6Works, HelperTurn) || Moves(s, ids, v6Works, DaemonTurn))
        && (Moves(s, ids, v6Works, t) ==> Measure(Step(s, ids, v6Works, t), |ids|) < Measure(s, |ids|))
        && Measure(s, |ids|) >= 0
  {
    StartInv(ids, v6Works);
    RunKeepsInv(START, ids, v6Works, ts);
    var s := Run(START, ids, v6Works, ts);
    if s.d.pc != Failed {
      ProgressFrom(s, ids, v6Works, t);
    }
  }

  lemma {:induction false} RunAppend(s: State, ids: seq<u16>, v6Works: bool, ts: seq<Turn>, more: seq<Turn>)
    ensures Run(s, ids, v6Works, ts + more) == Run(Run(s, ids, v6Works, ts), ids, v6Works, more)
    decreases |ts|
  {
    if ts == [] {
      assert ts + more == more;
    } else {
      assert (ts + more)[1..] == ts[1..] + more;
      RunAppend(Step(s, ids, v6Works, ts[0]), ids, v6Works, ts[1..], more);
    }
  }

  lemma Extend(ids: seq<u16>, v6Works: bool, ts: seq<Turn>, s: State, t: Turn) returns (ts': seq<Turn>, s': State)
    requires s == Run(START, ids, v6Works, ts)
    ensures s' == Step(s, ids, v6Works, t) == Run(START, ids, v6Works, ts')
  {
    ts', s' := ts + [t], Step(s, ids, v6Works, t);
    RunAppend(START, ids, v6Works, ts, [t]);
    assert Run(s, ids, v6Works, [t]) == Run(s', ids, v6Works, []);
  }

  /** A run without IPv6 to the point where the first request has arrived, and on to where it is dealt with. */
  lemma FirstRequest(ids: seq<u16>) returns (ts: seq<Turn>, s: State)
    requires |ids| >= 3
    ensures s == Run(START, ids, false, ts)
    ensures s == State([], [], HelperState(SendTap(ids[0]), false, false, 1, []),
                       DaemonState(AwaitTap, 0, false, false, []))
  {
    ts, s := [], START;
    ts, s := Extend(ids, false, ts, s, HelperTurn);
    ts, s := Extend(ids, false, ts, s, DaemonTurn);
    ts, s := Extend(ids, false, ts, s, DaemonTurn);
    ts, s := Extend(ids, false, ts, s, HelperTurn);
  }

  lemma FirstTunnelDone(ids: seq<u16>) returns (ts: seq<Turn>, s: State)
    requires |ids| >= 3
    ensures s == Run(START, ids, false, ts)
    ensures s == State([], [], HelperState(Waiting, true, false, 1, [AF_INET]),
                       DaemonState(Sending, 1, true, false, [ids[0]]))
  {
    ts, s := FirstRequest(ids);
    ts, s := Extend(ids, false, ts, s, HelperTurn);
    ts, s := Extend(ids, false, ts, s, DaemonTurn);
    ts, s := Extend(ids, false, ts, s, HelperTurn);
    ts, s := Extend(ids, false, ts, s, DaemonTurn);
    assert s == State([], [], HelperState(SendV6, true, false, 1, [AF_INET]),
                      DaemonState(AwaitV6, 0, true, false, [ids[0]]));
    ts, s := Extend(ids, false, ts, s, HelperTurn);
    ts, s := Extend(ids, false, ts, s, DaemonTurn);
  }

  /** Three tunnels and no IPv6: a run in which the third request meets the error left over from the second. */
  lemma ThreeTunnelsFail(ids: seq<u16>) returns (ts: seq<Turn>)
    requires |ids| >= 3
    ensures Run(START, ids, false, ts).d.pc == Failed
  {
    var s;
    ts, s := FirstTunnelDone(ids);
    ts, s := Extend(ids, false, ts, s, DaemonTurn);
    ts, s := Extend(ids, false, ts, s, HelperTurn);
    ts, s := Extend(ids, false, ts, s, HelperTurn);
    ts, s := Extend(ids, false, ts, s, DaemonTurn);
    assert s == State([], [], HelperState(SendV6, true, false, 2, [AF_INET]),
                      DaemonState(Sending, 2, true, false, [ids[0], ids[1]]));
    ts, s := Extend(ids, false, ts, s, HelperTurn);
    ts, s := Extend(ids, false, ts, s, DaemonTurn);
    ts, s := Extend(ids, false, ts, s, DaemonTurn);
  }

  /** Some interleaving ends in failure if and only if IPv6 is missing and at least three tunnels are enabled. */
  lemma FailsExactly(ids: seq<u16>, v6Works: bool)
    ensures (exists ts :: Run(START, ids, v6Works, ts).d.pc == Failed) <==> !v6Works && |ids| >= 3
  {
    StartInv(ids, v6Works);
    forall ts
      ensures Run(START, ids, v6Works, ts).d.pc == Failed ==> !v6Works && |ids| >= 3
    {
      RunKeepsInv(START, ids, v6Works, ts);
    }
    if !v6Works && |ids| >= 3 {
      var ts := ThreeTunnelsFail(ids);
    }
  }

  /** Neither process can move. */
  predicate AtRest(s: State, ids: seq<u16>, v6Works: bool) {
    !Moves(s, ids, v6Works, HelperTurn) && !Moves(s, ids, v6Works, DaemonTurn)
  }

  /** Without IPv6 and with three tunnels or more no run is ever through, so every run that comes to rest has failed; in
      all other cases every run that comes to rest is through. */
  lemma RestingRuns(ids: seq<u16>, v6Works: bool, ts: seq<Turn>)
    ensures var s := Run(START, ids, v6Works, ts); var doomed := !v6Works && |ids| >= 3;
      && (doomed ==> !Through(s, ids))
      && (AtRest(s, ids, v6Works) ==> if doomed then s.d.pc == Failed else Through(s, ids))
  {
    StartInv(ids, v6Works);
    RunKeepsInv(START, ids, v6Works, ts);
    var s := Run(START, ids, v6Works, ts);
    if s.d.pc != Failed {
      ProgressFrom(s, ids, v6Works, HelperTurn);
    }
  }
}
