/** Path MTU discovery: the retried probe, the binary search over probe sizes on both platforms, the tunnel's MTU. */
module Pmtud {
  import opened Bytes

  const MIN_PROBE: u16 := 576
  const MAX_PROBE: u16 := 1500
  const PROBE_RETRIES := 3
  const IP_HEADER := 20
  const ICMP_HEADER := 8
  const ECHO_ID_AND_SEQ := 4
  const EOIP_OVERHEAD: u16 := 42
  const MIN_OVERLAY_MTU: u16 := 534

  /** What one send and receive of a probe comes to; an error may be the one that says the packet is too big. */
  datatype Attempt = SendError(tooBig: bool) | Reply | RecvError(tooBig: bool)

  predicate TooBig(a: Attempt) {
    !a.Reply? && a.tooBig
  }

  /** The payload for a probe of path MTU `mid`: `mid.saturating_sub(ip_header + icmp_header)`. */
  function PayloadSize(mid: nat): nat {
    if mid < IP_HEADER + ICMP_HEADER then 0 else mid - (IP_HEADER + ICMP_HEADER)
  }

  /** The bytes on the wire for that payload, the kernel adding both headers. On Linux `probe_single` puts an identifier
      and a sequence number in front of the payload; on Windows the payload goes out as it is. */
  function WireLinux(mid: nat): nat {
    ECHO_ID_AND_SEQ + PayloadSize(mid) + ICMP_HEADER + IP_HEADER
  }

  function WireWindows(mid: nat): nat {
    PayloadSize(mid) + ICMP_HEADER + IP_HEADER
  }

  /** What the network does to attempt number `attempt` of probe number `step`, of so many bytes on the wire. */
  type Network = (nat, nat, nat) -> Attempt

  /** Among the first n attempts one says "too big", and none before it got a reply. */
  predicate Rejected(net: Network, step: nat, wire: nat, n: nat) {
    exists i: nat | i < n :: TooBig(net(step, wire, i)) && forall j: nat | j < i :: !net(step, wire, j).Reply?
  }

  /** The three attempts of the source spelled out: the first one that says anything decides, and only EMSGSIZE, on the
      way out or back, rejects. */
  lemma RejectedInThree(net: Network, step: nat, wire: nat)
    ensures Rejected(net, step, wire, 3) <==>
            || net(step, wire, 0) in {SendError(true), RecvError(true)}
            || (net(step, wire, 0) != Reply && net(step, wire, 1) in {SendError(true), RecvError(true)})
            || (net(step, wire, 0) != Reply && net(step, wire, 1) != Reply
                && net(step, wire, 2) in {SendError(true), RecvError(true)})
  {
    if net(step, wire, 0) in {SendError(true), RecvError(true)} {
      assert TooBig(net(step, wire, 0));
    } else if net(step, wire, 0) != Reply && net(step, wire, 1) in {SendError(true), RecvError(true)} {
      assert TooBig(net(step, wire, 1));
    } else if net(step, wire, 0) != Reply && net(step, wire, 1) != Reply
              && net(step, wire, 2) in {SendError(true), RecvError(true)} {
      assert TooBig(net(step, wire, 2));
    }
  }

  /** The sizes on the wire for every size that is probed. */
  lemma OnTheWire(mid: nat)
    requires mid >= 28
    ensures WireLinux(mid) == mid + 4 && WireWindows(mid) == mid
  {
  }

  /** A size passes unless it is rejected: silence counts as success. */
  method ProbeSingle(net: Network, step: nat, payloadSize: nat, retries: nat) returns (ok: bool)
    ensures ok <==> !Rejected(net, step, ECHO_ID_AND_SEQ + payloadSize + ICMP_HEADER + IP_HEADER, retries)
  {
    var total := ECHO_ID_AND_SEQ + payloadSize;
    var wire := total + ICMP_HEADER + IP_HEADER;
    for attempt := 0 to retries
      invariant forall j: nat :: j < attempt ==> !net(step, wire, j).Reply? && !TooBig(net(step, wire, j))
    {
      match net(step, wire, attempt)
      case SendError(tooBig) =>
        if tooBig {
          return false;
        }
      case Reply =>
        return true;
      case RecvError(tooBig) =>
        if tooBig {
          return false;
        }
    }
    return true;
  }

  /** Whether the probe number `step`, of the given size, succeeds. It may answer differently every time. */
  type Oracle = (nat, nat) -> bool

  datatype Trail = Trail(best: u16, sizes: seq<u16>)

  /** The search between lo and hi: where it ends, and the sizes it probes on the way. */
  function Search(ok: Oracle, step: nat, lo: u16, hi: u16, best: u16): Trail
    decreases hi + 1 - lo
  {
    if lo > hi then Trail(best, [])
    else
      var mid := lo + (hi - lo) / 2;
      var rest :=
        if ok(step, mid) then (if mid == hi then Trail(mid, []) else Search(ok, step + 1, mid + 1, hi, mid))
        else if mid == lo then Trail(best, []) else Search(ok, step + 1, lo, mid - 1, best);
      Trail(rest.best, [mid] + rest.sizes)
  }

  /** A whole search; the source searches from MIN_PROBE to MAX_PROBE. */
  function Discovery(ok: Oracle, minProbe: u16, maxProbe: u16): Trail {
    Search(ok, 0, minProbe, maxProbe, minProbe)
  }

  /** What is reported; None is the AllTimedOut error. */
  function Reported(best: u16, minProbe: u16): Option<u16> {
    if best <= minProbe then None else Some(best)
  }

  function SizeOk(net: Network): Oracle {
    (step: nat, size: nat) => !Rejected(net, step, WireLinux(size), PROBE_RETRIES)
  }

  /** The search from here ends at `goal`. */
  predicate Leads(ok: Oracle, step: nat, lo: u16, hi: u16, best: u16, goal: u16) {
    Search(ok, step, lo, hi, best).best == goal
  }

  lemma TurnUp(ok: Oracle, step: nat, lo: u16, hi: u16, best: u16, goal: u16, mid: u16)
    requires lo <= hi && Leads(ok, step, lo, hi, best, goal) && mid == lo + (hi - lo) / 2 && ok(step, mid)
    ensures if mid == hi then mid == goal else Leads(ok, step + 1, mid + 1, hi, mid, goal)
  {
  }

  lemma TurnDown(ok: Oracle, step: nat, lo: u16, hi: u16, best: u16, goal: u16, mid: u16)
    requires lo <= hi && Leads(ok, step, lo, hi, best, goal) && mid == lo + (hi - lo) / 2 && !ok(step, mid)
    ensures if mid == lo then best == goal else Leads(ok, step + 1, lo, mid - 1, best, goal)
  {
  }

  /** The probe of one size, as the search sees it. */
  method Probe(net: Network, step: nat, size: nat, ghost oracle: Oracle) returns (ok: bool)
    requires oracle == SizeOk(net)
    ensures ok == oracle(step, size)
  {
    ok := ProbeSingle(net, step, PayloadSize(size), PROBE_RETRIES);
  }

  /** The Linux loop. Every intermediate value fits its 16-bit variable. */
  method ProbePathMtuLinux(net: Network, minProbe: u16, maxProbe: u16) returns (r: Option<u16>)
    requires 0 < minProbe && maxProbe < 0xFFFF
    ensures r == Reported(Discovery(SizeOk(net), minProbe, maxProbe).best, minProbe)
  {
    ghost var oracle := SizeOk(net);
    ghost var goal := Discovery(oracle, minProbe, maxProbe).best;
    var lo: u16, hi: u16, best: u16 := minProbe, maxProbe, minProbe;
    var step := 0;
    while lo <= hi
      invariant minProbe <= lo && hi <= maxProbe
      invariant Leads(oracle, step, lo, hi, best, goal)
      decreases hi + 1 - lo
    {
      var mid: u16 := lo + (hi - lo) / 2;
      var ok := Probe(net, step, mid, oracle);
      if ok {
        TurnUp(oracle, step, lo, hi, best, goal, mid);
        best := mid;
        if mid == hi {
          break;
        }
        lo := mid + 1;
      } else {
        TurnDown(oracle, step, lo, hi, best, goal, mid);
        if mid == lo {
          break;
        }
        hi := mid - 1;
      }
      step := step + 1;
    }
    if best <= minProbe {
      return None;
    }
    return Some(best);
  }

  /** What `IcmpSendEcho` comes to: no reply, or a reply with a status, of which 0 is success. */
  datatype Echo = NoReply | Replied(status: nat)

  /** The outcome of probe number `step`, of so many bytes on the wire. */
  type Echoes = (nat, nat) -> Echo

  function EchoOk(echo: Echoes): Oracle {
    (step: nat, size: nat) => echo(step, WireWindows(size)) == Replied(0)
  }

  /** The Windows loop, where every kind of failure takes the same way. */
  method ProbePathMtuWindows(echo: Echoes, minProbe: u16, maxProbe: u16) returns (r: Option<u16>)
    requires 0 < minProbe && maxProbe < 0xFFFF
    ensures r == Reported(Discovery(EchoOk(echo), minProbe, maxProbe).best, minProbe)
  {
    ghost var oracle := EchoOk(echo);
    ghost var goal := Discovery(oracle, minProbe, maxProbe).best;
    var lo: u16, hi: u16, best: u16 := minProbe, maxProbe, minProbe;
    var step := 0;
    while lo <= hi
      invariant minProbe <= lo && hi <= maxProbe
      invariant Leads(oracle, step, lo, hi, best, goal)
      decreases hi + 1 - lo
    {
      var mid: u16 := lo + (hi - lo) / 2;
      var payloadSize := PayloadSize(mid);
      var wire := payloadSize + ICMP_HEADER + IP_HEADER;
      assert wire == WireWindows(mid);
      var ret := echo(step, wire);
      assert oracle(step, mid) <==> ret == Replied(0);
      if ret.Replied? {
        if ret.status == 0 {
          TurnUp(oracle, step, lo, hi, best, goal, mid);
          best := mid;
          if mid == hi {
            break;
          }
          lo := mid + 1;
          step := step + 1;
          continue;
        }
      }
      TurnDown(oracle, step, lo, hi, best, goal, mid);
      if mid == lo {
        break;
      }
      hi := mid - 1;
      step := step + 1;
    }
    if best <= minProbe {
      return None;
    }
    return Some(best);
  }

  predicate Threshold(ok: Oracle, t: int, step: nat, size: nat) {
    ok(step, size) <==> size <= t
  }

  ghost predicate Monotone(ok: Oracle, t: int, lo: int, hi: int) {
    forall step: nat, size: nat :: lo <= size <= hi ==> Threshold(ok, t, step, size)
  }

  lemma {:induction false} SearchFindsThreshold(ok: Oracle, t: int, step: nat, lo: u16, hi: u16, best: u16)
    requires Monotone(ok, t, lo, hi) && lo <= hi
    ensures Search(ok, step, lo, hi, best).best == if t < lo then best else if t < hi then t else hi
    decreases hi - lo
  {
    var mid := lo + (hi - lo) / 2;
    assert Threshold(ok, t, step, mid);
    if ok(step, mid) && mid < hi {
      SearchFindsThreshold(ok, t, step + 1, mid + 1, hi, mid);
    } else if !ok(step, mid) && mid > lo {
      SearchFindsThreshold(ok, t, step + 1, lo, mid - 1, best);
    }
  }

  /** The path MTU t as it ought to be reported: cut to the maximum, and an error if it is the minimum or less. */
  function Exact(t: int, minProbe: u16, maxProbe: u16): Option<u16> {
    var cut := if t < maxProbe then t else maxProbe;
    if cut <= minProbe then None else Some(cut)
  }

  /** If exactly the probes of sizes up to t succeed, the search reports t exactly, in the probe variable. */
  lemma ExactOnMonotonePath(ok: Oracle, t: int, minProbe: u16, maxProbe: u16)
    requires minProbe <= maxProbe && Monotone(ok, t, minProbe, maxProbe)
    ensures Reported(Discovery(ok, minProbe, maxProbe).best, minProbe) == Exact(t, minProbe, maxProbe)
  {
    SearchFindsThreshold(ok, t, 0, minProbe, maxProbe, minProbe);
  }

  /** The path passes packets of up to t bytes and rejects longer ones. */
  ghost predicate LinuxPath(net: Network, t: nat) {
    forall step: nat, wire: nat :: Rejected(net, step, wire, PROBE_RETRIES) <==> wire > t
  }

  ghost predicate WindowsPath(echo: Echoes, t: nat) {
    forall step: nat, wire: nat :: echo(step, wire) == Replied(0) <==> wire <= t
  }

  /** What Linux reports, in the true path MTU t: four bytes less than t, because its packets are four bytes longer than
      the size probed. It is min(t, maximum) only if the path passes four bytes more than the maximum, and agrees with
      the exact answer only there and where the answer is an error. */
  lemma LinuxOnPath(net: Network, t: nat, minProbe: u16, maxProbe: u16)
    requires IP_HEADER + ICMP_HEADER <= minProbe < maxProbe && LinuxPath(net, t)
    ensures var r := Reported(Discovery(SizeOk(net), minProbe, maxProbe).best, minProbe);
      && r == Exact(t - ECHO_ID_AND_SEQ, minProbe, maxProbe)
      && (r == Some(if t < maxProbe then t else maxProbe) <==> t >= maxProbe + ECHO_ID_AND_SEQ)
      && (r == Exact(t, minProbe, maxProbe) <==> t <= minProbe || t >= maxProbe + ECHO_ID_AND_SEQ)
  {
    var seen := t - ECHO_ID_AND_SEQ;
    forall step: nat, size: nat | minProbe <= size <= maxProbe
      ensures Threshold(SizeOk(net), seen, step, size)
    {
      assert Rejected(net, step, WireLinux(size), PROBE_RETRIES) <==> WireLinux(size) > t;
    }
    ExactOnMonotonePath(SizeOk(net), seen, minProbe, maxProbe);
  }

  /** What Windows reports: the exact answer; it is min(t, maximum) if and only if t is above the minimum. */
  lemma WindowsOnPath(echo: Echoes, t: nat, minProbe: u16, maxProbe: u16)
    requires IP_HEADER + ICMP_HEADER <= minProbe < maxProbe && WindowsPath(echo, t)
    ensures var r := Reported(Discovery(EchoOk(echo), minProbe, maxProbe).best, minProbe);
      && r == Exact(t, minProbe, maxProbe)
      && (r == Some(if t < maxProbe then t else maxProbe) <==> t > minProbe)
  {
    forall step: nat, size: nat | minProbe <= size <= maxProbe
      ensures Threshold(EchoOk(echo), t, step, size)
    {
      assert echo(step, WireWindows(size)) == Replied(0) <==> WireWindows(size) <= t;
    }
    ExactOnMonotonePath(EchoOk(echo), t, minProbe, maxProbe);
  }

  predicate SameAnswer(ok: Oracle, ok': Oracle, step: nat, size: nat) {
    ok(step, size) <==> ok'(step, size)
  }

  ghost predicate SameAnswers(ok: Oracle, ok': Oracle) {
    forall step: nat, size: nat :: SameAnswer(ok, ok', step, size)
  }

  /** The search depends on the answers alone... */
  lemma {:induction false} SearchByAnswers(ok: Oracle, ok': Oracle, step: nat, lo: u16, hi: u16, best: u16)
    requires SameAnswers(ok, ok')
    ensures Search(ok, step, lo, hi, best) == Search(ok', step, lo, hi, best)
    decreases hi + 1 - lo
  {
    if lo <= hi {
      var mid := lo + (hi - lo) / 2;
      assert SameAnswer(ok, ok', step, mid);
      if ok(step, mid) && mid < hi {
        SearchByAnswers(ok, ok', step + 1, mid + 1, hi, mid);
      } else if !ok(step, mid) && mid > lo {
        SearchByAnswers(ok, ok', step + 1, lo, mid - 1, best);
      }
    }
  }

  /** ...so the two loops agree where every probe is answered alike, whatever the answers... */
  lemma LoopsAgree(net: Network, echo: Echoes, minProbe: u16, maxProbe: u16)
    requires SameAnswers(SizeOk(net), EchoOk(echo))
    ensures Discovery(SizeOk(net), minProbe, maxProbe) == Discovery(EchoOk(echo), minProbe, maxProbe)
  {
    SearchByAnswers(SizeOk(net), EchoOk(echo), 0, minProbe, maxProbe, minProbe);
  }

  /** ...and on one and the same path they agree exactly where Linux happens to be right. */
  lemma PlatformsOnOnePath(net: Network, echo: Echoes, t: nat, minProbe: u16, maxProbe: u16)
    requires IP_HEADER + ICMP_HEADER <= minProbe < maxProbe && LinuxPath(net, t) && WindowsPath(echo, t)
    ensures Reported(Discovery(SizeOk(net), minProbe, maxProbe).best, minProbe)
         == Reported(Discovery(EchoOk(echo), minProbe, maxProbe).best, minProbe)
      <==> t <= minProbe || t >= maxProbe + ECHO_ID_AND_SEQ
  {
    LinuxOnPath(net, t, minProbe, maxProbe);
    WindowsOnPath(echo, t, minProbe, maxProbe);
  }

  /** The probed sizes that succeeded, in the order of the probes. */
  function Successes(ok: Oracle, step: nat, sizes: seq<u16>): seq<u16>
    decreases |sizes|
  {
    if sizes == [] then []
    else (if ok(step, sizes[0]) then [sizes[0]] else []) + Successes(ok, step + 1, sizes[1..])
  }

  predicate Within(sizes: seq<u16>, lo: int, hi: int) {
    forall i :: 0 <= i < |sizes| ==> lo <= sizes[i] <= hi
  }

  function LastOr(sizes: seq<u16>, none: u16): u16 {
    if sizes == [] then none else sizes[|sizes| - 1]
  }

  /** One more success in front. */
  lemma WonFirst(mid: u16, later: seq<u16>, lo: u16, hi: u16, best: u16, found: u16)
    requires best <= lo <= mid <= hi && Sound(later, mid, hi, mid, found)
    ensures Sound([mid] + later, lo, hi, best, found)
  {
  }

  lemma SuccessesTurn(ok: Oracle, step: nat, mid: u16, rest: seq<u16>)
    ensures var later := Successes(ok, step + 1, rest);
      Successes(ok, step, [mid] + rest) == if ok(step, mid) then [mid] + later else later
  {
    assert ([mid] + rest)[1..] == rest;
  }

  predicate Sound(won: seq<u16>, lo: u16, hi: int, best: u16, found: u16) {
    && found == LastOr(won, best) && Within(won, lo, found) && best <= found
    && (won != [] ==> found <= hi)
  }

  lemma {:induction false} SearchIsSound(ok: Oracle, step: nat, lo: u16, hi: u16, best: u16)
    requires best <= lo
    ensures var r := Search(ok, step, lo, hi, best); Sound(Successes(ok, step, r.sizes), lo, hi, best, r.best)
    decreases hi + 1 - lo
  {
    if lo <= hi {
      var mid := lo + (hi - lo) / 2;
      var r := Search(ok, step, lo, hi, best);
      var later := Successes(ok, step + 1, r.sizes[1..]);
      assert r.sizes == [mid] + r.sizes[1..];
      SuccessesTurn(ok, step, mid, r.sizes[1..]);
      if ok(step, mid) {
        assert Sound(later, mid, hi, mid, r.best) by {
          if mid < hi {
            SearchIsSound(ok, step + 1, mid + 1, hi, mid);
          }
        }
        WonFirst(mid, later, lo, hi, best, r.best);
      } else if mid > lo {
        SearchIsSound(ok, step + 1, lo, mid - 1, best);
      }
    }
  }

  /** Whatever the network answers: a reported size is the last one probed with success and the largest such size; and
      an error is reported exactly when no probe above the minimum succeeded. */
  lemma SoundOnAnyPath(ok: Oracle, minProbe: u16, maxProbe: u16)
    ensures var d := Discovery(ok, minProbe, maxProbe); var won := Successes(ok, 0, d.sizes);
      match Reported(d.best, minProbe)
      case Some(mtu) => won != [] && mtu == won[|won| - 1] && Within(won, minProbe, mtu) && minProbe < mtu <= maxProbe
      case None => Within(won, minProbe, minProbe)
  {
    SearchIsSound(ok, 0, minProbe, maxProbe, minProbe);
  }

  function Pow2(k: nat): (p: nat)
    ensures p >= 1
  {
    if k == 0 then 1 else 2 * Pow2(k - 1)
  }

  lemma {:induction false} SearchDepth(ok: Oracle, step: nat, lo: u16, hi: u16, best: u16, k: nat)
    requires lo <= hi + 1
    ensures hi + 1 - lo < Pow2(k) ==> |Search(ok, step, lo, hi, best).sizes| <= k
    ensures hi + 1 - lo >= Pow2(k) - 1 ==> |Search(ok, step, lo, hi, best).sizes| >= k
    decreases hi + 1 - lo
  {
    if lo <= hi && k > 0 {
      var mid := lo + (hi - lo) / 2;
      assert k > 1 ==> Pow2(k) == 2 * (2 * Pow2(k - 2));
      if ok(step, mid) && mid < hi {
        SearchDepth(ok, step + 1, mid + 1, hi, mid, k - 1);
      } else if !ok(step, mid) && mid > lo {
        SearchDepth(ok, step + 1, lo, mid - 1, best, k - 1);
      }
    }
  }

  /** Between bounds as far apart as the source's, every discovery takes nine or ten probes, whatever the network
      answers; the source's comment expects 6-7. */
  lemma NineOrTenProbes(ok: Oracle, minProbe: u16, maxProbe: u16)
    requires maxProbe - minProbe == MAX_PROBE - MIN_PROBE
    ensures 9 <= |Discovery(ok, minProbe, maxProbe).sizes| <= 10
  {
    assert Pow2(4) == 16 && Pow2(8) == 16 * Pow2(4) && Pow2(9) == 512 && Pow2(10) == 1024;
    SearchDepth(ok, 0, minProbe, maxProbe, minProbe, 9);
    SearchDepth(ok, 0, minProbe, maxProbe, minProbe, 10);
  }

  /** No answer of any kind comes back. */
  ghost predicate Silent(net: Network) {
    forall step: nat, wire: nat, attempt: nat :: net(step, wire, attempt) == RecvError(false)
  }

  ghost predicate AllPass(ok: Oracle) {
    forall step: nat, size: nat :: ok(step, size)
  }

  /** Where ICMP is blocked, discovery on Linux reports the maximum, not the error its caller's fallback waits for. */
  lemma BlockedIcmpReportsMaximum(net: Network, minProbe: u16, maxProbe: u16)
    requires Silent(net) && minProbe < maxProbe
    ensures Reported(Discovery(SizeOk(net), minProbe, maxProbe).best, minProbe) == Some(maxProbe)
  {
    forall step: nat, size: nat
      ensures SizeOk(net)(step, size)
    {
      assert forall i: nat :: !TooBig(net(step, WireLinux(size), i));
    }
    SearchAllPass(SizeOk(net), 0, minProbe, maxProbe, minProbe);
  }

  lemma {:induction false} SearchAllPass(ok: Oracle, step: nat, lo: u16, hi: u16, best: u16)
    requires lo <= hi && AllPass(ok)
    ensures Search(ok, step, lo, hi, best).best == hi
    decreases hi - lo
  {
    var mid := lo + (hi - lo) / 2;
    assert ok(step, mid);
    if mid < hi {
      SearchAllPass(ok, step + 1, mid + 1, hi, mid);
    }
  }

  /** Every probe above the minimum was answered by a "too big" before any reply. */
  predicate AllRejected(net: Network, minProbe: u16, step: nat, sizes: seq<u16>)
    decreases |sizes|
  {
    sizes == []
    || ((sizes[0] > minProbe ==> Rejected(net, step, WireLinux(sizes[0]), PROBE_RETRIES))
        && AllRejected(net, minProbe, step + 1, sizes[1..]))
  }

  lemma {:induction false} NoneWonIsAllRejected(net: Network, minProbe: u16, maxProbe: u16, step: nat, sizes: seq<u16>)
    requires Within(Successes(SizeOk(net), step, sizes), minProbe, maxProbe)
    ensures Within(Successes(SizeOk(net), step, sizes), minProbe, minProbe) <==> AllRejected(net, minProbe, step, sizes)
    decreases |sizes|
  {
    if sizes != [] {
      var later := Successes(SizeOk(net), step + 1, sizes[1..]);
      assert sizes == [sizes[0]] + sizes[1..];
      SuccessesTurn(SizeOk(net), step, sizes[0], sizes[1..]);
      WithinTail(sizes[0], later, minProbe, maxProbe);
      WithinTail(sizes[0], later, minProbe, minProbe);
      NoneWonIsAllRejected(net, minProbe, maxProbe, step + 1, sizes[1..]);
    }
  }

  lemma WithinTail(first: u16, later: seq<u16>, lo: int, hi: int)
    ensures Within([first] + later, lo, hi) <==> lo <= first <= hi && Within(later, lo, hi)
  {
    if Within([first] + later, lo, hi) {
      assert ([first] + later)[0] == first;
      forall i | 0 <= i < |later|
        ensures lo <= later[i] <= hi
      {
        assert ([first] + later)[i + 1] == later[i];
      }
    }
  }

  /** Discovery on Linux reports the error exactly when the network itself rejected every probe above the minimum. */
  lemma LinuxErrorExactly(net: Network, minProbe: u16, maxProbe: u16)
    ensures var d := Discovery(SizeOk(net), minProbe, maxProbe);
      Reported(d.best, minProbe).None? <==> AllRejected(net, minProbe, 0, d.sizes)
  {
    var d := Discovery(SizeOk(net), minProbe, maxProbe);
    SearchIsSound(SizeOk(net), 0, minProbe, maxProbe, minProbe);
    var top := if maxProbe < minProbe then minProbe else maxProbe;
    NoneWonIsAllRejected(net, minProbe, top, 0, d.sizes);
  }

  /** What a build asks of the network: the Linux and Windows probes, or nothing on other platforms. */
  datatype Platform = Linux(net: Network) | Windows(echo: Echoes) | Unsupported

  /** The discovered path MTU, if IPv4 and a socket can be had. */
  function Discovered(p: Platform, isIpv6: bool, socketOk: bool): Option<u16> {
    if isIpv6 || !socketOk || p.Unsupported? then None
    else Reported(Discovery(if p.Linux? then SizeOk(p.net) else EchoOk(p.echo), MIN_PROBE, MAX_PROBE).best, MIN_PROBE)
  }

  /** The path between the two ends passes packets of up to t bytes. */
  ghost predicate TruePath(p: Platform, t: nat) {
    match p
    case Linux(net) => LinuxPath(net, t)
    case Windows(echo) => WindowsPath(echo, t)
    case Unsupported => false
  }

  /** What the discovered value is, on a path that passes up to t bytes. */
  lemma DiscoveredOnPath(p: Platform, t: nat)
    requires TruePath(p, t)
    ensures Discovered(p, false, true) == Exact(if p.Linux? then t - ECHO_ID_AND_SEQ else t, MIN_PROBE, MAX_PROBE)
  {
    match p
    case Linux(net) => LinuxOnPath(net, t, MIN_PROBE, MAX_PROBE);
    case Windows(echo) => WindowsOnPath(echo, t, MIN_PROBE, MAX_PROBE);
  }

  lemma DiscoveredAboveMinimum(p: Platform, isIpv6: bool, socketOk: bool)
    ensures var d := Discovered(p, isIpv6, socketOk); d.Some? ==> MIN_PROBE < d.value <= MAX_PROBE
  {
    if p.Linux? {
      SoundOnAnyPath(SizeOk(p.net), MIN_PROBE, MAX_PROBE);
    } else if p.Windows? {
      SoundOnAnyPath(EchoOk(p.echo), MIN_PROBE, MAX_PROBE);
    }
  }

  method ProbePathMtu(p: Platform, isIpv6: bool, socketOk: bool) returns (r: Option<u16>)
    ensures r == Discovered(p, isIpv6, socketOk)
  {
    if isIpv6 || !socketOk {
      return None;
    }
    match p
    case Linux(net) =>
      r := ProbePathMtuLinux(net, MIN_PROBE, MAX_PROBE);
    case Windows(echo) =>
      r := ProbePathMtuWindows(echo, MIN_PROBE, MAX_PROBE);
    case Unsupported =>
      r := None;
  }

  class TunnelMtu {
    var actualMtu: u16

    constructor ()
      ensures actualMtu == 0
    {
      actualMtu := 0;
    }

    /** One discovery. `fallback` is what interface detection would say. The overlay MTU and its overhead make up the
        discovered value, which on a path of t bytes is t on Windows and t - 4 on Linux, cut to 1500. */
    method DoPmtud(p: Platform, isIpv6: bool, socketOk: bool, fallback: u16)
      modifies this
      ensures match Discovered(p, isIpv6, socketOk)
              case Some(path) => actualMtu + EOIP_OVERHEAD == path
              case None => actualMtu == if old(actualMtu) == 0 then fallback else old(actualMtu)
      ensures forall t: nat :: TruePath(p, t) && t > MIN_PROBE + ECHO_ID_AND_SEQ && !isIpv6 && socketOk ==>
                Exact(if p.Linux? then t - ECHO_ID_AND_SEQ else t, MIN_PROBE, MAX_PROBE)
                == Some(actualMtu + EOIP_OVERHEAD)
      ensures isIpv6 || !socketOk || p.Unsupported? ==>
                actualMtu == if old(actualMtu) == 0 then fallback else old(actualMtu)
      ensures forall t: nat :: TruePath(p, t) && t <= 576 ==>
                actualMtu == if old(actualMtu) == 0 then fallback else old(actualMtu)
    {
      var found := ProbePathMtu(p, isIpv6, socketOk);
      DiscoveredAboveMinimum(p, isIpv6, socketOk);
      match found {
        case Some(pathMtu) =>
          var overlay := if pathMtu > EOIP_OVERHEAD then pathMtu - EOIP_OVERHEAD else 0;
          if overlay < MIN_OVERLAY_MTU {
            overlay := MIN_OVERLAY_MTU;
          }
          actualMtu := overlay;
        case None =>
          if actualMtu == 0 {
            actualMtu := fallback;
          }
      }
      forall t: nat | TruePath(p, t)
        ensures Discovered(p, false, true) == Exact(if p.Linux? then t - ECHO_ID_AND_SEQ else t, MIN_PROBE, MAX_PROBE)
      {
        DiscoveredOnPath(p, t);
      }
    }
  }
}
