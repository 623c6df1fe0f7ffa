/**
 * Several readers sharing one telemetry stream (tools/logi-rpm-bridge.c): whoever
 * holds the relay port forwards to the fan-out ports, the others read those and try
 * to take the relay port over.
 */
module RelayHub {
  import opened Words

  const FANOUT_PORTS: nat := 3
  const PROMOTE_INTERVAL: int := 2

  function FanPort(base: int, i: nat): (port: int) {
    base + 2 + i
  }

  /** The order in which a starting reader tries the ports. */
  function Choice(base: int, i: nat): (port: int) {
    if i == 0 then base else base + 1 + i
  }

  predicate IsFanPort(base: int, port: int) {
    base + 2 <= port < base + 2 + FANOUT_PORTS
  }

  // ------------------------------------------------------------ one reader's calls

  /** What bind(2) would say about a port. */
  datatype BindResult = Bound | InUse | Refused

  /** What the receive loop knows about its port. */
  datatype Relay = Relay(base: int, port: int, hub: bool, nextPromote: int)

  /** The first port from choice i on that binds, unless something other than "in use" stops the search. */
  function FirstFree(base: int, bind: int -> BindResult, i: nat): (port: Option<int>)
    decreases FANOUT_PORTS + 1 - i
  {
    if i > FANOUT_PORTS then None
    else
      var p := Choice(base, i);
      match bind(p)
      case Bound => Some(p)
      case Refused => None
      case InUse => FirstFree(base, bind, i + 1)
  }

  function Promoted(r: Relay, now: int, bind: int -> BindResult): (r': Relay) {
    if r.hub || now < r.nextPromote then r
    else if bind(r.base).Bound? then Relay(r.base, r.base, true, now + PROMOTE_INTERVAL)
    else r.(nextPromote := now + PROMOTE_INTERVAL)
  }

  function Targets(r: Relay): (ports: seq<int>)
    ensures forall p :: p in ports <==> r.hub && IsFanPort(r.base, p)
  {
    if r.hub then [FanPort(r.base, 0), FanPort(r.base, 1), FanPort(r.base, 2)] else []
  }

  class RelayIn {
    var base: int
    var port: int
    var hub: bool
    var nextPromote: int

    function View(): (r: Relay)
      reads this
    {
      Relay(base, port, hub, nextPromote)
    }

    constructor ()
      ensures View() == Relay(0, 0, false, 0)
    {
      base, port, hub, nextPromote := 0, 0, false, 0;
    }

    /** Take the relay port, or the first free fan-out port behind it. */
    method Open(basePort: int, now: int, bind: int -> BindResult) returns (ok: bool)
      modifies this
      ensures base == basePort && (ok <==> FirstFree(base, bind, 0).Some?)
      ensures ok <==> exists k: nat :: FreeAfterInUse(base, bind, 0, k)
      ensures ok ==> View() == Relay(base, FirstFree(base, bind, 0).value, port == base, now + PROMOTE_INTERVAL)
      ensures ok ==> bind(port).Bound? && (port == base || IsFanPort(base, port))
    {
      base, port, hub, nextPromote := basePort, 0, false, 0;
      FirstFreeIsFirst(base, bind, 0);
      for i := 0 to FANOUT_PORTS + 1
        invariant base == basePort && FirstFree(base, bind, 0) == FirstFree(base, bind, i)
      {
        var p := Choice(base, i);
        match bind(p)
        case Bound =>
          port, hub, nextPromote := p, i == 0, now + PROMOTE_INTERVAL;
          return true;
        case Refused =>
          return false;
        case InUse =>
      }
      return false;
    }

    /** A follower's attempt to take the relay port, at most every two seconds. */
    method Promote(now: int, bind: int -> BindResult) returns (promoted: bool)
      modifies this
      ensures View() == Promoted(old(View()), now, bind)
      ensures promoted <==> !old(hub) && hub
      ensures promoted <==> !old(hub) && now >= old(nextPromote) && bind(base).Bound?
    {
      if hub || now < nextPromote {
        return false;
      }
      nextPromote := now + PROMOTE_INTERVAL;
      if !bind(base).Bound? {
        return false;
      }
      port := base;
      hub := true;
      return true;
    }

    /** Where a datagram is passed on to. */
    method Forward() returns (sent: seq<int>)
      ensures sent == Targets(View())
      ensures forall p :: p in sent <==> hub && IsFanPort(base, p)
    {
      sent := [];
      if !hub {
        return;
      }
      for i := 0 to FANOUT_PORTS
        invariant |sent| == i && forall k :: 0 <= k < i ==> sent[k] == FanPort(base, k)
      {
        sent := sent + [FanPort(base, i)];
      }
    }
  }

  /** The relay port, then the three behind the one after it. */
  lemma PortsAre(base: int)
    ensures Choice(base, 0) == base && FanPort(base, 0) == base + 2
    ensures FanPort(base, 1) == base + 3 && FanPort(base, 2) == base + 4
    ensures forall i: nat :: i < FANOUT_PORTS ==> Choice(base, i + 1) == FanPort(base, i)
  {
  }

  datatype Attempt = Attempt(now: int, bind: int -> BindResult)

  function Attempted(r: Relay, calls: seq<Attempt>): (r': Relay) {
    if calls == [] then r
    else
      var c := calls[|calls| - 1];
      Promoted(Attempted(r, calls[..|calls| - 1]), c.now, c.bind)
  }

  /**
   * After a failed attempt at t, calls before t + 2 change nothing, free port or not, and
   * the next call from then on takes the port exactly when it is free; a hub stays one.
   */
  lemma {:induction false} FailedAttemptWaits(
    r: Relay, t: int, bind: int -> BindResult, calls: seq<Attempt>, c: Attempt)
    requires !r.hub && t >= r.nextPromote && !bind(r.base).Bound?
    requires forall d :: d in calls ==> d.now < t + 2
    ensures var failed := Attempted(r, [Attempt(t, bind)]);
            var later := Promoted(Attempted(failed, calls), c.now, c.bind);
            && !failed.hub && failed.port == r.port && failed.base == r.base && Attempted(failed, calls) == failed
            && (later.hub <==> c.now >= t + 2 && c.bind(r.base).Bound?)
            && later.port == (if later.hub then r.base else r.port)
            && Attempted(later, calls).hub == later.hub
  {
    assert [Attempt(t, bind)][..0] == [];
    var failed := Attempted(r, [Attempt(t, bind)]);
    WaitingChangesNothing(failed, t + 2, calls);
    var later := Promoted(failed, c.now, c.bind);
    WaitingChangesNothing(later, t + 2, calls);
  }

  lemma {:induction false} WaitingChangesNothing(r: Relay, due: int, calls: seq<Attempt>)
    requires r.hub || (r.nextPromote >= due && forall d :: d in calls ==> d.now < due)
    ensures Attempted(r, calls) == r
  {
    if calls != [] {
      WaitingChangesNothing(r, due, calls[..|calls| - 1]);
    }
  }

  /** The ports a successful search passed over were all in use, the one it found was free. */
  lemma {:induction false} FirstFreeIsFirst(base: int, bind: int -> BindResult, i: nat)
    requires i <= FANOUT_PORTS + 1
    ensures FirstFree(base, bind, i).Some? <==>
            exists k: nat :: FreeAfterInUse(base, bind, i, k)
    ensures forall k: nat :: FreeAfterInUse(base, bind, i, k) ==> FirstFree(base, bind, i) == Some(Choice(base, k))
    decreases FANOUT_PORTS + 1 - i
  {
    if i <= FANOUT_PORTS {
      FirstFreeIsFirst(base, bind, i + 1);
      var answer := bind(Choice(base, i));
      forall k: nat ensures FreeAfterInUse(base, bind, i, k) <==>
                            (k == i && answer.Bound?) || (answer.InUse? && FreeAfterInUse(base, bind, i + 1, k)) {
      }
      if answer.InUse? && FirstFree(base, bind, i).Some? {
        var k: nat :| FreeAfterInUse(base, bind, i + 1, k);
        assert FreeAfterInUse(base, bind, i, k);
      }
      assert answer.Bound? ==> FreeAfterInUse(base, bind, i, i);
    }
  }

  ghost predicate FreeAfterInUse(base: int, bind: int -> BindResult, i: nat, k: nat) {
    i <= k <= FANOUT_PORTS && bind(Choice(base, k)).Bound? &&
        forall j: nat :: i <= j < k ==> bind(Choice(base, j)).InUse?
  }

  // ------------------------------------------------------------ all of them at once

  /** A datagram; `hops` counts how often it has been forwarded. */
  datatype Datagram = Datagram(id: nat, hops: nat)

  datatype Sock = Sock(owner: nat, queue: seq<Datagram>)

  /** Where a reader is in its start-up or receive loop. */
  datatype Pc =
    | Opening(i: nat)
    | AtRecv
    | AtPromote(held: Option<Datagram>)
    | Closing(held: Option<Datagram>)
    | AtForward(m: Datagram, i: nat)

  datatype Reader = Reader(pc: Pc, port: int, hub: bool, consumed: seq<nat>)

  datatype Net = Net(
    base: int, socks: map<int, Sock>, readers: map<nat, Reader>,
    /** The next datagram the game will send. */
    nextId: nat,
    /** Datagrams in hand when their reader was promoted. */
    held: seq<nat>,
    /** Forwarded copies that a reader set out to forward once more. */
    again: seq<nat>)

  datatype Action =
    | Start(pid: nat) | TryBind(pid: nat) | Exit(pid: nat)
    | Arrive(lost: bool)
    | Recv(pid: nat) | RecvNothing(pid: nat)
    | Promote(pid: nat, due: bool) | CloseOld(pid: nat)
    | Forward(pid: nat, lost: bool)

  predicate Enabled(n: Net, a: Action) {
    match a
    case Start(pid) => pid !in n.readers
    case TryBind(pid) => pid in n.readers && n.readers[pid].pc.Opening?
    case Exit(pid) => pid in n.readers
    case Arrive(_) => true
    case Recv(pid) =>
      && pid in n.readers && n.readers[pid].pc.AtRecv?
      && n.readers[pid].port in n.socks && n.socks[n.readers[pid].port].queue != []
    case RecvNothing(pid) => pid in n.readers && n.readers[pid].pc.AtRecv?
    case Promote(pid, _) => pid in n.readers && n.readers[pid].pc.AtPromote?
    case CloseOld(pid) => pid in n.readers && n.readers[pid].pc.Closing?
    case Forward(pid, _) => pid in n.readers && n.readers[pid].pc.AtForward?
  }

  /** After the promotion attempt: forward what was received if a hub, else receive again. */
  function Onward(held: Option<Datagram>, hub: bool): (pc: Pc) {
    if held.Some? && hub then AtForward(held.value, 0) else AtRecv
  }

  function Goes(n: Net, pid: nat, r: Reader): (n': Net) {
    n.(readers := n.readers[pid := r],
       again := if r.pc.AtForward? && r.pc.i == 0 && r.pc.m.hops > 0 then n.again + [r.pc.m.id] else n.again)
  }

  function Enqueue(n: Net, port: int, m: Datagram): (n': Net) {
    if port in n.socks then n.(socks := n.socks[port := Sock(n.socks[port].owner, n.socks[port].queue + [m])]) else n
  }

  function Owned(n: Net, pid: nat): (ports: set<int>) {
    set p | p in n.socks && n.socks[p].owner == pid
  }

  function Do(n: Net, a: Action): (n': Net)
    requires Enabled(n, a)
  {
    match a
    case Start(pid) => n.(readers := n.readers[pid := Reader(Opening(0), n.base, false, [])])
    case TryBind(pid) =>
      var r := n.readers[pid];
      var port := Choice(n.base, r.pc.i);
      if port !in n.socks then
        n.(socks := n.socks[port := Sock(pid, [])],
            readers := n.readers[pid := r.(pc := AtRecv, port := port, hub := r.pc.i == 0)])
      else if r.pc.i >= FANOUT_PORTS then n.(readers := n.readers - {pid})
      else n.(readers := n.readers[pid := r.(pc := Opening(r.pc.i + 1))])
    case Exit(pid) => n.(readers := n.readers - {pid}, socks := n.socks - Owned(n, pid))
    case Arrive(lost) =>
      if lost then n else Enqueue(n, n.base, Datagram(n.nextId, 0)).(nextId := n.nextId + 1)
    case Recv(pid) =>
      var r := n.readers[pid];
      var s := n.socks[r.port];
      n.(socks := n.socks[r.port := s.(queue := s.queue[1..])],
         readers := n.readers[pid := r.(pc := AtPromote(Some(s.queue[0])), consumed := r.consumed + [s.queue[0].id])])
    case RecvNothing(pid) => n.(readers := n.readers[pid := n.readers[pid].(pc := AtPromote(None))])
    case Promote(pid, due) =>
      var r := n.readers[pid];
      if !r.hub && due && n.base !in n.socks then
        n.(socks := n.socks[n.base := Sock(pid, [])], readers := n.readers[pid := r.(pc := Closing(r.pc.held))])
      else Goes(n, pid, r.(pc := Onward(r.pc.held, r.hub)))
    case CloseOld(pid) =>
      var r := n.readers[pid];
      Goes(n.(socks := n.socks - {r.port}, held := if r.pc.held.Some? then n.held + [r.pc.held.value.id] else n.held),
           pid, r.(pc := Onward(r.pc.held, true), port := n.base, hub := true))
    case Forward(pid, lost) =>
      var r := n.readers[pid];
      var n1 := if lost then n else Enqueue(n, FanPort(n.base, r.pc.i), Datagram(r.pc.m.id, r.pc.m.hops + 1));
      var pc := if r.pc.i + 1 < FANOUT_PORTS then AtForward(r.pc.m, r.pc.i + 1) else AtRecv;
      n1.(readers := n.readers[pid := r.(pc := pc)])
  }

  function Initial(base: int): (n: Net) {
    Net(base, map[], map[], 0, [], [])
  }

  // ------------------------------------------------------------ who holds what

  /** A reader that is past start-up reads a socket of its own, on the relay port exactly when it is the hub. */
  ghost predicate ReaderFits(n: Net, pid: nat, r: Reader) {
    && (r.pc.Opening? ==> r.consumed == [] && !r.hub && r.pc.i <= FANOUT_PORTS)
    && (!r.pc.Opening? ==>
          && r.port in n.socks && n.socks[r.port].owner == pid
          && (if r.hub then r.port == n.base else IsFanPort(n.base, r.port)))
    && (r.pc.Closing? ==> !r.hub && n.base in n.socks && n.socks[n.base].owner == pid)
    && (r.pc.AtForward? ==> r.hub && r.pc.i < FANOUT_PORTS)
  }

  /** Every socket belongs to a live reader that reads it, or has just bound it to read next. */
  ghost predicate SockFits(n: Net, port: int)
    requires port in n.socks
  {
    var pid := n.socks[port].owner;
    && (port == n.base || IsFanPort(n.base, port))
    && pid in n.readers && !n.readers[pid].pc.Opening?
    && (port == n.readers[pid].port || (n.readers[pid].pc.Closing? && port == n.base))
  }

  ghost predicate Ports(n: Net) {
    && (forall pid :: pid in n.readers ==> ReaderFits(n, pid, n.readers[pid]))
    && (forall p :: p in n.socks ==> SockFits(n, p))
  }

  lemma StartKeepsPorts(n: Net, pid: nat)
    requires Ports(n) && Enabled(n, Start(pid))
    ensures Ports(Do(n, Start(pid)))
  {
  }

  lemma TryBindKeepsPorts(n: Net, pid: nat)
    requires Ports(n) && Enabled(n, TryBind(pid))
    ensures Ports(Do(n, TryBind(pid)))
  {
  }

  lemma ExitKeepsPorts(n: Net, pid: nat)
    requires Ports(n) && Enabled(n, Exit(pid))
    ensures Ports(Do(n, Exit(pid)))
  {
  }

  lemma ArriveKeepsPorts(n: Net, lost: bool)
    requires Ports(n)
    ensures Ports(Do(n, Arrive(lost)))
  {
  }

  lemma RecvKeepsPorts(n: Net, pid: nat)
    requires Ports(n) && Enabled(n, Recv(pid))
    ensures Ports(Do(n, Recv(pid)))
  {
  }

  lemma RecvNothingKeepsPorts(n: Net, pid: nat)
    requires Ports(n) && Enabled(n, RecvNothing(pid))
    ensures Ports(Do(n, RecvNothing(pid)))
  {
  }

  lemma PromoteKeepsPorts(n: Net, pid: nat, due: bool)
    requires Ports(n) && Enabled(n, Promote(pid, due))
    ensures Ports(Do(n, Promote(pid, due)))
  {
  }

  lemma CloseOldKeepsPorts(n: Net, pid: nat)
    requires Ports(n) && Enabled(n, CloseOld(pid))
    ensures Ports(Do(n, CloseOld(pid)))
  {
  }

  lemma ForwardKeepsPorts(n: Net, pid: nat, lost: bool)
    requires Ports(n) && Enabled(n, Forward(pid, lost))
    ensures Ports(Do(n, Forward(pid, lost)))
  {
  }

  lemma StepKeepsPorts(n: Net, a: Action)
    requires Ports(n) && Enabled(n, a)
    ensures Ports(Do(n, a))
  {
    hide Ports, Do;
    match a
    case Start(pid) => StartKeepsPorts(n, pid);
    case TryBind(pid) => TryBindKeepsPorts(n, pid);
    case Exit(pid) => ExitKeepsPorts(n, pid);
    case Arrive(lost) => ArriveKeepsPorts(n, lost);
    case Recv(pid) => RecvKeepsPorts(n, pid);
    case RecvNothing(pid) => RecvNothingKeepsPorts(n, pid);
    case Promote(pid, due) => PromoteKeepsPorts(n, pid, due);
    case CloseOld(pid) => CloseOldKeepsPorts(n, pid);
    case Forward(pid, lost) => ForwardKeepsPorts(n, pid, lost);
  }
}
