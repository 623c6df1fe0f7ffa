/**
 * What holds over every run of the telemetry hub protocol (tools/logi-rpm-bridge.c),
 * and the one interleaving in which a copy is forwarded a second time.
 */
module RelayRuns {
  import opened Words
  import opened RelayHub

  // ------------------------------------------------------------ originals and copies

  ghost predicate QueueFits(n: Net, p: int)
    requires p in n.socks
  {
    forall i :: 0 <= i < |n.socks[p].queue| ==> (n.socks[p].queue[i].hops == 0 <==> p == n.base)
  }

  ghost predicate HeldFits(r: Reader) {
    && (r.pc.AtPromote? && r.pc.held.Some? ==> (r.pc.held.value.hops == 0 <==> r.hub))
    && (r.pc.Closing? && r.pc.held.Some? ==> r.pc.held.value.hops > 0)
  }

  /** Originals travel on the relay port, copies on the others; copies are forwarded only by promotions in hand. */
  ghost predicate HopsFit(n: Net) {
    && (forall p :: p in n.socks ==> QueueFits(n, p))
    && (forall pid :: pid in n.readers ==> HeldFits(n.readers[pid]))
    && n.again == n.held
  }

  /** One queue and one reader may differ; what they hold fits. */
  lemma HopsKept(n: Net, n': Net, p: int, pid: int)
    requires HopsFit(n) && n'.base == n.base && n'.again == n'.held
    requires forall q :: q in n'.socks && q != p ==> q in n.socks && n'.socks[q].queue == n.socks[q].queue
    requires forall o :: o in n'.readers && o != pid ==> o in n.readers && n'.readers[o] == n.readers[o]
    requires p in n'.socks ==> QueueFits(n', p)
    requires pid in n'.readers ==> HeldFits(n'.readers[pid])
    ensures HopsFit(n')
  {
    forall q | q in n'.socks ensures QueueFits(n', q) {
      assert q != p ==> QueueFits(n, q);
    }
    forall o | o in n'.readers ensures HeldFits(n'.readers[o]) {
      assert o != pid ==> HeldFits(n.readers[o]);
    }
  }

  lemma ReaderKeepsHops(n: Net, a: Action)
    requires Ports(n) && HopsFit(n) && Enabled(n, a) && (a.Start? || a.Exit? || a.RecvNothing?)
    ensures HopsFit(Do(n, a))
  {
    HopsKept(n, Do(n, a), n.base + 1, a.pid);
  }

  lemma BindKeepsHops(n: Net, pid: nat)
    requires Ports(n) && HopsFit(n) && Enabled(n, TryBind(pid))
    ensures HopsFit(Do(n, TryBind(pid)))
  {
    var p := Choice(n.base, n.readers[pid].pc.i);
    assert p in n.socks ==> QueueFits(n, p);
    HopsKept(n, Do(n, TryBind(pid)), p, pid);
  }

  lemma ArriveKeepsHops(n: Net, lost: bool)
    requires Ports(n) && HopsFit(n)
    ensures HopsFit(Do(n, Arrive(lost)))
  {
    assert n.base in n.socks ==> QueueFits(n, n.base);
    HopsKept(n, Do(n, Arrive(lost)), n.base, -1);
  }

  lemma RecvKeepsHops(n: Net, pid: nat)
    requires Ports(n) && HopsFit(n) && Enabled(n, Recv(pid))
    ensures HopsFit(Do(n, Recv(pid)))
  {
    var r := n.readers[pid];
    assert QueueFits(n, r.port) && ReaderFits(n, pid, r);
    HopsKept(n, Do(n, Recv(pid)), r.port, pid);
  }

  lemma PromoteKeepsHops(n: Net, pid: nat, due: bool)
    requires Ports(n) && HopsFit(n) && Enabled(n, Promote(pid, due))
    ensures HopsFit(Do(n, Promote(pid, due)))
  {
    assert HeldFits(n.readers[pid]) && (n.base in n.socks ==> QueueFits(n, n.base));
    HopsKept(n, Do(n, Promote(pid, due)), n.base, pid);
  }

  lemma CloseOldKeepsHops(n: Net, pid: nat)
    requires Ports(n) && HopsFit(n) && Enabled(n, CloseOld(pid))
    ensures HopsFit(Do(n, CloseOld(pid)))
  {
    assert HeldFits(n.readers[pid]);
    HopsKept(n, Do(n, CloseOld(pid)), n.base + 1, pid);
  }

  lemma ForwardKeepsHops(n: Net, pid: nat, lost: bool)
    requires Ports(n) && HopsFit(n) && Enabled(n, Forward(pid, lost))
    ensures HopsFit(Do(n, Forward(pid, lost)))
  {
    var p := FanPort(n.base, n.readers[pid].pc.i);
    assert p in n.socks ==> QueueFits(n, p);
    HopsKept(n, Do(n, Forward(pid, lost)), p, pid);
  }

  lemma StepKeepsHops(n: Net, a: Action)
    requires Ports(n) && HopsFit(n) && Enabled(n, a)
    ensures HopsFit(Do(n, a))
  {
    hide Ports, Do, HopsFit;
    match a
    case Start(_) => ReaderKeepsHops(n, a);
    case TryBind(pid) => BindKeepsHops(n, pid);
    case Exit(_) => ReaderKeepsHops(n, a);
    case Arrive(lost) => ArriveKeepsHops(n, lost);
    case Recv(pid) => RecvKeepsHops(n, pid);
    case RecvNothing(_) => ReaderKeepsHops(n, a);
    case Promote(pid, due) => PromoteKeepsHops(n, pid, due);
    case CloseOld(pid) => CloseOldKeepsHops(n, pid);
    case Forward(pid, lost) => ForwardKeepsHops(n, pid, lost);
  }

  /** Two readers never hold the relay port. */
  lemma OnlyOneHub(n: Net, pid: nat)
    requires Ports(n) && pid in n.readers && n.readers[pid].hub
    ensures forall o :: o in n.readers && o != pid ==> !n.readers[o].hub && !n.readers[o].pc.Closing?
  {
    assert ReaderFits(n, pid, n.readers[pid]);
    assert forall o :: o in n.readers ==> ReaderFits(n, o, n.readers[o]);
  }

  // ------------------------------------------------------------ one datagram, each reader once

  /** How often datagram x stands in a queue. */
  function Waits(q: seq<Datagram>, x: nat): (k: nat) {
    if q == [] then 0 else Waits(q[..|q| - 1], x) + if q[|q| - 1].id == x then 1 else 0
  }

  lemma WaitsPop(q: seq<Datagram>, x: nat)
    requires q != []
    ensures Waits(q, x) == Waits(q[1..], x) + if q[0].id == x then 1 else 0
  {
    if |q| > 1 {
      WaitsPop(q[..|q| - 1], x);
      assert q[..|q| - 1][1..] == q[1..][..|q| - 2];
    }
  }

  lemma WaitsAppend(q: seq<Datagram>, m: Datagram, x: nat)
    ensures Waits(q + [m], x) == Waits(q, x) + if m.id == x then 1 else 0
  {
    assert (q + [m])[..|q|] == q;
  }

  function Queued(n: Net, p: int, x: nat): (k: nat) {
    if p in n.socks then Waits(n.socks[p].queue, x) else 0
  }

  function Taken(r: Reader, x: nat): (k: nat) {
    multiset(r.consumed)[x]
  }

  /** How often a reader has consumed x or is still going to, from the socket it reads. */
  function Seen(n: Net, pid: nat, x: nat): (k: nat)
    requires pid in n.readers
  {
    var r := n.readers[pid];
    Taken(r, x) + if r.pc.Opening? then 0 else Queued(n, r.port, x)
  }

  ghost predicate ReaderOnce(n: Net, x: nat, pid: nat)
    requires pid in n.readers
  {
    var r := n.readers[pid];
    && Seen(n, pid, x) <= (if x < n.nextId then 1 else 0)
    && (r.pc.AtForward? && r.pc.m.id == x ==> Taken(r, x) > 0)
  }

  /** What waits on the relay port nobody else has seen. */
  ghost predicate BaseOnce(n: Net, x: nat) {
    && Queued(n, n.base, x) <= (if x < n.nextId then 1 else 0)
    && (Queued(n, n.base, x) > 0 ==> forall o :: o in n.readers && n.readers[o].port != n.base ==> Seen(n, o, x) == 0)
  }

  /** A datagram on its way through the hub has reached only the ports already served. */
  ghost predicate HubOnce(n: Net, x: nat, pid: nat)
    requires pid in n.readers
  {
    var r := n.readers[pid];
    && (r.hub && r.pc.AtPromote? && r.pc.held.Some? && r.pc.held.value.id == x ==>
          Taken(r, x) > 0 && forall o :: o in n.readers && o != pid ==> Seen(n, o, x) == 0)
    && (r.pc.AtForward? && r.pc.m.id == x ==>
          forall o :: o in n.readers && n.readers[o].port >= FanPort(n.base, r.pc.i) ==> Seen(n, o, x) == 0)
  }

  ghost predicate Once(n: Net, x: nat) {
    x !in n.held ==>
      && BaseOnce(n, x)
      && forall pid :: pid in n.readers ==> ReaderOnce(n, x, pid) && HubOnce(n, x, pid)
  }

  /** A step of reader pid (-1: of no reader) that shows x to nobody who had not seen it. */
  ghost predicate ShowsNobody(n: Net, n': Net, x: nat, pid: int) {
    && n'.base == n.base && n'.nextId >= n.nextId && n'.held == n.held
    && Queued(n', n.base, x) <= Queued(n, n.base, x)
    && (forall o :: o in n'.readers && o != pid ==>
          o in n.readers && n'.readers[o] == n.readers[o] && Seen(n', o, x) <= Seen(n, o, x))
    && (pid in n'.readers && Seen(n', pid, x) > 0 ==>
          pid in n.readers && n'.readers[pid].port == n.readers[pid].port && Seen(n', pid, x) <= Seen(n, pid, x))
  }

  lemma NobodyShown(n: Net, n': Net, x: nat, pid: int)
    requires Once(n, x) && ShowsNobody(n, n', x, pid)
    requires x !in n.held && pid in n'.readers ==> HubOnce(n', x, pid)
    requires x !in n.held && pid in n'.readers && n'.readers[pid].pc.AtForward? && n'.readers[pid].pc.m.id == x ==>
             Taken(n'.readers[pid], x) > 0
    ensures Once(n', x)
  {
    hide Seen, Queued, Taken;
    if x !in n.held {
      forall o | o in n'.readers ensures ReaderOnce(n', x, o) && HubOnce(n', x, o) {
        assert o != pid ==> ReaderOnce(n, x, o) && HubOnce(n, x, o);
        assert o == pid && o in n.readers ==> ReaderOnce(n, x, o);
      }
    }
  }

  lemma StartKeepsOnce(n: Net, pid: nat, x: nat)
    requires Ports(n) && Once(n, x) && Enabled(n, Start(pid))
    ensures Once(Do(n, Start(pid)), x)
  {
    var n' := Do(n, Start(pid));
    assert ShowsNobody(n, n', x, pid) by { hide Waits, Once; }
    NobodyShown(n, n', x, pid);
  }

  lemma TryBindKeepsOnce(n: Net, pid: nat, x: nat)
    requires Ports(n) && Once(n, x) && Enabled(n, TryBind(pid))
    ensures Once(Do(n, TryBind(pid)), x)
  {
    hide Once, ReaderOnce, BaseOnce;
    var n' := Do(n, TryBind(pid));
    assert ReaderFits(n, pid, n.readers[pid]);
    NobodyShown(n, n', x, pid);
  }

  lemma ExitKeepsOnce(n: Net, pid: nat, x: nat)
    requires Ports(n) && Once(n, x) && Enabled(n, Exit(pid))
    ensures Once(Do(n, Exit(pid)), x)
  {
    hide Waits, Once, ReaderOnce, BaseOnce, HubOnce;
    var n' := Do(n, Exit(pid));
    NobodyShown(n, n', x, pid);
  }

  /** The head of the relay port's queue has been seen by nobody else. */
  lemma HeadIsNew(n: Net, pid: nat, x: nat)
    requires Ports(n) && Once(n, x) && x !in n.held && Enabled(n, Recv(pid)) && n.readers[pid].hub
    requires n.socks[n.base].queue[0].id == x
    ensures forall o :: o in n.readers && o != pid ==> Seen(n, o, x) == 0
  {
    hide Waits;
    WaitsPop(n.socks[n.base].queue, x);
    assert forall o :: o in n.readers && o != pid ==> ReaderFits(n, o, n.readers[o]);
  }

  lemma RecvKeepsOnce(n: Net, pid: nat, x: nat)
    requires Ports(n) && Once(n, x) && Enabled(n, Recv(pid))
    ensures Once(Do(n, Recv(pid)), x)
  {
    hide Waits, Once, ReaderOnce, BaseOnce;
    var n' := Do(n, Recv(pid));
    var r := n.readers[pid];
    WaitsPop(n.socks[r.port].queue, x);
    assert Taken(n'.readers[pid], x) == Taken(r, x) + if n.socks[r.port].queue[0].id == x then 1 else 0;
    assert ShowsNobody(n, n', x, pid);
    if r.hub && n.socks[n.base].queue[0].id == x && x !in n.held { HeadIsNew(n, pid, x); }
    NobodyShown(n, n', x, pid);
  }

  lemma RecvNothingKeepsOnce(n: Net, pid: nat, x: nat)
    requires Ports(n) && Once(n, x) && Enabled(n, RecvNothing(pid))
    ensures Once(Do(n, RecvNothing(pid)), x)
  {
    hide Waits, Once, ReaderOnce, BaseOnce;
    NobodyShown(n, Do(n, RecvNothing(pid)), x, pid);
  }

  lemma PromoteShowsNobody(n: Net, pid: nat, due: bool, x: nat)
    requires Ports(n) && Enabled(n, Promote(pid, due))
    ensures ShowsNobody(n, Do(n, Promote(pid, due)), x, pid)
  {
    assert ReaderFits(n, pid, n.readers[pid]);
  }

  lemma PromoteKeepsOnce(n: Net, pid: nat, due: bool, x: nat)
    requires Ports(n) && Once(n, x) && Enabled(n, Promote(pid, due))
    ensures Once(Do(n, Promote(pid, due)), x)
  {
    hide ReaderOnce, BaseOnce, Queued, Seen;
    var n' := Do(n, Promote(pid, due));
    PromoteShowsNobody(n, pid, due, x);
    assert ReaderFits(n, pid, n.readers[pid]);
    assert x !in n.held ==> HubOnce(n, x, pid);
    assert Taken(n'.readers[pid], x) == Taken(n.readers[pid], x);
    NobodyShown(n, n', x, pid);
  }

  lemma CloseOldMovesToBase(n: Net, pid: nat, x: nat)
    requires Ports(n) && Enabled(n, CloseOld(pid))
    ensures var n' := Do(n, CloseOld(pid));
            && n.readers[pid].port != n.base && Queued(n', n.base, x) == Queued(n, n.base, x)
            && Seen(n', pid, x) <= Seen(n, pid, x) + Queued(n, n.base, x)
            && (forall o :: o in n.readers && o != pid ==> Seen(n', o, x) == Seen(n, o, x) && !n.readers[o].hub)
  {
    hide Waits;
    assert ReaderFits(n, pid, n.readers[pid]);
  }

  lemma CloseOldKeepsOnce(n: Net, pid: nat, x: nat)
    requires Ports(n) && Once(n, x) && Enabled(n, CloseOld(pid))
    ensures Once(Do(n, CloseOld(pid)), x)
  {
    hide Waits, Queued, Seen, Taken, Ports;
    var n' := Do(n, CloseOld(pid));
    CloseOldMovesToBase(n, pid, x);
    if x !in n'.held {
      forall o | o in n'.readers ensures ReaderOnce(n', x, o) && HubOnce(n', x, o) {
        assert ReaderOnce(n, x, o) && HubOnce(n, x, o);
      }
    }
  }

  lemma ArriveKeepsOnce(n: Net, lost: bool, x: nat)
    requires Ports(n) && Once(n, x)
    ensures Once(Do(n, Arrive(lost)), x)
  {
    hide Do, Ports, Waits, Once;
    if x == n.nextId {
      ArrivingIsNew(n, lost);
    } else {
      ArrivalShowsNobodyElse(n, lost, x);
    }
  }

  lemma ArrivalShowsNobodyElse(n: Net, lost: bool, x: nat)
    requires Ports(n) && Once(n, x) && x != n.nextId
    ensures Once(Do(n, Arrive(lost)), x)
  {
    hide Waits, ReaderOnce, BaseOnce, HubOnce, Once, Ports;
    if n.base in n.socks {
      WaitsAppend(n.socks[n.base].queue, Datagram(n.nextId, 0), x);
    }
    NobodyShown(n, Do(n, Arrive(lost)), x, -1);
  }

  lemma ArrivingIsNew(n: Net, lost: bool)
    requires Ports(n) && Once(n, n.nextId)
    ensures Once(Do(n, Arrive(lost)), n.nextId)
  {
    hide Waits;
    if n.base in n.socks {
      WaitsAppend(n.socks[n.base].queue, Datagram(n.nextId, 0), n.nextId);
    }
  }

  lemma ForwardKeepsOnce(n: Net, pid: nat, lost: bool, x: nat)
    requires Ports(n) && Once(n, x) && Enabled(n, Forward(pid, lost))
    ensures Once(Do(n, Forward(pid, lost)), x)
  {
    hide Do, Ports, Waits, Once;
    if n.readers[pid].pc.m.id == x {
      ForwardedToOnePort(n, pid, lost);
    } else {
      ForwardShowsNobodyElse(n, pid, lost, x);
    }
  }

  /** A forwarded datagram shows up at the port it was sent to, once, and nowhere else. */
  lemma ForwardShowsOnePort(n: Net, pid: nat, lost: bool, x: nat)
    requires Ports(n) && Enabled(n, Forward(pid, lost))
    ensures var n', m, p := Do(n, Forward(pid, lost)), n.readers[pid].pc.m, FanPort(n.base, n.readers[pid].pc.i);
            && n'.readers.Keys == n.readers.Keys
            && Queued(n', n.base, x) == Queued(n, n.base, x)
            && forall o :: o in n.readers ==>
                 && Taken(n'.readers[o], x) == Taken(n.readers[o], x)
                 && Seen(n', o, x) <= Seen(n, o, x) + if n.readers[o].port == p && m.id == x then 1 else 0
  {
    hide Waits;
    var r := n.readers[pid];
    var p := FanPort(n.base, r.pc.i);
    if p in n.socks {
      WaitsAppend(n.socks[p].queue, Datagram(r.pc.m.id, r.pc.m.hops + 1), x);
    }
  }

  lemma ForwardShowsNobodyElse(n: Net, pid: nat, lost: bool, x: nat)
    requires Ports(n) && Once(n, x) && Enabled(n, Forward(pid, lost)) && n.readers[pid].pc.m.id != x
    ensures Once(Do(n, Forward(pid, lost)), x)
  {
    hide Waits, ReaderOnce, BaseOnce, Once, Ports, Seen, Queued, Taken;
    ForwardShowsOnePort(n, pid, lost, x);
    NobodyShown(n, Do(n, Forward(pid, lost)), x, pid);
  }

  /** While the hub forwards x, nobody else handles it and the relay port does not hold it. */
  lemma ForwardsAlone(n: Net, pid: nat, x: nat)
    requires Ports(n) && Once(n, x) && x !in n.held
    requires pid in n.readers && n.readers[pid].pc.AtForward? && n.readers[pid].pc.m.id == x
    ensures n.readers[pid].port == n.base && Queued(n, n.base, x) == 0 && x < n.nextId
    ensures forall o :: o in n.readers && o != pid ==> !n.readers[o].hub && !n.readers[o].pc.AtForward?
  {
    hide Waits;
    OnlyOneHub(n, pid);
    assert ReaderOnce(n, x, pid);
  }

  lemma ForwardedToOnePort(n: Net, pid: nat, lost: bool)
    requires Ports(n) && Enabled(n, Forward(pid, lost)) && Once(n, n.readers[pid].pc.m.id)
    ensures Once(Do(n, Forward(pid, lost)), n.readers[pid].pc.m.id)
  {
    hide Queued, Waits, Seen, Taken, Ports;
    var n' := Do(n, Forward(pid, lost));
    var x := n.readers[pid].pc.m.id;
    ForwardShowsOnePort(n, pid, lost, x);
    if x !in n.held {
      ForwardsAlone(n, pid, x);
      forall o | o in n'.readers ensures ReaderOnce(n', x, o) && HubOnce(n', x, o) {
        assert ReaderOnce(n, x, o) && HubOnce(n, x, pid);
      }
    }
  }

  lemma StepKeepsOnce(n: Net, a: Action, x: nat)
    requires Ports(n) && Once(n, x) && Enabled(n, a)
    ensures Once(Do(n, a), x)
  {
    hide Ports, Do, Once;
    match a
    case Start(pid) => StartKeepsOnce(n, pid, x);
    case TryBind(pid) => TryBindKeepsOnce(n, pid, x);
    case Exit(pid) => ExitKeepsOnce(n, pid, x);
    case Arrive(lost) => ArriveKeepsOnce(n, lost, x);
    case Recv(pid) => RecvKeepsOnce(n, pid, x);
    case RecvNothing(pid) => RecvNothingKeepsOnce(n, pid, x);
    case Promote(pid, due) => PromoteKeepsOnce(n, pid, due, x);
    case CloseOld(pid) => CloseOldKeepsOnce(n, pid, x);
    case Forward(pid, lost) => ForwardKeepsOnce(n, pid, lost, x);
  }

  // ------------------------------------------------------------ whole runs

  predicate Runnable(n: Net, run: seq<Action>)
    decreases |run|
  {
    run == [] || (Enabled(n, run[0]) && Runnable(Do(n, run[0]), run[1..]))
  }

  function Exec(n: Net, run: seq<Action>): (n': Net)
    requires Runnable(n, run)
    decreases |run|
  {
    if run == [] then n else Exec(Do(n, run[0]), run[1..])
  }

  ghost predicate Sound(n: Net) {
    Ports(n) && HopsFit(n) && forall x: nat :: Once(n, x)
  }

  lemma {:induction false} RunsAreSound(n: Net, run: seq<Action>)
    requires Sound(n) && Runnable(n, run)
    ensures Sound(Exec(n, run))
    decreases |run|
  {
    hide Ports, HopsFit, Once, Do, Enabled;
    if run != [] {
      StepKeepsPorts(n, run[0]);
      StepKeepsHops(n, run[0]);
      forall x: nat ensures Once(Do(n, run[0]), x) { StepKeepsOnce(n, run[0], x); }
      RunsAreSound(Do(n, run[0]), run[1..]);
    }
  }

  ghost predicate Reachable(n: Net) {
    exists run :: Runnable(Initial(n.base), run) && Exec(Initial(n.base), run) == n
  }

  lemma ReachableIsSound(n: Net)
    requires Reachable(n)
    ensures Sound(n)
  {
    var run :| Runnable(Initial(n.base), run) && Exec(Initial(n.base), run) == n;
    RunsAreSound(Initial(n.base), run);
  }

  /** At most one hub, and a reader past start-up always has a socket of its own that it reads. */
  lemma HubIsUniqueAndReadersListen(n: Net, a: nat, b: nat)
    requires Reachable(n) && a in n.readers && b in n.readers
    ensures n.readers[a].hub && n.readers[b].hub ==> a == b
    ensures !n.readers[a].pc.Opening? ==> n.readers[a].port in n.socks && n.socks[n.readers[a].port].owner == a
    ensures !n.readers[a].pc.Opening? && !n.readers[b].pc.Opening? && n.readers[a].port == n.readers[b].port ==> a == b
    ensures !n.readers[a].pc.Opening? ==> (n.readers[a].hub <==> n.readers[a].port == n.base)
    ensures !n.readers[a].pc.Opening? && !n.readers[a].hub ==> IsFanPort(n.base, n.readers[a].port)
    ensures n.base + 1 !in n.socks
  {
    ReachableIsSound(n);
    assert ReaderFits(n, a, n.readers[a]) && ReaderFits(n, b, n.readers[b]);
    assert n.base + 1 in n.socks ==> SockFits(n, n.base + 1);
  }

  /** A copy is forwarded a second time exactly when it was in its reader's hand at the reader's promotion. */
  lemma ForwardedAgainIffHeldAtPromotion(n: Net)
    requires Reachable(n)
    ensures n.again == n.held
  {
    ReachableIsSound(n);
  }

  /** A datagram not in hand at a promotion reaches every reader at most once, whatever else happens. */
  lemma ConsumedAtMostOnce(n: Net, pid: nat, x: nat)
    requires Reachable(n) && pid in n.readers && x !in n.held
    ensures multiset(n.readers[pid].consumed)[x] <= 1
  {
    ReachableIsSound(n);
    assert Once(n, x);
    assert ReaderOnce(n, x, pid);
  }

  // ------------------------------------------------------------ succession

  /** The reader that holds the relay port, from the bind that took it on. */
  predicate HoldsBase(n: Net, pid: nat) {
    pid in n.readers && (n.readers[pid].hub || n.readers[pid].pc.Closing?)
  }

  lemma BaseIsBoundIffHeld(n: Net)
    requires Ports(n)
    ensures n.base in n.socks <==> exists pid :: HoldsBase(n, pid)
    ensures n.base in n.socks ==> HoldsBase(n, n.socks[n.base].owner)
    ensures forall pid :: HoldsBase(n, pid) ==> n.base in n.socks && n.socks[n.base].owner == pid
  {
    if n.base in n.socks {
      assert SockFits(n, n.base);
      assert ReaderFits(n, n.socks[n.base].owner, n.readers[n.socks[n.base].owner]);
      assert HoldsBase(n, n.socks[n.base].owner);
    }
    forall pid | HoldsBase(n, pid) ensures n.base in n.socks && n.socks[n.base].owner == pid {
      assert ReaderFits(n, pid, n.readers[pid]);
    }
  }

  /** A follower's attempt succeeds exactly when no live reader holds the relay port. */
  lemma PromotionSucceedsIffNobodyHolds(n: Net, pid: nat)
    requires Reachable(n) && Enabled(n, Promote(pid, true)) && !n.readers[pid].hub
    ensures HoldsBase(Do(n, Promote(pid, true)), pid) <==> forall o :: !HoldsBase(n, o)
  {
    ReachableIsSound(n);
    BaseIsBoundIffHeld(n);
    assert ReaderFits(n, pid, n.readers[pid]);
  }

  /** When the hub goes, the port is free for the first to try. */
  lemma HubExitFreesThePort(n: Net, pid: nat)
    requires Reachable(n) && HoldsBase(n, pid)
    ensures n.base !in Do(n, Exit(pid)).socks && forall o :: !HoldsBase(Do(n, Exit(pid)), o)
  {
    ReachableIsSound(n);
    BaseIsBoundIffHeld(n);
  }

  lemma StepKeepsHolder(n: Net, a: Action, pid: nat)
    requires Ports(n) && HoldsBase(n, pid) && Enabled(n, a) && a != Exit(pid)
    ensures HoldsBase(Do(n, a), pid)
    ensures n.readers[pid].hub || a == CloseOld(pid) ==> Do(n, a).readers[pid].hub
  {
    assert ReaderFits(n, pid, n.readers[pid]);
    if pid' :| pid' in n.readers { assert ReaderFits(n, pid', n.readers[pid']); }
  }

  /**
   * Whoever bound the relay port first stays its only holder until it exits, and is the hub
   * once the old socket is closed.
   */
  lemma {:induction false} FirstAttemptWins(n: Net, run: seq<Action>, pid: nat)
    requires Sound(n) && HoldsBase(n, pid) && Runnable(n, run) && Exit(pid) !in run
    ensures forall o :: HoldsBase(Exec(n, run), o) <==> o == pid
    ensures n.readers[pid].hub || CloseOld(pid) in run ==> pid in Exec(n, run).readers && Exec(n, run).readers[pid].hub
    decreases |run|
  {
    hide Ports, HopsFit, Once, Do, Enabled;
    if run == [] {
      BaseIsBoundIffHeld(n);
    } else {
      StepKeepsHolder(n, run[0], pid);
      RunsAreSound(n, run[..1]);
      var n1 := Do(n, run[0]);
      assert Exec(n, run[..1]) == n1;
      FirstAttemptWins(n1, run[1..], pid);
    }
  }

  // ------------------------------------------------------------ the calls, step by step

  /** bind(2) as the sockets of the moment answer it. */
  function BindNow(n: Net): (bind: int -> BindResult) {
    p => if p in n.socks then InUse else Bound
  }

  function RelayOf(n: Net, pid: nat, nextPromote: int): (r: Relay)
    requires pid in n.readers
  {
    Relay(n.base, n.readers[pid].port, n.readers[pid].hub, nextPromote)
  }

  /** A start-up that nothing interrupts. */
  function OpenAll(n: Net, pid: nat, tries: nat): (n': Net)
    requires pid in n.readers && n.readers[pid].pc.Opening?
    decreases tries
  {
    var n1 := Do(n, TryBind(pid));
    if tries == 0 || pid !in n1.readers || !n1.readers[pid].pc.Opening? then n1 else OpenAll(n1, pid, tries - 1)
  }

  /** The start-up's bind attempts add up to the open call. */
  lemma {:induction false} OpenStepsAreOpen(n: Net, pid: nat, i: nat)
    requires pid in n.readers && n.readers[pid].pc == Opening(i) && i <= FANOUT_PORTS
    ensures var port, n' := FirstFree(n.base, BindNow(n), i), OpenAll(n, pid, FANOUT_PORTS - i);
            if port.None? then n'.readers == n.readers - {pid} && n'.socks == n.socks
            else
              && pid in n'.readers && n'.readers[pid].pc.AtRecv? && n'.readers[pid].port == port.value
              && n'.readers[pid].hub == (port.value == n.base)
              && n'.socks == n.socks[port.value := Sock(pid, [])]
    decreases FANOUT_PORTS - i
  {
    var n1 := Do(n, TryBind(pid));
    if Choice(n.base, i) in n.socks && i < FANOUT_PORTS {
      OpenStepsAreOpen(n1, pid, i + 1);
      SameAnswers(n, n1, i + 1);
      assert n1.readers - {pid} == n.readers - {pid};
    }
  }

  lemma {:induction false} SameAnswers(n: Net, n1: Net, i: nat)
    requires n1.socks == n.socks && n1.base == n.base
    ensures FirstFree(n1.base, BindNow(n1), i) == FirstFree(n.base, BindNow(n), i)
    decreases FANOUT_PORTS + 1 - i
  {
    if i <= FANOUT_PORTS { SameAnswers(n, n1, i + 1); }
  }

  /** A promotion attempt and the close behind it add up to the promote call. */
  lemma PromoteStepsArePromote(n: Net, pid: nat, now: int, nextPromote: int)
    requires Ports(n) && Enabled(n, Promote(pid, now >= nextPromote))
    ensures var n1 := Do(n, Promote(pid, now >= nextPromote));
            var r := Promoted(RelayOf(n, pid, nextPromote), now, BindNow(n));
            && pid in n1.readers
            && (n1.readers[pid].pc.Closing? <==> r.hub && !n.readers[pid].hub)
            && (n1.readers[pid].pc.Closing? ==> pid in Do(n1, CloseOld(pid)).readers)
            && RelayOf(if n1.readers[pid].pc.Closing? then Do(n1, CloseOld(pid)) else n1, pid, r.nextPromote) == r
  {
    assert ReaderFits(n, pid, n.readers[pid]);
  }

  function Copy(m: Datagram): (c: Datagram) {
    Datagram(m.id, m.hops + 1)
  }

  lemma OneForward(n: Net, pid: nat)
    requires pid in n.readers && n.readers[pid].pc.AtForward?
    ensures var r, n' := n.readers[pid], Do(n, Forward(pid, false));
            && pid in n'.readers && n'.base == n.base && n'.socks.Keys == n.socks.Keys
            && n'.readers[pid] == r.(pc := if r.pc.i + 1 < FANOUT_PORTS then AtForward(r.pc.m, r.pc.i + 1) else AtRecv)
            && n'.readers == n.readers[pid := n'.readers[pid]]
            && forall p :: p in n.socks ==>
                 n'.socks[p].queue == n.socks[p].queue + if p == FanPort(n.base, r.pc.i) then [Copy(r.pc.m)] else []
  {
  }

  /** The forwards from the i-th on, with nothing in between and nothing lost. */
  function ForwardRest(n: Net, pid: nat, i: nat): (n': Net)
    requires pid in n.readers && n.readers[pid].pc.AtForward? && n.readers[pid].pc.i == i < FANOUT_PORTS
    decreases FANOUT_PORTS - i
  {
    var n1 := Do(n, Forward(pid, false));
    OneForward(n, pid);
    if i + 1 == FANOUT_PORTS then n1 else ForwardRest(n1, pid, i + 1)
  }

  lemma {:induction false} ForwardRestReaches(n: Net, pid: nat, i: nat)
    requires pid in n.readers && n.readers[pid].pc.AtForward? && n.readers[pid].pc.i == i < FANOUT_PORTS
    ensures var m, n' := n.readers[pid].pc.m, ForwardRest(n, pid, i);
            && pid in n'.readers && n'.readers[pid].pc.AtRecv? && n'.socks.Keys == n.socks.Keys
            && forall p :: p in n.socks ==>
                 n'.socks[p].queue ==
                 n.socks[p].queue + if FanPort(n.base, i) <= p < FanPort(n.base, FANOUT_PORTS) then [Copy(m)] else []
    decreases FANOUT_PORTS - i
  {
    hide Do;
    OneForward(n, pid);
    if i + 1 < FANOUT_PORTS {
      ForwardRestReaches(Do(n, Forward(pid, false)), pid, i + 1);
    }
  }

  /** A forward loop that nothing interrupts and nothing loses puts one copy on each target of the forward call. */
  lemma ForwardStepsAreForward(n: Net, pid: nat, nextPromote: int)
    requires Ports(n) && pid in n.readers && n.readers[pid].pc.AtForward? && n.readers[pid].pc.i == 0
    ensures var n', targets := ForwardRest(n, pid, 0), Targets(RelayOf(n, pid, nextPromote));
            && pid in n'.readers && n'.readers[pid].pc.AtRecv? && n'.socks.Keys == n.socks.Keys
            && forall p :: p in n.socks ==>
                 n'.socks[p].queue == n.socks[p].queue + if p in targets then [Copy(n.readers[pid].pc.m)] else []
  {
    assert ReaderFits(n, pid, n.readers[pid]);
    hide Ports, Do, ForwardRest;
    ForwardRestReaches(n, pid, 0);
  }

  // ------------------------------------------------------------ what a promotion in hand can lead to

  lemma {:induction false} ExecConcat(n: Net, a: seq<Action>, b: seq<Action>)
    requires Runnable(n, a) && Runnable(Exec(n, a), b)
    ensures Runnable(n, a + b) && Exec(n, a + b) == Exec(Exec(n, a), b)
    decreases |a|
  {
    hide Enabled, Do;
    if a == [] {
      assert a + b == b;
    } else {
      assert (a + b)[1..] == a[1..] + b;
      ExecConcat(Do(n, a[0]), a[1..], b);
    }
  }

  lemma RunOne(n: Net, a: Action)
    requires Enabled(n, a)
    ensures Runnable(n, [a]) && Exec(n, [a]) == Do(n, a)
  {
    hide Enabled, Do;
    assert [a][1..] == [];
  }

  /** A follower past start-up, ready to receive. */
  ghost predicate Listens(n: Net, o: nat) {
    o in n.readers && n.readers[o].pc.AtRecv? && !n.readers[o].hub && n.readers[o].port in n.socks
  }

  /** One datagram taken from the queue, and no promotion tried. */
  lemma ConsumeOne(n: Net, o: nat, x: nat)
    requires Listens(n, o) && n.socks[n.readers[o].port].queue != []
    ensures Enabled(n, Recv(o)) && Enabled(Do(n, Recv(o)), Promote(o, false))
    ensures var n' := Do(Do(n, Recv(o)), Promote(o, false));
            && Listens(n', o) && n'.readers[o].port == n.readers[o].port
            && n'.socks[n'.readers[o].port].queue == n.socks[n.readers[o].port].queue[1..]
            && Taken(n'.readers[o], x) ==
               Taken(n.readers[o], x) + if n.socks[n.readers[o].port].queue[0].id == x then 1 else 0
  {
  }

  /** A follower that is let to empties its queue and has then consumed all that was in it. */
  lemma {:induction false} ConsumeAll(n: Net, o: nat, x: nat) returns (run: seq<Action>)
    requires Listens(n, o)
    ensures Runnable(n, run) && o in Exec(n, run).readers
    ensures Taken(Exec(n, run).readers[o], x) == Taken(n.readers[o], x) + Waits(n.socks[n.readers[o].port].queue, x)
    decreases |n.socks[n.readers[o].port].queue|
  {
    if n.socks[n.readers[o].port].queue == [] {
      run := [];
    } else {
      ConsumeOne(n, o, x);
      WaitsPop(n.socks[n.readers[o].port].queue, x);
      hide Do, Enabled, Taken;
      var n1 := Do(n, Recv(o));
      var n2 := Do(n1, Promote(o, false));
      var rest := ConsumeAll(n2, o, x);
      RunOne(n, Recv(o));
      RunOne(n1, Promote(o, false));
      ExecConcat(n, [Recv(o)], [Promote(o, false)]);
      ExecConcat(n, [Recv(o)] + [Promote(o, false)], rest);
      run := [Recv(o)] + [Promote(o, false)] + rest;
    }
  }

  /** The forwards from the i-th on reach every follower behind. */
  lemma {:induction false} ForwardAll(n: Net, pid: nat, o: nat, i: nat) returns (run: seq<Action>)
    requires pid in n.readers && n.readers[pid].pc.AtForward? && n.readers[pid].pc.i == i < FANOUT_PORTS
    requires o in n.readers && o != pid && n.readers[o].port in n.socks && IsFanPort(n.base, n.readers[o].port)
    ensures Runnable(n, run)
    ensures var n', q, m := Exec(n, run), n.socks[n.readers[o].port].queue, n.readers[pid].pc.m;
            && o in n'.readers && n'.readers[o] == n.readers[o] && n.readers[o].port in n'.socks
            && n'.socks[n.readers[o].port].queue ==
               q + if n.readers[o].port >= FanPort(n.base, i) then [Copy(m)] else []
    decreases FANOUT_PORTS - i
  {
    OneForward(n, pid);
    assert Enabled(n, Forward(pid, false));
    RunOne(n, Forward(pid, false));
    hide Do, Enabled;
    var n1 := Do(n, Forward(pid, false));
    if i + 1 == FANOUT_PORTS {
      run := [Forward(pid, false)];
    } else {
      var rest := ForwardAll(n1, pid, o, i + 1);
      ExecConcat(n, [Forward(pid, false)], rest);
      run := [Forward(pid, false)] + rest;
    }
  }

  lemma CloseOldForwards(n: Net, pid: nat, o: nat)
    requires Ports(n) && pid in n.readers && n.readers[pid].pc.Closing? && n.readers[pid].pc.held.Some?
    requires o in n.readers && o != pid && !n.readers[o].pc.Opening?
    ensures Enabled(n, CloseOld(pid))
    ensures var n' := Do(n, CloseOld(pid));
            && pid in n'.readers && n'.readers[pid].pc == AtForward(n.readers[pid].pc.held.value, 0)
            && n'.base == n.base && o in n'.readers && n'.readers[o] == n.readers[o] && !n.readers[o].hub
            && (n.readers[o].pc.AtRecv? || n.readers[o].pc.AtPromote?)
            && n.readers[o].port in n.socks && n.readers[o].port in n'.socks && IsFanPort(n.base, n.readers[o].port)
            && n'.socks[n.readers[o].port] == n.socks[n.readers[o].port]
  {
    assert ReaderFits(n, pid, n.readers[pid]) && ReaderFits(n, o, n.readers[o]);
  }

  lemma BackToReceiving(n: Net, o: nat, x: nat) returns (run: seq<Action>)
    requires o in n.readers && !n.readers[o].hub && n.readers[o].port in n.socks
    requires n.readers[o].pc.AtRecv? || n.readers[o].pc.AtPromote?
    ensures Runnable(n, run) && Listens(Exec(n, run), o)
    ensures var n' := Exec(n, run);
            && n'.readers[o].port == n.readers[o].port && n'.socks == n.socks
            && Taken(n'.readers[o], x) == Taken(n.readers[o], x)
  {
    if n.readers[o].pc.AtRecv? {
      run := [];
    } else {
      RunOne(n, Promote(o, false));
      run := [Promote(o, false)];
    }
  }

  /**
   * The converse of consuming at most once: whenever a reader has taken the relay port
   * with a datagram in hand, every other follower has a continuation on which it
   * consumes that datagram once more than it has or was going to.
   */
  lemma HeldDatagramCanComeAgain(n: Net, pid: nat, o: nat) returns (run: seq<Action>)
    requires Ports(n) && pid in n.readers && n.readers[pid].pc.Closing? && n.readers[pid].pc.held.Some?
    requires o in n.readers && o != pid && !n.readers[o].pc.Opening?
    ensures Runnable(n, run) && o in Exec(n, run).readers
    ensures var x := n.readers[pid].pc.held.value.id;
            Taken(Exec(n, run).readers[o], x) == Seen(n, o, x) + 1
  {
    var m := n.readers[pid].pc.held.value;
    var x, port := m.id, n.readers[o].port;
    CloseOldForwards(n, pid, o);
    RunOne(n, CloseOld(pid));
    hide Do, Enabled, Ports, Runnable, Exec, Waits, Taken;
    var n1 := Do(n, CloseOld(pid));
    var a := ForwardAll(n1, pid, o, 0);
    var n2 := Exec(n1, a);
    WaitsAppend(n.socks[port].queue, Copy(m), x);
    var b := BackToReceiving(n2, o, x);
    var n3 := Exec(n2, b);
    var c := ConsumeAll(n3, o, x);
    ExecConcat(n2, b, c);
    ExecConcat(n1, a, b + c);
    ExecConcat(n, [CloseOld(pid)], a + (b + c));
    run := [CloseOld(pid)] + (a + (b + c));
  }

  // ------------------------------------------------------------ a copy forwarded again

  lemma ReachStep(n: Net, a: Action)
    requires Reachable(n) && Enabled(n, a)
    ensures Reachable(Do(n, a)) && Do(n, a).base == n.base
  {
    var run :| Runnable(Initial(n.base), run) && Exec(Initial(n.base), run) == n;
    Extend(Initial(n.base), run, a);
    assert Do(n, a).base == n.base;
  }

  lemma {:induction false} Extend(n: Net, run: seq<Action>, a: Action)
    requires Runnable(n, run) && Enabled(Exec(n, run), a)
    ensures Runnable(n, run + [a]) && Exec(n, run + [a]) == Do(Exec(n, run), a)
    decreases |run|
  {
    hide Enabled, Do;
    if run == [] {
      assert (run + [a])[1..] == [];
      assert Runnable(n, [a]) && Exec(Do(n, a), []) == Do(n, a);
    } else {
      assert (run + [a])[1..] == run[1..] + [a];
      Extend(Do(n, run[0]), run[1..], a);
    }
  }

  /** Reader 0 on the relay port, 1 and 2 on the first two fan-out ports. */
  lemma ReachThreeReaders(base: int) returns (n: Net)
    ensures Reachable(n) && n.base == base && n.nextId == 0 && n.held == []
    ensures n.socks == map[base := Sock(0, []), base + 2 := Sock(1, []), base + 3 := Sock(2, [])]
    ensures n.readers ==
             map[0 := Reader(AtRecv, base, true, []), 1 := Reader(AtRecv, base + 2, false, []),
                 2 := Reader(AtRecv, base + 3, false, [])]
  {
    hide Reachable;
    n := Initial(base);
    assert Reachable(n) by { Initially(base); }
    ReachStep(n, Start(0)); n := Do(n, Start(0));
    ReachStep(n, TryBind(0)); n := Do(n, TryBind(0));
    ReachStep(n, Start(1)); n := Do(n, Start(1));
    ReachStep(n, TryBind(1)); n := Do(n, TryBind(1));
    ReachStep(n, TryBind(1)); n := Do(n, TryBind(1));
    ReachStep(n, Start(2)); n := Do(n, Start(2));
    ReachStep(n, TryBind(2)); n := Do(n, TryBind(2));
    ReachStep(n, TryBind(2)); n := Do(n, TryBind(2));
    ReachStep(n, TryBind(2)); n := Do(n, TryBind(2));
  }

  lemma Initially(base: int)
    ensures Reachable(Initial(base))
  {
    assert Runnable(Initial(base), []) && Exec(Initial(base), []) == Initial(base);
  }

  lemma ReachReceived(base: int) returns (n: Net)
    ensures Reachable(n) && n.base == base && n.held == []
    ensures n.socks == map[base := Sock(0, []), base + 2 := Sock(1, []), base + 3 := Sock(2, [])]
    ensures n.readers.Keys == {0, 1, 2} && n.readers[0].hub && n.readers[0].pc == AtForward(Datagram(0, 0), 0)
    ensures n.readers[1] == Reader(AtRecv, base + 2, false, []) && n.readers[2] == Reader(AtRecv, base + 3, false, [])
  {
    hide Reachable;
    n := ReachThreeReaders(base);
    ReachStep(n, Arrive(false)); n := Do(n, Arrive(false));
    ReachStep(n, Recv(0)); n := Do(n, Recv(0));
    assert n.socks[base].queue == [];
    ReachStep(n, Promote(0, false)); n := Do(n, Promote(0, false));
  }

  lemma ReachForwarded(base: int) returns (n: Net)
    ensures Reachable(n) && n.base == base && n.held == []
    ensures n.socks ==
            map[base := Sock(0, []), base + 2 := Sock(1, [Datagram(0, 1)]), base + 3 := Sock(2, [Datagram(0, 1)])]
    ensures n.readers.Keys == {0, 1, 2} && n.readers[0].hub
    ensures n.readers[1] == Reader(AtRecv, base + 2, false, []) && n.readers[2] == Reader(AtRecv, base + 3, false, [])
  {
    hide Reachable;
    n := ReachReceived(base);
    ReachStep(n, Forward(0, false)); n := Do(n, Forward(0, false));
    assert n.socks[base + 2].queue == [Datagram(0, 1)];
    ReachStep(n, Forward(0, false)); n := Do(n, Forward(0, false));
    assert n.socks[base + 3].queue == [Datagram(0, 1)];
  }

  /** Reader 2 has consumed a datagram that reader 1 still has in hand. */
  lemma ReachShared(base: int) returns (n: Net)
    ensures Reachable(n) && n.base == base && n.held == []
    ensures n.socks == map[base := Sock(0, []), base + 2 := Sock(1, []), base + 3 := Sock(2, [])]
    ensures n.readers.Keys == {0, 1, 2} && n.readers[0].hub
    ensures n.readers[1] == Reader(AtPromote(Some(Datagram(0, 1))), base + 2, false, [0]) &&
             n.readers[2] == Reader(AtRecv, base + 3, false, [0])
  {
    hide Reachable;
    n := ReachForwarded(base);
    ReachStep(n, Recv(1)); n := Do(n, Recv(1));
    ReachStep(n, Recv(2)); n := Do(n, Recv(2));
    assert n.socks[base + 2].queue == [] && n.socks[base + 3].queue == [];
    ReachStep(n, Promote(2, false)); n := Do(n, Promote(2, false));
  }

  lemma ReachPromoted(base: int) returns (n: Net)
    ensures Reachable(n) && n.base == base && n.held == [0] && n.again == [0]
    ensures n.socks == map[base := Sock(1, []), base + 3 := Sock(2, [])]
    ensures n.readers.Keys == {1, 2}
    ensures n.readers[1] == Reader(AtForward(Datagram(0, 1), 0), base, true, [0]) &&
             n.readers[2] == Reader(AtRecv, base + 3, false, [0])
  {
    hide Reachable;
    n := ReachShared(base);
    ReachStep(n, Exit(0)); n := Do(n, Exit(0));
    ReachStep(n, Promote(1, true)); n := Do(n, Promote(1, true));
    ReachStep(n, CloseOld(1)); n := Do(n, CloseOld(1));
    ForwardedAgainIffHeldAtPromotion(n);
  }

  /**
   * The hub exits while reader 1 has a copy in hand; reader 1 is promoted, forwards
   * the copy again, and reader 2 consumes it a second time.
   */
  lemma CopyConsumedTwice(base: int) returns (n: Net)
    ensures Reachable(n) && n.held == [0] && n.again == [0]
    ensures 2 in n.readers && n.readers[2].consumed == [0, 0]
  {
    hide Reachable;
    n := ReachPromoted(base);
    ReachStep(n, Forward(1, false)); n := Do(n, Forward(1, false));
    ReachStep(n, Forward(1, false)); n := Do(n, Forward(1, false));
    assert n.socks[base + 3].queue == [Datagram(0, 2)];
    ReachStep(n, Recv(2)); n := Do(n, Recv(2));
  }
}
