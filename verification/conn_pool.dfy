/**
 The engine connection pool of pkg/proxy/connpool.go. The value functions Borrow, Release and
 CloseAll are the sections the mutex protects; the class runs them on its own fields and the
 interleaving model runs them as atomic steps of any number of exchanges.
 */
module ConnPools {
  import opened Wrappers
  import opened Messages

  /** A connection's identity. */
  type Conn = nat

  datatype Network = Udp | Tcp

  datatype Pool = Pool(closed: bool, maxPerNetwork: nat, udp: seq<Conn>, tcp: seq<Conn>) {
    function Conns(n: Network): seq<Conn> {
      match n case Udp => udp case Tcp => tcp
    }

    function With(n: Network, conns: seq<Conn>): Pool {
      match n case Udp => this.(udp := conns) case Tcp => this.(tcp := conns)
    }
  }

  datatype Borrowed = PoolClosed | Reuse(conn: Conn) | MustDial

  function NormalizeNetwork(network: string): (n: Network)
    ensures n.Tcp? <==> network == "tcp"
  {
    if network == "tcp" then Tcp else Udp
  }

  /** The most recently released connection is reused first. */
  function Borrow(p: Pool, n: Network): (Pool, Borrowed) {
    var idle := p.Conns(n);
    if p.closed then (p, PoolClosed)
    else if |idle| > 0 then (p.With(n, idle[..|idle| - 1]), Reuse(idle[|idle| - 1]))
    else (p, MustDial)
  }

  predicate Keeps(p: Pool, n: Network) {
    !p.closed && |p.Conns(n)| < p.maxPerNetwork
  }

  /** A connection the pool cannot keep is closed by the release. */
  function Release(p: Pool, n: Network, c: Conn): Pool {
    if Keeps(p, n) then p.With(n, p.Conns(n) + [c]) else p
  }

  /**
   A whole exchange: the new pool, the response, and whether its connection was closed. `dialled`
   and `answer` are what the dial and the round trip return.
   */
  function Exchanged(p: Pool, network: string, request: Option<Msg>, dialled: Option<Conn>, answer: Option<Msg>)
    : (Pool, Option<Msg>, bool)
  {
    var n := NormalizeNetwork(network);
    var (borrowed, b) := Borrow(p, n);
    var conn := if b.Reuse? then Some(b.conn) else if b.MustDial? then dialled else None;
    if request.None? then (p, None, false)
    else if conn.None? then (borrowed, None, false)
    else if answer.None? then (borrowed, None, true)
    else (Release(borrowed, n, conn.value), answer, !Keeps(borrowed, n))
  }

  /** A connection released with room to keep it is idle, and is the next one its network hands out. */
  lemma ReleasedIsReusedNext(p: Pool, n: Network, c: Conn)
    requires !p.closed && |p.Conns(n)| < p.maxPerNetwork
    ensures var kept := Release(p, n, c);
            c in kept.Conns(n) && |kept.Conns(n)| == |p.Conns(n)| + 1 && Borrow(kept, n) == (p, Reuse(c))
            && forall m :: m != n ==> kept.Conns(m) == p.Conns(m)
  {
    var kept := Release(p, n, c);
    assert kept.Conns(n) == p.Conns(n) + [c];
    assert kept.Conns(n)[..|p.Conns(n)|] == p.Conns(n);
  }

  /** An open network without idle connections dials; a closed pool neither hands out nor keeps anything. */
  lemma NothingToReuse(p: Pool, n: Network, c: Conn)
    ensures !p.closed && p.Conns(n) == [] ==> Borrow(p, n) == (p, MustDial)
    ensures p.closed ==> Borrow(p, n) == (p, PoolClosed) && Release(p, n, c) == p
    ensures |p.Conns(n)| >= p.maxPerNetwork ==> Release(p, n, c) == p
  {
  }

  function CloseAll(p: Pool): Pool {
    p.(closed := true, udp := [], tcp := [])
  }

  function Idle(p: Pool): multiset<Conn> {
    multiset(p.udp) + multiset(p.tcp)
  }

  class EngineConnPool {
    const maxPerNetwork: nat
    var closed: bool
    var conns: map<Network, seq<Conn>>

    ghost predicate Valid()
      reads this
    {
      Udp in conns && Tcp in conns
    }

    ghost function View(): Pool
      requires Valid()
      reads this
    {
      Pool(closed, maxPerNetwork, conns[Udp], conns[Tcp])
    }

    constructor (maxPerNetwork: int)
      ensures Valid() && !closed && Idle(View()) == multiset{}
      ensures this.maxPerNetwork == if maxPerNetwork <= 0 then 1 else maxPerNetwork
    {
      this.maxPerNetwork := if maxPerNetwork <= 0 then 1 else maxPerNetwork;
      closed, conns := false, map[Udp := [], Tcp := []];
    }

    method BorrowConn(n: Network) returns (r: Borrowed)
      requires Valid()
      modifies this
      ensures Valid() && (View(), r) == Borrow(old(View()), n)
    {
      if closed {
        return PoolClosed;
      }
      var pool := conns[n];
      if |pool| > 0 {
        var conn := pool[|pool| - 1];
        conns := conns[n := pool[..|pool| - 1]];
        return Reuse(conn);
      }
      return MustDial;
    }

    /** Returns whether the connection was closed rather than kept. */
    method ReleaseConn(n: Network, conn: Conn) returns (closedConn: bool)
      requires Valid()
      modifies this
      ensures Valid() && View() == Release(old(View()), n, conn)
      ensures closedConn == !Keeps(old(View()), n)
    {
      if closed {
        return true;
      }
      var pool := conns[n];
      if |pool| >= maxPerNetwork {
        return true;
      }
      conns := conns[n := pool + [conn]];
      return false;
    }

    /** Ranges over the networks in an arbitrary order; returns the connections it closed. */
    method Close() returns (closedConns: seq<Conn>)
      requires Valid()
      modifies this
      ensures Valid() && View() == CloseAll(old(View()))
      ensures multiset(closedConns) == Idle(old(View()))
    {
      hide Idle;
      closed := true;
      closedConns := [];
      SameIdle(old(View()), View());
      var pending := conns.Keys;
      while pending != {}
        invariant pending <= conns.Keys && closed && Valid()
        invariant forall n :: n in conns && n !in pending ==> conns[n] == []
        invariant multiset(closedConns) + Idle(View()) == Idle(old(View()))
        decreases |pending|
      {
        var network :| network in pending;
        pending := pending - {network};
        closedConns := CloseNetwork(network, closedConns);
      }
      NoneIdle(View());
    }

    /** One turn of the outer loop. */
    method CloseNetwork(network: Network, before: seq<Conn>) returns (closedConns: seq<Conn>)
      requires Valid() && closed
      modifies this`conns
      ensures Valid() && View() == old(View()).With(network, [])
      ensures conns.Keys == old(conns).Keys && forall n :: n in conns && n != network ==> conns[n] == old(conns)[n]
      ensures multiset(closedConns) + Idle(View()) == multiset(before) + Idle(old(View()))
    {
      EmptyingOne(View(), network);
      hide Idle;
      closedConns := CloseEach(conns[network], before);
      conns := conns[network := []];
    }

    static lemma SameIdle(p: Pool, q: Pool)
      requires p.udp == q.udp && p.tcp == q.tcp
      ensures Idle(p) == Idle(q)
    {
    }

    static lemma NoneIdle(p: Pool)
      requires p.udp == p.tcp == []
      ensures Idle(p) == multiset{}
    {
    }

    static lemma EmptyingOne(p: Pool, n: Network)
      ensures Idle(p) == multiset(p.Conns(n)) + Idle(p.With(n, []))
    {
    }

    /** The inner loop: closes one network's connections in order. */
    static method CloseEach(pool: seq<Conn>, before: seq<Conn>) returns (closedConns: seq<Conn>)
      ensures closedConns == before + pool
    {
      closedConns := before;
      for i := 0 to |pool|
        invariant closedConns == before + pool[..i]
      {
        closedConns := closedConns + [pool[i]];
      }
    }

    /** Exchange, with no other exchange in between. */
    method Exchange(network: string, request: Option<Msg>, dialled: Option<Conn>, answer: Option<Msg>)
      returns (response: Option<Msg>, closedConn: bool)
      requires Valid()
      modifies this
      ensures Valid()
      ensures (View(), response, closedConn) == Exchanged(old(View()), network, request, dialled, answer)
    {
      if request.None? {
        return None, false;
      }
      var n := NormalizeNetwork(network);
      var b := BorrowConn(n);
      if b.PoolClosed? || (b.MustDial? && dialled.None?) {
        return None, false;
      }
      if answer.None? {
        return None, true;
      }
      closedConn := ReleaseConn(n, if b.Reuse? then b.conn else dialled.value);
      return answer, closedConn;
    }
  }

  // ---------------------------------------------------------------- all interleavings

  /** Where one exchange stands. */
  datatype Phase =
    | Started(net: Network)              // before borrow takes the lock
    | Dialing(net: Network)              // outside the lock
    | Exchanging(net: Network, conn: Conn)
    | Releasing(net: Network, conn: Conn)  // answered, before release takes the lock
    | Done(answered: bool)

  /** The pool, its exchanges, every connection ever dialled, and every Close call on one. */
  datatype System = System(
    pool: Pool, exchanges: map<nat, Phase>, dialled: map<Conn, Network>, closed: multiset<Conn>)

  datatype Step =
    | Begin(id: nat, net: Network)
    | BorrowStep(id: nat)
    | DialOk(id: nat, conn: Conn)
    | DialFails(id: nat)
    | RoundTripOk(id: nat)
    | RoundTripFails(id: nat)
    | ReleaseStep(id: nat)
    | ClosePool

  ghost predicate Enabled(s: System, step: Step) {
    match step
    case Begin(id, _) => id !in s.exchanges
    case BorrowStep(id) => id in s.exchanges && s.exchanges[id].Started?
    case DialOk(id, conn) => id in s.exchanges && s.exchanges[id].Dialing? && conn !in s.dialled
    case DialFails(id) => id in s.exchanges && s.exchanges[id].Dialing?
    case RoundTripOk(id) => id in s.exchanges && s.exchanges[id].Exchanging?
    case RoundTripFails(id) => id in s.exchanges && s.exchanges[id].Exchanging?
    case ReleaseStep(id) => id in s.exchanges && s.exchanges[id].Releasing?
    case ClosePool => true
  }

  ghost function To(s: System, id: nat, phase: Phase): System {
    s.(exchanges := s.exchanges[id := phase])
  }

  ghost function Apply(s: System, step: Step): System
    requires Enabled(s, step)
  {
    match step
    case Begin(id, net) => To(s, id, Started(net))
    case BorrowStep(id) =>
      var net := s.exchanges[id].net;
      var (pool, b) := Borrow(s.pool, net);
      To(s.(pool := pool), id,
         match b case PoolClosed => Done(false) case Reuse(c) => Exchanging(net, c) case MustDial => Dialing(net))
    case DialOk(id, conn) =>
      var net := s.exchanges[id].net;
      To(s.(dialled := s.dialled[conn := net]), id, Exchanging(net, conn))
    case DialFails(id) => To(s, id, Done(false))
    case RoundTripOk(id) => To(s, id, Releasing(s.exchanges[id].net, s.exchanges[id].conn))
    case RoundTripFails(id) => To(s.(closed := s.closed + multiset{s.exchanges[id].conn}), id, Done(false))
    case ReleaseStep(id) =>
      var net, conn := s.exchanges[id].net, s.exchanges[id].conn;
      var closed := if Keeps(s.pool, net) then s.closed else s.closed + multiset{conn};
      To(s.(pool := Release(s.pool, net, conn), closed := closed), id, Done(true))
    case ClosePool => s.(pool := CloseAll(s.pool), closed := s.closed + Idle(s.pool))
  }

  ghost predicate Holds(s: System, id: nat, c: Conn) {
    id in s.exchanges && (s.exchanges[id].Exchanging? || s.exchanges[id].Releasing?) && s.exchanges[id].conn == c
  }

  ghost predicate Held(s: System, c: Conn) {
    exists id :: Holds(s, id, c)
  }

  /** How many places a connection is in: idle, held by an exchange, closed. */
  ghost function Places(s: System, c: Conn): nat
  {
    Idle(s.pool)[c] + (if Held(s, c) then 1 else 0) + s.closed[c]
  }

  ghost predicate OnePlaceEach(s: System)
  {
    forall c: Conn :: Places(s, c) == if c in s.dialled then 1 else 0
  }

  ghost predicate OneHolderEach(s: System) {
    forall i, j, c :: Holds(s, i, c) && Holds(s, j, c) ==> i == j
  }

  ghost predicate OwnNetwork(s: System)
  {
    && (forall n, c :: c in s.pool.Conns(n) ==> c in s.dialled && s.dialled[c] == n)
    && (forall i, c :: Holds(s, i, c) ==> c in s.dialled && s.dialled[c] == s.exchanges[i].net)
  }

  ghost predicate Inv(s: System) {
    && OnePlaceEach(s) && OneHolderEach(s) && OwnNetwork(s)
    && (forall n :: |s.pool.Conns(n)| <= s.pool.maxPerNetwork)
    && (s.pool.closed ==> s.pool.udp == s.pool.tcp == [])
  }

  ghost predicate Initial(s: System) {
    !s.pool.closed && s.pool.udp == s.pool.tcp == []
    && s.exchanges == map[] && s.dialled == map[] && s.closed == multiset{}
  }

  ghost predicate IsRun(s: System, steps: seq<Step>)
    decreases |steps|, 0
  {
    steps == [] ||
    (IsRun(s, steps[..|steps| - 1]) && Enabled(Run(s, steps[..|steps| - 1]), steps[|steps| - 1]))
  }

  ghost function Run(s: System, steps: seq<Step>): System
    requires IsRun(s, steps)
    decreases |steps|, 1
  {
    if steps == [] then s else Apply(Run(s, steps[..|steps| - 1]), steps[|steps| - 1])
  }

  // Only the moving exchange changes what it holds.

  ghost predicate OnlyMoves(s: System, s': System, id: nat) {
    && (forall j :: j != id ==> (j in s.exchanges <==> j in s'.exchanges))
    && (forall j :: j != id && j in s.exchanges ==> s'.exchanges[j] == s.exchanges[j])
  }

  lemma TakesHold(s: System, s': System, id: nat, conn: Conn)
    requires OnlyMoves(s, s', id) && OneHolderEach(s) && !Held(s, conn)
    requires Holds(s', id, conn) && forall c :: !Holds(s, id, c)
    ensures OneHolderEach(s') && forall c :: Held(s', c) <==> Held(s, c) || c == conn
    ensures forall j, c :: Holds(s', j, c) <==> if j == id then c == conn else Holds(s, j, c)
  {
    forall j, c ensures Holds(s', j, c) <==> if j == id then c == conn else Holds(s, j, c) {}
  }

  lemma LetsGo(s: System, s': System, id: nat, conn: Conn)
    requires OnlyMoves(s, s', id) && OneHolderEach(s)
    requires Holds(s, id, conn) && forall c :: !Holds(s', id, c)
    ensures OneHolderEach(s') && Held(s, conn) && forall c :: Held(s', c) <==> Held(s, c) && c != conn
    ensures forall j, c :: Holds(s', j, c) <==> j != id && Holds(s, j, c)
  {
    forall j, c ensures Holds(s', j, c) <==> j != id && Holds(s, j, c) {}
    forall c ensures Held(s', c) <==> Held(s, c) && c != conn {
      if Held(s, c) && c != conn {
        var j :| Holds(s, j, c);
        assert Holds(s', j, c);
      }
    }
  }

  lemma IdleAfterBorrow(p: Pool, n: Network)
    requires Borrow(p, n).1.Reuse?
    ensures Idle(p) == Idle(Borrow(p, n).0) + multiset{Borrow(p, n).1.conn}
    ensures Borrow(p, n).1.conn in p.Conns(n)
  {
    var idle := p.Conns(n);
    assert idle == idle[..|idle| - 1] + [idle[|idle| - 1]];
  }

  lemma ReusePlaces(s: System, id: nat)
    requires Inv(s) && Enabled(s, BorrowStep(id)) && Borrow(s.pool, s.exchanges[id].net).1.Reuse?
    ensures OnePlaceEach(Apply(s, BorrowStep(id))) && OneHolderEach(Apply(s, BorrowStep(id)))
    ensures var c := Borrow(s.pool, s.exchanges[id].net).1.conn;
            !Held(s, c) && Holds(Apply(s, BorrowStep(id)), id, c)
  {
    var s', net := Apply(s, BorrowStep(id)), s.exchanges[id].net;
    var conn := Borrow(s.pool, net).1.conn;
    IdleAfterBorrow(s.pool, net);
    assert Idle(s.pool)[conn] >= 1 && Places(s, conn) == 1;
    TakesHold(s, s', id, conn);
    forall c ensures Places(s', c) == Places(s, c) {}
  }

  lemma ConnsAfterWith(p: Pool, n: Network, conns: seq<Conn>)
    ensures forall m :: p.With(n, conns).Conns(m) == if m == n then conns else p.Conns(m)
  {
  }

  lemma NoReusePlaces(s: System, id: nat)
    requires Inv(s) && Enabled(s, BorrowStep(id)) && !Borrow(s.pool, s.exchanges[id].net).1.Reuse?
    ensures Inv(Apply(s, BorrowStep(id)))
  {
    var s' := Apply(s, BorrowStep(id));
    forall i, c ensures Holds(s', i, c) <==> Holds(s, i, c) {}
    forall c ensures Held(s', c) <==> Held(s, c) {}
    forall c ensures Places(s', c) == Places(s, c) {}
  }

  lemma BorrowStepKeepsInv(s: System, id: nat)
    requires Inv(s) && Enabled(s, BorrowStep(id))
    ensures Inv(Apply(s, BorrowStep(id)))
  {
    var s', net := Apply(s, BorrowStep(id)), s.exchanges[id].net;
    if Borrow(s.pool, net).1.Reuse? {
      var idle := s.pool.Conns(net);
      ReusePlaces(s, id);
      TakesHold(s, s', id, Borrow(s.pool, net).1.conn);
      ConnsAfterWith(s.pool, net, idle[..|idle| - 1]);
      assert idle[|idle| - 1] in idle;
    } else {
      NoReusePlaces(s, id);
    }
  }

  lemma DialOkKeepsInv(s: System, id: nat, conn: Conn)
    requires Inv(s) && Enabled(s, DialOk(id, conn))
    ensures Inv(Apply(s, DialOk(id, conn)))
  {
    var s' := Apply(s, DialOk(id, conn));
    assert Places(s, conn) == 0;
    TakesHold(s, s', id, conn);
    forall c ensures Places(s', c) == if c == conn then 1 else Places(s, c) {}
  }

  lemma RoundTripFailsKeepsInv(s: System, id: nat)
    requires Inv(s) && Enabled(s, RoundTripFails(id))
    ensures Inv(Apply(s, RoundTripFails(id)))
  {
    var s', conn := Apply(s, RoundTripFails(id)), s.exchanges[id].conn;
    LetsGo(s, s', id, conn);
    forall c ensures Places(s', c) == Places(s, c) {}
  }

  lemma ReleasePlaces(s: System, id: nat)
    requires Inv(s) && Enabled(s, ReleaseStep(id))
    ensures OnePlaceEach(Apply(s, ReleaseStep(id))) && OneHolderEach(Apply(s, ReleaseStep(id)))
  {
    hide Release, Idle, OnePlaceEach, OneHolderEach, OwnNetwork, Keeps;
    var s', net, conn := Apply(s, ReleaseStep(id)), s.exchanges[id].net, s.exchanges[id].conn;
    LetsGo(s, s', id, conn);
    IdleAfterRelease(s.pool, net, conn);
    MovedBetweenBags(s, s', conn);
  }

  /** The connection let go is now idle or closed, and nothing else moved. */
  lemma MovedBetweenBags(s: System, s': System, conn: Conn)
    requires OnePlaceEach(s) && s'.dialled == s.dialled && Held(s, conn)
    requires forall c :: Held(s', c) <==> Held(s, c) && c != conn
    requires Idle(s'.pool) + s'.closed == Idle(s.pool) + s.closed + multiset{conn}
    ensures OnePlaceEach(s')
  {
    forall c ensures Places(s', c) == Places(s, c) {
      assert (Idle(s'.pool) + s'.closed)[c] == (Idle(s.pool) + s.closed + multiset{conn})[c];
    }
  }

  lemma IdleAfterRelease(p: Pool, n: Network, c: Conn)
    ensures Idle(Release(p, n, c)) == if Keeps(p, n) then Idle(p) + multiset{c} else Idle(p)
  {
  }

  lemma ReleaseNetworks(s: System, id: nat)
    requires Inv(s) && Enabled(s, ReleaseStep(id))
    ensures OwnNetwork(Apply(s, ReleaseStep(id)))
  {
    var s', net, conn := Apply(s, ReleaseStep(id)), s.exchanges[id].net, s.exchanges[id].conn;
    assert Holds(s, id, conn);
    LetsGo(s, s', id, conn);
    ConnsAfterWith(s.pool, net, s.pool.Conns(net) + [conn]);
  }

  lemma ReleaseStepKeepsInv(s: System, id: nat)
    requires Inv(s) && Enabled(s, ReleaseStep(id))
    ensures Inv(Apply(s, ReleaseStep(id)))
  {
    ReleasePlaces(s, id);
    ReleaseNetworks(s, id);
    var net := s.exchanges[id].net;
    ConnsAfterWith(s.pool, net, s.pool.Conns(net) + [s.exchanges[id].conn]);
  }

  /** Same pool, dials and closes, and every exchange holds what it held. */
  lemma NothingMoved(s: System, s': System)
    requires Inv(s) && s' == s.(exchanges := s'.exchanges)
    requires forall i, c :: Holds(s', i, c) <==> Holds(s, i, c)
    requires forall i, c :: Holds(s, i, c) && Holds(s', i, c) ==> s'.exchanges[i].net == s.exchanges[i].net
    ensures Inv(s')
  {
    forall c ensures Held(s', c) <==> Held(s, c) {}
    forall c ensures Places(s', c) == Places(s, c) {}
  }

  lemma QuietStepKeepsInv(s: System, step: Step)
    requires Inv(s) && Enabled(s, step) && (step.Begin? || step.DialFails? || step.RoundTripOk?)
    ensures Inv(Apply(s, step))
  {
    hide Inv;
    var s' := Apply(s, step);
    forall i, c ensures Holds(s', i, c) <==> Holds(s, i, c) {}
    NothingMoved(s, s');
  }

  lemma ClosePoolKeepsInv(s: System)
    requires Inv(s)
    ensures Inv(Apply(s, ClosePool))
  {
    var s' := Apply(s, ClosePool);
    forall i, c ensures Holds(s', i, c) <==> Holds(s, i, c) {}
    forall c ensures Held(s', c) <==> Held(s, c) {}
    forall c ensures Places(s', c) == Places(s, c) {}
  }

  lemma StepKeepsInv(s: System, step: Step)
    requires Inv(s) && Enabled(s, step)
    ensures Inv(Apply(s, step))
  {
    match step
    case BorrowStep(id) => BorrowStepKeepsInv(s, id);
    case DialOk(id, conn) => DialOkKeepsInv(s, id, conn);
    case RoundTripFails(id) => RoundTripFailsKeepsInv(s, id);
    case ReleaseStep(id) => ReleaseStepKeepsInv(s, id);
    case ClosePool => ClosePoolKeepsInv(s);
    case _ => QuietStepKeepsInv(s, step);
  }

  /**
   In every reachable state every dialled connection is in exactly one place (idle under its own
   network, held by one exchange, or closed once), no network idles more than the cap, and a
   closed pool idles nothing.
   */
  lemma {:induction false} EveryConnectionInOnePlace(s: System, steps: seq<Step>)
    requires Initial(s) && IsRun(s, steps)
    ensures Inv(Run(s, steps))
  {
    if steps == [] {
      forall c ensures !Held(s, c) && Places(s, c) == 0 {}
    } else {
      EveryConnectionInOnePlace(s, steps[..|steps| - 1]);
      StepKeepsInv(Run(s, steps[..|steps| - 1]), steps[|steps| - 1]);
    }
  }

  lemma {:induction false} ClosedStaysClosed(s: System, steps: seq<Step>, n: nat)
    requires IsRun(s, steps) && n < |steps| && steps[n] == ClosePool
    ensures Run(s, steps).pool.closed
  {
    var past := steps[..|steps| - 1];
    if n < |past| {
      ClosedStaysClosed(s, past, n);
    }
    StepKeepsClosed(Run(s, past), steps[|past|]);
  }

  lemma StepKeepsClosed(s: System, step: Step)
    requires Enabled(s, step) && (s.pool.closed || step == ClosePool)
    ensures Apply(s, step).pool.closed
  {
  }

  /**
   No leak: once Close has run, whenever no exchange is in flight, dials that raced Close
   included, every connection ever dialled has been closed exactly once.
   */
  lemma AfterCloseEverythingIsClosed(s: System, steps: seq<Step>)
    requires Initial(s) && IsRun(s, steps) && ClosePool in steps
    requires forall id :: id in Run(s, steps).exchanges ==> Run(s, steps).exchanges[id].Done?
    ensures Run(s, steps).closed == multiset(Run(s, steps).dialled.Keys)
  {
    var n :| 0 <= n < |steps| && steps[n] == ClosePool;
    ClosedStaysClosed(s, steps, n);
    EveryConnectionInOnePlace(s, steps);
    ClosedAndQuietMeansAllClosed(Run(s, steps));
  }

  /** A closed connection stays where it is: never idle, never held, never closed again. */
  lemma ClosedConnStays(s: System, c: Conn, step: Step)
    requires Inv(s) && Enabled(s, step) && s.closed[c] == 1
    ensures Apply(s, step).closed[c] == 1
  {
    StepKeepsInv(s, step);
    assert Places(s, c) == 1;
    assert Places(Apply(s, step), c) == 1;
  }

  lemma ClosedIsNowhereElse(s: System, c: Conn)
    requires Inv(s) && s.closed[c] == 1
    ensures Idle(s.pool)[c] == 0 && !Held(s, c)
  {
    assert Places(s, c) == 1;
  }

  lemma FailureCloses(s: System, id: nat, c: Conn)
    requires Inv(s) && Enabled(s, RoundTripFails(id)) && Holds(s, id, c)
    ensures Apply(s, RoundTripFails(id)).closed[c] == 1
  {
    assert Held(s, c) && Places(s, c) == 1;
  }

  /** In every run a connection whose round trip failed is closed once and never used again. */
  lemma {:induction false} FailedConnectionNeverReturns(s: System, steps: seq<Step>, n: nat, c: Conn)
    requires Initial(s) && IsRun(s, steps) && n < |steps| && steps[n].RoundTripFails?
    requires IsRun(s, steps[..n]) && Holds(Run(s, steps[..n]), steps[n].id, c)
    ensures var end := Run(s, steps); end.closed[c] == 1 && Idle(end.pool)[c] == 0 && !Held(end, c)
  {
    hide Inv, Initial, Idle, Held, Enabled, Apply;
    var past := steps[..|steps| - 1];
    EveryConnectionInOnePlace(s, past);
    if n < |past| {
      assert past[..n] == steps[..n];
      FailedConnectionNeverReturns(s, past, n, c);
      ClosedConnStays(Run(s, past), c, steps[|past|]);
    } else {
      FailureCloses(Run(s, past), steps[n].id, c);
    }
    EveryConnectionInOnePlace(s, steps);
    ClosedIsNowhereElse(Run(s, steps), c);
  }

  lemma ClosedAndQuietMeansAllClosed(s: System)
    requires Inv(s) && s.pool.closed && forall id :: id in s.exchanges ==> s.exchanges[id].Done?
    ensures s.closed == multiset(s.dialled.Keys)
  {
    forall c ensures s.closed[c] == multiset(s.dialled.Keys)[c] {
      assert !Held(s, c) && Places(s, c) == s.closed[c];
    }
  }

  // ---------------------------------------------------------------- an exchange alone

  function NameOf(n: Network): string {
    if n.Tcp? then "tcp" else "udp"
  }

  lemma OneMoreStep(s: System, steps: seq<Step>, step: Step)
    requires IsRun(s, steps) && Enabled(Run(s, steps), step)
    ensures IsRun(s, steps + [step]) && Run(s, steps + [step]) == Apply(Run(s, steps), step)
  {
  }

  lemma NoStepsYet(s: System)
    ensures IsRun(s, []) && Run(s, []) == s
  {
  }

  ghost predicate OnlyOf(steps: seq<Step>, id: nat, n: Network) {
    forall i :: 0 <= i < |steps| ==>
      !steps[i].ClosePool? && steps[i].id == id && (steps[i].Begin? ==> steps[i].net == n)
  }

  /** Exchanged is what the steps of one exchange do when no other step comes in between. */
  lemma {:induction false} ExchangedIsARun(
    s: System, id: nat, n: Network, request: Msg, dialled: Option<Conn>, answer: Option<Msg>)
    returns (steps: seq<Step>)
    requires id !in s.exchanges && (dialled.Some? ==> dialled.value !in s.dialled)
    ensures IsRun(s, steps) && OnlyOf(steps, id, n)
    ensures var (p, response, closedConn) := Exchanged(s.pool, NameOf(n), Some(request), dialled, answer);
            var end := Run(s, steps);
            && end.pool == p && end.exchanges == s.exchanges[id := Done(response.Some?)]
            && end.dialled.Keys <= s.dialled.Keys + (if dialled.Some? then {dialled.value} else {})
            && |end.closed| == |s.closed| + if closedConn then 1 else 0
  {
    hide Keeps, Release, IsRun, Run, Apply, Enabled;
    steps := BorrowAlone(s, id, n);
    var b := Borrow(s.pool, n).1;
    if b.MustDial? {
      steps := DialAlone(s, steps, id, n, dialled);
    }
    if b.Reuse? || (b.MustDial? && dialled.Some?) {
      steps := RoundTripAlone(s, steps, id, n, answer.Some?);
    }
  }

  lemma BorrowAlone(s: System, id: nat, n: Network) returns (steps: seq<Step>)
    requires id !in s.exchanges
    ensures IsRun(s, steps) && OnlyOf(steps, id, n)
    ensures var (p, b) := Borrow(s.pool, n);
            Run(s, steps) == s.(
              pool := p,
              exchanges := s.exchanges[id := match b case PoolClosed => Done(false)
                                                     case Reuse(c) => Exchanging(n, c)
                                                     case MustDial => Dialing(n)])
  {
    hide Borrow, IsRun, Run;
    NoStepsYet(s);
    OneMoreStep(s, [], Begin(id, n));
    OneMoreStep(s, [] + [Begin(id, n)], BorrowStep(id));
    steps := [] + [Begin(id, n)] + [BorrowStep(id)];
  }

  lemma DialAlone(s: System, past: seq<Step>, id: nat, n: Network, dialled: Option<Conn>) returns (steps: seq<Step>)
    requires IsRun(s, past) && OnlyOf(past, id, n) && id in Run(s, past).exchanges
    requires Run(s, past).exchanges[id] == Dialing(n) && (dialled.Some? ==> dialled.value !in Run(s, past).dialled)
    ensures IsRun(s, steps) && OnlyOf(steps, id, n)
    ensures var s0, end := Run(s, past), Run(s, steps);
            && end.pool == s0.pool && end.closed == s0.closed
            && end.dialled.Keys <= s0.dialled.Keys + (if dialled.Some? then {dialled.value} else {})
            && end.exchanges == s0.exchanges[id := if dialled.Some? then Exchanging(n, dialled.value) else Done(false)]
  {
    hide IsRun, Run;
    var dial := if dialled.Some? then DialOk(id, dialled.value) else DialFails(id);
    OneMoreStep(s, past, dial);
    steps := past + [dial];
  }

  lemma RoundTripAlone(s: System, past: seq<Step>, id: nat, n: Network, answered: bool) returns (steps: seq<Step>)
    requires IsRun(s, past) && id in Run(s, past).exchanges && OnlyOf(past, id, n)
    requires Run(s, past).exchanges[id].Exchanging? && Run(s, past).exchanges[id].net == n
    ensures IsRun(s, steps) && OnlyOf(steps, id, n)
    ensures var s0, end := Run(s, past), Run(s, steps);
            && end.pool == (if answered then Release(s0.pool, n, s0.exchanges[id].conn) else s0.pool)
            && end.exchanges == s0.exchanges[id := Done(answered)] && end.dialled == s0.dialled
            && |end.closed| == |s0.closed| + if answered && Keeps(s0.pool, n) then 0 else 1
  {
    hide Keeps, Release, IsRun, Run;
    if answered {
      OneMoreStep(s, past, RoundTripOk(id));
      OneMoreStep(s, past + [RoundTripOk(id)], ReleaseStep(id));
      steps := past + [RoundTripOk(id)] + [ReleaseStep(id)];
    } else {
      OneMoreStep(s, past, RoundTripFails(id));
      steps := past + [RoundTripFails(id)];
    }
  }
}
