/** Both layers of the receiving side together: bytes arrive on the sockets, the parent cuts and pushes
    packets, the workers' plugins see them.  A call of `net_recv` pushes its packets one by one, and the
    workers and the peers go on meanwhile.  */
module EndToEnd {
  import opened Basics
  import opened Frames
  import S = Sessions
  import I = Inbound

  type Key = S.Key   // fd and generation

  /** What the parent is in the middle of: nothing, a `net_recv` with packets still to push, or exit. */
  datatype Call = Idle | Pushing(k: Key, rest: seq<seq<byte>>) | Ended

  /** Every connection there ever was has a socket; only the open ones are in `net.conns`. */
  datatype System = System(net: S.State, socks: map<Key, I.Sock>, call: Call)

  datatype Step =
    | Outside(fd: nat, e: I.Event)   // the peer, or epoll
    | Read(fd: nat, e: I.Event)      // net_recv starts
    | Push                           // its next packet goes into the ring
    | Return(lost: bool)             // and it ends; a CLOSE it sends may be refused
    | Local(a: S.Action)             // any other step of the protocol

  const NEW_SOCK := I.Sock([], [], [], false, false, false, false, false, [], 0, [], I.Live)

  function KeyOf(net: S.State, fd: nat): Key
    requires fd in net.conns
  {
    (fd, net.conns[fd].gen)
  }

  /** `k` is the open connection on its fd. */
  predicate Open(net: S.State, k: Key) {
    k.0 in net.conns && net.conns[k.0].gen == k.1
  }

  predicate OfWorker(a: S.Action) {
    a.Handle? || a.SendPkg? || a.CloseClient?
  }

  predicate Enabled(x: System, st: Step) {
    !x.call.Ended? &&
    match st
    case Outside(fd, e) =>
      fd in x.net.conns && KeyOf(x.net, fd) in x.socks && I.Enabled(x.socks[KeyOf(x.net, fd)], e) &&
      (e.Arrive? || e.PeerCloses? || (x.call.Idle? && (e.Rearm? || e.Report?)))
    case Read(fd, e) =>
      x.call.Idle? && (e.Input? || e.Poll?) &&
      fd in x.net.conns && KeyOf(x.net, fd) in x.socks && I.Enabled(x.socks[KeyOf(x.net, fd)], e)
    case Push =>
      x.call.Pushing? && x.call.rest != [] && S.Enabled(x.net, S.Deliver(x.call.k.0, x.call.rest[0], true))
    case Return(_) =>
      x.call.Pushing? && x.call.rest == [] && x.call.k in x.socks && S.Enabled(x.net, S.Drop(x.call.k.0))
    case Local(a) =>
      S.Enabled(x.net, a) && !a.Deliver? && (x.call.Idle? || OfWorker(a))
  }

  /** The packets a read has cut. */
  function NewPackets(s: I.Sock, t: I.Sock): seq<seq<byte>> {
    if |s.delivered| <= |t.delivered| then t.delivered[|s.delivered|..] else []
  }

  /** A socket whose connection has gone is dead; one whose connection is to be closed leaves the etin queue. */
  function Followed(net: S.State, net': S.State, k: Key, s: I.Sock): I.Sock {
    if Open(net, k) && !Open(net', k) then s.(status := I.Dead)
    else if Open(net', k) && net'.conns[k.0].closing then s.(etin := false, closing := true)
    else s
  }

  function AllFollowed(net: S.State, net': S.State, socks: map<Key, I.Sock>): map<Key, I.Sock> {
    map k: Key | k in socks :: Followed(net, net', k, socks[k])
  }

  /** The sockets after the parent's or a worker's step; an accepted connection gets a fresh one. */
  function Socks(net: S.State, net': S.State, a: S.Action, socks: map<Key, I.Sock>): map<Key, I.Sock> {
    var followed := AllFollowed(net, net', socks);
    if a.Accept? && a.pushed then followed[(a.fd, net'.gen) := NEW_SOCK] else followed
  }

  function Next(c: I.Config, x: System, st: Step): System
    requires Enabled(x, st)
  {
    match st
    case Outside(fd, e) =>
      var k := KeyOf(x.net, fd);
      x.(socks := x.socks[k := I.Next(c, x.socks[k], e)])
    case Read(fd, e) =>
      var k := KeyOf(x.net, fd);
      var t := I.Next(c, x.socks[k], e);
      x.(socks := x.socks[k := t], call := Pushing(k, NewPackets(x.socks[k], t)))
    case Push =>
      x.(net := S.Next(x.net, S.Deliver(x.call.k.0, x.call.rest[0], true)),
         call := Pushing(x.call.k, x.call.rest[1..]))
    case Return(lost) =>
      match x.socks[x.call.k].status {
        case Live => x.(call := Idle)
        case Exited => x.(call := Ended)
        case Dead => x.(net := S.Next(x.net, Closing(x, lost)), call := Idle)
      }
    case Local(a) =>
      var net' := S.Next(x.net, a);
      x.(net := net', socks := Socks(x.net, net', a, x.socks))
  }

  /** How a failed `net_recv` drops its connection. */
  function Closing(x: System, lost: bool): S.Action
    requires x.call.Pushing?
  {
    if lost then S.DropLost(x.call.k.0) else S.Drop(x.call.k.0)
  }

  /** No CLOSE that matters is lost. */
  predicate Harmless(x: System, st: Step) {
    match st
    case Local(a) => S.Harmless(x.net, a)
    case Return(lost) =>
      x.call.Pushing? && x.call.k in x.socks && x.socks[x.call.k].status == I.Dead ==>
        S.Harmless(x.net, Closing(x, lost))
    case _ => true
  }

  // ----- what a protocol step does to connections and framed packets -----

  predicate SameFramed(net: S.State, net': S.State) {
    |net'.workers| == |net.workers| &&
    forall j :: 0 <= j < |net.workers| ==> net'.workers[j].framed == net.workers[j].framed
  }

  /** Only a delivery frames a packet. */
  lemma FramesNothing(net: S.State, a: S.Action)
    requires S.Enabled(net, a) && !(a.Deliver? && a.pushed)
    ensures SameFramed(net, S.Next(net, a))
  {
    if OfWorker(a) {
      WorkerFramesNothing(net, a);
    } else if a.Output? {
      OutputFramesNothing(net, a.w, a.written);
    } else {
      ParentFramesNothing(net, a);
    }
  }

  lemma WorkerFramesNothing(net: S.State, a: S.Action)
    requires S.Enabled(net, a) && OfWorker(a)
    ensures SameFramed(net, S.Next(net, a))
  {
  }

  lemma OutputFramesNothing(net: S.State, i: nat, written: S.Result)
    requires S.Enabled(net, S.Output(i, written))
    ensures SameFramed(net, S.Next(net, S.Output(i, written)))
  {
  }

  lemma ParentFramesNothing(net: S.State, a: S.Action)
    requires S.Enabled(net, a) && !OfWorker(a) && !a.Output? && !(a.Deliver? && a.pushed)
    ensures SameFramed(net, S.Next(net, a))
  {
  }

  /** Connections may go, but keep their generation and worker and stay on the close queue; none appears. */
  predicate NoNewConns(net: S.State, net': S.State) {
    net.gen <= net'.gen &&
    forall fd :: fd in net'.conns ==>
      fd in net.conns && net'.conns[fd].gen == net.conns[fd].gen &&
      net'.conns[fd].worker == net.conns[fd].worker && (net.conns[fd].closing ==> net'.conns[fd].closing)
  }

  /** None is newly put on the close queue. */
  predicate NoneClosing(net: S.State, net': S.State) {
    forall fd :: fd in net'.conns && fd in net.conns && net'.conns[fd].closing ==> net.conns[fd].closing
  }

  lemma DropsClose(net: S.State, a: S.Action)
    requires S.Enabled(net, a) && (a.Drop? || a.DropLost?)
    ensures NoneClosing(net, S.Next(net, a)) && S.Next(net, a).conns.Keys == net.conns.Keys - {a.fd}
  {
  }

  lemma OpensNothing(net: S.State, a: S.Action)
    requires S.Enabled(net, a) && !(a.Accept? && a.pushed)
    ensures NoNewConns(net, S.Next(net, a))
  {
  }

  /** One connection appears, under a new generation. */
  predicate OneNewConn(net: S.State, net': S.State, fd: nat) {
    fd !in net.conns && net'.gen == net.gen + 1 && fd in net'.conns && net'.conns[fd].gen == net'.gen &&
    net'.conns == net.conns[fd := net'.conns[fd]]
  }

  lemma OpensOne(net: S.State, a: S.Action)
    requires S.Enabled(net, a) && a.Accept? && a.pushed
    ensures OneNewConn(net, S.Next(net, a), a.fd) && !S.Next(net, a).conns[a.fd].closing
  {
  }

  /** A worker's step leaves the connections alone. */
  lemma QuietStep(net: S.State, a: S.Action)
    requires S.Enabled(net, a) && OfWorker(a)
    ensures S.Next(net, a).conns == net.conns && S.Next(net, a).gen == net.gen
  {
  }

  /** Nothing else changes when worker `w` is pushed packet `p` of connection `k`. */
  predicate Framed(net: S.State, net': S.State, w: nat, k: Key, p: seq<byte>) {
    net'.conns == net.conns && net'.gen == net.gen && |net'.workers| == |net.workers| && w < |net.workers| &&
    forall j :: 0 <= j < |net.workers| ==>
      var was := net.workers[j].framed;
      net'.workers[j].framed == if j == w then was[k := S.At(was, k) + [p]] else was
  }

  lemma FramesOne(net: S.State, fd: nat, p: seq<byte>)
    requires S.Enabled(net, S.Deliver(fd, p, true))
    ensures Framed(net, S.Next(net, S.Deliver(fd, p, true)), net.conns[fd].worker, KeyOf(net, fd), p)
  {
  }

  // ----- the invariant -----

  predicate SocksOk(ok: I.Sock -> bool, x: System) {
    forall k: Key :: k in x.socks ==> ok(x.socks[k]) && k.1 <= x.net.gen
  }

  /** Every open connection has a socket, alive unless the parent is just about to drop it, and on the close
      queue with it. */
  predicate ConnsOk(x: System) {
    forall fd :: fd in x.net.conns ==>
      var k := KeyOf(x.net, fd);
      k in x.socks && x.socks[k].closing == x.net.conns[fd].closing &&
      (x.socks[k].status == I.Live || (x.call.Pushing? && x.call.k == k) || x.call.Ended?)
  }

  function Rest(call: Call, k: Key): seq<seq<byte>> {
    if call.Pushing? && call.k == k then call.rest else []
  }

  function Delivered(x: System, k: Key): seq<seq<byte>> {
    if k in x.socks then x.socks[k].delivered else []
  }

  /** What worker `j` was sent for `k` is a part of what the socket delivered. */
  predicate PartOf(x: System, j: nat, k: Key)
    requires j < |x.net.workers|
  {
    S.At(x.net.workers[j].framed, k) <= Delivered(x, k)
  }

  /** And for an open connection it is all of that, except what is still to be pushed. */
  predicate AllOf(x: System, fd: nat)
    requires fd in x.net.conns
  {
    var k, w := KeyOf(x.net, fd), x.net.conns[fd].worker;
    w < |x.net.workers| && S.At(x.net.workers[w].framed, k) + Rest(x.call, k) == Delivered(x, k)
  }

  ghost predicate FramedOk(x: System) {
    (forall j, k: Key :: 0 <= j < |x.net.workers| ==> PartOf(x, j, k)) &&
    (forall fd :: fd in x.net.conns ==> AllOf(x, fd))
  }

  predicate CallOk(x: System) {
    x.call.Pushing? ==> Open(x.net, x.call.k) && x.call.k in x.socks && [] !in x.call.rest
  }

  /** A socket outlives its connection only as a dead one. */
  predicate LiveOk(x: System) {
    forall k: Key :: k in x.socks && x.socks[k].status == I.Live ==> Open(x.net, k)
  }

  ghost predicate Inv(ok: I.Sock -> bool, x: System) {
    SocksOk(ok, x) && ConnsOk(x) && FramedOk(x) && CallOk(x) && LiveOk(x)
  }

  // ----- every kind of step keeps it -----

  lemma OutsideKeeps(ok: I.Sock -> bool, x: System, k: Key, t: I.Sock)
    requires Inv(ok, x) && Open(x.net, k) && ok(t) && t.status == I.Live && t.delivered == Delivered(x, k)
    requires t.closing == x.net.conns[k.0].closing
    ensures Inv(ok, x.(socks := x.socks[k := t]))
  {
    assert k == KeyOf(x.net, k.0) && k in x.socks;
    SameDeliveries(x, x.(socks := x.socks[k := t]));
    OutsideConns(x, k, t);
    OutsideLive(x, k, t);
  }

  lemma OutsideLive(x: System, k: Key, t: I.Sock)
    requires LiveOk(x) && Open(x.net, k)
    ensures LiveOk(x.(socks := x.socks[k := t]))
  {
  }

  lemma OutsideConns(x: System, k: Key, t: I.Sock)
    requires ConnsOk(x) && CallOk(x) && t.status == I.Live && Open(x.net, k) && t.closing == x.net.conns[k.0].closing
    ensures ConnsOk(x.(socks := x.socks[k := t])) && CallOk(x.(socks := x.socks[k := t]))
  {
  }

  /** What is open and framed does not change; sockets may, except in what they delivered. */
  lemma SameDeliveries(x: System, x': System)
    requires FramedOk(x) && SameFramed(x.net, x'.net) && NoNewConns(x.net, x'.net)
    requires forall k: Key :: Delivered(x', k) == Delivered(x, k)
    requires forall k: Key :: Open(x'.net, k) ==> Rest(x'.call, k) == Rest(x.call, k)
    ensures FramedOk(x')
  {
    forall j, k: Key | 0 <= j < |x'.net.workers|
      ensures PartOf(x', j, k)
    {
      assert PartOf(x, j, k);
    }
    forall fd | fd in x'.net.conns
      ensures AllOf(x', fd)
    {
      assert AllOf(x, fd) && Open(x'.net, KeyOf(x'.net, fd));
    }
  }

  lemma ReadFramed(x: System, k: Key, t: I.Sock, packets: seq<seq<byte>>)
    requires FramedOk(x) && Open(x.net, k) && x.call.Idle? && t.delivered == Delivered(x, k) + packets
    ensures FramedOk(x.(socks := x.socks[k := t], call := Pushing(k, packets)))
  {
    var x' := x.(socks := x.socks[k := t], call := Pushing(k, packets));
    forall j, q: Key | 0 <= j < |x.net.workers|
      ensures PartOf(x', j, q)
    {
      assert PartOf(x, j, q);
      PrefixGrows(S.At(x.net.workers[j].framed, q), Delivered(x, q), packets);
    }
    forall fd | fd in x.net.conns
      ensures AllOf(x', fd)
    {
      assert AllOf(x, fd);
      ReadAllOf(x, k, t, packets, fd);
    }
  }

  lemma PrefixGrows<T>(a: seq<T>, b: seq<T>, more: seq<T>)
    requires a <= b
    ensures a <= b + more
  {
  }

  lemma ReadAllOf(x: System, k: Key, t: I.Sock, packets: seq<seq<byte>>, fd: nat)
    requires fd in x.net.conns && AllOf(x, fd) && x.call.Idle? && t.delivered == Delivered(x, k) + packets
    ensures AllOf(x.(socks := x.socks[k := t], call := Pushing(k, packets)), fd)
  {
    assert Rest(x.call, KeyOf(x.net, fd)) == [];
    var framed := S.At(x.net.workers[x.net.conns[fd].worker].framed, KeyOf(x.net, fd));
    assert framed + [] == framed;
  }

  lemma ReadKeeps(ok: I.Sock -> bool, x: System, k: Key, t: I.Sock, packets: seq<seq<byte>>)
    requires Inv(ok, x) && Open(x.net, k) && x.call.Idle? && ok(t)
    requires t.delivered == Delivered(x, k) + packets && [] !in packets && t.closing == x.net.conns[k.0].closing
    ensures Inv(ok, x.(socks := x.socks[k := t], call := Pushing(k, packets)))
  {
    ReadFramed(x, k, t, packets);
    ReadConns(ok, x, k, t, packets);
  }

  lemma ReadConns(ok: I.Sock -> bool, x: System, k: Key, t: I.Sock, packets: seq<seq<byte>>)
    requires SocksOk(ok, x) && ConnsOk(x) && Open(x.net, k) && x.call.Idle? && ok(t) && [] !in packets
    requires t.closing == x.net.conns[k.0].closing
    ensures var x' := x.(socks := x.socks[k := t], call := Pushing(k, packets));
      SocksOk(ok, x') && ConnsOk(x') && CallOk(x')
  {
    assert k == KeyOf(x.net, k.0) && k in x.socks;
  }

  lemma PushKeeps(ok: I.Sock -> bool, x: System, net': S.State)
    requires Inv(ok, x) && x.call.Pushing? && x.call.rest != []
    requires Framed(x.net, net', x.net.conns[x.call.k.0].worker, x.call.k, x.call.rest[0])
    ensures Inv(ok, x.(net := net', call := Pushing(x.call.k, x.call.rest[1..])))
  {
    PushFramed(ok, x, net');
  }

  lemma PushFramed(ok: I.Sock -> bool, x: System, net': S.State)
    requires ConnsOk(x) && FramedOk(x) && CallOk(x) && x.call.Pushing? && x.call.rest != []
    requires Framed(x.net, net', x.net.conns[x.call.k.0].worker, x.call.k, x.call.rest[0])
    ensures FramedOk(x.(net := net', call := Pushing(x.call.k, x.call.rest[1..])))
  {
    var k, p, more := x.call.k, x.call.rest[0], x.call.rest[1..];
    var x' := x.(net := net', call := Pushing(k, more));
    var w := x.net.conns[k.0].worker;
    assert k == KeyOf(x.net, k.0);
    Assoc(S.At(x.net.workers[w].framed, k), [p], more);
    assert AllOf(x, k.0) && [p] + more == x.call.rest;
    forall j, q: Key | 0 <= j < |net'.workers|
      ensures PartOf(x', j, q)
    {
      assert PartOf(x, j, q);
    }
    forall fd | fd in net'.conns
      ensures AllOf(x', fd)
    {
      assert AllOf(x, fd);
    }
  }

  /** The call ends: with the connection alive, or no longer open, or with the process. */
  lemma ReturnKeeps(ok: I.Sock -> bool, x: System, net': S.State, call: Call)
    requires Inv(ok, x) && x.call.Pushing? && x.call.rest == [] && !call.Pushing?
    requires SameFramed(x.net, net') && NoNewConns(x.net, net') && NoneClosing(x.net, net')
    requires call.Ended? || x.socks[x.call.k].status == I.Live || !Open(net', x.call.k)
    requires forall fd :: fd in x.net.conns && fd !in net'.conns ==>
      x.socks[x.call.k].status == I.Dead && fd == x.call.k.0
    ensures Inv(ok, x.(net := net', call := call))
  {
    ReturnConns(x, net', call);
    ReturnFramed(x, net', call);
    ReturnLive(x, net', call);
  }

  lemma ReturnFramed(x: System, net': S.State, call: Call)
    requires FramedOk(x) && x.call.Pushing? && x.call.rest == [] && !call.Pushing?
    requires SameFramed(x.net, net') && NoNewConns(x.net, net')
    ensures FramedOk(x.(net := net', call := call))
  {
    SameDeliveries(x, x.(net := net', call := call));
  }

  lemma ReturnLive(x: System, net': S.State, call: Call)
    requires LiveOk(x) && NoNewConns(x.net, net') && x.call.Pushing? && x.call.k in x.socks && Open(x.net, x.call.k)
    requires forall fd :: fd in x.net.conns && fd !in net'.conns ==>
      x.socks[x.call.k].status == I.Dead && fd == x.call.k.0
    ensures LiveOk(x.(net := net', call := call))
  {
  }

  lemma ReturnConns(x: System, net': S.State, call: Call)
    requires ConnsOk(x) && x.call.Pushing? && !call.Pushing? && NoNewConns(x.net, net') && x.call.k in x.socks
    requires NoneClosing(x.net, net')
    requires call.Ended? || x.socks[x.call.k].status == I.Live || !Open(net', x.call.k)
    ensures ConnsOk(x.(net := net', call := call))
  {
    forall fd | fd in net'.conns
      ensures KeyOf(net', fd) == KeyOf(x.net, fd) && Open(net', KeyOf(net', fd))
    {
    }
  }

  /** Sockets follow their connections; no connection is new. */
  lemma FollowKeeps(ok: I.Sock -> bool, x: System, net': S.State, socks': map<Key, I.Sock>)
    requires Inv(ok, x) && SameFramed(x.net, net') && NoNewConns(x.net, net') && socks'.Keys == x.socks.Keys
    requires x.call.Pushing? ==> net'.conns == x.net.conns
    requires forall k: Key :: k in x.socks ==> socks'[k] == Followed(x.net, net', k, x.socks[k]) && ok(socks'[k])
    ensures Inv(ok, x.(net := net', socks := socks'))
  {
    SameDeliveries(x, x.(net := net', socks := socks'));
    FollowConns(x, net', socks');
    FollowLive(x, net', socks');
  }

  lemma FollowLive(x: System, net': S.State, socks': map<Key, I.Sock>)
    requires LiveOk(x) && socks'.Keys == x.socks.Keys
    requires forall k: Key :: k in x.socks ==> socks'[k] == Followed(x.net, net', k, x.socks[k])
    ensures LiveOk(x.(net := net', socks := socks'))
  {
  }

  lemma FollowConns(x: System, net': S.State, socks': map<Key, I.Sock>)
    requires ConnsOk(x) && NoNewConns(x.net, net') && socks'.Keys == x.socks.Keys
    requires forall k: Key :: k in x.socks ==> socks'[k] == Followed(x.net, net', k, x.socks[k])
    ensures ConnsOk(x.(net := net', socks := socks'))
  {
    forall fd | fd in net'.conns
      ensures KeyOf(net', fd) == KeyOf(x.net, fd) && Open(net', KeyOf(net', fd)) && Open(x.net, KeyOf(net', fd))
    {
    }
  }

  /** One connection is new, with a fresh socket. */
  lemma AcceptKeeps(ok: I.Sock -> bool, x: System, net': S.State, socks': map<Key, I.Sock>, fd: nat)
    requires Inv(ok, x) && x.call.Idle? && SameFramed(x.net, net') && OneNewConn(x.net, net', fd)
    requires net'.conns[fd].worker < |net'.workers| && !net'.conns[fd].closing && ok(NEW_SOCK)
    requires socks'.Keys == x.socks.Keys + {(fd, net'.gen)} && socks'[(fd, net'.gen)] == NEW_SOCK
    requires forall k: Key :: k in x.socks ==> socks'[k] == Followed(x.net, net', k, x.socks[k]) && ok(socks'[k])
    ensures Inv(ok, x.(net := net', socks := socks'))
  {
    AcceptFramed(ok, x, net', socks', fd);
    AcceptConns(x, net', socks', fd);
    AcceptLive(x, net', socks', fd);
  }

  lemma AcceptLive(x: System, net': S.State, socks': map<Key, I.Sock>, fd: nat)
    requires LiveOk(x) && OneNewConn(x.net, net', fd)
    requires socks'.Keys == x.socks.Keys + {(fd, net'.gen)} && socks'[(fd, net'.gen)] == NEW_SOCK
    requires forall k: Key :: k in x.socks ==> socks'[k] == Followed(x.net, net', k, x.socks[k])
    ensures LiveOk(x.(net := net', socks := socks'))
  {
  }

  lemma AcceptConns(x: System, net': S.State, socks': map<Key, I.Sock>, fd: nat)
    requires ConnsOk(x) && x.call.Idle? && OneNewConn(x.net, net', fd) && !net'.conns[fd].closing
    requires socks'.Keys == x.socks.Keys + {(fd, net'.gen)} && socks'[(fd, net'.gen)] == NEW_SOCK
    requires forall k: Key :: k in x.socks ==> socks'[k] == Followed(x.net, net', k, x.socks[k])
    ensures ConnsOk(x.(net := net', socks := socks'))
  {
    forall g | g in x.net.conns
      ensures KeyOf(net', g) == KeyOf(x.net, g) && Open(net', KeyOf(net', g)) && Open(x.net, KeyOf(net', g))
    {
    }
  }

  lemma AcceptFramed(ok: I.Sock -> bool, x: System, net': S.State, socks': map<Key, I.Sock>, fd: nat)
    requires SocksOk(ok, x) && ConnsOk(x) && FramedOk(x) && x.call.Idle?
    requires SameFramed(x.net, net') && OneNewConn(x.net, net', fd) && net'.conns[fd].worker < |net'.workers|
    requires socks'.Keys == x.socks.Keys + {(fd, net'.gen)} && socks'[(fd, net'.gen)] == NEW_SOCK
    requires forall k: Key :: k in x.socks ==> socks'[k] == Followed(x.net, net', k, x.socks[k])
    ensures FramedOk(x.(net := net', socks := socks'))
  {
    var x' := x.(net := net', socks := socks');
    assert forall k: Key :: Delivered(x', k) == Delivered(x, k);
    forall j, k: Key | 0 <= j < |net'.workers|
      ensures PartOf(x', j, k)
    {
      assert PartOf(x, j, k);
    }
    forall g | g in net'.conns
      ensures AllOf(x', g)
    {
      if g != fd {
        assert AllOf(x, g);
      } else {
        assert PartOf(x, net'.conns[fd].worker, (fd, net'.gen));
      }
    }
  }

  // ----- the sockets' own invariant -----

  function Good(c: I.Config): I.Sock -> bool {
    s => I.Inv(c, s)
  }

  lemma {:induction false} PacketsNotEmpty(c: I.Config, s: seq<byte>)
    ensures [] !in I.Greedy(c, s).packets
    decreases |s|
  {
    var n := c.len(s);
    if s == [] || n <= 0 || n > c.max || n > |s| {
    } else {
      PacketsNotEmpty(c, s[n..]);
    }
  }

  lemma NetRecvGrows(c: I.Config, s: I.Sock, room: nat)
    ensures s.delivered <= I.NetRecv(c, s, room).delivered
  {
    assert I.ReadConn(c, s).delivered == s.delivered;
  }

  /** A socket's step only adds to what it has delivered. */
  lemma DeliveredGrows(c: I.Config, s: I.Sock, e: I.Event)
    requires I.Enabled(s, e) && (e.Input? || e.Poll?)
    ensures s.delivered <= I.Next(c, s, e).delivered
  {
    match e
    case Input(room) => NetRecvGrows(c, s.(reported := false), room);
    case Poll(room) => NetRecvGrows(c, s, room);
  }

  lemma OutsideIsQuiet(c: I.Config, s: I.Sock, e: I.Event)
    requires I.Enabled(s, e) && (e.Arrive? || e.PeerCloses? || e.Rearm? || e.Report?)
    ensures I.Next(c, s, e).delivered == s.delivered && I.Next(c, s, e).status == I.Live
    ensures I.Next(c, s, e).closing == s.closing
  {
  }

  lemma OutsideSock(c: I.Config, s: I.Sock, e: I.Event)
    requires c.Valid() && I.PrefixStable(c.len) && Good(c)(s) && I.Enabled(s, e)
    ensures Good(c)(I.Next(c, s, e))
  {
    I.StepKeeps(c, s, e);
  }

  lemma ReadKeepsClosing(c: I.Config, s: I.Sock, e: I.Event)
    requires I.Enabled(s, e) && (e.Input? || e.Poll?)
    ensures I.Next(c, s, e).closing == s.closing
  {
  }

  lemma ReadSock(c: I.Config, s: I.Sock, e: I.Event)
    requires c.Valid() && I.PrefixStable(c.len) && Good(c)(s) && I.Enabled(s, e) && (e.Input? || e.Poll?)
    ensures var t := I.Next(c, s, e);
      Good(c)(t) && t.delivered == s.delivered + NewPackets(s, t) && [] !in NewPackets(s, t) &&
      t.closing == s.closing
  {
    var t := I.Next(c, s, e);
    I.StepKeeps(c, s, e);
    DeliveredGrows(c, s, e);
    ReadKeepsClosing(c, s, e);
    PacketsNotEmpty(c, t.taken);
    NoneEmpty(s.delivered, t.delivered, I.Greedy(c, t.taken).packets);
  }

  lemma NoneEmpty(a: seq<seq<byte>>, b: seq<seq<byte>>, all: seq<seq<byte>>)
    requires a <= b <= all && [] !in all
    ensures [] !in b[|a|..] && b == a + b[|a|..]
  {
  }

  lemma NewSock(c: I.Config)
    requires c.Valid()
    ensures Good(c)(NEW_SOCK)
  {
  }

  /** Being closed, or about to be, does no harm to a socket. */
  lemma FollowedSock(c: I.Config, net: S.State, net': S.State, k: Key, s: I.Sock)
    requires Good(c)(s)
    ensures Good(c)(Followed(net, net', k, s))
  {
  }

  // ----- runs -----

  lemma FollowedSocks(c: I.Config, net: S.State, net': S.State, socks: map<Key, I.Sock>)
    requires forall k: Key :: k in socks ==> Good(c)(socks[k])
    ensures forall k: Key :: k in socks ==> Good(c)(AllFollowed(net, net', socks)[k])
  {
    forall k: Key | k in socks
      ensures Good(c)(AllFollowed(net, net', socks)[k])
    {
      FollowedSock(c, net, net', k, socks[k]);
    }
  }

  lemma LocalOther(c: I.Config, x: System, net': S.State)
    requires Inv(Good(c), x) && SameFramed(x.net, net') && NoNewConns(x.net, net')
    requires x.call.Pushing? ==> net'.conns == x.net.conns
    ensures Inv(Good(c), x.(net := net', socks := AllFollowed(x.net, net', x.socks)))
  {
    FollowedSocks(c, x.net, net', x.socks);
    FollowKeeps(Good(c), x, net', AllFollowed(x.net, net', x.socks));
  }

  lemma LocalAccept(c: I.Config, x: System, net': S.State, fd: nat)
    requires c.Valid() && Inv(Good(c), x) && x.call.Idle? && SameFramed(x.net, net') && OneNewConn(x.net, net', fd)
    requires net'.conns[fd].worker < |net'.workers| && !net'.conns[fd].closing
    ensures Inv(Good(c), x.(net := net', socks := AllFollowed(x.net, net', x.socks)[(fd, net'.gen) := NEW_SOCK]))
  {
    NewSock(c);
    FollowedSocks(c, x.net, net', x.socks);
    assert (fd, net'.gen) !in x.socks;
    AcceptKeeps(Good(c), x, net', AllFollowed(x.net, net', x.socks)[(fd, net'.gen) := NEW_SOCK], fd);
  }

  lemma LocalKeeps(c: I.Config, x: System, a: S.Action)
    requires c.Valid() && Inv(Good(c), x) && Enabled(x, Local(a))
    ensures Inv(Good(c), Next(c, x, Local(a)))
  {
    FramesNothing(x.net, a);
    if OfWorker(a) {
      QuietStep(x.net, a);
    }
    if a.Accept? && a.pushed {
      OpensOne(x.net, a);
      LocalAccept(c, x, S.Next(x.net, a), a.fd);
    } else {
      OpensNothing(x.net, a);
      LocalOther(c, x, S.Next(x.net, a));
    }
  }

  lemma OutsideStep(c: I.Config, x: System, fd: nat, e: I.Event)
    requires c.Valid() && I.PrefixStable(c.len) && Inv(Good(c), x) && Enabled(x, Outside(fd, e))
    ensures Inv(Good(c), Next(c, x, Outside(fd, e)))
  {
    var k := KeyOf(x.net, fd);
    OutsideIsQuiet(c, x.socks[k], e);
    OutsideSock(c, x.socks[k], e);
    OutsideKeeps(Good(c), x, k, I.Next(c, x.socks[k], e));
  }

  lemma ReadStep(c: I.Config, x: System, fd: nat, e: I.Event)
    requires c.Valid() && I.PrefixStable(c.len) && Inv(Good(c), x) && Enabled(x, Read(fd, e))
    ensures Inv(Good(c), Next(c, x, Read(fd, e)))
  {
    var k := KeyOf(x.net, fd);
    var t := I.Next(c, x.socks[k], e);
    ReadSock(c, x.socks[k], e);
    ReadKeeps(Good(c), x, k, t, NewPackets(x.socks[k], t));
  }

  lemma PushStep(c: I.Config, x: System)
    requires Inv(Good(c), x) && Enabled(x, Push)
    ensures Inv(Good(c), Next(c, x, Push))
  {
    var k, p := x.call.k, x.call.rest[0];
    assert KeyOf(x.net, k.0) == k;
    FramesOne(x.net, k.0, p);
    PushKeeps(Good(c), x, S.Next(x.net, S.Deliver(k.0, p, true)));
  }

  lemma ReturnStep(c: I.Config, x: System, lost: bool)
    requires Inv(Good(c), x) && Enabled(x, Return(lost))
    ensures Inv(Good(c), Next(c, x, Return(lost)))
  {
    match x.socks[x.call.k].status {
      case Live => ReturnKeeps(Good(c), x, x.net, Idle);
      case Exited => ReturnKeeps(Good(c), x, x.net, Ended);
      case Dead =>
        var a := Closing(x, lost);
        FramesNothing(x.net, a);
        OpensNothing(x.net, a);
        DropsClose(x.net, a);
        ReturnDead(Good(c), x, S.Next(x.net, a));
    }
  }

  lemma ReturnDead(ok: I.Sock -> bool, x: System, net': S.State)
    requires Inv(ok, x) && x.call.Pushing? && x.call.rest == [] && x.socks[x.call.k].status == I.Dead
    requires SameFramed(x.net, net') && NoNewConns(x.net, net') && NoneClosing(x.net, net')
    requires net'.conns.Keys == x.net.conns.Keys - {x.call.k.0}
    ensures Inv(ok, x.(net := net', call := Idle))
  {
    ReturnKeeps(ok, x, net', Idle);
  }

  lemma StepKeeps(c: I.Config, x: System, st: Step)
    requires c.Valid() && I.PrefixStable(c.len) && Inv(Good(c), x) && Enabled(x, st)
    ensures Inv(Good(c), Next(c, x, st))
  {
    match st
    case Outside(fd, e) => OutsideStep(c, x, fd, e);
    case Read(fd, e) => ReadStep(c, x, fd, e);
    case Push => PushStep(c, x);
    case Return(lost) => ReturnStep(c, x, lost);
    case Local(a) => LocalKeeps(c, x, a);
  }

  predicate Legal(c: I.Config, x: System, sts: seq<Step>)
    decreases |sts|
  {
    sts == [] || (Enabled(x, sts[0]) && Legal(c, Next(c, x, sts[0]), sts[1..]))
  }

  function Exec(c: I.Config, x: System, sts: seq<Step>): System
    requires Legal(c, x, sts)
    decreases |sts|
  {
    if sts == [] then x else Exec(c, Next(c, x, sts[0]), sts[1..])
  }

  predicate Kept(c: I.Config, x: System, sts: seq<Step>)
    requires Legal(c, x, sts)
    decreases |sts|
  {
    sts == [] || (Harmless(x, sts[0]) && Kept(c, Next(c, x, sts[0]), sts[1..]))
  }

  predicate Init(x: System) {
    S.Init(x.net) && x.socks == map[] && x.call == Idle
  }

  lemma {:induction false} RunKeeps(c: I.Config, x: System, sts: seq<Step>)
    requires c.Valid() && I.PrefixStable(c.len) && Inv(Good(c), x) && Legal(c, x, sts)
    ensures Inv(Good(c), Exec(c, x, sts))
    decreases |sts|
  {
    if sts == [] {
    } else {
      StepKeeps(c, x, sts[0]);
      RunKeeps(c, Next(c, x, sts[0]), sts[1..]);
    }
  }

  /** A call in progress is never stuck: its next packet can be pushed, or it can return. */
  lemma CallGoesOn(c: I.Config, x: System, sts: seq<Step>)
    requires c.Valid() && I.PrefixStable(c.len) && Init(x) && Legal(c, x, sts)
    ensures var y := Exec(c, x, sts);
      y.call.Pushing? ==> Enabled(y, if y.call.rest == [] then Return(false) else Push)
  {
    RunKeeps(c, x, sts);
    if Exec(c, x, sts).call.Pushing? {
      NotStuck(Good(c), Exec(c, x, sts));
    }
  }

  lemma NotStuck(ok: I.Sock -> bool, y: System)
    requires Inv(ok, y) && y.call.Pushing?
    ensures Enabled(y, if y.call.rest == [] then Return(false) else Push)
  {
    var k := y.call.k;
    assert KeyOf(y.net, k.0) == k && AllOf(y, k.0);
    assert S.Enabled(y.net, S.Drop(k.0));
    if y.call.rest != [] {
      assert y.call.rest[0] in y.call.rest;
      assert S.Enabled(y.net, S.Deliver(k.0, y.call.rest[0], true));
    }
  }

  /** What a step is in the protocol. */
  function NetSteps(x: System, st: Step): seq<S.Action>
    requires Enabled(x, st)
  {
    match st
    case Outside(_, _) => []
    case Read(_, _) => []
    case Push => [S.Deliver(x.call.k.0, x.call.rest[0], true)]
    case Return(lost) => if x.socks[x.call.k].status == I.Dead then [Closing(x, lost)] else []
    case Local(a) => [a]
  }

  lemma Projects(c: I.Config, x: System, st: Step)
    requires Enabled(x, st) && Harmless(x, st)
    ensures var acts := NetSteps(x, st);
      S.Legal(x.net, acts) && S.Kept(x.net, acts) && S.Exec(x.net, acts) == Next(c, x, st).net
  {
    S.Nothing(Next(c, x, st).net);
  }

  /** The protocol's part of a run is a run of the protocol: its theorems hold here as well. */
  lemma {:induction false} RunProjects(c: I.Config, x: System, sts: seq<Step>) returns (acts: seq<S.Action>)
    requires Legal(c, x, sts) && Kept(c, x, sts)
    ensures S.Legal(x.net, acts) && S.Kept(x.net, acts) && S.Exec(x.net, acts) == Exec(c, x, sts).net
    decreases |sts|
  {
    if sts == [] {
      acts := [];
    } else {
      Projects(c, x, sts[0]);
      var more := RunProjects(c, Next(c, x, sts[0]), sts[1..]);
      S.AppendRun(x.net, NetSteps(x, sts[0]), more);
      acts := NetSteps(x, sts[0]) + more;
    }
  }

  lemma {:induction false} GreedyGrows(c: I.Config, s: seq<byte>, t: seq<byte>)
    requires I.PrefixStable(c.len)
    ensures I.Greedy(c, s).packets <= I.Greedy(c, s + t).packets
    decreases |s|
  {
    var n := c.len(s);
    if s == [] || n <= 0 || n > c.max || n > |s| {
    } else {
      assert c.len(s + t) == n;
      assert (s + t)[n..] == s[n..] + t && (s + t)[..n] == s[..n];
      GreedyGrows(c, s[n..], t);
    }
  }

  /** What the peer of connection `k` sends in a run. */
  function PeerSent(c: I.Config, x: System, sts: seq<Step>, k: Key): seq<byte>
    requires Legal(c, x, sts)
    decreases |sts|
  {
    if sts == [] then []
    else
      (match sts[0] {
         case Outside(fd, e) => if KeyOf(x.net, fd) == k && e.Arrive? then e.bytes else []
         case _ => []
       }) + PeerSent(c, Next(c, x, sts[0]), sts[1..], k)
  }

  function Arrived(x: System, k: Key): seq<byte> {
    if k in x.socks then x.socks[k].arrived else []
  }

  lemma LocalArrives(ok: I.Sock -> bool, c: I.Config, x: System, a: S.Action, k: Key)
    requires Enabled(x, Local(a)) && SocksOk(ok, x)
    ensures Arrived(Next(c, x, Local(a)), k) == Arrived(x, k)
  {
    if a.Accept? && a.pushed {
      OpensOne(x.net, a);
    }
  }

  lemma StepArrives(ok: I.Sock -> bool, c: I.Config, x: System, st: Step, k: Key)
    requires Enabled(x, st) && SocksOk(ok, x)
    ensures Arrived(Next(c, x, st), k) == Arrived(x, k) +
      if st.Outside? && KeyOf(x.net, st.fd) == k && st.e.Arrive? then st.e.bytes else []
  {
    match st
    case Outside(fd, e) => I.ArriveOnly(c, x.socks[KeyOf(x.net, fd)], e);
    case Read(fd, e) => I.ArriveOnly(c, x.socks[KeyOf(x.net, fd)], e);
    case Local(a) => LocalArrives(ok, c, x, a, k);
    case _ =>
  }

  lemma {:induction false} ArrivedIsSent(c: I.Config, x: System, sts: seq<Step>, k: Key)
    requires c.Valid() && I.PrefixStable(c.len) && Inv(Good(c), x) && Legal(c, x, sts)
    ensures Arrived(Exec(c, x, sts), k) == Arrived(x, k) + PeerSent(c, x, sts, k)
    decreases |sts|
  {
    if sts == [] {
    } else {
      var got := match sts[0] {
        case Outside(fd, e) => if KeyOf(x.net, fd) == k && e.Arrive? then e.bytes else []
        case _ => []
      };
      StepArrives(Good(c), c, x, sts[0], k);
      StepKeeps(c, x, sts[0]);
      ArrivedIsSent(c, Next(c, x, sts[0]), sts[1..], k);
      Assoc(Arrived(x, k), got, PeerSent(c, Next(c, x, sts[0]), sts[1..], k));
    }
  }

  lemma NothingAfterExit(c: I.Config, x: System, sts: seq<Step>)
    requires Legal(c, x, sts) && x.call.Ended?
    ensures sts == []
  {
  }

  /** A connection on the close queue is never polled for input. */
  lemma ClosingIsNotPolled(c: I.Config, x: System, sts: seq<Step>, fd: nat)
    requires c.Valid() && I.PrefixStable(c.len) && Init(x) && Legal(c, x, sts)
    ensures var y := Exec(c, x, sts);
      fd in y.net.conns && y.net.conns[fd].closing ==>
        var k := KeyOf(y.net, fd);
        k in y.socks && y.socks[k].closing && (y.socks[k].status == I.Live ==> !y.socks[k].etin)
  {
    RunKeeps(c, x, sts);
    var y := Exec(c, x, sts);
    if fd in y.net.conns {
      assert Good(c)(y.socks[KeyOf(y.net, fd)]);
    }
  }

  /** A connection that is gone has no living socket. */
  lemma GoneIsDead(c: I.Config, x: System, sts: seq<Step>, k: Key)
    requires c.Valid() && I.PrefixStable(c.len) && Init(x) && Legal(c, x, sts)
    ensures var y := Exec(c, x, sts);
      k in y.socks && y.socks[k].status == I.Live ==> Open(y.net, k)
  {
    RunKeeps(c, x, sts);
  }

  /** The parent only exits over a connection whose full buffer the plugin cannot make sense of. */
  lemma {:induction false} ExitHasAReason(c: I.Config, x: System, sts: seq<Step>)
    requires Legal(c, x, sts) && !x.call.Ended?
    ensures var y := Exec(c, x, sts);
      y.call.Ended? ==> exists k: Key :: k in y.socks && y.socks[k].status == I.Exited
    decreases |sts|
  {
    if sts == [] {
    } else {
      var t := Next(c, x, sts[0]);
      if t.call.Ended? {
        assert x.call.k in t.socks && t.socks[x.call.k].status == I.Exited;
        NothingAfterExit(c, t, sts[1..]);
      } else {
        ExitHasAReason(c, t, sts[1..]);
      }
    }
  }

  /** What socket `k` has delivered is a prefix of the cut of all its peer sent. */
  lemma DeliveredIsCut(c: I.Config, x: System, k: Key)
    requires I.PrefixStable(c.len) && SocksOk(Good(c), x) && k in x.socks
    ensures x.socks[k].delivered <= I.Greedy(c, x.socks[k].arrived).packets
    ensures x.socks[k].status == I.Live ==> x.socks[k].delivered == I.Greedy(c, x.socks[k].taken).packets
  {
    var s := x.socks[k];
    assert Good(c)(s);
    GreedyGrows(c, s.taken, s.kernel);
  }

  /** In every run of both layers: what a plugin has seen of a connection is a prefix of the greedy cut of
      the bytes its peer sent, packet by packet; and while the session lives and the parent is not in the
      middle of a read, everything that the bytes read so far contain has been seen or is queued for it. */
  lemma PluginsSeeTheStream(c: I.Config, x: System, sts: seq<Step>, i: nat, k: Key)
    requires c.Valid() && I.PrefixStable(c.len) && Init(x) && Legal(c, x, sts) && Kept(c, x, sts)
    requires i < |Exec(c, x, sts).net.workers|
    ensures var y := Exec(c, x, sts);
      var w := y.net.workers[i];
      S.At(w.seen, k) <= I.Greedy(c, PeerSent(c, x, sts, k)).packets &&
      (Open(y.net, k) && k.0 in w.sess && w.sess[k.0] == k.1 && y.call.Idle? ==>
        k in y.socks && S.At(w.seen, k) + S.Packets(w.recvq, k) == I.Greedy(c, y.socks[k].taken).packets)
  {
    SeenPrefix(c, x, sts, i, k);
    AllSeenOrQueued(c, x, sts, i, k);
  }

  lemma FramedPrefix(c: I.Config, x: System, sts: seq<Step>, i: nat, k: Key)
    requires c.Valid() && I.PrefixStable(c.len) && Init(x) && Legal(c, x, sts)
    requires i < |Exec(c, x, sts).net.workers|
    ensures S.At(Exec(c, x, sts).net.workers[i].framed, k) <= I.Greedy(c, PeerSent(c, x, sts, k)).packets
  {
    RunKeeps(c, x, sts);
    ArrivedIsSent(c, x, sts, k);
    assert [] + PeerSent(c, x, sts, k) == PeerSent(c, x, sts, k);
    SeenIsCut(c, Exec(c, x, sts), i, k);
  }

  lemma SeenPrefix(c: I.Config, x: System, sts: seq<Step>, i: nat, k: Key)
    requires c.Valid() && I.PrefixStable(c.len) && Init(x) && Legal(c, x, sts) && Kept(c, x, sts)
    requires i < |Exec(c, x, sts).net.workers|
    ensures S.At(Exec(c, x, sts).net.workers[i].seen, k) <= I.Greedy(c, PeerSent(c, x, sts, k)).packets
  {
    var acts := RunProjects(c, x, sts);
    S.PacketsArriveInOrder(x.net, acts, i, k);
    FramedPrefix(c, x, sts, i, k);
  }

  lemma AllSeenOrQueued(c: I.Config, x: System, sts: seq<Step>, i: nat, k: Key)
    requires c.Valid() && I.PrefixStable(c.len) && Init(x) && Legal(c, x, sts) && Kept(c, x, sts)
    requires i < |Exec(c, x, sts).net.workers|
    ensures var y := Exec(c, x, sts);
      var w := y.net.workers[i];
      Open(y.net, k) && k.0 in w.sess && w.sess[k.0] == k.1 && y.call.Idle? ==>
        k in y.socks && S.At(w.seen, k) + S.Packets(w.recvq, k) == I.Greedy(c, y.socks[k].taken).packets
  {
    var acts := RunProjects(c, x, sts);
    var y := Exec(c, x, sts);
    RunKeeps(c, x, sts);
    S.PacketsArriveInOrder(x.net, acts, i, k);
    if k.0 in y.net.workers[i].sess && y.net.workers[i].sess[k.0] == k.1 && Open(y.net, k) && y.call.Idle? {
      S.SessionsServe(x.net, acts, i, k.0);
      FramedIsCut(c, y, i, k);
    }
  }

  lemma SeenIsCut(c: I.Config, y: System, i: nat, k: Key)
    requires I.PrefixStable(c.len) && Inv(Good(c), y) && i < |y.net.workers|
    ensures S.At(y.net.workers[i].framed, k) <= Delivered(y, k)
    ensures k in y.socks ==> Delivered(y, k) <= I.Greedy(c, y.socks[k].arrived).packets
  {
    assert PartOf(y, i, k);
    if k in y.socks {
      DeliveredIsCut(c, y, k);
    }
  }

  /** Between calls, all that a live connection's bytes contain has been framed. */
  lemma FramedIsCut(c: I.Config, y: System, i: nat, k: Key)
    requires I.PrefixStable(c.len) && Inv(Good(c), y) && Open(y.net, k) && y.call.Idle?
    requires i == y.net.conns[k.0].worker
    ensures i < |y.net.workers| && k in y.socks
    ensures S.At(y.net.workers[i].framed, k) == I.Greedy(c, y.socks[k].taken).packets
  {
    assert k == KeyOf(y.net, k.0);
    DeliveredIsCut(c, y, k);
    assert AllOf(y, k.0);
  }
}
