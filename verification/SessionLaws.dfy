/** What the steps of the session protocol do, in terms of what a caller sees: which connections come and
    go, which blocks are queued for whom, and what becomes of a worker's FIN and of its replies. */
module SessionLaws {
  import opened Basics
  import opened Frames
  import opened Sessions

  // ----- connections come and go -----

  /** The front block of worker `i` is for an open connection. */
  predicate Current(s: State, i: nat)
    requires i < |s.workers| && s.workers[i].sendq != []
  {
    var b := s.workers[i].sendq[0];
    b.fd in s.conns && s.conns[b.fd].gen == b.gen
  }

  /** The connections an action ends. */
  function Ends(s: State, a: Action): set<nat>
    requires Enabled(s, a)
  {
    match a
    case Deliver(fd, _, pushed) => if pushed then {} else {fd}
    case Drop(fd) => {fd}
    case DropLost(fd) => {fd}
    case Sweep(fd) => {fd}
    case Output(i, written) =>
      if written.Died? && Current(s, i) && s.workers[i].sendq[0].Reply? then {s.workers[i].sendq[0].fd} else {}
    case _ => {}
  }

  /** Those it begins. */
  function Begins(a: Action): set<nat> {
    match a
    case Accept(fd, _, pushed) => if pushed then {fd} else {}
    case _ => {}
  }

  /** The socket of `fd` takes the first `n` of the bytes that wait and of those given. */
  predicate Took(cn: Conn, cn': Conn, given: seq<byte>, n: nat) {
    var all := cn.buf + given;
    cn' == cn.(sent := cn'.sent, buf := cn'.buf) &&
    if n <= |all| then cn'.sent == cn.sent + all[..n] && cn'.buf == all[n..]
    else cn'.sent == cn.sent + all && cn'.buf == []
  }

  lemma OutputMatches(s: State, i: nat)
    requires Inv(s) && i < |s.workers| && s.workers[i].sendq != [] && s.gen - s.workers[i].sendq[0].gen < IDS
    ensures Matches(s, s.workers[i].sendq[0]) <==> Current(s, i)
    ensures Current(s, i) ==> s.conns[s.workers[i].sendq[0].fd].worker == i
  {
    FrontBelongs(s, i);
    MatchIsExact(s, i, s.workers[i].sendq[0]);
  }

  /** Exactly these connections end and begin; a new one is empty, not closing, and of the next generation. */
  lemma ComeAndGo(s: State, a: Action)
    requires Inv(s) && Enabled(s, a)
    ensures var t := Next(s, a);
      t.conns.Keys == s.conns.Keys - Ends(s, a) + Begins(a) &&
      t.gen == s.gen + (if a.AddOther? || a.Accept? then 1 else 0) &&
      (a.Accept? && a.pushed ==> t.conns[a.fd] == Conn(t.gen, a.w, false, [], []))
  {
    if a.Output? {
      OutputMatches(s, a.w);
    }
  }

  /** What a block from a worker does: nothing if its connection is gone; a FIN puts the connection on the
      close queue; the bytes of a reply go to the socket or wait, in order, unless the socket fails. */
  lemma BlockTakesEffect(s: State, i: nat, written: Result)
    requires Inv(s) && Enabled(s, Output(i, written))
    ensures var t := Next(s, Output(i, written));
      var b := s.workers[i].sendq[0];
      t.workers[i].sendq == s.workers[i].sendq[1..] &&
      if !Current(s, i) then t.conns == s.conns
      else if b.Fin? then t.conns == s.conns[b.fd := s.conns[b.fd].(closing := true)]
      else match written {
        case Died => t.conns == s.conns - {b.fd}
        case Wrote(n) =>
          b.fd in t.conns && t.conns == s.conns[b.fd := t.conns[b.fd]] &&
          Took(s.conns[b.fd], t.conns[b.fd], b.bytes, n)
      }
  {
    OutputMatches(s, i);
  }

  /** No other action but EPOLLOUT changes a connection that goes on. */
  lemma OthersStay(s: State, a: Action, fd: nat)
    requires Inv(s) && Enabled(s, a) && !a.Output? && fd in s.conns && fd in Next(s, a).conns && fd !in Begins(a)
    ensures if a.Flush? && a.fd == fd then Took(s.conns[fd], Next(s, a).conns[fd], [], a.n)
            else Next(s, a).conns[fd] == s.conns[fd]
  {
  }

  // ----- blocks are queued -----

  /** The blocks an action puts on the ring of worker `j`. */
  function Tells(s: State, a: Action, j: nat): seq<Up>
    requires Enabled(s, a)
  {
    match a
    case Accept(fd, w, pushed) => if pushed && w == j then [Open(fd, s.gen + 1)] else []
    case Deliver(fd, packet, pushed) =>
      if s.conns[fd].worker != j then []
      else if pushed then [Data(fd, s.conns[fd].gen, packet)] else [Close(fd, s.conns[fd].gen)]
    case Drop(fd) => if s.conns[fd].worker == j then [Close(fd, s.conns[fd].gen)] else []
    case Output(i, written) =>
      if i == j && written.Died? && Current(s, i) && s.workers[i].sendq[0].Reply? then
        [Close(s.workers[i].sendq[0].fd, s.workers[i].sendq[0].gen)]
      else []
    case _ => []
  }

  /** A worker's ring gets exactly these, and loses its front block only when the worker takes it. */
  lemma RingsGet(s: State, a: Action, j: nat)
    requires Inv(s) && Enabled(s, a) && j < |s.workers|
    ensures var t := Next(s, a);
      |t.workers| == |s.workers| &&
      var rest := if a == Handle(j) then s.workers[j].recvq[1..] else s.workers[j].recvq;
      t.workers[j].recvq == rest + Tells(s, a, j)
  {
    if a.Output? {
      OutputMatches(s, a.w);
    }
  }

  // ----- a worker's tables and queue -----

  /** Sessions open and close by the blocks a worker takes and by its own closes. */
  lemma SessionsMove(s: State, a: Action, j: nat)
    requires Inv(s) && Enabled(s, a) && j < |s.workers|
    ensures var w, t := s.workers[j], Next(s, a);
      j < |t.workers| &&
      t.workers[j].sess ==
        match a {
          case Handle(i) =>
            if i != j then w.sess
            else match w.recvq[0] {
              case Open(fd, gen) => w.sess[fd := gen]
              case Close(fd, _) => w.sess - {fd}
              case Data(_, _, _) => w.sess
            }
          case CloseClient(i, fd, _) => if i == j then w.sess - {fd} else w.sess
          case _ => w.sess
        }
  {
    InvFits(s);
  }

  /** A worker queues a reply under its session, a FIN when it closes, and nothing else. */
  lemma WorkersQueue(s: State, a: Action, j: nat)
    requires Inv(s) && Enabled(s, a) && j < |s.workers|
    ensures var w, t := s.workers[j], Next(s, a);
      j < |t.workers| &&
      t.workers[j].sendq ==
        match a {
          case SendPkg(i, fd, bytes) => if i == j then w.sendq + [Reply(fd, w.sess[fd], bytes)] else w.sendq
          case CloseClient(i, fd, pushed) =>
            if i == j && pushed then w.sendq + [Fin(fd, w.sess[fd])] else w.sendq
          case Output(i, _) => if i == j then w.sendq[1..] else w.sendq
          case _ => w.sendq
        }
  {
    InvFits(s);
  }

  /** The plugin sees a packet exactly when the worker takes it and has a session for its fd. */
  lemma PluginSees(s: State, a: Action, j: nat, k: Key)
    requires Inv(s) && Enabled(s, a) && j < |s.workers|
    ensures var w, t := s.workers[j], Next(s, a);
      j < |t.workers| &&
      At(t.workers[j].seen, k) == At(w.seen, k) +
        if a == Handle(j) && w.recvq[0].Data? && w.recvq[0].fd == k.0 && k.0 in w.sess && w.sess[k.0] == k.1 then
          [w.recvq[0].packet]
        else []
  {
    if a == Handle(j) {
      assert WorkerInv(s, j);
      assert s.workers[j].recvq[0] in s.workers[j].recvq;
      TakenIsSeen(s.workers[j], k);
    }
  }

  lemma TakenIsSeen(w: Worker, k: Key)
    requires w.recvq != [] && (w.recvq[0].Data? ==> w.recvq[0].packet != [])
    ensures At(HandleBlock(w.(recvq := w.recvq[1..]), w.recvq[0]).seen, k) == At(w.seen, k) +
      if w.recvq[0].Data? && w.recvq[0].fd == k.0 && k.0 in w.sess && w.sess[k.0] == k.1 then [w.recvq[0].packet]
      else []
  {
  }

  // ----- what becomes of a FIN -----

  /** Somewhere in the run worker `i` closes its session for connection `k`, and its queue takes the FIN. */
  predicate Finned(s: State, acts: seq<Action>, i: nat, k: Key)
    requires Legal(s, acts)
    decreases |acts|
  {
    acts != [] &&
    ((acts[0] == CloseClient(i, k.0, true) && s.workers[i].sess[k.0] == k.1) ||
     Finned(Next(s, acts[0]), acts[1..], i, k))
  }

  /** The connection is gone, is being closed, or the FIN for it is still queued. */
  predicate WillClose(s: State, i: nat, k: Key)
    requires i < |s.workers|
  {
    k.1 <= s.gen &&
    (k.0 in s.conns && s.conns[k.0].gen == k.1 ==>
      s.conns[k.0].closing || Fin(k.0, k.1) in s.workers[i].sendq)
  }

  lemma FinIsQueued(s: State, i: nat, k: Key)
    requires Inv(s) && Enabled(s, CloseClient(i, k.0, true)) && s.workers[i].sess[k.0] == k.1
    ensures |Next(s, CloseClient(i, k.0, true)).workers| == |s.workers|
    ensures WillClose(Next(s, CloseClient(i, k.0, true)), i, k)
  {
    assert WorkerInv(s, i);
    WorkersQueue(s, CloseClient(i, k.0, true), i);
  }

  lemma StillCloses(s: State, a: Action, i: nat, k: Key)
    requires Inv(s) && Enabled(s, a) && i < |s.workers| && WillClose(s, i, k)
    ensures |Next(s, a).workers| == |s.workers| && WillClose(Next(s, a), i, k)
  {
    var t, q := Next(s, a), s.workers[i].sendq;
    RingsGet(s, a, i);
    ComeAndGo(s, a);
    WorkersQueue(s, a, i);
    if k.0 in t.conns && t.conns[k.0].gen == k.1 {
      assert k.0 !in Begins(a) && k.0 in s.conns;
      if a.Output? {
        BlockTakesEffect(s, a.w, a.written);
        OutputStays(s, a.w, a.written, k);
        assert q != [] ==> q == [q[0]] + q[1..];
      } else {
        OthersStay(s, a, k.0);
      }
    }
  }

  /** A block sets `closing` for its own connection or for none. */
  lemma OutputStays(s: State, i: nat, written: Result, k: Key)
    requires Inv(s) && Enabled(s, Output(i, written)) && k.0 in s.conns && k.0 in Next(s, Output(i, written)).conns
    ensures var t, b := Next(s, Output(i, written)), s.workers[i].sendq[0];
      t.conns[k.0].gen == s.conns[k.0].gen &&
      (t.conns[k.0].closing <==> s.conns[k.0].closing || b == Fin(k.0, s.conns[k.0].gen))
  {
    BlockTakesEffect(s, i, written);
  }

  lemma {:induction false} FinnedCloses(s: State, acts: seq<Action>, i: nat, k: Key)
    requires Inv(s) && Legal(s, acts) && Kept(s, acts) && i < |s.workers|
    requires WillClose(s, i, k) || Finned(s, acts, i, k)
    ensures i < |Exec(s, acts).workers| && WillClose(Exec(s, acts), i, k)
    decreases |acts|
  {
    if acts == [] {
    } else {
      var t := Next(s, acts[0]);
      StepKeeps(s, acts[0]);
      if WillClose(s, i, k) {
        StillCloses(s, acts[0], i, k);
      } else if acts[0] == CloseClient(i, k.0, true) && s.workers[i].sess[k.0] == k.1 {
        FinIsQueued(s, i, k);
      }
      RingsGet(s, acts[0], i);
      FinnedCloses(t, acts[1..], i, k);
    }
  }

  /** In every run: once a worker has closed a connection and its queue took the FIN, the connection is
      gone, on the close queue, or the FIN is still on its way. */
  lemma ClosedByWorkerCloses(s: State, acts: seq<Action>, i: nat, k: Key)
    requires Init(s) && Legal(s, acts) && Kept(s, acts) && i < |s.workers| && Finned(s, acts, i, k)
    ensures var t := Exec(s, acts);
      i < |t.workers| &&
      (k.0 in t.conns && t.conns[k.0].gen == k.1 ==> t.conns[k.0].closing || Fin(k.0, k.1) in t.workers[i].sendq)
  {
    InitInv(s);
    FinnedCloses(s, acts, i, k);
  }

  // ----- what becomes of a reply -----

  /** The bytes worker `i` sends on its sessions for connection `k` in the run. */
  function Said(s: State, acts: seq<Action>, i: nat, k: Key): seq<byte>
    requires Legal(s, acts)
    decreases |acts|
  {
    if acts == [] then []
    else
      (match acts[0] {
         case SendPkg(j, fd, bytes) => if j == i && fd == k.0 && s.workers[i].sess[fd] == k.1 then bytes else []
         case _ => []
       }) + Said(Next(s, acts[0]), acts[1..], i, k)
  }

  lemma ReplyIsSaid(s: State, a: Action, i: nat, k: Key)
    requires Enabled(s, a) && i < |s.workers|
    ensures var t := Next(s, a);
      i < |t.workers| &&
      At(t.workers[i].replied, k) == At(s.workers[i].replied, k) +
        if a.SendPkg? && a.w == i && a.fd == k.0 && s.workers[i].sess[a.fd] == k.1 then a.bytes else []
  {
  }

  lemma {:induction false} RepliedIsSaid(s: State, acts: seq<Action>, i: nat, k: Key)
    requires Legal(s, acts) && i < |s.workers|
    ensures i < |Exec(s, acts).workers|
    ensures At(Exec(s, acts).workers[i].replied, k) == At(s.workers[i].replied, k) + Said(s, acts, i, k)
    decreases |acts|
  {
    if acts == [] {
    } else {
      var t, was := Next(s, acts[0]), At(s.workers[i].replied, k);
      ReplyIsSaid(s, acts[0], i, k);
      RepliedIsSaid(t, acts[1..], i, k);
      var now := match acts[0] {
        case SendPkg(j, fd, bytes) => if j == i && fd == k.0 && s.workers[i].sess[fd] == k.1 then bytes else []
        case _ => []
      };
      Assoc(was, now, Said(t, acts[1..], i, k));
    }
  }

  /** In every run: what the client of an open connection was sent, what waits for its socket and what its
      worker still has queued are together exactly the bytes that worker sent to it, in order. */
  lemma ClientGetsWhatWasSaid(s: State, acts: seq<Action>, fd: nat)
    requires Init(s) && Legal(s, acts) && Kept(s, acts) && fd in Exec(s, acts).conns
    ensures var t := Exec(s, acts);
      var cn := t.conns[fd];
      cn.worker < |s.workers| && cn.worker < |t.workers| &&
      cn.sent + cn.buf + Replies(t.workers[cn.worker].sendq, (fd, cn.gen)) ==
        Said(s, acts, cn.worker, (fd, cn.gen))
  {
    var cn := Exec(s, acts).conns[fd];
    SameWorkers(s, acts);
    RepliesArriveInOrder(s, acts, fd);
    RepliedIsSaid(s, acts, cn.worker, (fd, cn.gen));
    var said := Said(s, acts, cn.worker, (fd, cn.gen));
    assert [] + said == said;
  }
}
