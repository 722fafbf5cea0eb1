/** The worker's side of the session protocol in place: the session table keyed by fd, its counter, and
    the loop over the receive queue.  */
module ChildCalls {
  import opened Frames
  import opened Sessions

  const OPEN_LEN := 23   // sizeof(shm_block_t) + sizeof(remote_info_t)

  /** The length field of a block the parent sends. */
  function BlockLen(u: Up): nat {
    match u
    case Open(_, _) => OPEN_LEN
    case Data(_, _, packet) => HEADER + |packet|
    case Close(_, _) => HEADER
  }

  /** What the plugin calls while it looks at a packet. */
  datatype Call =
    | SendBlock(fd: nat, bytes: seq<byte>)   // a block of send_pkg_to_client that the queue took
    | CloseConn(fd: nat, pushed: bool)       // close_client_conn

  /** How the outside world answers to one block: the plugin's calls and its verdict (true closes the
      connection), and whether the queue takes the FIN that this turn may push itself. */
  datatype Reaction = Reaction(calls: seq<Call>, close: bool, finOk: bool)

  /** The reaction to the n-th block. */
  type Script = nat -> Reaction

  function Acted(w: Worker, c: Call): Worker {
    match c
    case SendBlock(fd, bytes) => if bytes == [] then w else Sent(w, fd, bytes)
    case CloseConn(fd, pushed) => Closed(w, fd, pushed)
  }

  function AllActed(w: Worker, calls: seq<Call>): Worker
    decreases |calls|
  {
    if calls == [] then w else AllActed(Acted(w, calls[0]), calls[1..])
  }

  /** The worker after a block that was just popped, including what the plugin does with it. */
  function Took(w: Worker, u: Up, r: Reaction): Worker {
    var w1 := HandleBlock(w, u);
    if u.Data? && u.fd in w.sess && u.packet != [] then
      var w2 := AllActed(w1, r.calls);
      if r.close then Closed(w2, u.fd, r.finOk) else w2
    else if u.Open? && u.fd in w.sess && !r.finOk then w1.(sendq := w.sendq)
    else w1
  }

  function Taken(w: Worker, r: Reaction): Worker
    requires w.recvq != []
  {
    Took(w.(recvq := w.recvq[1..]), w.recvq[0], r)
  }

  lemma {:induction false} ActedQueue(w: Worker, calls: seq<Call>)
    ensures AllActed(w, calls).recvq == w.recvq
    decreases |calls|
  {
    if calls == [] {
    } else {
      ActedQueue(Acted(w, calls[0]), calls[1..]);
    }
  }

  lemma TakenQueue(w: Worker, r: Reaction)
    requires w.recvq != []
    ensures Taken(w, r).recvq == w.recvq[1..]
  {
    ActedQueue(HandleBlock(w.(recvq := w.recvq[1..]), w.recvq[0]), r.calls);
  }

  /** `n` blocks were taken before. */
  function AllTaken(w: Worker, script: Script, n: nat): Worker
    decreases |w.recvq|
  {
    if w.recvq == [] then w else TakenQueue(w, script(n)); AllTaken(Taken(w, script(n)), script, n + 1)
  }

  /** How many CLOSE blocks of the queue find no session. */
  function Missed(w: Worker, script: Script, n: nat): nat
    decreases |w.recvq|
  {
    if w.recvq == [] then 0
    else
      TakenQueue(w, script(n));
      var u := w.recvq[0];
      (if u.Close? && u.fd !in w.sess then 1 else 0) + Missed(Taken(w, script(n)), script, n + 1)
  }

  class Child {
    var sess: map<nat, nat>
    var count: int
    var recvq: seq<Up>
    var sendq: seq<Down>
    ghost var w: Worker       // the same worker in the protocol
    ghost var misses: nat     // closes that found no session

    /** `fds.count` is the table size less the closes that found nothing to close. */
    ghost predicate Valid()
      reads this
    {
      sess == w.sess && recvq == w.recvq && sendq == w.sendq && count == |sess| - misses
    }

    constructor ()
      ensures Valid() && w == NEW_WORKER && misses == 0
    {
      sess, count, recvq, sendq, misses := map[], 0, [], [], 0;
      w := NEW_WORKER;
    }

    /** `handle_open` */
    method HandleOpen(fd: nat, gen: nat, length: nat) returns (rc: int)
      modifies this`sess, this`count
      ensures rc == if fd in old(sess) || length != OPEN_LEN then -1 else 0
      ensures sess == if rc == 0 then old(sess)[fd := gen] else old(sess)
      ensures count - |sess| == old(count - |sess|)
    {
      if fd in sess || length != OPEN_LEN {
        return -1;
      }
      sess := sess[fd := gen];
      count := count + 1;
      return 0;
    }

    /** `handle_close`: decrements even when there is no session. */
    method HandleClose(fd: nat)
      modifies this`sess, this`count, this`misses
      ensures sess == old(sess) - {fd} && count == old(count) - 1
      ensures misses == old(misses) + if fd in old(sess) then 0 else 1
      ensures count - |sess| + misses == old(count - |sess| + misses)
    {
      if fd !in sess {
        misses := misses + 1;
        assert sess - {fd} == sess;
      } else {
        assert sess.Keys == (sess - {fd}).Keys + {fd};
      }
      sess := sess - {fd};
      count := count - 1;
    }

    /** `close_client_conn` */
    method CloseClientConn(fd: nat, pushed: bool)
      requires Valid()
      modifies this
      ensures Valid() && w == Closed(old(w), fd, pushed) && misses == old(misses)
    {
      w := Closed(w, fd, pushed);
      if fd !in sess {
        return;
      }
      var gen := sess[fd];
      HandleClose(fd);
      if pushed {
        sendq := sendq + [Fin(fd, gen)];
      }
    }

    /** A block of `send_pkg_to_client` on the session of `fd`. */
    method SendBlockTo(fd: nat, bytes: seq<byte>)
      requires Valid()
      modifies this`sendq, this`w
      ensures Valid() && w == Acted(old(w), SendBlock(fd, bytes))
    {
      w := Acted(w, SendBlock(fd, bytes));
      if fd in sess && bytes != [] {
        sendq := sendq + [Reply(fd, sess[fd], bytes)];
      }
    }

    /** `handle_process` on an existing session: the plugin's calls in order, then its verdict. */
    method HandleProcess(fd: nat, r: Reaction)
      requires Valid()
      modifies this
      ensures Valid() && misses == old(misses)
      ensures w == var w2 := AllActed(old(w), r.calls); if r.close then Closed(w2, fd, r.finOk) else w2
    {
      for k := 0 to |r.calls|
        invariant Valid() && misses == old(misses)
        invariant AllActed(w, r.calls[k..]) == AllActed(old(w), r.calls)
      {
        match r.calls[k] {
          case SendBlock(to, bytes) => SendBlockTo(to, bytes);
          case CloseConn(to, pushed) => CloseClientConn(to, pushed);
        }
        assert r.calls[k..][1..] == r.calls[k + 1..];
      }
      if r.close {
        CloseClientConn(fd, r.finOk);
      }
    }

    /** A DATA block: for the plugin if it has a payload and its fd a session. */
    method TakeData(u: Up, r: Reaction)
      requires Valid() && u.Data?
      modifies this
      ensures Valid() && w == Took(old(w), u, r) && misses == old(misses)
    {
      w := HandleBlock(w, u);
      if BlockLen(u) > HEADER && u.fd in sess {
        HandleProcess(u.fd, r);
      }
    }

    /** An OPEN: a session, or a FIN in answer. */
    method TakeOpen(u: Up, r: Reaction)
      requires Valid() && u.Open?
      modifies this
      ensures Valid() && w == Took(old(w), u, r) && misses == old(misses)
    {
      w := Took(w, u, r);
      var rc := HandleOpen(u.fd, u.gen, BlockLen(u));
      if rc == -1 && r.finOk {
        sendq := sendq + [Fin(u.fd, u.gen)];
      }
    }

    method TakeClose(u: Up, ghost r: Reaction)
      requires Valid() && u.Close?
      modifies this
      ensures Valid() && w == Took(old(w), u, r) && misses == old(misses) + if u.fd in old(sess) then 0 else 1
    {
      w := HandleBlock(w, u);
      HandleClose(u.fd);
    }

    /** One turn of `handle_recv_queue`. */
    method TakeOne(r: Reaction)
      requires Valid() && recvq != []
      modifies this
      ensures Valid() && w == Taken(old(w), r) && recvq == old(recvq)[1..]
      ensures misses == old(misses) + if old(recvq[0].Close? && recvq[0].fd !in sess) then 1 else 0
    {
      TakenQueue(w, r);
      var u := recvq[0];
      recvq, w := recvq[1..], w.(recvq := w.recvq[1..]);
      match u {
        case Data(_, _, _) => TakeData(u, r);
        case Open(_, _) => TakeOpen(u, r);
        case Close(_, _) => TakeClose(u, r);
      }
    }

    /** `handle_recv_queue`: every queued block is taken, as the protocol's steps would take them; the
        counter falls behind the table size by one for each CLOSE that met no session. */
    method HandleRecvQueue(script: Script)
      requires Valid()
      modifies this
      ensures Valid() && recvq == [] && w == AllTaken(old(w), script, 0)
      ensures count - |sess| == old(count - |sess|) - Missed(old(w), script, 0)
    {
      var n := 0;
      while recvq != []
        invariant Valid() && AllTaken(w, script, n) == AllTaken(old(w), script, 0)
        invariant misses + Missed(w, script, n) == old(misses) + Missed(old(w), script, 0)
        decreases |recvq|
      {
        TakeOne(script(n));
        n := n + 1;
      }
    }
  }

  // ----- the loop is a run of the protocol -----

  function WithWorker(s: State, i: nat, w: Worker): State
    requires i < |s.workers|
  {
    s.(workers := s.workers[i := w])
  }

  lemma OneStep(s: State, a: Action)
    requires Enabled(s, a) && Harmless(s, a)
    ensures Legal(s, [a]) && Kept(s, [a]) && Exec(s, [a]) == Next(s, a)
  {
    Nothing(Next(s, a));
  }

  /** What the plugin asks for, as a step of worker `i`. */
  function Wish(i: nat, c: Call): Action {
    match c
    case SendBlock(fd, bytes) => SendPkg(i, fd, bytes)
    case CloseConn(fd, pushed) => CloseClient(i, fd, pushed)
  }

  function Asked(i: nat, calls: seq<Call>): seq<Action>
    decreases |calls|
  {
    if calls == [] then [] else [Wish(i, calls[0])] + Asked(i, calls[1..])
  }

  /** What a turn asks for after the block is taken: the plugin's calls in order and then, if it says so,
      the close of the connection; nothing if the packet does not reach it. */
  function Wishes(i: nat, w: Worker, r: Reaction): seq<Action>
    requires w.recvq != []
  {
    var u := w.recvq[0];
    if u.Data? && u.fd in w.sess && u.packet != [] then
      Asked(i, r.calls) + if r.close then [CloseClient(i, u.fd, r.finOk)] else []
    else []
  }

  /** The wishes that can be met, one after the other: a session may be gone when its turn comes. */
  function Granted(s: State, wishes: seq<Action>): seq<Action>
    decreases |wishes|
  {
    if wishes == [] then []
    else if Enabled(s, wishes[0]) then [wishes[0]] + Granted(Next(s, wishes[0]), wishes[1..])
    else Granted(s, wishes[1..])
  }

  predicate OfWorker(i: nat, wishes: seq<Action>) {
    forall a :: a in wishes ==> (a.SendPkg? || a.CloseClient?) && a.w == i
  }

  lemma {:induction false} GrantedRuns(s: State, i: nat, wishes: seq<Action>)
    requires i < |s.workers| && OfWorker(i, wishes)
    ensures var acts := Granted(s, wishes); Legal(s, acts) && Kept(s, acts) && i < |Exec(s, acts).workers|
    decreases |wishes|
  {
    if wishes == [] {
    } else {
      assert wishes[0] in wishes;
      if Enabled(s, wishes[0]) {
        var t := Next(s, wishes[0]);
        GrantedRuns(t, i, wishes[1..]);
        assert ([wishes[0]] + Granted(t, wishes[1..]))[1..] == Granted(t, wishes[1..]);
      } else {
        GrantedRuns(s, i, wishes[1..]);
      }
    }
  }

  lemma {:induction false} GrantedAppends(s: State, i: nat, wishes: seq<Action>, more: seq<Action>)
    requires i < |s.workers| && OfWorker(i, wishes) && OfWorker(i, more)
    ensures var acts := Granted(s, wishes);
      Legal(s, acts) && Kept(s, acts) && Granted(s, wishes + more) == acts + Granted(Exec(s, acts), more)
    decreases |wishes|
  {
    GrantedRuns(s, i, wishes);
    if wishes == [] {
      assert wishes + more == more;
    } else {
      assert wishes[0] in wishes;
      assert (wishes + more)[0] == wishes[0] && (wishes + more)[1..] == wishes[1..] + more;
      if Enabled(s, wishes[0]) {
        var t := Next(s, wishes[0]);
        GrantedAppends(t, i, wishes[1..], more);
        assert ([wishes[0]] + Granted(t, wishes[1..]))[1..] == Granted(t, wishes[1..]);
      } else {
        GrantedAppends(s, i, wishes[1..], more);
      }
    }
  }

  lemma CallIsGranted(s: State, i: nat, c: Call)
    requires i < |s.workers|
    ensures var acts := Granted(s, [Wish(i, c)]);
      Legal(s, acts) && Kept(s, acts) && Exec(s, acts) == WithWorker(s, i, Acted(s.workers[i], c))
  {
    var w, a := s.workers[i], Wish(i, c);
    assert [a][1..] == [];
    if Enabled(s, a) {
      OneStep(s, a);
      assert Granted(s, [a]) == [a];
    } else {
      assert Acted(w, c) == w && WithWorker(s, i, w).workers == s.workers;
    }
  }

  lemma {:induction false} CallsAreGranted(s: State, i: nat, calls: seq<Call>)
    requires i < |s.workers|
    ensures var acts := Granted(s, Asked(i, calls));
      OfWorker(i, Asked(i, calls)) && Legal(s, acts) && Kept(s, acts) &&
      Exec(s, acts) == WithWorker(s, i, AllActed(s.workers[i], calls))
    decreases |calls|
  {
    if calls == [] {
      assert WithWorker(s, i, s.workers[i]).workers == s.workers;
    } else {
      var rest := calls[1..];
      var more := Asked(i, rest);
      CallIsGranted(s, i, calls[0]);
      var t := WithWorker(s, i, Acted(s.workers[i], calls[0]));
      CallsAreGranted(t, i, rest);
      GrantedAppends(s, i, [Wish(i, calls[0])], more);
      AppendRun(s, Granted(s, [Wish(i, calls[0])]), Granted(t, more));
    }
  }

  /** The steps of one turn. */
  function TurnActs(s: State, i: nat, r: Reaction): seq<Action>
    requires i < |s.workers| && s.workers[i].recvq != []
  {
    [Handle(i)] + Granted(Next(s, Handle(i)), Wishes(i, s.workers[i], r))
  }

  lemma WishesRun(s: State, i: nat, w: Worker, r: Reaction)
    requires i < |s.workers| && w.recvq != []
    ensures var acts, u := Granted(s, Wishes(i, w, r)), w.recvq[0];
      Legal(s, acts) && Kept(s, acts) &&
      Exec(s, acts) ==
        if u.Data? && u.fd in w.sess && u.packet != [] then
          var w2 := AllActed(s.workers[i], r.calls);
          WithWorker(s, i, if r.close then Closed(w2, u.fd, r.finOk) else w2)
        else s
  {
    var u := w.recvq[0];
    if u.Data? && u.fd in w.sess && u.packet != [] {
      var calls := Asked(i, r.calls);
      CallsAreGranted(s, i, r.calls);
      if r.close {
        var t := WithWorker(s, i, AllActed(s.workers[i], r.calls));
        var last := CloseConn(u.fd, r.finOk);
        CallIsGranted(t, i, last);
        GrantedAppends(s, i, calls, [Wish(i, last)]);
        AppendRun(s, Granted(s, calls), Granted(t, [Wish(i, last)]));
      } else {
        assert calls + [] == calls;
        assert Wishes(i, w, r) == calls;
      }
    }
  }

  /** Each turn is the protocol's step on the block, then exactly what the plugin asks for. */
  lemma TurnIsARun(s: State, i: nat, r: Reaction)
    requires i < |s.workers| && s.workers[i].recvq != [] && Fits(s.workers[i].sess, s.workers[i].recvq[0])
    ensures var acts := TurnActs(s, i, r);
      Legal(s, acts) && Kept(s, acts) && Exec(s, acts) == WithWorker(s, i, Taken(s.workers[i], r))
  {
    var t := Next(s, Handle(i));
    OneStep(s, Handle(i));
    WishesRun(t, i, s.workers[i], r);
    AppendRun(s, [Handle(i)], Granted(t, Wishes(i, s.workers[i], r)));
  }

  /** The steps of the whole loop: turn after turn until the queue is empty. */
  function LoopActs(s: State, i: nat, script: Script, n: nat): seq<Action>
    requires i < |s.workers|
    decreases |s.workers[i].recvq|
  {
    if s.workers[i].recvq == [] then []
    else
      TakenQueue(s.workers[i], script(n));
      TurnActs(s, i, script(n)) +
      LoopActs(WithWorker(s, i, Taken(s.workers[i], script(n))), i, script, n + 1)
  }

  /** The whole loop of one worker, whatever the plugin does, is a run of the protocol: what holds of
      every run holds after it. */
  lemma {:induction false} LoopIsARun(s: State, i: nat, script: Script, n: nat)
    requires Inv(s) && i < |s.workers|
    ensures var acts := LoopActs(s, i, script, n);
      Legal(s, acts) && Kept(s, acts) && Exec(s, acts) == WithWorker(s, i, AllTaken(s.workers[i], script, n))
    ensures Inv(WithWorker(s, i, AllTaken(s.workers[i], script, n)))
    decreases |s.workers[i].recvq|
  {
    if s.workers[i].recvq == [] {
      assert WithWorker(s, i, s.workers[i]).workers == s.workers;
    } else {
      InvFits(s);
      TakenQueue(s.workers[i], script(n));
      TurnIsARun(s, i, script(n));
      RunKeeps(s, TurnActs(s, i, script(n)));
      var t := WithWorker(s, i, Taken(s.workers[i], script(n)));
      LoopIsARun(t, i, script, n + 1);
      AppendRun(s, TurnActs(s, i, script(n)), LoopActs(t, i, script, n + 1));
    }
  }
}
