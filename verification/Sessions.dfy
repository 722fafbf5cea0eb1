/** The parent, its client connections, and its workers.  Both rings of a worker are queues here;
    RingSteps proves that they are.  A connection's generation counts calls of `do_add_conn`; the id
    on the wire is that count in 32 bits without 0.  */
module Sessions {
  import opened Basics
  import opened Frames

  const IDS := 0xFFFF_FFFF   // 2^32 - 1 ids, 0 is never used

  /** The id given to the `gen`-th connection. */
  function WireId(gen: nat): nat {
    if gen == 0 then 0 else (gen - 1) % IDS + 1
  }

  /** `++seq`, and once more if that wrapped to 0. */
  function NextSeq(seqno: nat): nat {
    var s := (seqno + 1) % U32;
    if s == 0 then 1 else s
  }

  lemma SeqCountsGenerations(gen: nat)
    ensures NextSeq(WireId(gen)) == WireId(gen + 1) && 0 < WireId(gen + 1) < U32
  {
  }

  /** Two connections share an id only if at least 2^32 - 1 others were added in between. */
  lemma IdsDistinct(g: nat, h: nat)
    requires 0 < g < h && h - g < IDS
    ensures WireId(g) != WireId(h)
  {
    assert (h - 1) % IDS == ((g - 1) % IDS + (h - g)) % IDS;
  }

  // ----- the state -----

  /** What the parent sends to a worker. */
  datatype Up =
    | Open(fd: nat, gen: nat)
    | Data(fd: nat, gen: nat, packet: seq<byte>)
    | Close(fd: nat, gen: nat)

  /** What a worker sends to the parent. */
  datatype Down =
    | Reply(fd: nat, gen: nat, bytes: seq<byte>)
    | Fin(fd: nat, gen: nat)

  /** A client connection: what its socket has taken, and what waits in `sendptr[..sendlen]`. */
  datatype Conn = Conn(gen: nat, worker: nat, closing: bool, sent: seq<byte>, buf: seq<byte>)

  type Key = (nat, nat)   // fd and generation

  /** A worker: both queues, its sessions by fd only, and history: the generation of the last OPEN it
      took, bytes accepted into `sendq`, packets put on `recvq`, packets given to the plugin, and the
      connections the worker itself has closed. */
  datatype Worker = Worker(recvq: seq<Up>, sendq: seq<Down>, sess: map<nat, nat>, top: nat,
                           replied: map<Key, seq<byte>>,
                           framed: map<Key, seq<seq<byte>>>, seen: map<Key, seq<seq<byte>>>,
                           closed: set<Key>)

  const NEW_WORKER := Worker([], [], map[], 0, map[], map[], map[], {})

  datatype State = State(gen: nat, conns: map<nat, Conn>, workers: seq<Worker>)

  function At<T>(m: map<Key, seq<T>>, k: Key): seq<T> {
    if k in m then m[k] else []
  }

  // ----- what both sides do -----

  /** How a write to the client's socket ends: it fails, or it takes `n` bytes. */
  datatype Result = Died | Wrote(n: nat)

  datatype Action =
    | AddOther                                        // a listener, a pipe, an outgoing connection
    | Accept(fd: nat, w: nat, pushed: bool)           // do_open_conn
    | Deliver(fd: nat, packet: seq<byte>, pushed: bool)   // net_recv found a packet
    | Drop(fd: nat)                                   // do_del_conn(fd, 1): error, hang-up or timeout
    | DropLost(fd: nat)                               // the same, with the CLOSE refused by a full ring
    | Flush(fd: nat, n: nat)                          // EPOLLOUT
    | Output(w: nat, written: Result)                // schedule_output on the next block of sendq
    | Sweep(fd: nat)                                  // iterate_close_queue: do_del_conn(fd, 2)
    | Handle(w: nat)                                  // handle_recv_queue on the next block of recvq
    | SendPkg(w: nat, fd: nat, bytes: seq<byte>)      // one accepted block of send_pkg_to_client
    | CloseClient(w: nat, fd: nat, pushed: bool)      // close_client_conn

  function PushUp(s: State, i: nat, u: Up): State
    requires i < |s.workers|
  {
    var w := s.workers[i];
    var k := (u.fd, u.gen);
    var w' := w.(recvq := w.recvq + [u],
                 framed := if u.Data? then w.framed[k := At(w.framed, k) + [u.packet]] else w.framed);
    s.(workers := s.workers[i := w'])
  }

  function DropConn(s: State, fd: nat): State
    requires fd in s.conns && s.conns[fd].worker < |s.workers|
  {
    var cn := s.conns[fd];
    PushUp(s.(conns := s.conns - {fd}), cn.worker, Close(fd, cn.gen))
  }

  function Write(cn: Conn, data: seq<byte>, n: nat): Conn {
    var all := cn.buf + data;
    var k := if n < |all| then n else |all|;
    cn.(sent := cn.sent + all[..k], buf := all[k..])
  }

  /** Every way a socket can take some of the waiting bytes and leave the rest in order is such a write. */
  lemma AnySplitIsAWrite(cn: Conn, data: seq<byte>, sent: seq<byte>, buf: seq<byte>) returns (n: nat)
    requires cn.sent <= sent && sent + buf == cn.sent + cn.buf + data
    ensures Write(cn, data, n) == cn.(sent := sent, buf := buf)
  {
    var all := cn.buf + data;
    n := |sent| - |cn.sent|;
    assert sent + buf == cn.sent + all;
    assert all == (sent + buf)[|cn.sent|..];
    assert all[..n] == sent[|cn.sent|..] && all[n..] == buf;
    assert cn.sent + sent[|cn.sent|..] == sent;
  }

  /** `schedule_output`: the block acts only if its fd is a client whose id it carries. */
  predicate Matches(s: State, b: Down) {
    b.fd in s.conns && WireId(s.conns[b.fd].gen) == WireId(b.gen)
  }

  function ScheduleOutput(s: State, b: Down, written: Result): State
    requires forall fd :: fd in s.conns ==> s.conns[fd].worker < |s.workers|
  {
    if !Matches(s, b) then s
    else if b.Fin? then s.(conns := s.conns[b.fd := s.conns[b.fd].(closing := true)])
    else match written
      case Died => DropConn(s, b.fd)
      case Wrote(n) => s.(conns := s.conns[b.fd := Write(s.conns[b.fd], b.bytes, n)])
  }

  /** What a block does to the child's session table when it is acceptable. */
  function Apply(sess: map<nat, nat>, u: Up): map<nat, nat> {
    match u
    case Open(fd, gen) => sess[fd := gen]
    case Data(_, _, _) => sess
    case Close(fd, _) => sess - {fd}
  }

  /** One turn of `handle_recv_queue`, before the plugin reacts.  The child looks sessions up by fd and
      never compares ids. */
  function HandleBlock(w: Worker, u: Up): Worker {
    match u
    case Open(fd, gen) =>
      if fd in w.sess then w.(sendq := w.sendq + [Fin(fd, gen)], top := gen)
      else w.(sess := Apply(w.sess, u), top := gen)
    case Data(fd, _, packet) =>
      if fd !in w.sess || packet == [] then w
      else var k := (fd, w.sess[fd]); w.(seen := w.seen[k := At(w.seen, k) + [packet]])
    case Close(fd, _) => w.(sess := Apply(w.sess, u))
  }

  /** `close_client_conn`: the session goes at once, the FIN if the queue takes it. */
  function Closed(w: Worker, fd: nat, pushed: bool): Worker {
    if fd !in w.sess then w
    else w.(sess := w.sess - {fd}, closed := w.closed + {(fd, w.sess[fd])},
            sendq := if pushed then w.sendq + [Fin(fd, w.sess[fd])] else w.sendq)
  }

  /** A block of `send_pkg_to_client` that `sendq` accepts. */
  function Sent(w: Worker, fd: nat, bytes: seq<byte>): Worker {
    if fd !in w.sess then w
    else
      var k := (fd, w.sess[fd]);
      w.(sendq := w.sendq + [Reply(fd, k.1, bytes)], replied := w.replied[k := At(w.replied, k) + bytes])
  }

  predicate Enabled(s: State, a: Action) {
    match a
    case AddOther => true
    case Accept(fd, w, _) => fd !in s.conns && w < |s.workers|
    case Deliver(fd, packet, _) => fd in s.conns && s.conns[fd].worker < |s.workers| && packet != []
    case Drop(fd) => fd in s.conns && s.conns[fd].worker < |s.workers|
    case DropLost(fd) => fd in s.conns && s.conns[fd].worker < |s.workers|
    case Flush(fd, _) => fd in s.conns
    case Output(w, _) =>
      w < |s.workers| && s.workers[w].sendq != [] && s.gen - s.workers[w].sendq[0].gen < IDS &&
      forall fd :: fd in s.conns ==> s.conns[fd].worker < |s.workers|
    case Sweep(fd) => fd in s.conns && s.conns[fd].closing
    case Handle(w) => w < |s.workers| && s.workers[w].recvq != []
    case SendPkg(w, fd, bytes) => w < |s.workers| && fd in s.workers[w].sess && bytes != []
    case CloseClient(w, fd, _) => w < |s.workers| && fd in s.workers[w].sess
  }

  function Next(s: State, a: Action): State
    requires Enabled(s, a)
  {
    match a
    case AddOther => s.(gen := s.gen + 1)
    case Accept(fd, w, pushed) =>
      var g := s.gen + 1;
      if !pushed then s.(gen := g)
      else PushUp(s.(gen := g, conns := s.conns[fd := Conn(g, w, false, [], [])]), w, Open(fd, g))
    case Deliver(fd, packet, pushed) =>
      if !pushed then DropConn(s, fd)
      else PushUp(s, s.conns[fd].worker, Data(fd, s.conns[fd].gen, packet))
    case Drop(fd) => DropConn(s, fd)
    case DropLost(fd) => s.(conns := s.conns - {fd})
    case Flush(fd, n) => s.(conns := s.conns[fd := Write(s.conns[fd], [], n)])
    case Output(i, written) =>
      var w := s.workers[i];
      ScheduleOutput(s.(workers := s.workers[i := w.(sendq := w.sendq[1..])]), w.sendq[0], written)
    case Sweep(fd) => s.(conns := s.conns - {fd})
    case Handle(i) =>
      var w := s.workers[i];
      s.(workers := s.workers[i := HandleBlock(w.(recvq := w.recvq[1..]), w.recvq[0])])
    case SendPkg(i, fd, bytes) =>
      s.(workers := s.workers[i := Sent(s.workers[i], fd, bytes)])
    case CloseClient(i, fd, pushed) =>
      s.(workers := s.workers[i := Closed(s.workers[i], fd, pushed)])
  }

  // ----- replaying a queue of blocks -----

  /** The session table after the child takes every queued block. */
  function Replay(sess: map<nat, nat>, q: seq<Up>): map<nat, nat>
    decreases |q|
  {
    if q == [] then sess else Replay(Apply(sess, q[0]), q[1..])
  }

  /** An OPEN meets no session; DATA and CLOSE meet none or their own. */
  predicate Fits(sess: map<nat, nat>, u: Up) {
    if u.Open? then u.fd !in sess else u.fd in sess ==> sess[u.fd] == u.gen
  }

  predicate Good(sess: map<nat, nat>, q: seq<Up>)
    decreases |q|
  {
    q == [] || (Fits(sess, q[0]) && Good(Apply(sess, q[0]), q[1..]))
  }

  function After(top: nat, u: Up): nat {
    if u.Open? then u.gen else top
  }

  /** The generation of the last OPEN, once the queue is taken. */
  function LastTop(top: nat, q: seq<Up>): nat
    decreases |q|
  {
    if q == [] then top else LastTop(After(top, q[0]), q[1..])
  }

  /** OPENs come in the order of their generations; other blocks follow their own OPEN. */
  predicate Ordered(top: nat, q: seq<Up>)
    decreases |q|
  {
    q == [] ||
    ((if q[0].Open? then q[0].gen > top else q[0].gen <= top) && Ordered(After(top, q[0]), q[1..]))
  }

  /** Packets queued for one connection. */
  function Packets(q: seq<Up>, k: Key): seq<seq<byte>>
    decreases |q|
  {
    if q == [] then []
    else (if q[0].Data? && (q[0].fd, q[0].gen) == k then [q[0].packet] else []) + Packets(q[1..], k)
  }

  /** Reply bytes queued for one connection. */
  function Replies(q: seq<Down>, k: Key): seq<byte>
    decreases |q|
  {
    if q == [] then []
    else (if q[0].Reply? && (q[0].fd, q[0].gen) == k then q[0].bytes else []) + Replies(q[1..], k)
  }

  lemma {:induction false} AppendUp(sess: map<nat, nat>, top: nat, q: seq<Up>, u: Up, k: Key)
    ensures Replay(sess, q + [u]) == Apply(Replay(sess, q), u)
    ensures Good(sess, q + [u]) <==> Good(sess, q) && Fits(Replay(sess, q), u)
    ensures LastTop(top, q + [u]) == After(LastTop(top, q), u)
    ensures Ordered(top, q + [u]) <==>
      Ordered(top, q) && if u.Open? then u.gen > LastTop(top, q) else u.gen <= LastTop(top, q)
    ensures Packets(q + [u], k) == Packets(q, k) + if u.Data? && (u.fd, u.gen) == k then [u.packet] else []
    decreases |q|
  {
    if q == [] {
      assert (q + [u])[1..] == [];
    } else {
      assert (q + [u])[1..] == q[1..] + [u];
      AppendUp(Apply(sess, q[0]), After(top, q[0]), q[1..], u, k);
    }
  }

  lemma {:induction false} AppendDown(q: seq<Down>, b: Down, k: Key)
    ensures Replies(q + [b], k) == Replies(q, k) + if b.Reply? && (b.fd, b.gen) == k then b.bytes else []
    decreases |q|
  {
    if q == [] {
      assert (q + [b])[1..] == [];
    } else {
      assert (q + [b])[1..] == q[1..] + [b];
      AppendDown(q[1..], b, k);
    }
  }

  /** Forgetting sessions early keeps every later block acceptable. */
  lemma {:induction false} FewerSessions(m: map<nat, nat>, n: map<nat, nat>, q: seq<Up>)
    requires Within(m, n) && Good(n, q)
    ensures Good(m, q) && Within(Replay(m, q), Replay(n, q))
    decreases |q|
  {
    if q == [] {
    } else {
      FewerSessions(Apply(m, q[0]), Apply(n, q[0]), q[1..]);
    }
  }

  /** A session after the replay was there before it, or is newer than everything seen so far. */
  lemma {:induction false} ReplayedSession(sess: map<nat, nat>, top: nat, q: seq<Up>, fd: nat)
    requires Ordered(top, q) && fd in Replay(sess, q)
    ensures (fd in sess && Replay(sess, q)[fd] == sess[fd]) || Replay(sess, q)[fd] > top
    decreases |q|
  {
    if q == [] {
    } else {
      ReplayedSession(Apply(sess, q[0]), After(top, q[0]), q[1..], fd);
    }
  }

  /** Forgetting one session early changes the replayed table at most by that very session. */
  lemma {:induction false} ForgetOne(m: map<nat, nat>, n: map<nat, nat>, q: seq<Up>, fd: nat, g: nat)
    requires Within(m, n) && forall k :: k in n && k !in m ==> k == fd && n[k] == g
    ensures forall k :: k in Replay(n, q) && k !in Replay(m, q) ==> k == fd && Replay(n, q)[k] == g
    decreases |q|
  {
    if q == [] {
    } else {
      ForgetOne(Apply(m, q[0]), Apply(n, q[0]), q[1..], fd, g);
    }
  }

  lemma {:induction false} NoReplies(q: seq<Down>, k: Key)
    requires forall b :: b in q ==> b.gen < k.1
    ensures Replies(q, k) == []
    decreases |q|
  {
    if q == [] {
    } else {
      NoReplies(q[1..], k);
    }
  }

  // ----- the invariant -----

  /** A block or session of worker `j` for (`fd`, `g`) is no newer than the connection on `fd`, and if
      it is that connection's own, then `j` serves it. */
  predicate Belongs(s: State, j: nat, fd: nat, g: nat) {
    0 < g <= s.gen &&
    (fd in s.conns ==> g <= s.conns[fd].gen && (g == s.conns[fd].gen ==> s.conns[fd].worker == j))
  }

  predicate QueuesBelong(s: State, j: nat)
    requires j < |s.workers|
  {
    var w := s.workers[j];
    (forall u :: u in w.recvq ==> Belongs(s, j, u.fd, u.gen) && (u.Data? ==> u.packet != [])) &&
    (forall b :: b in w.sendq ==> Belongs(s, j, b.fd, b.gen) && b.gen <= w.top) &&
    (forall fd :: fd in w.sess ==> Belongs(s, j, fd, w.sess[fd]) && w.sess[fd] <= w.top)
  }

  /** After the queued blocks, worker `j` has a session for each connection it serves, except those
      it has closed itself, and no others. */
  predicate Tracked(s: State, j: nat)
    requires j < |s.workers|
  {
    var w := s.workers[j];
    var r := Replay(w.sess, w.recvq);
    (forall fd :: fd in r ==> fd in s.conns && s.conns[fd].gen == r[fd] && s.conns[fd].worker == j) &&
    (forall fd :: fd in s.conns && s.conns[fd].worker == j ==>
      ((fd, s.conns[fd].gen) in w.closed <==> fd !in r) &&
      (s.conns[fd].closing ==> (fd, s.conns[fd].gen) in w.closed)) &&
    (forall k :: k in w.closed ==> k.1 <= s.gen) &&
    (forall b :: b in w.sendq && b.Fin? ==> (b.fd, b.gen) in w.closed)
  }

  predicate Sequenced(s: State, j: nat)
    requires j < |s.workers|
  {
    var w := s.workers[j];
    Good(w.sess, w.recvq) && Ordered(w.top, w.recvq) && LastTop(w.top, w.recvq) <= s.gen &&
    forall fd :: fd in s.conns && s.conns[fd].worker == j ==> s.conns[fd].gen <= LastTop(w.top, w.recvq)
  }

  /** Bytes taken by the socket, buffered and queued are the bytes the worker had accepted. */
  predicate Conserved(s: State, j: nat)
    requires j < |s.workers|
  {
    var w := s.workers[j];
    (forall fd :: fd in s.conns && s.conns[fd].worker == j ==>
      var cn := s.conns[fd];
      cn.sent + cn.buf + Replies(w.sendq, (fd, cn.gen)) == At(w.replied, (fd, cn.gen))) &&
    (forall k :: k in w.replied ==> k.1 <= s.gen)
  }

  /** `k` is a session of `w`, or will be. */
  predicate Ahead(w: Worker, k: Key) {
    k.1 > w.top || (k.0 in w.sess && w.sess[k.0] == k.1)
  }

  /** Packets given to the plugin and still queued are the packets framed for that connection. */
  ghost predicate Delivered(w: Worker) {
    (forall k: Key :: Ahead(w, k) ==> At(w.seen, k) + Packets(w.recvq, k) == At(w.framed, k)) &&
    (forall k: Key :: At(w.seen, k) <= At(w.framed, k))
  }

  predicate Structure(s: State, j: nat)
    requires j < |s.workers|
  {
    QueuesBelong(s, j) && Tracked(s, j) && Sequenced(s, j)
  }

  ghost predicate WorkerInv(s: State, j: nat)
    requires j < |s.workers|
  {
    Structure(s, j) && Conserved(s, j) && Delivered(s.workers[j])
  }

  predicate ConnsInv(s: State) {
    forall fd :: fd in s.conns ==> 0 < s.conns[fd].gen <= s.gen && s.conns[fd].worker < |s.workers|
  }

  ghost predicate Inv(s: State) {
    ConnsInv(s) && forall j :: 0 <= j < |s.workers| ==> WorkerInv(s, j)
  }

  predicate Init(s: State) {
    s.gen == 0 && s.conns == map[] &&
    forall j :: 0 <= j < |s.workers| ==> s.workers[j] == NEW_WORKER
  }

  lemma InitInv(s: State)
    requires Init(s)
    ensures Inv(s)
  {
  }

  // ----- every step keeps it -----

  /** Connections may change only where worker `j` is not concerned: others' connections come, go and
      move bytes, new ones are newer than everything; `j`'s own keep id and worker. */
  predicate Apart(s: State, s': State, j: nat) {
    s.gen <= s'.gen &&
    (forall fd :: fd in s.conns && s.conns[fd].worker == j ==> fd in s'.conns && s'.conns[fd] == s.conns[fd]) &&
    (forall fd :: fd in s'.conns && fd !in s.conns ==> s'.conns[fd].gen > s.gen && s'.conns[fd].worker != j) &&
    (forall fd :: fd in s'.conns && fd in s.conns ==>
      s'.conns[fd].gen == s.conns[fd].gen && s'.conns[fd].worker == s.conns[fd].worker)
  }

  lemma ApartKeeps(s: State, s': State, j: nat)
    requires j < |s.workers| && j < |s'.workers| && s'.workers[j] == s.workers[j]
    requires WorkerInv(s, j) && Apart(s, s', j)
    ensures WorkerInv(s', j)
  {
  }

  /** The step concerns worker `i` only. */
  lemma OthersKeep(s: State, s': State, i: nat)
    requires Inv(s) && ConnsInv(s') && |s'.workers| == |s.workers|
    requires forall j :: 0 <= j < |s.workers| && j != i ==> s'.workers[j] == s.workers[j] && Apart(s, s', j)
    requires i < |s.workers| ==> WorkerInv(s', i)
    ensures Inv(s')
  {
    forall j | 0 <= j < |s.workers|
      ensures WorkerInv(s', j)
    {
      if j != i { ApartKeeps(s, s', j); }
    }
  }

  /** A connection of worker `i` goes, or changes in what the others do not see; no other worker moves. */
  lemma OneConnKeeps(s: State, s': State, fd: nat, i: nat)
    requires Inv(s) && fd in s.conns && s.conns[fd].worker == i && s'.gen == s.gen
    requires |s'.workers| == |s.workers|
    requires forall j :: 0 <= j < |s.workers| && j != i ==> s'.workers[j] == s.workers[j]
    requires fd in s'.conns ==> s'.conns[fd].gen == s.conns[fd].gen && s'.conns[fd].worker == i
    requires s'.conns - {fd} == s.conns - {fd}
    requires i < |s.workers| ==> WorkerInv(s', i)
    ensures Inv(s')
  {
    forall g | g != fd
      ensures g in s'.conns <==> g in s.conns
      ensures g in s.conns ==> s'.conns[g] == s.conns[g]
    {
      assert g in s.conns - {fd} <==> g in s'.conns - {fd};
    }
    OthersKeep(s, s', i);
  }

  /** A block put on `recvq` is accounted for. */
  lemma PushDelivered(s: State, i: nat, u: Up)
    requires i < |s.workers| && Delivered(s.workers[i])
    ensures Delivered(PushUp(s, i, u).workers[i])
  {
    var w, w' := s.workers[i], PushUp(s, i, u).workers[i];
    forall k: Key
      ensures Packets(w'.recvq, k) == Packets(w.recvq, k) + if u.Data? && (u.fd, u.gen) == k then [u.packet] else []
    {
      AppendUp(w.sess, w.top, w.recvq, u, k);
    }
    forall k: Key | Ahead(w', k)
      ensures At(w'.seen, k) + Packets(w'.recvq, k) == At(w'.framed, k)
    {
      assert Ahead(w, k);
    }
  }

  lemma DeliveredSame(w: Worker, w': Worker)
    requires Delivered(w) && w'.recvq == w.recvq && w'.framed == w.framed && w'.seen == w.seen
    requires w'.top == w.top && Within(w'.sess, w.sess)
    ensures Delivered(w')
  {
    forall k: Key | Ahead(w', k)
      ensures At(w'.seen, k) + Packets(w'.recvq, k) == At(w'.framed, k)
    {
      assert Ahead(w, k);
    }
  }

  lemma AcceptTracked(s: State, fd: nat, i: nat)
    requires ConnsInv(s) && fd !in s.conns && i < |s.workers| && Tracked(s, i)
    ensures Tracked(Next(s, Accept(fd, i, true)), i)
  {
    AppendUp(s.workers[i].sess, 0, s.workers[i].recvq, Open(fd, s.gen + 1), (0, 0));
  }

  lemma AcceptSequenced(s: State, fd: nat, i: nat)
    requires ConnsInv(s) && fd !in s.conns && i < |s.workers| && Tracked(s, i) && Sequenced(s, i)
    ensures Sequenced(Next(s, Accept(fd, i, true)), i)
  {
    var w := s.workers[i];
    AppendUp(w.sess, w.top, w.recvq, Open(fd, s.gen + 1), (0, 0));
  }

  lemma AcceptStructure(s: State, fd: nat, i: nat)
    requires ConnsInv(s) && fd !in s.conns && i < |s.workers| && Structure(s, i)
    ensures Structure(Next(s, Accept(fd, i, true)), i)
  {
    AcceptTracked(s, fd, i);
    AcceptSequenced(s, fd, i);
  }

  lemma AcceptWorker(s: State, fd: nat, i: nat)
    requires ConnsInv(s) && fd !in s.conns && i < |s.workers| && WorkerInv(s, i)
    ensures WorkerInv(Next(s, Accept(fd, i, true)), i)
  {
    AcceptStructure(s, fd, i);
    NoReplies(s.workers[i].sendq, (fd, s.gen + 1));
    PushDelivered(s, i, Open(fd, s.gen + 1));
  }

  lemma DeliverStructure(s: State, fd: nat, packet: seq<byte>)
    requires ConnsInv(s) && packet != [] && fd in s.conns && Structure(s, s.conns[fd].worker)
    ensures Structure(Next(s, Deliver(fd, packet, true)), s.conns[fd].worker)
  {
    var cn := s.conns[fd];
    var w := s.workers[cn.worker];
    AppendUp(w.sess, w.top, w.recvq, Data(fd, cn.gen, packet), (0, 0));
  }

  lemma DeliverWorker(s: State, fd: nat, packet: seq<byte>)
    requires ConnsInv(s) && packet != [] && fd in s.conns && WorkerInv(s, s.conns[fd].worker)
    ensures WorkerInv(Next(s, Deliver(fd, packet, true)), s.conns[fd].worker)
  {
    var cn := s.conns[fd];
    DeliverStructure(s, fd, packet);
    PushDelivered(s, cn.worker, Data(fd, cn.gen, packet));
  }

  lemma DropStructure(s: State, fd: nat)
    requires ConnsInv(s) && fd in s.conns && Structure(s, s.conns[fd].worker)
    ensures Structure(DropConn(s, fd), s.conns[fd].worker)
  {
    var cn := s.conns[fd];
    var w := s.workers[cn.worker];
    AppendUp(w.sess, w.top, w.recvq, Close(fd, cn.gen), (0, 0));
  }

  lemma DropWorker(s: State, fd: nat)
    requires ConnsInv(s) && fd in s.conns && WorkerInv(s, s.conns[fd].worker)
    ensures WorkerInv(DropConn(s, fd), s.conns[fd].worker)
  {
    DropStructure(s, fd);
    PushDelivered(s, s.conns[fd].worker, Close(fd, s.conns[fd].gen));
  }

  /** The connection on `fd` changes in its byte streams only. */
  lemma SameConnStructure(s: State, s': State, fd: nat, j: nat)
    requires fd in s.conns && j < |s.workers| && Structure(s, j)
    requires s' == s.(conns := s'.conns) && fd in s'.conns
    requires s'.conns == s.conns[fd := s.conns[fd].(sent := s'.conns[fd].sent, buf := s'.conns[fd].buf)]
    ensures Structure(s', j)
  {
  }

  lemma WriteWorker(s: State, fd: nat, n: nat)
    requires ConnsInv(s) && fd in s.conns && WorkerInv(s, s.conns[fd].worker)
    ensures WorkerInv(Next(s, Flush(fd, n)), s.conns[fd].worker)
  {
    var cn, cn' := s.conns[fd], Write(s.conns[fd], [], n);
    assert cn'.sent + cn'.buf == cn.sent + cn.buf;
    SameConnStructure(s, Next(s, Flush(fd, n)), fd, cn.worker);
  }

  lemma SweepStructure(s: State, fd: nat)
    requires ConnsInv(s) && fd in s.conns && s.conns[fd].closing && Structure(s, s.conns[fd].worker)
    ensures Structure(Next(s, Sweep(fd)), s.conns[fd].worker)
  {
  }

  lemma SweepWorker(s: State, fd: nat)
    requires ConnsInv(s) && fd in s.conns && s.conns[fd].closing && WorkerInv(s, s.conns[fd].worker)
    ensures WorkerInv(Next(s, Sweep(fd)), s.conns[fd].worker)
  {
    SweepStructure(s, fd);
  }

  /** A lost CLOSE is harmless if the worker had closed the connection itself. */
  predicate Harmless(s: State, a: Action) {
    a.DropLost? && a.fd in s.conns && s.conns[a.fd].worker < |s.workers| ==>
      (a.fd, s.conns[a.fd].gen) in s.workers[s.conns[a.fd].worker].closed
  }

  lemma DropLostStructure(s: State, fd: nat)
    requires ConnsInv(s) && fd in s.conns && Harmless(s, DropLost(fd)) && Structure(s, s.conns[fd].worker)
    ensures Structure(Next(s, DropLost(fd)), s.conns[fd].worker)
  {
  }

  lemma DropLostWorker(s: State, fd: nat)
    requires ConnsInv(s) && fd in s.conns && Harmless(s, DropLost(fd)) && WorkerInv(s, s.conns[fd].worker)
    ensures WorkerInv(Next(s, DropLost(fd)), s.conns[fd].worker)
  {
    DropLostStructure(s, fd);
  }

  /** Under the id window a block acts on the connection it was made for, of the worker it came from. */
  lemma MatchIsExact(s: State, i: nat, b: Down)
    requires ConnsInv(s) && Belongs(s, i, b.fd, b.gen) && s.gen - b.gen < IDS
    ensures Matches(s, b) <==> b.fd in s.conns && s.conns[b.fd].gen == b.gen
    ensures Matches(s, b) ==> s.conns[b.fd].worker == i
  {
    if b.fd in s.conns && b.gen < s.conns[b.fd].gen {
      IdsDistinct(b.gen, s.conns[b.fd].gen);
    }
  }

  function PopDown(s: State, i: nat): State
    requires i < |s.workers| && s.workers[i].sendq != []
  {
    s.(workers := s.workers[i := s.workers[i].(sendq := s.workers[i].sendq[1..])])
  }

  /** A block that matches nothing is dropped without harm. */
  lemma DiscardWorker(s: State, i: nat)
    requires ConnsInv(s) && i < |s.workers| && WorkerInv(s, i) && s.workers[i].sendq != []
    requires var b := s.workers[i].sendq[0]; !(b.Reply? && b.fd in s.conns && s.conns[b.fd].gen == b.gen)
    ensures WorkerInv(PopDown(s, i), i)
  {
  }

  function Closing(s: State, fd: nat): State
    requires fd in s.conns
  {
    s.(conns := s.conns[fd := s.conns[fd].(closing := true)])
  }

  lemma FinStructure(s: State, i: nat)
    requires i < |s.workers| && Structure(s, i) && s.workers[i].sendq != []
    requires var b := s.workers[i].sendq[0]; b.Fin? && b.fd in s.conns && s.conns[b.fd].gen == b.gen
    ensures Structure(Closing(PopDown(s, i), s.workers[i].sendq[0].fd), i)
  {
    assert s.workers[i].sendq[0] in s.workers[i].sendq;
  }

  lemma FinConserved(s: State, i: nat)
    requires i < |s.workers| && Conserved(s, i) && s.workers[i].sendq != []
    requires var b := s.workers[i].sendq[0]; b.Fin? && b.fd in s.conns
    ensures Conserved(Closing(PopDown(s, i), s.workers[i].sendq[0].fd), i)
  {
  }

  lemma FinWorker(s: State, i: nat)
    requires i < |s.workers| && WorkerInv(s, i) && s.workers[i].sendq != []
    requires var b := s.workers[i].sendq[0]; b.Fin? && b.fd in s.conns && s.conns[b.fd].gen == b.gen
    ensures WorkerInv(Closing(PopDown(s, i), s.workers[i].sendq[0].fd), i)
  {
    FinStructure(s, i);
    FinConserved(s, i);
    DeliveredSame(s.workers[i], PopDown(s, i).workers[i]);
  }

  lemma PopDownStructure(s: State, i: nat)
    requires i < |s.workers| && Structure(s, i) && s.workers[i].sendq != []
    ensures Structure(PopDown(s, i), i)
  {
  }

  function Written(s: State, b: Down, n: nat): State
    requires b.Reply? && b.fd in s.conns
  {
    s.(conns := s.conns[b.fd := Write(s.conns[b.fd], b.bytes, n)])
  }

  lemma ReplyConserved(s: State, i: nat, n: nat)
    requires i < |s.workers| && Conserved(s, i) && s.workers[i].sendq != []
    requires var b := s.workers[i].sendq[0]; b.Reply? && b.fd in s.conns && s.conns[b.fd].gen == b.gen
    ensures Conserved(Written(PopDown(s, i), s.workers[i].sendq[0], n), i)
  {
    var b := s.workers[i].sendq[0];
    var cn, cn' := s.conns[b.fd], Write(s.conns[b.fd], b.bytes, n);
    var rest := Replies(s.workers[i].sendq[1..], (b.fd, cn.gen));
    WriteMoves(cn, b.bytes, n);
    Assoc(cn.sent + cn.buf, b.bytes, rest);
    assert forall k :: k != (b.fd, b.gen) ==>
      Replies(s.workers[i].sendq, k) == [] + Replies(s.workers[i].sendq[1..], k);
  }

  lemma WriteMoves(cn: Conn, data: seq<byte>, n: nat)
    ensures var cn' := Write(cn, data, n);
      cn'.sent + cn'.buf == cn.sent + cn.buf + data && cn.sent <= cn'.sent
  {
  }

  lemma ReplyStructure(s: State, i: nat, n: nat)
    requires i < |s.workers| && Structure(s, i) && s.workers[i].sendq != []
    requires var b := s.workers[i].sendq[0]; b.Reply? && b.fd in s.conns && s.conns[b.fd].gen == b.gen
    ensures Structure(Written(PopDown(s, i), s.workers[i].sendq[0], n), i)
  {
    var b, t := s.workers[i].sendq[0], PopDown(s, i);
    PopDownStructure(s, i);
    SameConnStructure(t, Written(t, b, n), b.fd, i);
  }

  lemma ReplyWorker(s: State, i: nat, n: nat)
    requires i < |s.workers| && WorkerInv(s, i) && s.workers[i].sendq != []
    requires var b := s.workers[i].sendq[0]; b.Reply? && b.fd in s.conns && s.conns[b.fd].gen == b.gen
    ensures WorkerInv(Written(PopDown(s, i), s.workers[i].sendq[0], n), i)
  {
    ReplyConserved(s, i, n);
    ReplyStructure(s, i, n);
    DeliveredSame(s.workers[i], PopDown(s, i).workers[i]);
  }

  lemma HandleStructure(s: State, i: nat)
    requires i < |s.workers| && Structure(s, i) && s.workers[i].recvq != []
    ensures Structure(Next(s, Handle(i)), i)
  {
    assert s.workers[i].recvq[0] in s.workers[i].recvq;
  }

  /** A packet moves from the queue to the plugin. */
  lemma DataAhead(w: Worker, k: Key)
    requires w.recvq != [] && w.recvq[0].Data? && w.recvq[0].packet != []
    requires w.recvq[0].gen <= w.top && Fits(w.sess, w.recvq[0])
    requires Ahead(w, k)
    ensures var w' := HandleBlock(w.(recvq := w.recvq[1..]), w.recvq[0]);
      At(w'.seen, k) + Packets(w.recvq[1..], k) == At(w.seen, k) + Packets(w.recvq, k)
  {
    var u, rest := w.recvq[0], Packets(w.recvq[1..], k);
    if (u.fd, u.gen) == k {
      Assoc(At(w.seen, k), [u.packet], rest);
    } else {
      assert [] + rest == rest;
    }
  }

  /** Taking one block keeps a connection's packets: given to the plugin, or still queued. */
  lemma HandleAhead(w: Worker, k: Key)
    requires w.recvq != [] && Fits(w.sess, w.recvq[0]) && (w.recvq[0].Data? ==> w.recvq[0].packet != [])
    requires if w.recvq[0].Open? then w.recvq[0].gen > w.top else w.recvq[0].gen <= w.top
    requires forall fd :: fd in w.sess ==> w.sess[fd] <= w.top
    requires Ahead(HandleBlock(w.(recvq := w.recvq[1..]), w.recvq[0]), k)
    ensures Ahead(w, k)
    ensures var w' := HandleBlock(w.(recvq := w.recvq[1..]), w.recvq[0]);
      w'.framed == w.framed && At(w'.seen, k) + Packets(w.recvq[1..], k) == At(w.seen, k) + Packets(w.recvq, k)
  {
    if w.recvq[0].Data? {
      DataAhead(w, k);
    } else {
      assert [] + Packets(w.recvq[1..], k) == Packets(w.recvq[1..], k);
    }
  }

  lemma HandleDelivered(w: Worker)
    requires w.recvq != [] && Delivered(w) && Good(w.sess, w.recvq) && Ordered(w.top, w.recvq)
    requires w.recvq[0].Data? ==> w.recvq[0].packet != []
    requires forall fd :: fd in w.sess ==> w.sess[fd] <= w.top
    ensures Delivered(HandleBlock(w.(recvq := w.recvq[1..]), w.recvq[0]))
  {
    var u, w' := w.recvq[0], HandleBlock(w.(recvq := w.recvq[1..]), w.recvq[0]);
    forall k: Key | Ahead(w', k)
      ensures At(w'.seen, k) + Packets(w'.recvq, k) == At(w'.framed, k)
    {
      HandleAhead(w, k);
    }
    forall k: Key
      ensures At(w'.seen, k) <= At(w'.framed, k)
    {
      if Ahead(w', k) {
        HandleAhead(w, k);
      } else {
        assert At(w'.seen, k) == At(w.seen, k);
      }
    }
  }

  lemma HandleWorker(s: State, i: nat)
    requires i < |s.workers| && WorkerInv(s, i) && s.workers[i].recvq != []
    ensures WorkerInv(Next(s, Handle(i)), i)
  {
    HandleStructure(s, i);
    assert s.workers[i].recvq[0] in s.workers[i].recvq;
    HandleDelivered(s.workers[i]);
  }

  lemma SendStructure(s: State, i: nat, fd: nat, bytes: seq<byte>)
    requires bytes != [] && i < |s.workers| && Structure(s, i) && fd in s.workers[i].sess
    ensures Structure(Next(s, SendPkg(i, fd, bytes)), i)
  {
  }

  lemma SendConserved(s: State, i: nat, fd: nat, bytes: seq<byte>)
    requires bytes != [] && i < |s.workers| && QueuesBelong(s, i) && Conserved(s, i) && fd in s.workers[i].sess
    ensures Conserved(Next(s, SendPkg(i, fd, bytes)), i)
  {
    var w := s.workers[i];
    var b := Reply(fd, w.sess[fd], bytes);
    forall k: Key
      ensures Replies(w.sendq + [b], k) == Replies(w.sendq, k) + if (fd, b.gen) == k then bytes else []
    {
      AppendDown(w.sendq, b, k);
    }
  }

  lemma SendWorker(s: State, i: nat, fd: nat, bytes: seq<byte>)
    requires bytes != [] && i < |s.workers| && WorkerInv(s, i) && fd in s.workers[i].sess
    ensures WorkerInv(Next(s, SendPkg(i, fd, bytes)), i)
  {
    SendConserved(s, i, fd, bytes);
    SendStructure(s, i, fd, bytes);
    DeliveredSame(s.workers[i], Next(s, SendPkg(i, fd, bytes)).workers[i]);
  }

  lemma CloseTracked(s: State, i: nat, fd: nat, pushed: bool)
    requires i < |s.workers| && Structure(s, i) && fd in s.workers[i].sess
    ensures Tracked(Next(s, CloseClient(i, fd, pushed)), i)
  {
    var w := s.workers[i];
    FewerSessions(w.sess - {fd}, w.sess, w.recvq);
    ForgetOne(w.sess - {fd}, w.sess, w.recvq, fd, w.sess[fd]);
    if fd in Replay(w.sess - {fd}, w.recvq) {
      ReplayedSession(w.sess - {fd}, w.top, w.recvq, fd);
    }
  }

  lemma CloseStructure(s: State, i: nat, fd: nat, pushed: bool)
    requires i < |s.workers| && Structure(s, i) && fd in s.workers[i].sess
    ensures Structure(Next(s, CloseClient(i, fd, pushed)), i)
  {
    CloseTracked(s, i, fd, pushed);
    FewerSessions(s.workers[i].sess - {fd}, s.workers[i].sess, s.workers[i].recvq);
  }

  lemma CloseWorker(s: State, i: nat, fd: nat, pushed: bool)
    requires i < |s.workers| && WorkerInv(s, i) && fd in s.workers[i].sess
    ensures WorkerInv(Next(s, CloseClient(i, fd, pushed)), i)
  {
    var w := s.workers[i];
    var b := Fin(fd, w.sess[fd]);
    forall k: Key
      ensures Replies(w.sendq + [b], k) == Replies(w.sendq, k)
    {
      AppendDown(w.sendq, b, k);
    }
    CloseStructure(s, i, fd, pushed);
    DeliveredSame(w, Next(s, CloseClient(i, fd, pushed)).workers[i]);
  }

  // ----- whole steps -----

  lemma AcceptKeeps(s: State, fd: nat, i: nat)
    requires Inv(s) && Enabled(s, Accept(fd, i, true))
    ensures Inv(Next(s, Accept(fd, i, true)))
  {
    AcceptWorker(s, fd, i);
    AcceptApart(s, fd, i);
    OthersKeep(s, Next(s, Accept(fd, i, true)), i);
  }

  lemma AcceptApart(s: State, fd: nat, i: nat)
    requires ConnsInv(s) && Enabled(s, Accept(fd, i, true))
    ensures var s' := Next(s, Accept(fd, i, true));
      ConnsInv(s') && |s'.workers| == |s.workers| &&
      forall j :: 0 <= j < |s.workers| && j != i ==> s'.workers[j] == s.workers[j] && Apart(s, s', j)
  {
  }

  lemma DeliverKeeps(s: State, fd: nat, packet: seq<byte>)
    requires Inv(s) && fd in s.conns && packet != []
    ensures Inv(Next(s, Deliver(fd, packet, true)))
  {
    DeliverWorker(s, fd, packet);
    OthersKeep(s, Next(s, Deliver(fd, packet, true)), s.conns[fd].worker);
  }

  lemma DropKeeps(s: State, fd: nat)
    requires Inv(s) && fd in s.conns
    ensures Inv(DropConn(s, fd))
  {
    DropWorker(s, fd);
    OneConnKeeps(s, DropConn(s, fd), fd, s.conns[fd].worker);
  }

  lemma FlushKeeps(s: State, fd: nat, n: nat)
    requires Inv(s) && fd in s.conns
    ensures Inv(Next(s, Flush(fd, n)))
  {
    WriteWorker(s, fd, n);
    OneConnKeeps(s, Next(s, Flush(fd, n)), fd, s.conns[fd].worker);
  }

  lemma SweepKeeps(s: State, fd: nat)
    requires Inv(s) && fd in s.conns && s.conns[fd].closing
    ensures Inv(Next(s, Sweep(fd)))
  {
    SweepWorker(s, fd);
    OneConnKeeps(s, Next(s, Sweep(fd)), fd, s.conns[fd].worker);
  }

  lemma DropLostKeeps(s: State, fd: nat)
    requires Inv(s) && fd in s.conns && Harmless(s, DropLost(fd))
    ensures Inv(Next(s, DropLost(fd)))
  {
    DropLostWorker(s, fd);
    OneConnKeeps(s, Next(s, DropLost(fd)), fd, s.conns[fd].worker);
  }

  lemma ChildStepApart(s: State, a: Action)
    requires Inv(s) && Enabled(s, a) && (a.Handle? || a.SendPkg? || a.CloseClient?)
    requires WorkerInv(Next(s, a), a.w)
    ensures Inv(Next(s, a))
  {
    OthersKeep(s, Next(s, a), a.w);
  }

  lemma ChildKeeps(s: State, a: Action)
    requires Inv(s) && Enabled(s, a) && (a.Handle? || a.SendPkg? || a.CloseClient?)
    ensures Inv(Next(s, a))
  {
    assert WorkerInv(s, a.w);
    if a.Handle? {
      HandleWorker(s, a.w);
    } else if a.SendPkg? {
      SendWorker(s, a.w, a.fd, a.bytes);
    } else {
      CloseWorker(s, a.w, a.fd, a.pushed);
    }
    ChildStepApart(s, a);
  }

  lemma DiscardKeeps(s: State, i: nat)
    requires Inv(s) && i < |s.workers| && s.workers[i].sendq != []
    requires var b := s.workers[i].sendq[0]; !(b.Reply? && b.fd in s.conns && s.conns[b.fd].gen == b.gen)
    ensures Inv(PopDown(s, i))
  {
    DiscardWorker(s, i);
    OthersKeep(s, PopDown(s, i), i);
  }

  lemma FinKeeps(s: State, i: nat)
    requires Inv(s) && i < |s.workers| && s.workers[i].sendq != []
    requires var b := s.workers[i].sendq[0]; b.Fin? && b.fd in s.conns && s.conns[b.fd].gen == b.gen
    ensures Inv(Closing(PopDown(s, i), s.workers[i].sendq[0].fd))
  {
    FinWorker(s, i);
    assert s.workers[i].sendq[0] in s.workers[i].sendq;
    OneConnKeeps(s, Closing(PopDown(s, i), s.workers[i].sendq[0].fd), s.workers[i].sendq[0].fd, i);
  }

  lemma ReplyKeeps(s: State, i: nat, n: nat)
    requires Inv(s) && i < |s.workers| && s.workers[i].sendq != []
    requires var b := s.workers[i].sendq[0]; b.Reply? && b.fd in s.conns && s.conns[b.fd].gen == b.gen
    ensures Inv(Written(PopDown(s, i), s.workers[i].sendq[0], n))
  {
    ReplyWorker(s, i, n);
    assert s.workers[i].sendq[0] in s.workers[i].sendq;
    OneConnKeeps(s, Written(PopDown(s, i), s.workers[i].sendq[0], n), s.workers[i].sendq[0].fd, i);
  }

  lemma FrontBelongs(s: State, i: nat)
    requires Inv(s) && i < |s.workers| && s.workers[i].sendq != []
    ensures Belongs(s, i, s.workers[i].sendq[0].fd, s.workers[i].sendq[0].gen)
  {
    assert WorkerInv(s, i);
    assert s.workers[i].sendq[0] in s.workers[i].sendq;
  }

  lemma OutputKeeps(s: State, i: nat, written: Result)
    requires Inv(s) && Enabled(s, Output(i, written))
    ensures Inv(Next(s, Output(i, written)))
  {
    var b, t := s.workers[i].sendq[0], PopDown(s, i);
    FrontBelongs(s, i);
    MatchIsExact(s, i, b);
    if !Matches(s, b) {
      DiscardKeeps(s, i);
    } else if b.Fin? {
      FinKeeps(s, i);
    } else if written.Wrote? {
      ReplyKeeps(s, i, written.n);
    } else {
      ReplyKeeps(s, i, 0);
      DropKeeps(Written(t, b, 0), b.fd);
      assert DropConn(Written(t, b, 0), b.fd) == DropConn(t, b.fd);
    }
  }

  /** Only the generation counter moves. */
  lemma CountKeeps(s: State)
    requires Inv(s)
    ensures Inv(s.(gen := s.gen + 1))
  {
    OthersKeep(s, s.(gen := s.gen + 1), |s.workers|);
  }

  /** Every step of the parent or of a worker keeps the invariant, a harmful loss of a CLOSE excepted. */
  lemma StepKeeps(s: State, a: Action)
    requires Inv(s) && Enabled(s, a) && Harmless(s, a)
    ensures Inv(Next(s, a))
  {
    match a
    case AddOther => CountKeeps(s);
    case Accept(fd, i, pushed) => if pushed { AcceptKeeps(s, fd, i); } else { CountKeeps(s); }
    case Deliver(fd, packet, pushed) => if pushed { DeliverKeeps(s, fd, packet); } else { DropKeeps(s, fd); }
    case Drop(fd) => DropKeeps(s, fd);
    case DropLost(fd) => DropLostKeeps(s, fd);
    case Flush(fd, n) => FlushKeeps(s, fd, n);
    case Output(i, written) => OutputKeeps(s, i, written);
    case Sweep(fd) => SweepKeeps(s, fd);
    case _ => ChildKeeps(s, a);
  }

  // ----- whole runs -----

  predicate Legal(s: State, acts: seq<Action>)
    decreases |acts|
  {
    acts == [] || (Enabled(s, acts[0]) && Legal(Next(s, acts[0]), acts[1..]))
  }

  function Exec(s: State, acts: seq<Action>): State
    requires Legal(s, acts)
    decreases |acts|
  {
    if acts == [] then s else Exec(Next(s, acts[0]), acts[1..])
  }

  lemma Nothing(s: State)
    ensures Legal(s, []) && Kept(s, []) && Exec(s, []) == s
  {
  }

  /** One run after another is a run. */
  lemma {:induction false} AppendRun(s: State, acts: seq<Action>, more: seq<Action>)
    requires Legal(s, acts) && Kept(s, acts) && Legal(Exec(s, acts), more) && Kept(Exec(s, acts), more)
    ensures Legal(s, acts + more) && Kept(s, acts + more) && Exec(s, acts + more) == Exec(Exec(s, acts), more)
    decreases |acts|
  {
    if acts == [] {
      assert [] + more == more;
    } else {
      assert (acts + more)[0] == acts[0] && (acts + more)[1..] == acts[1..] + more;
      AppendRun(Next(s, acts[0]), acts[1..], more);
    }
  }

  /** Every CLOSE that got lost on the way was harmless. */
  predicate Kept(s: State, acts: seq<Action>)
    requires Legal(s, acts)
    decreases |acts|
  {
    acts == [] || (Harmless(s, acts[0]) && Kept(Next(s, acts[0]), acts[1..]))
  }

  lemma {:induction false} RunKeeps(s: State, acts: seq<Action>)
    requires Inv(s) && Legal(s, acts) && Kept(s, acts)
    ensures Inv(Exec(s, acts))
    decreases |acts|
  {
    if acts == [] {
    } else {
      StepKeeps(s, acts[0]);
      RunKeeps(Next(s, acts[0]), acts[1..]);
    }
  }

  /** Although the child looks sessions up by fd alone and fds are reused: in every run, an OPEN the
      child takes finds no session, and a DATA or CLOSE finds none or the one with its own id. */
  lemma SessionsAgree(s: State, acts: seq<Action>, i: nat)
    requires Init(s) && Legal(s, acts) && Kept(s, acts) && i < |s.workers|
    ensures var t := Exec(s, acts);
      i < |t.workers| && (t.workers[i].recvq != [] ==> Fits(t.workers[i].sess, t.workers[i].recvq[0]))
  {
    InitInv(s);
    RunKeeps(s, acts);
    SameWorkers(s, acts);
    assert WorkerInv(Exec(s, acts), i);
  }

  lemma {:induction false} SameWorkers(s: State, acts: seq<Action>)
    requires Legal(s, acts)
    ensures |Exec(s, acts).workers| == |s.workers|
    decreases |acts|
  {
    if acts == [] {
    } else {
      SameWorkers(Next(s, acts[0]), acts[1..]);
    }
  }

  /** A FIN or DATA block from a worker acts exactly if the connection it was made for is still
      there, and then it came from the worker serving it: an earlier user of the fd never interferes. */
  lemma StaleBlocksAreDropped(s: State, acts: seq<Action>, i: nat)
    requires Init(s) && Legal(s, acts) && Kept(s, acts)
    ensures var t := Exec(s, acts);
      i < |t.workers| && t.workers[i].sendq != [] && t.gen - t.workers[i].sendq[0].gen < IDS ==>
        var b := t.workers[i].sendq[0];
        (Matches(t, b) <==> b.fd in t.conns && t.conns[b.fd].gen == b.gen) &&
        (Matches(t, b) ==> t.conns[b.fd].worker == i)
  {
    InitInv(s);
    RunKeeps(s, acts);
    var t := Exec(s, acts);
    if i < |t.workers| && t.workers[i].sendq != [] && t.gen - t.workers[i].sendq[0].gen < IDS {
      FrontBelongs(t, i);
      MatchIsExact(t, i, t.workers[i].sendq[0]);
    }
  }

  /** What a client has been sent is a prefix of what its worker handed over for it, without gaps or
      repeats; the rest waits in the send buffer and in `sendq`, in order. */
  lemma RepliesArriveInOrder(s: State, acts: seq<Action>, fd: nat)
    requires Init(s) && Legal(s, acts) && Kept(s, acts) && fd in Exec(s, acts).conns
    ensures var t := Exec(s, acts);
      var cn := t.conns[fd];
      cn.worker < |t.workers| &&
      var w := t.workers[cn.worker];
      cn.sent + cn.buf + Replies(w.sendq, (fd, cn.gen)) == At(w.replied, (fd, cn.gen)) &&
      cn.sent <= At(w.replied, (fd, cn.gen))
  {
    InitInv(s);
    RunKeeps(s, acts);
    var t := Exec(s, acts);
    assert WorkerInv(t, t.conns[fd].worker);
  }

  /** What the plugin has seen of a connection is a prefix of the packets framed for it, and while its
      session lives the rest is queued. */
  lemma PacketsArriveInOrder(s: State, acts: seq<Action>, i: nat, k: Key)
    requires Init(s) && Legal(s, acts) && Kept(s, acts) && i < |Exec(s, acts).workers|
    ensures var w := Exec(s, acts).workers[i];
      At(w.seen, k) <= At(w.framed, k) &&
      (k.0 in w.sess && w.sess[k.0] == k.1 ==> At(w.seen, k) + Packets(w.recvq, k) == At(w.framed, k))
  {
    InitInv(s);
    RunKeeps(s, acts);
    var w := Exec(s, acts).workers[i];
    assert WorkerInv(Exec(s, acts), i);
    assert k.0 in w.sess && w.sess[k.0] == k.1 ==> Ahead(w, k);
  }

  /** A session on an open connection is of the worker serving it. */
  lemma SessionsServe(s: State, acts: seq<Action>, i: nat, fd: nat)
    requires Init(s) && Legal(s, acts) && Kept(s, acts) && i < |Exec(s, acts).workers|
    ensures var t := Exec(s, acts);
      fd in t.workers[i].sess && fd in t.conns && t.workers[i].sess[fd] == t.conns[fd].gen ==>
        t.conns[fd].worker == i
  {
    InitInv(s);
    RunKeeps(s, acts);
    assert WorkerInv(Exec(s, acts), i);
  }

  /** A connection on the close queue has no session left, now or after the queued blocks. */
  lemma ClosingIsForgotten(s: State, acts: seq<Action>, fd: nat)
    requires Init(s) && Legal(s, acts) && Kept(s, acts) && fd in Exec(s, acts).conns && Exec(s, acts).conns[fd].closing
    ensures var t := Exec(s, acts);
      t.conns[fd].worker < |t.workers| &&
      var w := t.workers[t.conns[fd].worker];
      fd !in Replay(w.sess, w.recvq)
  {
    InitInv(s);
    RunKeeps(s, acts);
    assert WorkerInv(Exec(s, acts), Exec(s, acts).conns[fd].worker);
  }

  // ----- a CLOSE that gets lost -----

  /** A write that fails with its CLOSE lost is a write of nothing and then such a drop. */
  lemma DeathWithLostClose(s: State, i: nat)
    requires Enabled(s, Output(i, Wrote(0))) && s.workers[i].sendq[0].Reply? && Matches(s, s.workers[i].sendq[0])
    ensures var t := Next(s, Output(i, Wrote(0)));
      var fd := s.workers[i].sendq[0].fd;
      Enabled(t, DropLost(fd)) && Next(t, DropLost(fd)) == PopDown(s, i).(conns := s.conns - {fd})
  {
    var fd := s.workers[i].sendq[0].fd;
    var t := Next(s, Output(i, Wrote(0)));
    assert t.conns - {fd} == s.conns - {fd};
  }

  /** No worker is about to take an OPEN for an fd it has a session on, or a block of another connection. */
  predicate Agrees(s: State) {
    forall j :: 0 <= j < |s.workers| && s.workers[j].recvq != [] ==> Fits(s.workers[j].sess, s.workers[j].recvq[0])
  }

  /** No run from here, losing no further CLOSE that matters, ever breaks the agreement. */
  ghost predicate AlwaysAgrees(s: State) {
    forall acts :: Legal(s, acts) && Kept(s, acts) ==> Agrees(Exec(s, acts))
  }

  ghost predicate AgreesAllAlong(s: State, acts: seq<Action>)
    requires Legal(s, acts)
    decreases |acts|
  {
    AlwaysAgrees(s) && (acts == [] || AgreesAllAlong(Next(s, acts[0]), acts[1..]))
  }

  lemma InvFits(s: State)
    requires Inv(s)
    ensures Agrees(s)
  {
    forall j | 0 <= j < |s.workers| && s.workers[j].recvq != []
      ensures Fits(s.workers[j].sess, s.workers[j].recvq[0])
    {
      assert WorkerInv(s, j);
    }
  }

  lemma InvAgrees(s: State)
    requires Inv(s)
    ensures AlwaysAgrees(s)
  {
    forall acts | Legal(s, acts) && Kept(s, acts)
      ensures Agrees(Exec(s, acts))
    {
      RunKeeps(s, acts);
      InvFits(Exec(s, acts));
    }
  }

  function Handles(i: nat, n: nat): seq<Action> {
    if n == 0 then [] else [Handle(i)] + Handles(i, n - 1)
  }

  /** A worker that takes `n` acceptable blocks ends with the table their replay gives. */
  lemma {:induction false} HandlesReplay(s: State, i: nat, q: seq<Up>, u: Up)
    requires i < |s.workers| && s.workers[i].recvq == q + [u] && Good(s.workers[i].sess, q)
    ensures Legal(s, Handles(i, |q|)) && Kept(s, Handles(i, |q|))
    ensures var t := Exec(s, Handles(i, |q|));
      |t.workers| == |s.workers| && t.workers[i].recvq == [u] && t.workers[i].sess == Replay(s.workers[i].sess, q)
    decreases |q|
  {
    if q == [] {
      assert [] + [u] == [u];
    } else {
      assert (q + [u])[0] == q[0] && (q + [u])[1..] == q[1..] + [u];
      assert ([Handle(i)] + Handles(i, |q| - 1))[1..] == Handles(i, |q| - 1);
      HandlesReplay(Next(s, Handle(i)), i, q[1..], u);
    }
  }

  /** A harmful loss: reuse the fd at once and let the worker work through its queue. */
  lemma LossDisagrees(s: State, fd: nat)
    requires Inv(s) && Enabled(s, DropLost(fd)) && !Harmless(s, DropLost(fd))
    ensures !AlwaysAgrees(Next(s, DropLost(fd)))
  {
    var i := s.conns[fd].worker;
    assert WorkerInv(s, i);
    var w, t := s.workers[i], Next(s, DropLost(fd));
    var u := Open(fd, t.gen + 1);
    var a, more := Accept(fd, i, true), Handles(i, |w.recvq|);
    HandlesReplay(Next(t, a), i, w.recvq, u);
    assert ([a] + more)[1..] == more;
    var e := Exec(t, [a] + more);
    assert !Fits(e.workers[i].sess, e.workers[i].recvq[0]);
  }

  /** The sessions of parent and workers agree along a run, and along everything that may follow it,
      if and only if every connection dropped with its CLOSE lost had been closed by its worker before. */
  lemma LostCloseExact(s: State, acts: seq<Action>)
    requires Init(s) && Legal(s, acts)
    ensures Kept(s, acts) <==> AgreesAllAlong(s, acts)
  {
    InitInv(s);
    KeptIsAgreement(s, acts);
  }

  lemma {:induction false} KeptIsAgreement(s: State, acts: seq<Action>)
    requires Inv(s) && Legal(s, acts)
    ensures Kept(s, acts) <==> AgreesAllAlong(s, acts)
    decreases |acts|
  {
    InvAgrees(s);
    if acts == [] {
    } else {
      var t := Next(s, acts[0]);
      if Harmless(s, acts[0]) {
        StepKeeps(s, acts[0]);
        KeptIsAgreement(t, acts[1..]);
      } else {
        LossDisagrees(s, acts[0].fd);
        assert !AlwaysAgrees(t);
      }
    }
  }

  const ORPHANED := State(1, map[], [NEW_WORKER.(sess := map[5 := 1], top := 1)])
  const LOSE := [Accept(5, 0, true), Handle(0), DropLost(5)]
  const REUSE := [Accept(5, 0, true), Handle(0), Deliver(5, [7], true), Handle(0)]

  /** A run on which it matters.  fd 5 is accepted and opened; its CLOSE is lost; fd 5 is accepted again
      and its first packet delivered: the plugin sees that packet in the session of the first connection. */
  lemma LostCloseHappens()
    ensures var s := State(0, map[], [NEW_WORKER]);
      Init(s) && Legal(s, LOSE + REUSE) && |Exec(s, LOSE + REUSE).workers| == 1 &&
      var w := Exec(s, LOSE + REUSE).workers[0];
      At(w.seen, (5, 1)) == [[7]] && At(w.framed, (5, 1)) == [] && At(w.framed, (5, 2)) == [[7]]
  {
    var s0 := State(0, map[], [NEW_WORKER]);
    var s1 := Next(s0, Accept(5, 0, true));
    assert s1.workers[0].recvq == [Open(5, 1)];
    var s2 := Next(s1, Handle(0));
    assert s2.workers == ORPHANED.workers by {
      assert s2.workers[0].recvq == [] && s2.workers[0].sess == map[5 := 1];
    }
    assert s2.conns - {5} == map[];
    ReuseGoesWrong();
    Step(s2, DropLost(5), REUSE);
    Step(s1, Handle(0), [DropLost(5)] + REUSE);
    Step(s0, Accept(5, 0, true), [Handle(0)] + ([DropLost(5)] + REUSE));
    assert [Accept(5, 0, true)] + ([Handle(0)] + ([DropLost(5)] + REUSE)) == LOSE + REUSE;
  }

  lemma ReuseGoesWrong()
    ensures Legal(ORPHANED, REUSE) && |Exec(ORPHANED, REUSE).workers| == 1
    ensures var w := Exec(ORPHANED, REUSE).workers[0];
      At(w.seen, (5, 1)) == [[7]] && At(w.framed, (5, 1)) == [] && At(w.framed, (5, 2)) == [[7]]
  {
    var s1 := Next(ORPHANED, Accept(5, 0, true));
    assert s1.workers[0].recvq == [Open(5, 2)];
    var s2 := Next(s1, Handle(0));
    assert s2.workers[0].recvq == [] && s2.conns[5].gen == 2;
    var s3 := Next(s2, Deliver(5, [7], true));
    assert s3.workers[0].recvq == [Data(5, 2, [7])];
    Step(s3, Handle(0), []);
    Step(s2, Deliver(5, [7], true), [Handle(0)]);
    Step(s1, Handle(0), [Deliver(5, [7], true), Handle(0)]);
    Step(ORPHANED, Accept(5, 0, true), [Handle(0), Deliver(5, [7], true), Handle(0)]);
  }

  lemma Step(s: State, a: Action, acts: seq<Action>)
    requires Enabled(s, a) && Legal(Next(s, a), acts)
    ensures Legal(s, [a] + acts) && Exec(s, [a] + acts) == Exec(Next(s, a), acts)
  {
    assert ([a] + acts)[1..] == acts;
  }
}
