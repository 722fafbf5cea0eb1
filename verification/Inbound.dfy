/** The receiving side of one client connection: reads of arbitrary size, edge-triggered polling with
    the etin queue, and the framing loop of `net_recv`.  The plugin's `get_pkg_len` is a parameter.  */
module Inbound {
  import opened Basics
  import opened Frames

  type PkgLen = seq<byte> -> int

  /** The plugin and the two sizes `net_recv` works with. */
  datatype Config = Config(len: PkgLen, max: nat, page: nat) {
    predicate Valid() {
      0 < max <= page
    }
  }

  /** A positive answer on a prefix is the answer on every extension. */
  ghost predicate PrefixStable(len: PkgLen) {
    forall s, t {:trigger len(s + t)} :: len(s) > 0 ==> len(s + t) == len(s)
  }

  // ----- the reference: cut packets off the front of a byte string until no whole one is left -----

  datatype Cut = Cut(packets: seq<seq<byte>>, rest: seq<byte>, bad: bool)

  function Greedy(c: Config, s: seq<byte>): Cut
    decreases |s|
  {
    var n := c.len(s);
    if s == [] || n == 0 then Cut([], s, false)
    else if n < 0 || n > c.max then Cut([], s, true)
    else if n > |s| then Cut([], s, false)
    else
      var g := Greedy(c, s[n..]);
      Cut([s[..n]] + g.packets, g.rest, g.bad)
  }

  /** Cutting may be interrupted anywhere and resumed on what was left. */
  lemma {:induction false} GreedyResumes(c: Config, s: seq<byte>, t: seq<byte>)
    requires PrefixStable(c.len) && !Greedy(c, s).bad
    ensures var g := Greedy(c, s);
      var h := Greedy(c, g.rest + t);
      Greedy(c, s + t) == Cut(g.packets + h.packets, h.rest, h.bad)
    decreases |s|
  {
    var n := c.len(s);
    if s != [] && 0 < n <= |s| && n <= c.max {
      assert c.len(s + t) == n;
      assert (s + t)[n..] == s[n..] + t && (s + t)[..n] == s[..n];
      GreedyResumes(c, s[n..], t);
      var g := Greedy(c, s[n..]);
      var h := Greedy(c, g.rest + t);
      Assoc([s[..n]], g.packets, h.packets);
    }
  }

  // ----- the code -----

  datatype Status = Live | Dead | Exited

  /** One connection.  `arrived` is everything the peer sent, `taken` what has been read, `kernel` the
      rest; `edge` is an epoll edge not yet reported, `reported` one in the current batch. */
  datatype Sock = Sock(arrived: seq<byte>, taken: seq<byte>, kernel: seq<byte>, eof: bool,
                       edge: bool, reported: bool, etin: bool, closing: bool,
                       buf: seq<byte>, protlen: nat, delivered: seq<seq<byte>>, status: Status)

  datatype Parsed = Parsed(packets: seq<seq<byte>>, rest: seq<byte>, protlen: nat, status: Status)

  /** What one pass from `parse_again` decides: stop (with the cached length to keep), or push a packet. */
  datatype Turn = Stop(protlen: nat, status: Status) | Packet(n: nat)

  /** The ring takes a packet of `n` bytes only if a page holds it together with its header. */
  predicate Pushable(c: Config, n: nat) {
    n + HEADER <= c.page
  }

  predicate AllPushable(c: Config, packets: seq<seq<byte>>) {
    forall p :: p in packets ==> Pushable(c, |p|)
  }

  function OneTurn(c: Config, buf: seq<byte>, protlen: nat, room: nat): (t: Turn)
    ensures t.Packet? ==> 0 < t.n <= |buf| && t.n <= c.max && room > 0 && Pushable(c, t.n)
  {
    var n := if protlen == 0 then c.len(buf) else protlen;
    if n < 0 || n > c.max then Stop(protlen, Dead)
    else if n == 0 then Stop(0, if |buf| == c.max then Exited else Live)
    else if |buf| < n then Stop(n, Live)
    else if room == 0 || !Pushable(c, n) then Stop(n, Dead)
    else Packet(n)
  }

  /** What `net_recv` returns; -2 stands for exit(1). */
  function ReturnCode(p: Parsed): int {
    match p.status
    case Live => |p.packets|
    case Dead => -1
    case Exited => -2
  }

  /** The loop from `parse_again`, on a buffer and a cached length; the ring takes `room` more blocks. */
  function ParseLoop(c: Config, buf: seq<byte>, protlen: nat, room: nat): Parsed
    decreases |buf|
  {
    match OneTurn(c, buf, protlen, room)
    case Stop(keep, status) => Parsed([], buf, keep, status)
    case Packet(n) =>
      if n == |buf| then Parsed([buf], [], 0, Live)
      else
        var p := ParseLoop(c, buf[n..], 0, room - 1);
        p.(packets := [buf[..n]] + p.packets)
  }

  /** `do_read_conn`. */
  function ReadConn(c: Config, s: Sock): Sock {
    if |s.buf| == c.page then s
    else if (s.kernel == [] && s.eof) || |s.buf| >= c.max then s.(status := Dead)
    else
      var k := Min(c.max - |s.buf|, |s.kernel|);
      var buf := s.buf + s.kernel[..k];
      s.(taken := s.taken + s.kernel[..k], kernel := s.kernel[k..], buf := buf,
         etin := if |buf| == c.max then s.etin || !s.closing else false)
  }

  /** `net_recv` in the parent. */
  function NetRecv(c: Config, s: Sock, room: nat): Sock {
    var r := ReadConn(c, s);
    if r.status != Live then r else Cutting(c, r, room)
  }

  /** Its loop. */
  function Cutting(c: Config, r: Sock, room: nat): Sock {
    var p := ParseLoop(c, r.buf, r.protlen, room);
    r.(buf := p.rest, protlen := p.protlen, delivered := r.delivered + p.packets, status := p.status)
  }

  // ----- the loop agrees with the reference -----

  /** The cached length is the plugin's answer on a buffer that is not empty, and that packet is still
      incomplete. */
  predicate CacheOk(c: Config, buf: seq<byte>, protlen: nat) {
    (buf != [] ==> protlen == c.len(buf)) &&
    (protlen == 0 || (protlen == c.len(buf) && |buf| < protlen <= c.max))
  }

  /** What a turn stops for, and what it cuts, in terms of the reference. */
  lemma TurnCuts(c: Config, buf: seq<byte>, protlen: nat, room: nat)
    requires c.Valid() && |buf| <= c.max && buf != [] && (protlen == 0 || protlen == c.len(buf))
    ensures var turn, g := OneTurn(c, buf, protlen, room), Greedy(c, buf);
      if turn.Packet? then
        var h := Greedy(c, buf[turn.n..]);
        g == Cut([buf[..turn.n]] + h.packets, h.rest, h.bad) && room > 0 && Pushable(c, turn.n)
      else if turn.status == Live then
        g == Cut([], buf, false) && |buf| < c.max && CacheOk(c, buf, turn.protlen)
      else if turn.status == Exited then
        g == Cut([], buf, false) && |buf| == c.max
      else
        (g.packets == [] && g.bad) || (g.packets != [] && (room == 0 || !Pushable(c, |g.packets[0]|)))
  {
  }

  lemma PushableHead(c: Config, p: seq<byte>, packets: seq<seq<byte>>)
    ensures AllPushable(c, [p] + packets) <==> Pushable(c, |p|) && AllPushable(c, packets)
  {
    assert p in [p] + packets && forall q :: q in packets ==> q in [p] + packets;
  }

  lemma {:induction false} LoopIsGreedy(c: Config, buf: seq<byte>, protlen: nat, room: nat)
    requires c.Valid() && |buf| <= c.max
    requires protlen == 0 || protlen == c.len(buf)
    ensures var p := ParseLoop(c, buf, protlen, room);
      var g := Greedy(c, buf);
      p.packets <= g.packets && AllPushable(c, p.packets) &&
      (p.status != Dead ==> g == Cut(p.packets, p.rest, false)) &&
      (p.status == Live ==> |p.rest| < c.max && CacheOk(c, p.rest, p.protlen)) &&
      (p.status == Exited ==> |p.rest| == c.max)
    decreases |buf|
  {
    if buf == [] {
    } else {
      TurnCuts(c, buf, protlen, room);
      var turn := OneTurn(c, buf, protlen, room);
      if turn.Packet? && turn.n == |buf| {
        assert buf[turn.n..] == [] && buf[..turn.n] == buf;
      } else if turn.Packet? {
        LoopIsGreedy(c, buf[turn.n..], 0, room - 1);
        var p, g := ParseLoop(c, buf[turn.n..], 0, room - 1), Greedy(c, buf[turn.n..]);
        PushableHead(c, buf[..turn.n], p.packets);
        PrependPrefix(buf[..turn.n], p.packets, g.packets);
      }
    }
  }

  lemma PrependPrefix<T>(x: T, a: seq<T>, b: seq<T>)
    requires a <= b
    ensures [x] + a <= [x] + b
  {
  }

  /** When the parent is able to go on with what a read has left in the buffer. */
  predicate Acceptable(c: Config, g: Cut, room: nat) {
    !g.bad && |g.packets| <= room && |g.rest| < c.max && AllPushable(c, g.packets)
  }

  /** How a call ends: the process exits on a full buffer of whose first packet the plugin cannot tell the
      length, after all before it was pushed; any other trouble costs the connection only. */
  function Fate(c: Config, g: Cut, room: nat): Status {
    if Acceptable(c, g, room) then Live
    else if !g.bad && |g.packets| <= room && AllPushable(c, g.packets) && |g.rest| == c.max then Exited
    else Dead
  }

  lemma FateHead(c: Config, p: seq<byte>, h: Cut, room: nat)
    ensures Fate(c, Cut([p] + h.packets, h.rest, h.bad), room) ==
      if room > 0 && Pushable(c, |p|) then Fate(c, h, room - 1) else Dead
  {
    PushableHead(c, p, h.packets);
  }

  /** The loop ends normally exactly if the cut is not bad, the ring takes all its packets, and the rest
      leaves room in the buffer; and if not, as said above. */
  lemma {:induction false} LoopEnds(c: Config, buf: seq<byte>, protlen: nat, room: nat)
    requires c.Valid() && 0 < |buf| <= c.max && (protlen == 0 || protlen == c.len(buf))
    ensures ParseLoop(c, buf, protlen, room).status == Fate(c, Greedy(c, buf), room)
    decreases |buf|
  {
    TurnCuts(c, buf, protlen, room);
    var turn := OneTurn(c, buf, protlen, room);
    if turn.Stop? {
      StopEnds(c, buf, protlen, room);
    } else if turn.n == |buf| {
      assert buf[turn.n..] == [] && buf[..turn.n] == buf;
      FateHead(c, buf, Greedy(c, []), room);
    } else {
      LoopEnds(c, buf[turn.n..], 0, room - 1);
      FateHead(c, buf[..turn.n], Greedy(c, buf[turn.n..]), room);
    }
  }

  lemma StopEnds(c: Config, buf: seq<byte>, protlen: nat, room: nat)
    requires c.Valid() && 0 < |buf| <= c.max && (protlen == 0 || protlen == c.len(buf))
    requires OneTurn(c, buf, protlen, room).Stop?
    ensures OneTurn(c, buf, protlen, room).status == Fate(c, Greedy(c, buf), room)
  {
    TurnCuts(c, buf, protlen, room);
    var g := Greedy(c, buf);
    if g.packets != [] {
      assert g.packets[0] in g.packets;
    }
  }

  // ----- runs -----

  datatype Event =
    | Arrive(bytes: seq<byte>)   // the peer's data reaches the kernel
    | PeerCloses
    | Rearm                      // mod_events
    | Report                     // epoll_wait returns the edge
    | Input(room: nat)           // EPOLLIN in the batch
    | Poll(room: nat)            // iterate_etin_queue
    | Fin                        // add_to_close_queue
    | Drop                       // do_del_conn

  predicate Enabled(s: Sock, e: Event) {
    s.status == Live &&
    match e
    case Arrive(_) => !s.eof
    case PeerCloses => !s.eof
    case Report => s.edge
    case Input(_) => s.reported
    case Poll(_) => s.etin
    case _ => true
  }

  function Next(c: Config, s: Sock, e: Event): Sock
    requires Enabled(s, e)
  {
    match e
    case Arrive(bytes) => s.(arrived := s.arrived + bytes, kernel := s.kernel + bytes, edge := s.edge || bytes != [])
    case PeerCloses => s.(eof := true, edge := true)
    case Rearm => s.(edge := s.edge || s.kernel != [] || s.eof)
    case Report => s.(edge := false, reported := true)
    case Input(room) => NetRecv(c, s.(reported := false), room)
    case Poll(room) => NetRecv(c, s, room)
    case Fin => s.(etin := false, closing := true)
    case Drop => s.(status := Dead)
  }

  predicate Init(s: Sock) {
    s.arrived == s.taken == s.kernel == s.buf == [] && s.delivered == [] && s.protlen == 0 &&
    !s.eof && !s.etin && !s.closing && s.status == Live
  }

  /** Unread bytes are never forgotten: an edge is due, or the connection is on a queue that reads it. */
  predicate WillRead(s: Sock) {
    s.kernel != [] ==> s.edge || s.reported || s.etin || s.closing
  }

  predicate Inv(c: Config, s: Sock) {
    s.arrived == s.taken + s.kernel &&
    s.delivered <= Greedy(c, s.taken).packets && AllPushable(c, s.delivered) &&
    (s.status == Live ==>
      Greedy(c, s.taken) == Cut(s.delivered, s.buf, false) && |s.buf| < c.max &&
      CacheOk(c, s.buf, s.protlen) && (s.closing ==> !s.etin) && WillRead(s)) &&
    (s.status == Exited ==>
      Greedy(c, s.taken) == Cut(s.delivered, s.buf, false) && |s.buf| == c.max)
  }

  /** A live connection between calls: its buffer is the uncut rest of what was read. */
  predicate Between(c: Config, s: Sock) {
    s.arrived == s.taken + s.kernel && |s.buf| < c.max && s.status == Live &&
    Greedy(c, s.taken) == Cut(s.delivered, s.buf, false) && CacheOk(c, s.buf, s.protlen) && (s.closing ==> !s.etin)
  }

  /** A cut whose rest is cut again. */
  function Resumed(c: Config, packets: seq<seq<byte>>, buf: seq<byte>): Cut {
    var h := Greedy(c, buf);
    Cut(packets + h.packets, h.rest, h.bad)
  }

  /** Reading appends to the buffer exactly what it took off the stream. */
  lemma ReadStream(c: Config, s: Sock, k: nat)
    requires c.Valid() && PrefixStable(c.len) && Between(c, s) && k <= |s.kernel|
    ensures s.arrived == s.taken + s.kernel[..k] + s.kernel[k..]
    ensures Greedy(c, s.taken + s.kernel[..k]) == Resumed(c, s.delivered, s.buf + s.kernel[..k])
    ensures s.protlen == 0 || s.protlen == c.len(s.buf + s.kernel[..k])
  {
    var got := s.kernel[..k];
    GreedyResumes(c, s.taken, got);
    assert got + s.kernel[k..] == s.kernel;
    assert s.taken + got + s.kernel[k..] == s.taken + (got + s.kernel[k..]);
  }

  lemma ReadKeeps(c: Config, s: Sock)
    requires c.Valid() && PrefixStable(c.len) && Between(c, s)
    ensures var r := ReadConn(c, s);
      r.arrived == r.taken + r.kernel && r.delivered == s.delivered && |r.buf| <= c.max &&
      (r.protlen == 0 || r.protlen == c.len(r.buf)) && Greedy(c, r.taken) == Resumed(c, s.delivered, r.buf)
  {
    var k := Min(c.max - |s.buf|, |s.kernel|);
    ReadStream(c, s, if s.kernel == [] && s.eof then 0 else k);
    assert s.taken + [] == s.taken && s.buf + [] == s.buf;
  }

  /** A read that leaves bytes behind has the connection polled. */
  lemma ReadPolls(c: Config, s: Sock)
    requires c.Valid() && |s.buf| < c.max && s.status == Live && (s.closing ==> !s.etin)
    ensures var r := ReadConn(c, s);
      r.status == Live ==> (r.closing ==> !r.etin) && (r.kernel != [] ==> r.etin || r.closing)
  {
  }

  lemma NetRecvKeeps(c: Config, s: Sock, room: nat)
    requires c.Valid() && PrefixStable(c.len) && Between(c, s) && AllPushable(c, s.delivered)
    ensures Inv(c, NetRecv(c, s, room))
  {
    ReadKeeps(c, s);
    ReadPolls(c, s);
    var r := ReadConn(c, s);
    if r.status == Live {
      ParseKeeps(c, r, room);
    } else {
      ReadEnds(c, s);
    }
  }

  lemma ReadEnds(c: Config, s: Sock)
    requires c.Valid() && Between(c, s) && AllPushable(c, s.delivered) && ReadConn(c, s).status != Live
    ensures Inv(c, ReadConn(c, s))
  {
  }

  /** A connection whose buffer is still to be cut. */
  predicate Uncut(c: Config, r: Sock) {
    r.arrived == r.taken + r.kernel && AllPushable(c, r.delivered) && |r.buf| <= c.max && r.status == Live &&
    (r.protlen == 0 || r.protlen == c.len(r.buf)) && Greedy(c, r.taken) == Resumed(c, r.delivered, r.buf) &&
    (r.closing ==> !r.etin) && (r.kernel != [] ==> r.etin || r.closing)
  }

  lemma ParseKeeps(c: Config, r: Sock, room: nat)
    requires c.Valid() && Uncut(c, r)
    ensures Inv(c, Cutting(c, r, room))
  {
    var p := ParseLoop(c, r.buf, r.protlen, room);
    LoopIsGreedy(c, r.buf, r.protlen, room);
    assert forall q :: q in r.delivered + p.packets <==> q in r.delivered || q in p.packets;
  }

  lemma StepKeeps(c: Config, s: Sock, e: Event)
    requires c.Valid() && PrefixStable(c.len) && Inv(c, s) && Enabled(s, e)
    ensures Inv(c, Next(c, s, e))
  {
    match e
    case Arrive(bytes) => assert s.taken + s.kernel + bytes == s.taken + (s.kernel + bytes);
    case Input(room) => NetRecvKeeps(c, s.(reported := false), room);
    case Poll(room) => NetRecvKeeps(c, s, room);
    case _ =>
  }

  /** What the events around the reads do: only these fields change. */
  lemma EventsDo(c: Config, s: Sock, e: Event)
    requires Enabled(s, e) && !e.Input? && !e.Poll?
    ensures Next(c, s, e) ==
      match e {
        case Arrive(bytes) =>
          s.(arrived := s.arrived + bytes, kernel := s.kernel + bytes, edge := bytes != [] || s.edge)
        case PeerCloses => s.(eof := true, edge := true)
        case Rearm => if s.kernel == [] && !s.eof then s else s.(edge := true)
        case Report => s.(edge := false, reported := true)
        case Fin => s.(closing := true, etin := false)
        case _ => s.(status := Dead)
      }
  {
  }

  predicate Legal(c: Config, s: Sock, es: seq<Event>)
    decreases |es|
  {
    es == [] || (Enabled(s, es[0]) && Legal(c, Next(c, s, es[0]), es[1..]))
  }

  function Exec(c: Config, s: Sock, es: seq<Event>): Sock
    requires Legal(c, s, es)
    decreases |es|
  {
    if es == [] then s else Exec(c, Next(c, s, es[0]), es[1..])
  }

  lemma {:induction false} RunKeeps(c: Config, s: Sock, es: seq<Event>)
    requires c.Valid() && PrefixStable(c.len) && Inv(c, s) && Legal(c, s, es)
    ensures Inv(c, Exec(c, s, es))
    decreases |es|
  {
    if es == [] {
    } else {
      StepKeeps(c, s, es[0]);
      RunKeeps(c, Next(c, s, es[0]), es[1..]);
    }
  }

  /** The bytes the peer sends in a run. */
  function Arrivals(es: seq<Event>): seq<byte>
    decreases |es|
  {
    if es == [] then [] else (if es[0].Arrive? then es[0].bytes else []) + Arrivals(es[1..])
  }

  lemma ArriveOnly(c: Config, s: Sock, e: Event)
    requires Enabled(s, e)
    ensures Next(c, s, e).arrived == s.arrived + if e.Arrive? then e.bytes else []
  {
    match e
    case Input(room) => ReadArrives(c, s.(reported := false), room);
    case Poll(room) => ReadArrives(c, s, room);
    case _ =>
  }

  lemma ReadArrives(c: Config, s: Sock, room: nat)
    ensures NetRecv(c, s, room).arrived == s.arrived
  {
  }

  lemma {:induction false} ArrivedIsSent(c: Config, s: Sock, es: seq<Event>)
    requires Legal(c, s, es)
    ensures Exec(c, s, es).arrived == s.arrived + Arrivals(es)
    decreases |es|
  {
    if es == [] {
    } else {
      var got := if es[0].Arrive? then es[0].bytes else [];
      ArriveOnly(c, s, es[0]);
      ArrivedIsSent(c, Next(c, s, es[0]), es[1..]);
      Assoc(s.arrived, got, Arrivals(es[1..]));
    }
  }

  /** However the stream was split into reads: while the connection lives, packets delivered and bytes
      buffered are the greedy cut of everything read, the cached length is 0 or right, and the buffer
      is never full between calls; after it died, what was delivered is still a prefix of that cut. */
  lemma FramingIsGreedy(c: Config, s: Sock, es: seq<Event>)
    requires c.Valid() && PrefixStable(c.len) && Init(s) && Legal(c, s, es)
    ensures var t := Exec(c, s, es);
      Arrivals(es) == t.taken + t.kernel && t.delivered <= Greedy(c, t.taken).packets &&
      AllPushable(c, t.delivered) &&
      (t.status == Live ==>
        Greedy(c, t.taken) == Cut(t.delivered, t.buf, false) && |t.buf| < c.max &&
        (if t.buf == [] then t.protlen == 0 || t.protlen == c.len([]) else t.protlen == c.len(t.buf)))
  {
    RunKeeps(c, s, es);
    ArrivedIsSent(c, s, es);
    assert [] + Arrivals(es) == Arrivals(es);
  }

  /** Edge-triggered input is never forgotten, in any run. */
  lemma InputIsNeverForgotten(c: Config, s: Sock, es: seq<Event>)
    requires c.Valid() && PrefixStable(c.len) && Init(s) && Legal(c, s, es)
    ensures var t := Exec(c, s, es);
      t.status == Live && t.kernel != [] ==> t.edge || t.reported || t.etin || t.closing
  {
    RunKeeps(c, s, es);
  }

  // ----- when a connection lives -----

  lemma {:induction false} PacketsAreBytes(c: Config, buf: seq<byte>)
    ensures |Greedy(c, buf).packets| <= |buf|
    decreases |buf|
  {
    var n := c.len(buf);
    if buf == [] || n <= 0 || n > c.max || n > |buf| {
    } else {
      PacketsAreBytes(c, buf[n..]);
    }
  }

  /** What has been read can all be handed on: the cut is not bad, every packet fits a page with its
      header, and what is left over leaves room in the buffer. */
  predicate Sound(c: Config, g: Cut) {
    !g.bad && |g.rest| < c.max && AllPushable(c, g.packets)
  }

  /** What becomes of a connection when nothing but its bytes decides. */
  function Outcome(c: Config, g: Cut): Status {
    if Sound(c, g) then Live
    else if !g.bad && AllPushable(c, g.packets) && |g.rest| == c.max then Exited
    else Dead
  }

  /** The buffer after the read of `net_recv`. */
  function AfterRead(c: Config, s: Sock): seq<byte>
    requires |s.buf| <= c.max
  {
    s.buf + s.kernel[..Min(c.max - |s.buf|, |s.kernel|)]
  }

  /** The event does not end the connection by itself: no drop, no end of stream, a ring with room; and
      the plugin puts up with an empty buffer. */
  predicate Served(c: Config, s: Sock, e: Event) {
    match e
    case Input(room) => room >= c.max && (s.kernel != [] || (!s.eof && (s.buf == [] ==> 0 <= c.len([]) <= c.max)))
    case Poll(room) => room >= c.max && (s.kernel != [] || (!s.eof && (s.buf == [] ==> 0 <= c.len([]) <= c.max)))
    case Drop => false
    case _ => true
  }

  /** A read keeps the connection alive exactly if what it leaves in the buffer is acceptable; what else
      happens is said by `Fate`. */
  lemma NetRecvEnds(c: Config, s: Sock, room: nat)
    requires c.Valid() && PrefixStable(c.len) && Between(c, s)
    ensures var buf := AfterRead(c, s);
      NetRecv(c, s, room).status ==
        if s.kernel == [] && s.eof then Dead
        else if buf == [] then (if 0 <= c.len([]) <= c.max then Live else Dead)
        else Fate(c, Greedy(c, buf), room)
  {
    if s.kernel != [] || !s.eof {
      var buf := AfterRead(c, s);
      ReadStream(c, s, Min(c.max - |s.buf|, |s.kernel|));
      if buf != [] {
        LoopEnds(c, buf, s.protlen, room);
      }
    }
  }

  lemma ResumedSound(c: Config, packets: seq<seq<byte>>, buf: seq<byte>)
    requires AllPushable(c, packets)
    ensures Outcome(c, Resumed(c, packets, buf)) == Outcome(c, Greedy(c, buf))
  {
    var h := Greedy(c, buf).packets;
    assert forall p :: p in packets + h <==> p in packets || p in h;
  }

  /** With a ring that has room, the stream so far decides what a read does to the connection. */
  lemma ServedRead(c: Config, s: Sock, room: nat)
    requires c.Valid() && PrefixStable(c.len) && Between(c, s) && AllPushable(c, s.delivered) && room >= c.max
    requires s.kernel != [] || (!s.eof && (s.buf == [] ==> 0 <= c.len([]) <= c.max))
    ensures var t := NetRecv(c, s, room); t.status == Outcome(c, Greedy(c, t.taken))
  {
    var buf := AfterRead(c, s);
    NetRecvEnds(c, s, room);
    StreamAfterRead(c, s, room);
    ResumedSound(c, s.delivered, buf);
    PacketsAreBytes(c, buf);
  }

  lemma StreamAfterRead(c: Config, s: Sock, room: nat)
    requires c.Valid() && PrefixStable(c.len) && Between(c, s) && (s.kernel != [] || !s.eof)
    ensures Greedy(c, NetRecv(c, s, room).taken) == Resumed(c, s.delivered, AfterRead(c, s))
  {
    ReadStream(c, s, Min(c.max - |s.buf|, |s.kernel|));
  }

  lemma ServedStep(c: Config, s: Sock, e: Event)
    requires c.Valid() && PrefixStable(c.len) && Inv(c, s) && Enabled(s, e) && Served(c, s, e)
    ensures var t := Next(c, s, e); t.status == Outcome(c, Greedy(c, t.taken))
  {
    match e
    case Input(room) => ServedRead(c, s.(reported := false), room);
    case Poll(room) => ServedRead(c, s, room);
    case _ =>
  }

  predicate AllServed(c: Config, s: Sock, es: seq<Event>)
    requires Legal(c, s, es)
    decreases |es|
  {
    es == [] || (Served(c, s, es[0]) && AllServed(c, Next(c, s, es[0]), es[1..]))
  }

  lemma {:induction false} ServedRun(c: Config, s: Sock, es: seq<Event>)
    requires c.Valid() && PrefixStable(c.len) && Inv(c, s) && Legal(c, s, es) && AllServed(c, s, es)
    requires s.status == Outcome(c, Greedy(c, s.taken))
    ensures var t := Exec(c, s, es); t.status == Outcome(c, Greedy(c, t.taken))
    decreases |es|
  {
    if es == [] {
    } else {
      StepKeeps(c, s, es[0]);
      ServedStep(c, s, es[0]);
      ServedRun(c, Next(c, s, es[0]), es[1..]);
    }
  }

  /** Over every run in which the ring has room and nobody else ends the connection: it lives if and only
      if all it has read is sound; the process exits if and only if a full buffer of unknown length is all
      that is wrong; otherwise the connection is dropped.  So a packet that the size limit admits ends the
      connection if a page does not hold it together with its header. */
  lemma ConnectionLives(c: Config, s: Sock, es: seq<Event>)
    requires c.Valid() && PrefixStable(c.len) && Init(s) && Legal(c, s, es) && AllServed(c, s, es)
    ensures var t := Exec(c, s, es); t.status == Outcome(c, Greedy(c, t.taken))
  {
    ServedRun(c, s, es);
  }

  /** And over every run whatever: a bad length costs at most the connection, never the process, which
      exits only over a full buffer of unknown length. */
  lemma BadLengthNeverExits(c: Config, s: Sock, es: seq<Event>)
    requires c.Valid() && PrefixStable(c.len) && Init(s) && Legal(c, s, es)
    ensures var t := Exec(c, s, es);
      var g := Greedy(c, t.taken);
      (g.bad ==> t.status == Dead) &&
      (t.status == Exited ==> t.delivered == g.packets && |g.rest| == c.max && c.len(g.rest) == 0)
  {
    RunKeeps(c, s, es);
    GreedyRest(c, Exec(c, s, es).taken);
  }

  /** A full rest is one whose length the plugin does not know. */
  lemma {:induction false} GreedyRest(c: Config, s: seq<byte>)
    ensures var g := Greedy(c, s); !g.bad && g.rest != [] ==> c.len(g.rest) == 0 || |g.rest| < c.len(g.rest) <= c.max
    decreases |s|
  {
    var n := c.len(s);
    if s == [] || n <= 0 || n > c.max || n > |s| {
    } else {
      GreedyRest(c, s[n..]);
    }
  }

  /** Such a packet: as long as the page, with the limit the parent sets. */
  lemma PageSizedPacketKills(c: Config, s: Sock, packet: seq<byte>)
    requires c == Config(_ => 20, 20, 20) && |packet| == 20 && Init(s)
    ensures var es := [Arrive(packet), Report, Input(20)];
      Legal(c, s, es) &&
      var t := Exec(c, s, es);
      t.status == Dead && t.delivered == [] && Greedy(c, t.taken) == Cut([packet], [], false)
  {
    var e0, e1, e2 := Arrive(packet), Report, Input(20);
    assert [e0, e1, e2][1..] == [e1, e2] && [e1, e2][1..] == [e2];
    var s1 := Next(c, s, e0);
    assert s1.kernel == packet;
    var s2 := Next(c, s1, e1);
    var s3 := Next(c, s2, e2);
    assert s3.taken == packet && s3.status == Dead;
    assert packet[..20] == packet && packet[20..] == [];
    assert [e2][1..] == [] && Legal(c, s3, []) && Exec(c, s3, []) == s3;
    assert Legal(c, s2, [e2]) && Exec(c, s2, [e2]) == s3;
    assert Legal(c, s1, [e1, e2]) && Exec(c, s1, [e1, e2]) == s3;
  }

  // ----- the end of the stream -----

  /** The peer has closed, and nothing will make the parent read the connection again. */
  predicate Forgotten(s: Sock) {
    s.status == Live && s.eof && !(s.edge || s.reported || s.etin || s.closing)
  }

  /** A read that takes the last bytes without filling the buffer, with the close already behind them
      and no other edge due. */
  predicate Risky(c: Config, s: Sock, e: Event) {
    (e.Input? || (e.Poll? && !s.reported)) &&
    s.eof && 0 < |s.kernel| < c.max - |s.buf| && !s.edge && !s.closing
  }

  lemma NetRecvForgets(c: Config, s: Sock, room: nat)
    requires c.Valid() && s.status == Live && |s.buf| < c.max
    ensures var t := NetRecv(c, s, room);
      t.status == Live ==>
        (Forgotten(t) <==> s.eof && 0 < |s.kernel| < c.max - |s.buf| && !s.edge && !s.reported && !s.closing)
  {
  }

  /** A step that leaves the connection alive forgets the close exactly if it is such a read. */
  lemma StepForgets(c: Config, s: Sock, e: Event)
    requires c.Valid() && Inv(c, s) && Enabled(s, e) && !Forgotten(s) && Next(c, s, e).status == Live
    ensures Forgotten(Next(c, s, e)) <==> Risky(c, s, e)
  {
    match e
    case Input(room) => NetRecvForgets(c, s.(reported := false), room);
    case Poll(room) => NetRecvForgets(c, s, room);
    case _ =>
  }

  predicate NeverForgotten(c: Config, s: Sock, es: seq<Event>)
    requires Legal(c, s, es)
    decreases |es|
  {
    !Forgotten(s) && (es == [] || NeverForgotten(c, Next(c, s, es[0]), es[1..]))
  }

  predicate NeverRisky(c: Config, s: Sock, es: seq<Event>)
    requires Legal(c, s, es)
    decreases |es|
  {
    es == [] || (!Risky(c, s, es[0]) && NeverRisky(c, Next(c, s, es[0]), es[1..]))
  }

  lemma {:induction false} RunForgets(c: Config, s: Sock, es: seq<Event>)
    requires c.Valid() && PrefixStable(c.len) && Inv(c, s) && !Forgotten(s) && Legal(c, s, es)
    ensures NeverRisky(c, s, es) ==> NeverForgotten(c, s, es)
    ensures Exec(c, s, es).status == Live ==> (NeverForgotten(c, s, es) <==> NeverRisky(c, s, es))
    decreases |es|
  {
    if es == [] {
    } else {
      var t := Next(c, s, es[0]);
      StepKeeps(c, s, es[0]);
      if t.status == Live {
        StepForgets(c, s, es[0]);
      }
      if !Forgotten(t) {
        RunForgets(c, t, es[1..]);
      }
    }
  }

  /** Over every run: the close of a connection is never forgotten if no read is risky, and as long as
      the connection lives only then.  Once it is forgotten, no read comes any more; only an unrelated
      re-arming, a FIN of the worker or a timeout can end it. */
  lemma EndOfStreamExact(c: Config, s: Sock, es: seq<Event>)
    requires c.Valid() && PrefixStable(c.len) && Init(s) && Legal(c, s, es)
    ensures NeverRisky(c, s, es) ==> NeverForgotten(c, s, es)
    ensures Exec(c, s, es).status == Live ==> (NeverForgotten(c, s, es) <==> NeverRisky(c, s, es))
    ensures forall e :: Forgotten(Exec(c, s, es)) && Enabled(Exec(c, s, es), e) ==> e.Rearm? || e.Fin? || e.Drop?
  {
    RunForgets(c, s, es);
  }

  /** A run on which the close is missed: one byte and the close arrive together. */
  lemma EndOfStreamForgotten(c: Config, s: Sock)
    requires Init(s) && !s.edge && !s.reported && c == Config(_ => 0, 4, 4)
    ensures var es := [Arrive([7]), PeerCloses, Report, Input(1)];
      Legal(c, s, es) && Forgotten(Exec(c, s, es))
  {
    var e0, e1, e2, e3 := Arrive([7]), PeerCloses, Report, Input(1);
    assert [e0, e1, e2, e3][1..] == [e1, e2, e3] && [e1, e2, e3][1..] == [e2, e3] && [e2, e3][1..] == [e3];
    var s1 := Next(c, s, e0);
    var s2 := Next(c, s1, e1);
    var s3 := Next(c, s2, e2);
    var s4 := Next(c, s3, e3);
    assert [e3][1..] == [] && Legal(c, s4, []) && Exec(c, s4, []) == s4;
    assert Legal(c, s3, [e3]) && Exec(c, s3, [e3]) == s4;
    assert Legal(c, s2, [e2, e3]) && Exec(c, s2, [e2, e3]) == s4;
    assert Legal(c, s1, [e1, e2, e3]) && Exec(c, s1, [e1, e2, e3]) == s4;
  }

  // ----- the code in place -----

  /** A connection's receive buffer and flags, updated as the parent does. */
  class Connection {
    const c: Config
    const recvptr: array<byte>
    var recvlen: nat
    var rcvprotlen: nat
    var etin: bool
    var closing: bool
    var kernel: seq<byte>
    var eof: bool
    var pushed: seq<seq<byte>>
    ghost var s: Sock   // the same connection as a state of the runs above

    /** The fields are those of the abstract connection (a dead one's buffer no longer matters). */
    ghost predicate Valid()
      reads this, recvptr
    {
      c.Valid() && recvptr.Length == c.page && pushed == s.delivered &&
      (s.status == Live ==>
        recvlen < c.max && recvptr[..recvlen] == s.buf && rcvprotlen == s.protlen &&
        kernel == s.kernel && eof == s.eof && etin == s.etin && closing == s.closing)
    }

    constructor (c: Config)
      requires c.Valid()
      ensures Valid() && Init(s) && this.c == c && fresh(recvptr)
    {
      this.c := c;
      recvptr := new byte[c.page];
      recvlen, rcvprotlen, etin, closing, kernel, eof, pushed := 0, 0, false, false, [], false, [];
      s := Sock([], [], [], false, false, false, false, false, [], 0, [], Live);
    }

    /** `do_read_conn`: 0 on a full buffer, -1 when `recv` returns 0 (the peer has closed, or nothing was
        asked for), else the number of bytes read. */
    method DoReadConn() returns (rc: int)
      requires c.Valid() && recvptr.Length == c.page && recvlen <= c.max
      modifies this`recvlen, this`kernel, this`etin, recvptr
      ensures rc == -1 <==> old(recvlen) < c.page && ((old(kernel) == [] && eof) || old(recvlen) == c.max)
      ensures rc == -1 || old(recvlen) == c.page ==>
        recvlen == old(recvlen) && recvptr[..] == old(recvptr[..]) && kernel == old(kernel) && etin == old(etin)
      ensures rc != -1 && old(recvlen) < c.page ==>
        rc == Min(c.max - old(recvlen), |old(kernel)|) && recvlen == old(recvlen) + rc <= c.max &&
        recvptr[..recvlen] == old(recvptr[..recvlen]) + old(kernel)[..rc] && kernel == old(kernel)[rc..] &&
        etin == if recvlen == c.max then old(etin) || !closing else false
    {
      if recvlen == c.page {
        return 0;
      }
      if (kernel == [] && eof) || recvlen == c.max {
        return -1;
      }
      rc := Min(c.max - recvlen, |kernel|);
      forall i | 0 <= i < rc { recvptr[recvlen + i] := kernel[i]; }
      recvlen, kernel := recvlen + rc, kernel[rc..];
      if recvlen == c.max {
        if !closing && !etin { etin := true; }
      } else {
        etin := false;
      }
    }

    /** The framing loop of `net_recv` (the `parse_again` jump) over the buffered bytes `data`, which
        nothing writes meanwhile: the bytes not consumed start at `at`. */
    method Parse(data: seq<byte>, room: nat) returns (rc: int, at: nat)
      requires recvlen == |data|
      modifies this`recvlen, this`rcvprotlen, this`pushed
      ensures at + recvlen <= |data|
      ensures var p := ParseLoop(c, data, old(rcvprotlen), room);
        pushed == old(pushed) + p.packets && rc == ReturnCode(p) &&
        (p.status == Live ==> data[at..at + recvlen] == p.rest && rcvprotlen == p.protlen)
    {
      ghost var goal := ParseLoop(c, data, rcvprotlen, room);
      ghost var done := [];
      var again := true;
      assert data[0..] == data;
      at, rc := 0, 0;
      while again
        invariant at + recvlen <= |data| && 0 <= |done| <= room && pushed == old(pushed) + done
        invariant again ==>
          at + recvlen == |data| && rc == |done| &&
          Pending(c, goal, done, data[at..], rcvprotlen, room - rc)
        invariant !again ==> Ended(goal, done, rc, data[at..at + recvlen], rcvprotlen)
        decreases again, recvlen
      {
        again, rc, at, done := ParseTurn(data, room, rc, at, goal, old(pushed), done);
      }
    }

    /** One pass from `parse_again`. */
    method ParseTurn(data: seq<byte>, room: nat, rc0: nat, at0: nat,
                     ghost goal: Parsed, ghost base: seq<seq<byte>>, ghost done0: seq<seq<byte>>)
      returns (again: bool, rc: int, at: nat, ghost done: seq<seq<byte>>)
      requires at0 + recvlen == |data| && rc0 == |done0| <= room && pushed == base + done0
      requires Pending(c, goal, done0, data[at0..], rcvprotlen, room - rc0)
      modifies this`recvlen, this`rcvprotlen, this`pushed
      ensures at + recvlen <= |data| && |done| <= room && pushed == base + done
      ensures again ==>
        recvlen < old(recvlen) && at + recvlen == |data| && rc == |done| &&
        Pending(c, goal, done, data[at..], rcvprotlen, room - rc)
      ensures !again ==> Ended(goal, done, rc, data[at..at + recvlen], rcvprotlen)
    {
      PendingTurn(c, goal, done0, data[at0..], rcvprotlen, room - rc0);
      again, rc, at, done := false, rc0, at0, done0;
      match OneTurn(c, data[at..], rcvprotlen, room - rc) {
        case Stop(keep, status) =>
          rcvprotlen := keep;
          rc := if status == Live then rc else if status == Dead then -1 else -2;
          assert data[at..at + recvlen] == data[at..];
        case Packet(n) =>
          SliceTwice(data, at, n);
          pushed, done := pushed + [data[at..at + n]], done + [data[at..at + n]];
          rc := rc + 1;
          if recvlen > n {
            at := at + n;
          }
          recvlen, rcvprotlen := recvlen - n, 0;
          again := recvlen != 0;
      }
    }

    /** The loop, then the move of what is left to the front of the buffer. */
    method ParseAndMove(room: nat) returns (rc: int)
      requires recvlen <= recvptr.Length
      modifies this`recvlen, this`rcvprotlen, this`pushed, recvptr
      ensures recvlen <= recvptr.Length
      ensures var p := ParseLoop(c, old(recvptr[..recvlen]), old(rcvprotlen), room);
        pushed == old(pushed) + p.packets &&
        rc == ReturnCode(p) &&
        (p.status == Live ==> recvptr[..recvlen] == p.rest && rcvprotlen == p.protlen)
    {
      var at;
      var data := recvptr[..recvlen];
      rc, at := Parse(data, room);
      assert recvptr[..|data|] == data;
      SliceOfPrefix(recvptr, |data|, at, recvlen);
      if at != 0 && recvlen > 0 {
        ghost var rest := recvptr[at..at + recvlen];
        forall i | 0 <= i < recvlen { recvptr[i] := recvptr[at + i]; }
        assert recvptr[..recvlen] == rest;
      }
    }

    /** The fields of a live connection, also in the middle of a call. */
    ghost predicate Mirrors()
      reads this, recvptr
    {
      c.Valid() && recvptr.Length == c.page && pushed == s.delivered && s.status == Live &&
      recvlen <= c.max && recvptr[..recvlen] == s.buf && rcvprotlen == s.protlen &&
      kernel == s.kernel && eof == s.eof && etin == s.etin && closing == s.closing
    }

    /** The read of `net_recv`. */
    method Read() returns (rc: int)
      requires Valid() && s.status == Live
      modifies this`recvlen, this`kernel, this`etin, this`s, recvptr
      ensures s == ReadConn(c, old(s)) && (if s.status == Live then rc != -1 && Mirrors() else rc == -1 && Valid())
    {
      ghost var r := ReadConn(c, s);
      rc := DoReadConn();
      if rc != -1 {
        assert recvptr[..recvlen] == r.buf;
      }
      s := r;
    }

    /** `net_recv` in the parent: the count of packets pushed, -1 to drop the connection, -2 for
        exit(1).  It does what the runs above assume. */
    method NetRecvCall(room: nat) returns (rc: int)
      requires Valid() && s.status == Live
      modifies this`recvlen, this`rcvprotlen, this`kernel, this`etin, this`pushed, this`s, recvptr
      ensures Valid() && s == NetRecv(c, old(s), room)
      ensures match s.status case Live => rc == |pushed| - |old(pushed)| case Dead => rc == -1 case Exited => rc == -2
    {
      var got := Read();
      if got == -1 {
        return -1;
      }
      rc := ParseRead(room);
    }

    /** The rest of `net_recv`. */
    method ParseRead(room: nat) returns (rc: int)
      requires Mirrors()
      modifies this`recvlen, this`rcvprotlen, this`pushed, this`s, recvptr
      ensures Valid()
      ensures var p := ParseLoop(c, old(s.buf), old(s.protlen), room);
        rc == ReturnCode(p) && s == old(s).(buf := p.rest, protlen := p.protlen,
                                            delivered := old(s.delivered) + p.packets, status := p.status)
    {
      ghost var p := ParseLoop(c, s.buf, s.protlen, room);
      LoopLeavesRoom(c, s.buf, s.protlen, room);
      rc := ParseAndMove(room);
      s := s.(buf := p.rest, protlen := p.protlen, delivered := s.delivered + p.packets, status := p.status);
    }
  }

  lemma SliceOfPrefix(a: array<byte>, m: nat, at: nat, n: nat)
    requires at + n <= m <= a.Length
    ensures a[at..at + n] == a[..m][at..at + n]
  {
  }

  lemma SliceTwice(data: seq<byte>, at: nat, n: nat)
    requires at + n <= |data|
    ensures data[at..at + n] == data[at..][..n] && data[at + n..] == data[at..][n..]
  {
  }

  /** `goal` is what the loop will have produced, `done` what it has so far, on the rest `buf`. */
  predicate Pending(c: Config, goal: Parsed, done: seq<seq<byte>>, buf: seq<byte>, protlen: nat, room: nat) {
    var p := ParseLoop(c, buf, protlen, room);
    goal == p.(packets := done + p.packets)
  }

  /** The loop has ended as `goal` says. */
  predicate Ended(goal: Parsed, done: seq<seq<byte>>, rc: int, rest: seq<byte>, protlen: nat) {
    goal.packets == done && rc == ReturnCode(goal) &&
    (goal.status == Live ==> rest == goal.rest && protlen == goal.protlen)
  }

  lemma PendingTurn(c: Config, goal: Parsed, done: seq<seq<byte>>, buf: seq<byte>, protlen: nat, room: nat)
    requires Pending(c, goal, done, buf, protlen, room)
    ensures match OneTurn(c, buf, protlen, room)
      case Stop(keep, status) => goal == Parsed(done, buf, keep, status)
      case Packet(n) =>
        if n == |buf| then goal == Parsed(done + [buf[..n]], [], 0, Live)
        else Pending(c, goal, done + [buf[..n]], buf[n..], 0, room - 1)
  {
    var t := OneTurn(c, buf, protlen, room);
    if t.Packet? && t.n < |buf| {
      var q := ParseLoop(c, buf[t.n..], 0, room - 1);
      assert done + ([buf[..t.n]] + q.packets) == (done + [buf[..t.n]]) + q.packets;
    } else if t.Packet? {
      assert buf[..t.n] == buf;
    }
  }

  /** A loop that ends normally leaves less than a full buffer. */
  lemma {:induction false} LoopLeavesRoom(c: Config, buf: seq<byte>, protlen: nat, room: nat)
    requires c.Valid() && |buf| <= c.max
    ensures var p := ParseLoop(c, buf, protlen, room);
      p.status == Live ==> |p.rest| < c.max
    decreases |buf|
  {
    var n := if protlen == 0 then c.len(buf) else protlen;
    if 0 < n < |buf| && n <= c.max && room > 0 {
      LoopLeavesRoom(c, buf[n..], 0, room - 1);
    }
  }
}
