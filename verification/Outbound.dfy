/** The sending side of one client connection: `safe_tcp_send_n`, the send buffer of `net_send` and
    `do_write_conn`, and when EPOLLOUT is armed.  The kernel's answers are a script.  */
module Outbound {
  import opened Basics
  import opened Frames

  /** One answer of `send`: so many bytes taken, EINTR, EAGAIN, or any other error. */
  datatype Answer = Took(n: nat) | Interrupted | WouldBlock | Broken

  /** How a sequence of calls ends. */
  datatype Offered = Offered(taken: nat, failed: bool)

  /** What `len` bytes come to when the kernel answers `script`, then EAGAIN. */
  function Offer(len: nat, script: seq<Answer>): (o: Offered)
    ensures o.taken <= len
    decreases |script|
  {
    if len == 0 || script == [] then Offered(0, false)
    else match script[0]
      case Took(n) =>
        var rest := Offer(len - Min(n, len), script[1..]);
        rest.(taken := rest.taken + Min(n, len))
      case Interrupted => Offer(len, script[1..])
      case WouldBlock => Offered(0, false)
      case Broken => Offered(0, true)
  }

  /** The bytes that the short counts of a script add up to. */
  function Total(script: seq<Answer>): nat
    decreases |script|
  {
    if script == [] then 0 else (if script[0].Took? then script[0].n else 0) + Total(script[1..])
  }

  /** The first answer that ends the calls, or the end of the script. */
  function StopAt(script: seq<Answer>): (k: nat)
    ensures k <= |script|
    ensures forall j :: 0 <= j < k ==> script[j].Took? || script[j].Interrupted?
    ensures k < |script| ==> script[k].WouldBlock? || script[k].Broken?
    decreases |script|
  {
    if script == [] || script[0].WouldBlock? || script[0].Broken? then 0 else 1 + StopAt(script[1..])
  }

  /** The socket breaks before it has taken `len` bytes. */
  predicate Breaks(len: nat, script: seq<Answer>) {
    var k := StopAt(script);
    k < |script| && script[k].Broken? && Total(script[..k]) < len
  }

  /** Interruptions and short counts never end the calls; all that was taken before they end counts. */
  lemma {:induction false} OfferExact(len: nat, script: seq<Answer>)
    ensures Offer(len, script) == Offered(Min(len, Total(script[..StopAt(script)])), Breaks(len, script))
    decreases |script|
  {
    var k := StopAt(script);
    if len == 0 || script == [] || k == 0 {
    } else {
      var left := if script[0].Took? then len - Min(script[0].n, len) else len;
      OfferExact(left, script[1..]);
      assert script[..k][1..] == script[1..][..k - 1];
    }
  }

  /** `safe_tcp_send_n`: the bytes taken are always the first ones, as many as the kernel takes before it
      says EAGAIN or fails; -1 exactly if it fails before it has taken all. */
  method SafeTcpSendN(data: seq<byte>, script: seq<Answer>) returns (rc: int, taken: nat)
    requires data != []
    ensures taken == Min(|data|, Total(script[..StopAt(script)])) <= |data|
    ensures rc == if Breaks(|data|, script) then -1 else taken
    ensures Offered(taken, rc == -1) == Offer(|data|, script)
  {
    OfferExact(|data|, script);
    taken := 0;
    var i := 0;
    while taken < |data| && i < |script|
      invariant 0 <= taken <= |data| && 0 <= i <= |script|
      invariant var o := Offer(|data| - taken, script[i..]);
        Offer(|data|, script) == Offered(taken + o.taken, o.failed)
      decreases |script| - i
    {
      assert script[i..][1..] == script[i + 1..];
      match script[i] {
        case Took(n) => taken := taken + Min(n, |data| - taken);
        case Interrupted =>
        case WouldBlock => return taken, taken;
        case Broken => return -1, taken;
      }
      i := i + 1;
    }
    rc := taken;
  }

  /** A connection by what decides its EPOLLOUT: bytes waiting, EPOLLOUT in the interest set, alive. */
  datatype Line = Line(len: nat, armed: bool, alive: bool)

  const DEAD := Line(0, false, false)

  /** `net_send` once the waiting bytes were tried; `prev`: there were some. */
  function AfterOffer(l: Line, data: seq<byte>, script: seq<Answer>, limit: nat, prev: bool): Line {
    var o := if l.len == 0 then Offer(|data|, script) else Offered(0, false);
    var len := l.len + |data| - o.taken;
    if o.failed then DEAD
    else if o.taken < |data| && 0 < limit < len then l.(len := len)
    else if len > 0 && !prev then Line(len, true, true)
    else if prev && len == 0 then Line(0, false, true)
    else l.(len := len)
  }

  function AfterSend(l: Line, data: seq<byte>, flush: seq<Answer>, script: seq<Answer>, limit: nat): Line {
    var o := Offer(l.len, flush);
    if o.failed then DEAD else AfterOffer(l.(len := l.len - o.taken), data, script, limit, l.len > 0)
  }

  /** EPOLLOUT is reported. */
  function AfterEvent(l: Line, script: seq<Answer>): Line {
    var o := Offer(l.len, script);
    if o.failed then DEAD
    else if o.taken == l.len then Line(0, false, true)
    else l.(len := l.len - o.taken)
  }

  /** The send side of `struct conn_buf`, with epoll's interest, and the socket's stream as history. */
  class Sender {
    var sendptr: array?<byte>
    var sendlen: nat
    var sndbufsz: nat
    var alive: bool
    var armed: bool              // EPOLLOUT in the interest set
    ghost var sent: seq<byte>    // what the socket has taken

    /** Whenever a buffer exists, what waits in it fits. */
    ghost predicate Valid()
      reads this, sendptr
    {
      if sendptr == null then sendlen == 0 else sendlen <= sndbufsz == sendptr.Length
    }

    ghost function Waiting(): seq<byte>
      requires Valid()
      reads this, sendptr
    {
      if sendptr == null then [] else sendptr[..sendlen]
    }

    ghost function Now(): Line
      reads this
    {
      Line(sendlen, armed, alive)
    }

    constructor ()
      ensures Valid() && !armed && alive && Waiting() == [] && sent == [] && sendptr == null
    {
      sendptr, sendlen, sndbufsz, alive, sent, armed := null, 0, 0, true, [], false;
    }

    /** `do_write_conn`: moves a prefix of the buffer to the socket; -1 on a hard error, which leaves
        the buffer alone although some bytes may have gone out. */
    method DoWriteConn(script: seq<Answer>) returns (rc: int)
      requires Valid() && alive && sendlen > 0
      modifies this`sendlen, this`sent, sendptr
      ensures Valid() && old(sent) <= sent <= old(sent + Waiting())
      ensures rc == -1 <==> Offer(old(sendlen), script).failed
      ensures rc != -1 ==> rc == Offer(old(sendlen), script).taken && sendlen == old(sendlen) - rc
      ensures rc != -1 ==> sent + Waiting() == old(sent + Waiting())
    {
      ghost var before := sendptr[..sendlen];
      var taken;
      rc, taken := SafeTcpSendN(sendptr[..sendlen], script);
      sent := sent + before[..taken];
      if rc > 0 {
        MoveDown(taken);
        assert before[..taken] + before[taken..] == before;
      }
    }

    /** The bytes behind the first `n` move to the front. */
    method MoveDown(n: nat)
      requires sendptr != null && n <= sendlen <= sendptr.Length
      modifies this`sendlen, sendptr
      ensures sendlen == old(sendlen) - n && sendptr[..sendlen] == old(sendptr[..sendlen])[n..]
    {
      forall i | 0 <= i < sendlen - n { sendptr[i] := sendptr[n + i]; }
      sendlen := sendlen - n;
    }

    /** Append to the buffer, allocating or growing it first. */
    method Buffer(data: seq<byte>)
      requires Valid() && data != []
      modifies this`sendptr, this`sendlen, this`sndbufsz, sendptr
      ensures Valid() && Waiting() == old(Waiting()) + data
      ensures sendptr == old(sendptr) || fresh(sendptr)
    {
      ghost var before := Waiting();
      if sendptr == null {
        sendptr := new byte[|data|](i => 0);
        sndbufsz := |data|;
      } else if sndbufsz < sendlen + |data| {
        var grown := new byte[sendlen + |data|](i => 0);
        forall i | 0 <= i < sendlen { grown[i] := sendptr[i]; }
        sendptr, sndbufsz := grown, sendlen + |data|;
      }
      assert sendptr[..sendlen] == before;
      Fill(data);
    }

    /** The copy behind the bytes already waiting. */
    method Fill(data: seq<byte>)
      requires sendptr != null && sendlen + |data| <= sndbufsz == sendptr.Length
      modifies this`sendlen, sendptr
      ensures sendlen == old(sendlen) + |data| && sendptr[..sendlen] == old(sendptr[..sendlen]) + data
    {
      forall i | 0 <= i < |data| { sendptr[sendlen + i] := data[i]; }
      sendlen := sendlen + |data|;
    }

    /** The connection's end of `do_del_conn`: `free_cb`. */
    method Die()
      modifies this
      ensures Valid() && Now() == DEAD && sendptr == null && sent == old(sent)
    {
      sendptr, sendlen, alive, armed := null, 0, false, false;
    }

    /** `net_send`: while the connection lives nothing is lost, repeated or reordered.  A limit of 0 is
        off; past it the call returns before arming, which matters exactly if nothing waited before and the
        socket leaves more than the limit. */
    method NetSend(data: seq<byte>, flush: seq<Answer>, script: seq<Answer>, limit: nat) returns (rc: int)
      requires Valid() && alive && data != []
      modifies this, sendptr
      ensures Valid() && old(sent) <= sent <= old(sent + Waiting()) + data
      ensures alive ==> sent + Waiting() == old(sent + Waiting()) + data
      ensures !alive ==> rc == -1 && sendlen == 0
      ensures sendptr == null || sendptr == old(sendptr) || fresh(sendptr)
      ensures Now() == AfterSend(old(Now()), data, flush, script, limit)
      ensures var o := Offer(old(sendlen), flush);
        var p := if o.taken == old(sendlen) then Offer(|data|, script) else Offered(0, false);
        (alive <==> !o.failed && !p.failed) &&
        (alive ==> sendlen == old(sendlen) - o.taken + |data| - p.taken) &&
        (rc == if !alive || (p.taken < |data| && 0 < limit < sendlen) then -1 else 0)
      ensures alive && old(armed <==> sendlen > 0) ==>
        ((armed <==> sendlen > 0) <==> !(old(sendlen) == 0 && |data| - Offer(|data|, script).taken > limit > 0))
    {
      var prev := sendlen > 0;
      if prev {
        var w := DoWriteConn(flush);
        if w == -1 {
          Die();
          return -1;
        }
      }
      rc := SendOrKeep(data, script, limit, prev);
    }

    /** The middle of `net_send`: offer the new data only if nothing waits in front of it. */
    method SendOrKeep(data: seq<byte>, script: seq<Answer>, limit: nat, prev: bool) returns (rc: int)
      requires Valid() && alive && data != []
      modifies this, sendptr
      ensures Valid() && old(sent) <= sent <= old(sent + Waiting()) + data
      ensures alive ==> sent + Waiting() == old(sent + Waiting()) + data
      ensures !alive ==> rc == -1 && sendlen == 0
      ensures sendptr == null || sendptr == old(sendptr) || fresh(sendptr)
      ensures Now() == AfterOffer(old(Now()), data, script, limit, prev)
      ensures var p := if old(sendlen) == 0 then Offer(|data|, script) else Offered(0, false);
        (alive <==> !p.failed) && (alive ==> sendlen == old(sendlen) + |data| - p.taken) &&
        (rc == if !alive || (p.taken < |data| && 0 < limit < sendlen) then -1 else 0)
    {
      var taken := 0;
      if sendlen == 0 {
        var r;
        r, taken := SafeTcpSendN(data, script);
        sent := sent + data[..taken];
        if r == -1 {
          Die();
          return -1;
        }
      }
      assert data[..taken] + data[taken..] == data;
      rc := Keep(data[taken..], limit, prev);
    }

    /** The rest of `net_send`: buffer what the socket did not take, and arm or disarm EPOLLOUT. */
    method Keep(data: seq<byte>, limit: nat, prev: bool) returns (rc: int)
      requires Valid() && alive
      modifies this`sendptr, this`sendlen, this`sndbufsz, this`armed, sendptr
      ensures Valid() && Waiting() == old(Waiting()) + data
      ensures sendptr == old(sendptr) || fresh(sendptr)
      ensures rc == if data != [] && 0 < limit < sendlen then -1 else 0
      ensures armed == if rc == -1 then old(armed)
                       else if sendlen > 0 && !prev then true
                       else if prev && sendlen == 0 then false
                       else old(armed)
    {
      if data != [] {
        Buffer(data);
        if limit > 0 && sendlen > limit {
          return -1;
        }
      }
      if sendlen > 0 && !prev {
        armed := true;
      } else if prev && sendlen == 0 {
        armed := false;
      }
      return 0;
    }

    /** EPOLLOUT in `net_loop`. */
    method EventOut(script: seq<Answer>)
      requires Valid() && alive
      modifies this, sendptr
      ensures Valid() && old(sent) <= sent <= old(sent + Waiting())
      ensures alive ==> sent + Waiting() == old(sent + Waiting())
      ensures Now() == AfterEvent(old(Now()), script)
      ensures alive ==> sendlen == old(sendlen) - Offer(old(sendlen), script).taken
      ensures alive ==> (armed <==> old(armed) && sendlen > 0)
      ensures !alive <==> old(sendlen) > 0 && Offer(old(sendlen), script).failed
      ensures sendptr == null || sendptr == old(sendptr)
    {
      if sendlen > 0 {
        var w := DoWriteConn(script);
        if w == -1 {
          Die();
          return;
        }
      }
      if sendlen == 0 {
        armed := false;
      }
    }

    method Perform(op: Operation, limit: nat)
      requires Valid() && alive && (op.Send? ==> op.data != [])
      modifies this, sendptr
      ensures Valid() && Now() == After(old(Now()), op, limit)
      ensures var more := if op.Send? then op.data else [];
        old(sent) <= sent <= old(sent + Waiting()) + more &&
        (alive ==> sent + Waiting() == old(sent + Waiting()) + more)
      ensures sendptr == null || sendptr == old(sendptr) || fresh(sendptr)
    {
      match op {
        case Send(data, flush, script) =>
          var _ := NetSend(data, flush, script, limit);
        case Ready(script) =>
          if armed {
            EventOut(script);
          }
      }
    }
  }

  // ----- any sequence of operations -----

  /** A call of `net_send`, or a moment when the socket has room (which epoll reports if asked to). */
  datatype Operation = Send(data: seq<byte>, flush: seq<Answer>, script: seq<Answer>) | Ready(script: seq<Answer>)

  /** All bytes handed to `net_send`. */
  function Given(ops: seq<Operation>): seq<byte> {
    if ops == [] then []
    else
      var last := ops[|ops| - 1];
      Given(ops[..|ops| - 1]) + if last.Send? then last.data else []
  }

  function After(l: Line, op: Operation, limit: nat): Line {
    if !l.alive then l
    else match op
      case Send(data, flush, script) => AfterSend(l, data, flush, script, limit)
      case Ready(script) => if l.armed then AfterEvent(l, script) else l
  }

  function Lines(ops: seq<Operation>, limit: nat): Line {
    if ops == [] then Line(0, false, true)
    else After(Lines(ops[..|ops| - 1], limit), ops[|ops| - 1], limit)
  }

  /** The i-th operation sends with nothing waiting, and the socket leaves more than the limit. */
  predicate Jams(ops: seq<Operation>, limit: nat, i: nat) {
    i < |ops| && ops[i].Send? && Lines(ops[..i], limit).len == 0 &&
    |ops[i].data| - Offer(|ops[i].data|, ops[i].script).taken > limit > 0
  }

  /** Bytes have been waiting ever since the i-th operation. */
  predicate WaitingSince(ops: seq<Operation>, limit: nat, i: nat) {
    forall j :: i < j <= |ops| ==> Lines(ops[..j], limit).len > 0
  }

  predicate Jammed(ops: seq<Operation>, limit: nat) {
    exists i :: 0 <= i < |ops| && Jams(ops, limit, i) && WaitingSince(ops, limit, i)
  }

  /** What the last operation adds to a jam that began before it. */
  lemma JamGoesOn(ops: seq<Operation>, limit: nat, i: nat)
    requires i < |ops| - 1
    ensures var before := ops[..|ops| - 1];
      (Jams(ops, limit, i) <==> Jams(before, limit, i)) &&
      (WaitingSince(ops, limit, i) <==> WaitingSince(before, limit, i) && Lines(ops, limit).len > 0)
  {
    var before := ops[..|ops| - 1];
    assert before[..i] == ops[..i] && ops[..|ops|] == ops;
    forall j | i < j <= |before|
      ensures before[..j] == ops[..j]
    {
    }
    if WaitingSince(before, limit, i) && Lines(ops, limit).len > 0 {
      forall j | i < j <= |ops|
        ensures Lines(ops[..j], limit).len > 0
      {
        assert j < |ops| ==> before[..j] == ops[..j];
      }
    }
  }

  lemma JammedStep(ops: seq<Operation>, limit: nat)
    requires ops != []
    ensures var n := |ops| - 1;
      Jammed(ops, limit) <==> Lines(ops, limit).len > 0 && (Jammed(ops[..n], limit) || Jams(ops, limit, n))
  {
    var n := |ops| - 1;
    forall i | 0 <= i < n
      ensures Jams(ops, limit, i) <==> Jams(ops[..n], limit, i)
      ensures WaitingSince(ops, limit, i) <==> WaitingSince(ops[..n], limit, i) && Lines(ops, limit).len > 0
    {
      JamGoesOn(ops, limit, i);
    }
    assert ops[..|ops|] == ops;
    assert WaitingSince(ops, limit, n) <==> Lines(ops, limit).len > 0;
  }

  lemma JamNeedsBytes(ops: seq<Operation>, limit: nat)
    requires Jammed(ops, limit)
    ensures Lines(ops, limit).len > 0
  {
    assert ops[..|ops|] == ops;
  }

  lemma StepArms(l: Line, op: Operation, limit: nat, jammed: bool)
    requires l.alive && (op.Send? ==> op.data != []) && (jammed ==> l.len > 0)
    requires l.armed <==> l.len > 0 && !jammed
    ensures var m := After(l, op, limit);
      var jams := op.Send? && l.len == 0 && |op.data| - Offer(|op.data|, op.script).taken > limit > 0;
      m.alive ==> (m.armed <==> m.len > 0 && !jammed && !jams)
  {
  }

  /** Over every sequence of sends and events, EPOLLOUT is armed exactly if bytes wait, unless they have
      been waiting since a send that found nothing waiting and left more than the limit. */
  lemma {:induction false} ArmedExact(ops: seq<Operation>, limit: nat)
    requires (forall op :: op in ops ==> op.Send? ==> op.data != []) && Lines(ops, limit).alive
    ensures var l := Lines(ops, limit);
      l.armed <==> l.len > 0 && !Jammed(ops, limit)
  {
    if ops == [] {
    } else {
      var before, op := ops[..|ops| - 1], ops[|ops| - 1];
      assert op in ops;
      ArmedExact(before, limit);
      JammedStep(ops, limit);
      if Jammed(before, limit) {
        JamNeedsBytes(before, limit);
      }
      StepArms(Lines(before, limit), op, limit, Jammed(before, limit));
    }
  }

  /** Such a send: two bytes, none taken, a limit of one.  No event will ever move them. */
  lemma JamHappens()
    ensures Lines([Send([7, 7], [], [])], 1) == Line(2, false, true)
  {
    var op := Send([7, 7], [], []);
    assert [op][..0] == [] && Lines([], 1) == Line(0, false, true);
    assert After(Line(0, false, true), op, 1) == Line(2, false, true);
  }

  lemma {:induction false} EventsLeaveAJam(ops: seq<Operation>, events: seq<Operation>, limit: nat)
    requires !Lines(ops, limit).armed && forall op :: op in events ==> op.Ready?
    ensures Lines(ops + events, limit) == Lines(ops, limit)
    decreases |events|
  {
    if events == [] {
      assert ops + events == ops;
    } else {
      var all := ops + events;
      assert all[..|all| - 1] == ops + events[..|events| - 1] && all[|all| - 1] == events[|events| - 1];
      assert events[|events| - 1] in events;
      EventsLeaveAJam(ops, events[..|events| - 1], limit);
    }
  }

  lemma {:induction false} DeadStaysDead(ops: seq<Operation>, limit: nat, n: nat)
    requires n <= |ops| && !Lines(ops[..n], limit).alive
    ensures Lines(ops, limit) == Lines(ops[..n], limit)
    decreases |ops|
  {
    if n == |ops| {
      assert ops[..n] == ops;
    } else {
      assert ops[..|ops| - 1][..n] == ops[..n];
      DeadStaysDead(ops[..|ops| - 1], limit, n);
    }
  }

  /** However sends and EPOLLOUT events mix: while the connection lives, taken plus waiting bytes are all
      bytes given, and EPOLLOUT is armed exactly if bytes wait that are not jammed, which needs a limit;
      a connection that died was sent a prefix. */
  method Serve(ops: seq<Operation>, limit: nat) returns (s: Sender, done: nat)
    requires forall op :: op in ops ==> op.Send? ==> op.data != []
    ensures s.Valid() && done <= |ops| && (s.alive ==> done == |ops|)
    ensures s.Now() == Lines(ops, limit) == Lines(ops[..done], limit)
    ensures s.alive ==> s.sent + s.Waiting() == Given(ops)
    ensures s.alive ==> (s.armed <==> s.sendlen > 0 && !Jammed(ops, limit)) && (limit == 0 ==> !Jammed(ops, limit))
    ensures s.sent <= Given(ops[..done])
  {
    s := new Sender();
    done := 0;
    while done < |ops| && s.alive
      invariant s.Valid() && fresh(s) && (s.sendptr != null ==> fresh(s.sendptr)) && done <= |ops|
      invariant s.Now() == Lines(ops[..done], limit)
      invariant s.alive ==> s.sent + s.Waiting() == Given(ops[..done])
      invariant s.sent <= Given(ops[..done])
      decreases |ops| - done
    {
      assert ops[done] in ops && ops[..done + 1][..done] == ops[..done];
      s.Perform(ops[done], limit);
      done := done + 1;
    }
    assert ops[..|ops|] == ops;
    if s.alive {
      ArmedExact(ops, limit);
    } else {
      DeadStaysDead(ops, limit, done);
    }
  }

  // ----- send_pkg_to_client -----

  function Concat(chunks: seq<seq<byte>>): seq<byte> {
    if chunks == [] then [] else Concat(chunks[..|chunks| - 1]) + chunks[|chunks| - 1]
  }

  /** `send_pkg_to_client`: the package in blocks of at most a page, in order; `sendq` takes `room` of
      them.  Everything arrives or the call says it did not. */
  method SendPkgToClient(pkg: seq<byte>, page: nat, room: nat) returns (rc: int, blocks: seq<seq<byte>>)
    requires page > HEADER
    ensures Concat(blocks) <= pkg && |blocks| <= room
    ensures rc == if Concat(blocks) == pkg then 0 else -1
    ensures rc == -1 ==> |blocks| == room
    ensures forall b :: b in blocks ==> 0 < |b| <= page - HEADER
    ensures forall i :: 0 <= i < |blocks| && (i < |blocks| - 1 || rc == -1) ==> |blocks[i]| == page - HEADER
  {
    blocks := [];
    var sent := 0;
    while sent < |pkg|
      invariant 0 <= sent <= |pkg| && Concat(blocks) == pkg[..sent] && |blocks| <= room
      invariant forall b :: b in blocks ==> 0 < |b| <= page - HEADER
      invariant forall i :: 0 <= i < |blocks| && (i < |blocks| - 1 || sent < |pkg|) ==> |blocks[i]| == page - HEADER
      decreases |pkg| - sent
    {
      var cur := Min(|pkg| - sent, page - HEADER);
      if |blocks| == room {
        return -1, blocks;
      }
      var chunk := pkg[sent..sent + cur];
      assert (blocks + [chunk])[..|blocks|] == blocks;
      assert pkg[..sent] + chunk == pkg[..sent + cur];
      blocks := blocks + [chunk];
      sent := sent + cur;
    }
    rc := 0;
  }
}
