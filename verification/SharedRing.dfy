/** `shmq_push` and `shmq_pop` as calls on a ring in place, in C's own integer widths: every
    arithmetic operation on the 32-bit types below is checked not to leave its range.  */
module SharedRing {
  import opened Frames
  import opened RingLayout
  import RingSteps

  newtype int32 = x: int | -0x8000_0000 <= x < 0x8000_0000
  newtype uint32 = x: int | 0 <= x < 0x1_0000_0000

  datatype Outcome = Accepted | TooLarge | Full | Exit

  /** What a push of an `n`-byte block meets when nothing else moves: arithmetic only. */
  function Expect(c: Config, head: int, tail: int, n: nat): Outcome {
    if n > c.page then TooLarge
    else if c.length - head < n && tail == START then Exit
    else
      var h := if c.length - head < n then START else head;
      if h < tail < h + n + c.page then Full else Accepted
  }

  /** The first distance from the start of the ring where `head` can stop and a block of `n` bytes no
      longer fits before the end.  One block gets `head` up to a page away; two get it at least two
      headers away. */
  function Stop(c: Config, n: nat): int {
    var d := if c.length - n - 7 < HEADER then HEADER else c.length - n - 7;
    if c.page < d < 2 * HEADER then 2 * HEADER else d
  }

  /** Some drained ring refuses a block of `n` bytes: its `head` stopped too close to the end, and not
      far enough from the start. */
  predicate Refusable(c: Config, n: nat) {
    START + Stop(c, n) <= c.length && Stop(c, n) < n + c.page
  }

  /** In closed form, for pages that leave no gap between one block and two; three pages and the header
      are always enough. */
  lemma RefusableExact(c: Config, n: nat)
    requires c.Valid() && HEADER <= n <= c.page
    ensures c.page >= 2 * HEADER - 1 ==> (Refusable(c, n) <==> c.length < c.page + 2 * n + 7)
    ensures c.length >= c.page + 2 * n + 7 ==> !Refusable(c, n)
    ensures c.length >= 3 * c.page + START ==> !Refusable(c, n)
  {
  }

  function Total(frames: seq<seq<byte>>): nat {
    if frames == [] then 0 else Total(frames[..|frames| - 1]) + |frames[|frames| - 1]|
  }

  lemma {:induction false} TotalBounds(frames: seq<seq<byte>>, page: nat)
    requires AllFrames(frames, page)
    ensures frames == [] ==> Total(frames) == 0
    ensures |frames| == 1 ==> HEADER <= Total(frames) <= page
    ensures |frames| >= 1 ==> Total(frames) >= HEADER
    ensures |frames| >= 2 ==> Total(frames) >= 2 * HEADER
  {
    if frames == [] {
    } else {
      assert frames[|frames| - 1] in frames;
      TotalBounds(frames[..|frames| - 1], page);
    }
  }

  /** `head` is where the frames pushed since it last wrapped have brought it. */
  predicate Summed(s: RingSteps.State) {
    s.wrapIdx <= |s.pushed| && s.head == START + Total(s.pushed[s.wrapIdx..])
  }

  lemma SumAppends(s: RingSteps.State, s': RingSteps.State, f: seq<byte>)
    requires Summed(s) && s'.pushed == s.pushed + [f] && s'.wrapIdx == s.wrapIdx && s'.head == s.head + |f|
    ensures Summed(s')
  {
    var q := s.pushed[s.wrapIdx..];
    assert s'.pushed[s.wrapIdx..] == q + [f];
    assert (q + [f])[..|q|] == q;
  }

  /** A drained ring refuses a legal block only if it is refusable. */
  lemma DrainedRingAccepts(c: Config, s: RingSteps.State, n: nat)
    requires AtRest(c, s) && Summed(s) && HEADER <= n <= c.page && !Refusable(c, n)
    ensures Expect(c, s.head, s.head, n) == Accepted
  {
    TotalBounds(s.pushed[s.wrapIdx..], c.page);
  }

  // ----- the two calls on states at rest -----

  predicate AtRest(c: Config, s: RingSteps.State) {
    c.Valid() && s.prod.Ready? && s.cons.Idle? && RingSteps.Inv(c, s)
  }

  predicate EndUnusable(c: Config, s: RingSteps.State)
    requires |s.mem| == c.length && 0 <= s.tail
  {
    s.tail > s.head && (c.length - s.tail < HEADER || s.mem[s.tail + 12] == PAD_BLOCK)
  }

  function Realigned(c: Config, s: RingSteps.State): RingSteps.State
    requires |s.mem| == c.length && 0 <= s.tail
  {
    s.(held := [], tail := if EndUnusable(c, s) then START else s.tail)
  }

  lemma RealignKeeps(c: Config, s: RingSteps.State)
    requires AtRest(c, s)
    ensures AtRest(c, Realigned(c, s))
    ensures var t := Realigned(c, s);
      if s.popped == s.pushed then t.tail == t.head else t.tail != t.head && RingSteps.FrameWaiting(t)
    ensures s.popped != s.pushed ==> s.tail != s.head
  {
    RingSteps.SeeTail(c, s);
    var r := s.(held := []);
    if EndUnusable(c, s) {
      RingSteps.ResetKeeps(c, r, r.(tail := START, cons := RingSteps.AgainTail));
    }
    RingSteps.SeeTail(c, Realigned(c, s));
  }

  function Taken(s: RingSteps.State, n: nat): RingSteps.State
    requires 0 <= s.tail && s.tail + n <= |s.mem|
  {
    var f := s.mem[s.tail..s.tail + n];
    s.(tail := s.tail + n, popped := s.popped + [f], heldAt := s.tail, held := f)
  }

  lemma TakeKeeps(c: Config, s: RingSteps.State)
    requires AtRest(c, s) && RingSteps.FrameWaiting(s)
    ensures s.tail + HEADER <= |s.mem|
    ensures var n := Word(s.mem, s.tail + 8);
      s.tail + n <= c.length && s.mem[s.tail..s.tail + n] == s.pushed[|s.popped|] && AtRest(c, Taken(s, n))
  {
    RingSteps.FrontFrame(c, s);
    TakenAtRest(c, s, |s.pushed[|s.popped|]|);
  }

  lemma TakenAtRest(c: Config, s: RingSteps.State, n: nat)
    requires AtRest(c, s) && RingSteps.FrameWaiting(s) && n == |s.pushed[|s.popped|]| && s.tail + n <= c.length
    ensures AtRest(c, Taken(s, n))
  {
    RingSteps.PopKeeps(c, s, Taken(s, n));
  }

  /** `head` leaves the end of the ring, padded if there is room for a header. */
  lemma RewindKeeps(c: Config, s: RingSteps.State, m: seq<byte>, f: seq<byte>)
    requires AtRest(c, s) && IsFrame(f, c.page) && c.length - s.head < |f| && s.tail != START
    requires |m| == c.length && RingSteps.Skippable(c, m, s.head)
    requires forall i :: 0 <= i < |m| && !(s.head <= i < s.head + HEADER) ==> m[i] == s.mem[i]
    ensures s.tail <= s.head
    ensures AtRest(c, s.(mem := m, head := START, wrapAt := s.head, wrapIdx := |s.pushed|))
  {
    var s1 := s.(mem := m);
    var k := if c.length - s.head < HEADER then c.length - s.head else HEADER;
    RingSteps.StoreKeeps(c, s, m, s.head, k);
    var s2 := s1.(head := START, wrapAt := s.head, wrapIdx := |s.pushed|, prod := RingSteps.FullTail(f, 0));
    RingSteps.WrapKeeps(c, s1, s2, f);
    RingSteps.ReadKeeps(c, s2, s2.(prod := RingSteps.Ready));
  }

  function Published(s: RingSteps.State, m: seq<byte>, f: seq<byte>): RingSteps.State {
    s.(mem := m, head := s.head + |f|, pushed := s.pushed + [f])
  }

  lemma PutKeeps(c: Config, s: RingSteps.State, m: seq<byte>, f: seq<byte>)
    requires AtRest(c, s) && RingSteps.RoomFor(c, s, f) && |m| == c.length
    requires m[s.head..s.head + |f|] == f
    requires forall i :: 0 <= i < |m| && !(s.head <= i < s.head + |f|) ==> m[i] == s.mem[i]
    ensures AtRest(c, Published(s, m, f))
  {
    RingSteps.StoreKeeps(c, s, m, s.head, |f|);
    PublishAtRest(c, s.(mem := m), f);
  }

  lemma PublishAtRest(c: Config, s: RingSteps.State, f: seq<byte>)
    requires AtRest(c, s) && RingSteps.RoomFor(c, s, f) && s.mem[s.head..s.head + |f|] == f
    ensures AtRest(c, s.(head := s.head + |f|, pushed := s.pushed + [f]))
  {
    var s1 := s.(head := s.head + |f|, pushed := s.pushed + [f], prod := RingSteps.Notify);
    RingSteps.PublishKeeps(c, s, s1, f);
    var s2 := s1.(prod := RingSteps.Ready);
    RingSteps.ReadKeeps(c, s1, s2);
    assert RingSteps.ProducerInv(c, s2) && RingSteps.ConsumerInv(c, s2);
  }

  class SharedQueue {
    const length: uint32
    const pageSize: int32
    const mem: array<byte>
    var head: int32
    var tail: int32
    ghost var st: RingSteps.State   // the same ring as a state of the interleaved system, with history

    ghost const c: Config

    ghost predicate Valid()
      reads this, mem
    {
      0 <= pageSize && c == Config(length as nat, pageSize as nat) &&
      length as int + 2 * pageSize as int < 0x8000_0000 &&
      st.mem == mem[..] && st.head == head as int && st.tail == tail as int && AtRest(c, st) && Summed(st)
    }

    /** The frames pushed and not yet popped, oldest first. */
    ghost function Contents(): seq<seq<byte>>
      requires Valid()
      reads this, mem
    {
      RingSteps.Fifo(st)
    }

    constructor (length: uint32, pageSize: int32)
      requires 0 <= pageSize && pageSize as int + START <= length as int
      requires length as int + 2 * pageSize as int < 0x8000_0000
      ensures Valid() && Contents() == [] && st.pushed == [] && fresh(mem)
      ensures this.length == length && this.pageSize == pageSize && head == tail == 8
    {
      this.length, this.pageSize := length, pageSize;
      c := Config(length as nat, pageSize as nat);
      mem := new byte[length];
      head, tail := 8, 8;
      new;
      st := RingSteps.State(mem[..], 8, 8, RingSteps.Ready, RingSteps.Idle, 0, [], [], 0, [], 0, 0);
      RingSteps.InitInv(c, st);
    }

    /** `align_queue_tail`: step over the unusable end of the ring. */
    method AlignTail()
      requires Valid()
      modifies this
      ensures Valid() && st == Realigned(c, old(st)) && head == old(head)
    {
      RealignKeeps(c, st);
      st := Realigned(c, st);
      if head >= tail {
        return;
      }
      if length - (tail as uint32) < HEADER as uint32 || mem[tail + 12] == PAD_BLOCK {
        tail := 8;
      }
    }

    /** `shmq_pop`: -1 on an empty ring, else the offset of the oldest frame, which stays readable
        until the next pop. */
    method Pop() returns (rc: int, at: int32, n: uint32)
      requires Valid()
      modifies this
      ensures Valid() && head == old(head) && st.pushed == old(st.pushed)
      ensures rc == if old(Contents()) == [] then -1 else 0
      ensures rc == -1 ==> tail == head && Contents() == [] && st.popped == old(st.popped)
      ensures rc == 0 ==>
        0 <= at && at as int + n as int == tail as int <= mem.Length &&
        mem[at..tail] == old(Contents())[0] &&
        st.popped == old(st.popped) + [old(Contents())[0]] && Contents() == old(Contents())[1..]
    {
      RealignKeeps(c, st);
      if tail == head {
        return -1, 0, 0;
      }
      AlignTail();
      if tail == head {
        return -1, 0, 0;
      }
      at, n := TakeBlock();
      rc := 0;
    }

    /** The end of `shmq_pop`: hand out the frame at `tail` and step over it. */
    method TakeBlock() returns (at: int32, n: uint32)
      requires Valid() && RingSteps.FrameWaiting(st)
      modifies this
      ensures Valid() && head == old(head) && 0 <= at && at as int + n as int == tail as int <= mem.Length
      ensures mem[at..tail] == old(Contents())[0] == old(st).pushed[|old(st).popped|]
      ensures st.pushed == old(st).pushed && st.popped == old(st).popped + [old(Contents())[0]]
    {
      TakeKeeps(c, st);
      at := tail;
      n := Word(mem[..], tail as nat + 8) as uint32;
      tail := (tail as uint32 + n) as int32;
      st := Taken(st, n as nat);
    }

    /** `align_queue_head`: make the block fit before the end of the ring, or wrap. */
    method AlignHead(ghost f: seq<byte>, n: uint32) returns (ok: bool)
      requires Valid() && IsFrame(f, c.page) && n as int == |f|
      modifies this, mem
      ensures Valid() && tail == old(tail) && Contents() == old(Contents())
      ensures st.popped == old(st.popped) && st.pushed == old(st.pushed)
      ensures st.heldAt == old(st.heldAt) && st.held == old(st.held)
      ensures ok <==> !(c.length - old(head) as int < |f| && tail == 8)
      ensures ok ==> head as int == if c.length - old(head) as int < |f| then START else old(head) as int
      ensures ok ==> head as int + |f| <= c.length
    {
      var surplus := length - head as uint32;
      if surplus >= n {
        return true;
      }
      if tail == 8 {
        return false;   // exit(-1)
      }
      if surplus >= HEADER as uint32 {
        PadHeader(surplus);
      }
      RewindKeeps(c, st, mem[..], f);
      st := st.(mem := mem[..], wrapAt := st.head, wrapIdx := |st.pushed|, head := START);
      head := 8;
      return true;
    }

    /** Write the header of a pad block at `head`. */
    method PadHeader(surplus: uint32)
      requires 0 <= head && head as int + HEADER <= mem.Length
      modifies mem
      ensures mem[head as int + 12] == PAD_BLOCK
      ensures mem[head as int + 8..head as int + 12] == WordBytes(surplus as nat)
      ensures mem[head as int..head as int + 4] == WordBytes(0)
      ensures forall i :: 0 <= i < mem.Length && !(head as int <= i < head as int + HEADER) ==> mem[i] == old(mem[i])
    {
      var word := WordBytes(surplus as nat);
      mem[head as int + 12] := PAD_BLOCK;
      forall i | 0 <= i < 4 { mem[head as int + 8 + i] := word[i]; }
      forall i | 0 <= i < 4 { mem[head as int + i] := 0; }
    }

    /** The bounded retry loop of the full test. */
    method WaitForRoom(n: uint32) returns (room: bool)
      requires Valid() && head as int + n as int <= c.length
      ensures room <==> !(head < tail && (tail as int) < head as int + n as int + c.page)
    {
      var cnt := 0;
      while cnt != 10
        invariant 0 <= cnt <= 10
        invariant cnt > 0 ==> head < tail && (tail as int) < head as int + n as int + c.page
      {
        if tail > head && tail as uint32 < head as uint32 + n + pageSize as uint32 {
          cnt := cnt + 1;
        } else {
          break;
        }
      }
      return cnt != 10;
    }

    /** The two `memcpy` calls: header and payload. */
    method CopyBlock(f: seq<byte>)
      requires 0 <= head && head as int + |f| <= mem.Length
      modifies mem
      ensures mem[head as int..head as int + |f|] == f
      ensures forall i :: 0 <= i < mem.Length && !(head as int <= i < head as int + |f|) ==> mem[i] == old(mem[i])
    {
      forall i | 0 <= i < |f| { mem[head as int + i] := f[i]; }
    }

    /** Copy the block to `head`, then publish it. */
    method Append(f: seq<byte>)
      requires Valid() && RingSteps.RoomFor(c, st, f)
      modifies this`head, this`st, mem
      ensures Valid()
      ensures st == old(st).(mem := mem[..], head := old(st).head + |f|, pushed := old(st).pushed + [f])
    {
      CopyBlock(f);
      assert mem[..][st.head..st.head + |f|] == f;
      PutKeeps(c, st, mem[..], f);
      SumAppends(st, Published(st, mem[..], f), f);
      st := Published(st, mem[..], f);
      head := (head as uint32 + |f| as uint32) as int32;
    }

    /** `shmq_push`: all or nothing, and the answer is the one `Expect` computes. */
    method Push(b: Block) returns (r: Outcome)
      requires Valid() && b.Valid() && b.kind != PAD_BLOCK
      modifies this, mem
      ensures Valid() && tail == old(tail) && st.popped == old(st.popped)
      ensures r == Expect(c, old(head) as int, old(tail) as int, HEADER + |b.payload|)
      ensures r.Accepted? ==>
        var n := HEADER + |b.payload|;
        head as int == n + if c.length - old(head) as int < n then START else old(head) as int
      ensures Contents() == if r.Accepted? then old(Contents()) + [Encode(b)] else old(Contents())
      ensures st.held == old(st.held) && st.heldAt == old(st.heldAt)
    {
      EncodeDecode(b);
      var f := Encode(b);
      var n := |f| as uint32;
      if n > pageSize as uint32 {
        return TooLarge;
      }
      var ok := AlignHead(f, n);
      if !ok {
        return Exit;
      }
      r := PutAligned(f, n);
    }

    /** The rest of `shmq_push`, with `head` aligned. */
    method PutAligned(f: seq<byte>, n: uint32) returns (r: Outcome)
      requires Valid() && IsFrame(f, c.page) && n as int == |f| && head as int + |f| <= c.length
      modifies this, mem
      ensures Valid() && tail == old(tail) && st.popped == old(st.popped)
      ensures st.held == old(st.held) && st.heldAt == old(st.heldAt)
      ensures r == if old(head) < tail && (tail as int) < old(head) as int + |f| + c.page then Full else Accepted
      ensures Contents() == if r.Accepted? then old(Contents()) + [f] else old(Contents())
      ensures head as int == if r.Accepted? then old(head) as int + |f| else old(head) as int
    {
      var room := WaitForRoom(n);
      if !room {
        return Full;
      }
      Append(f);
      RingSteps.SuffixAppend(old(st.pushed), f, |st.popped|, |st.popped|);
      return Accepted;
    }

    /** Pop until the ring answers empty. */
    method Drain()
      requires Valid()
      modifies this
      ensures Valid() && Contents() == [] && tail == head == old(head)
      ensures st.pushed == old(st.pushed)
    {
      var rc := 0;
      while rc == 0
        invariant Valid() && head == old(head) && st.pushed == old(st.pushed)
        invariant rc == 0 || (tail == head && Contents() == [])
        decreases rc + 1, |Contents()|
      {
        var at, n;
        rc, at, n := Pop();
      }
    }
  }

  /** Once the consumer has popped until empty, a legal block is neither refused nor the end of the
      process, unless the ring is too short for it. */
  method DrainThenPush(q: SharedQueue, b: Block) returns (r: Outcome)
    requires q.Valid() && b.Valid() && b.kind != PAD_BLOCK
    modifies q, q.mem
    ensures q.Valid() && r == Expect(q.c, old(q.head) as int, old(q.head) as int, HEADER + |b.payload|)
    ensures HEADER + |b.payload| <= q.c.page && !Refusable(q.c, HEADER + |b.payload|) ==>
      r == Accepted && q.Contents() == [Encode(b)]
  {
    q.Drain();
    if HEADER + |b.payload| <= q.pageSize as int && !Refusable(q.c, HEADER + |b.payload|) {
      DrainedRingAccepts(q.c, q.st, HEADER + |b.payload|);
    }
    r := q.Push(b);
  }

  /** One block of `n` bytes goes through an empty ring, short of its end. */
  method PassOne(q: SharedQueue, n: nat)
    requires q.Valid() && q.tail == q.head && q.Contents() == []
    requires HEADER <= n <= q.c.page && q.head as int + n <= q.c.length
    modifies q, q.mem
    ensures q.Valid() && q.tail == q.head && q.Contents() == [] && q.head as int == old(q.head) as int + n
    ensures |q.st.pushed| == |old(q.st.pushed)| + 1
  {
    var b := Block(0, 0, DATA_BLOCK, seq(n - HEADER, _ => 0));
    var r := q.Push(b);
    q.Drain();
  }

  /** And if it is too short, a run shows it: at most two blocks pass through a new ring, and every push of
      `n` bytes on the empty ring they leave is refused. */
  method ShortRingRefuses(length: uint32, pageSize: int32, n: nat) returns (q: SharedQueue)
    requires 0 <= pageSize && pageSize as int + START <= length as int
    requires length as int + 2 * pageSize as int < 0x8000_0000
    requires HEADER <= n <= pageSize as int && Refusable(Config(length as nat, pageSize as nat), n)
    ensures fresh(q) && fresh(q.mem) && q.Valid() && q.length == length && q.pageSize == pageSize
    ensures q.tail == q.head && q.Contents() == [] && |q.st.pushed| <= 2
    ensures Expect(q.c, q.head as int, q.tail as int, n) == Full
  {
    q := new SharedQueue(length, pageSize);
    var d := Stop(Config(length as nat, pageSize as nat), n);
    if d <= pageSize as int {
      PassOne(q, d);
    } else {
      var first := if pageSize as int < d - HEADER then pageSize as int else d - HEADER;
      PassOne(q, first);
      PassOne(q, d - first);
    }
  }
}
