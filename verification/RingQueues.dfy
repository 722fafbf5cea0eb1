/** The rings of a worker are the queues of blocks that the session protocol takes them for.  The bytes a
    pop hands out decode to the very block that was pushed, and pushes and pops act on the queue's ends
    in every interleaving.  */
module RingQueues {
  import opened Frames
  import opened RingLayout
  import opened RingSteps
  import S = Sessions
  import ChildCalls
  import Inbound
  import SharedRing

  // ----- what a frame says to its reader -----

  const REMOTE_INFO := 10   // address, port and time that follow the header of an OPEN

  /** A frame the worker reads as block `u`. */
  predicate ReadsAsUp(f: seq<byte>, u: S.Up) {
    HEADER <= |f| &&
    var b := Decode(f);
    b.fd == u.fd && b.id == S.WireId(u.gen) &&
    match u {
      case Open(_, _) => b.kind == OPEN_BLOCK && |b.payload| == REMOTE_INFO
      case Data(_, _, packet) => b.kind == DATA_BLOCK && b.payload == packet
      case Close(_, _) => b.kind == CLOSE_BLOCK && b.payload == []
    }
  }

  /** A frame the parent reads as block `d`. */
  predicate ReadsAsDown(f: seq<byte>, d: S.Down) {
    HEADER <= |f| &&
    var b := Decode(f);
    b.fd == d.fd && b.id == S.WireId(d.gen) &&
    match d {
      case Reply(_, _, bytes) => b.kind == DATA_BLOCK && b.payload == bytes
      case Fin(_, _) => b.kind == FIN_BLOCK && b.payload == []
    }
  }

  // ----- a ring and the blocks pushed on it -----

  /** `sent` are the blocks published so far, `now` the block being pushed, if any. */
  datatype Queue<B> = Queue(ring: State, sent: seq<B>, now: seq<B>)

  /** The blocks published and not yet popped. */
  function Blocks<B>(q: Queue<B>): seq<B>
    requires |q.ring.popped| <= |q.sent|
  {
    q.sent[|q.ring.popped|..]
  }

  /** A push of block `u` in the form of `b` runs a step, or the consumer does. */
  datatype Act<B> = Pushes(b: Block, u: B) | Other(a: Action)

  predicate Fair<B>(carries: (seq<byte>, B) -> bool, act: Act<B>) {
    match act
    case Pushes(b, u) => b.Valid() && b.kind != PAD_BLOCK && carries(Encode(b), u)
    case Other(a) => !a.Produce?
  }

  function Move<B>(c: Config, q: Queue<B>, act: Act<B>): Queue<B>
    requires act.Pushes? ==> act.b.Valid() && act.b.kind != PAD_BLOCK
    requires act.Other? ==> !act.a.Produce?
  {
    match act
    case Pushes(b, u) =>
      Queue(ProducerStep(c, q.ring, b),
            if q.ring.prod.Publish? then q.sent + q.now else q.sent,
            if q.ring.prod.Ready? then [u] else q.now)
    case Other(a) => q.(ring := Next(c, q.ring, a))
  }

  // ----- the invariant -----

  /** Every published frame, and the one being pushed, reads as its block. */
  predicate Linked<B>(carries: (seq<byte>, B) -> bool, q: Queue<B>) {
    |q.sent| == |q.ring.pushed| && (forall i :: 0 <= i < |q.sent| ==> carries(q.ring.pushed[i], q.sent[i])) &&
    (InPush(q.ring.prod) != [] ==> |q.now| == 1 && carries(InPush(q.ring.prod), q.now[0]))
  }

  lemma PushLinked<B>(c: Config, carries: (seq<byte>, B) -> bool, q: Queue<B>, b: Block, u: B)
    requires |q.ring.mem| == c.length && ProducerInv(c, q.ring) && Linked(carries, q) && Fair(carries, Pushes(b, u))
    ensures Linked(carries, Move(c, q, Pushes(b, u)))
  {
    PushKeepsFrame(c, q.ring, b);
    ProducerEffect(c, q.ring, b);
  }

  lemma OtherLinked<B>(c: Config, carries: (seq<byte>, B) -> bool, q: Queue<B>, a: Action)
    requires |q.ring.mem| == c.length && ConsumerInv(c, q.ring) && Linked(carries, q) && !a.Produce?
    ensures Linked(carries, Move(c, q, Act<B>.Other(a)))
  {
    if a.Consume? {
      ConsumerEffect(c, q.ring);
    }
  }

  predicate AllFair<B(==)>(carries: (seq<byte>, B) -> bool, acts: seq<Act<B>>) {
    forall act :: act in acts ==> Fair(carries, act)
  }

  function Moves<B(==)>(c: Config, carries: (seq<byte>, B) -> bool, q: Queue<B>, acts: seq<Act<B>>): Queue<B>
    requires AllFair(carries, acts)
    decreases |acts|
  {
    if acts == [] then q
    else
      assert acts[0] in acts;
      Moves(c, carries, Move(c, q, acts[0]), acts[1..])
  }

  lemma MoveKeeps<B>(c: Config, carries: (seq<byte>, B) -> bool, q: Queue<B>, act: Act<B>)
    requires c.Valid() && c.length < U32 && Inv(c, q.ring) && Linked(carries, q) && Fair(carries, act)
    ensures Inv(c, Move(c, q, act).ring) && Linked(carries, Move(c, q, act))
  {
    match act
    case Pushes(b, u) =>
      ProducerKeeps(c, q.ring, b);
      PushLinked(c, carries, q, b, u);
    case Other(a) =>
      match a {
        case Consume => ConsumerKeeps(c, q.ring);
        case Rewrite(v) => HeldBlockIsTheConsumers(c, q.ring, v);
      }
      OtherLinked(c, carries, q, a);
  }

  lemma {:induction false} RunLinks<B>(c: Config, carries: (seq<byte>, B) -> bool, q: Queue<B>, acts: seq<Act<B>>)
    requires c.Valid() && c.length < U32 && Inv(c, q.ring) && Linked(carries, q) && AllFair(carries, acts)
    ensures var t := Moves(c, carries, q, acts); Inv(c, t.ring) && Linked(carries, t)
    decreases |acts|
  {
    if acts == [] {
    } else {
      assert acts[0] in acts;
      MoveKeeps(c, carries, q, acts[0]);
      RunLinks(c, carries, Move(c, q, acts[0]), acts[1..]);
    }
  }

  predicate Fresh<B>(c: Config, q: Queue<B>) {
    Starts(c, q.ring) && q.sent == [] && q.now == []
  }

  /** In every interleaving the ring is a queue of blocks: publishing a frame appends the block it was made
      from, a pop takes the first block and hands out bytes that read as it, and nothing else changes the
      queue. */
  lemma RingIsTheQueue<B>(c: Config, carries: (seq<byte>, B) -> bool, q: Queue<B>, acts: seq<Act<B>>, act: Act<B>)
    requires Fresh(c, q) && AllFair(carries, acts) && Fair(carries, act)
    ensures var t := Moves(c, carries, q, acts);
      var t' := Move(c, t, act);
      |t.ring.popped| <= |t.sent| && |t'.ring.popped| <= |t'.sent| &&
      if act.Pushes? && t.ring.prod.Publish? then |t.now| == 1 && Blocks(t') == Blocks(t) + t.now
      else if act.Other? && act.a.Consume? && t.ring.cons.MoveStore? then
        Blocks(t) != [] && Blocks(t') == Blocks(t)[1..] && carries(t'.ring.held, Blocks(t)[0])
      else Blocks(t') == Blocks(t)
  {
    InitInv(c, q.ring);
    RunLinks(c, carries, q, acts);
    MoveIsQueue(c, carries, Moves(c, carries, q, acts), act);
  }

  lemma MoveIsQueue<B>(c: Config, carries: (seq<byte>, B) -> bool, t: Queue<B>, act: Act<B>)
    requires c.Valid() && c.length < U32 && Inv(c, t.ring) && Linked(carries, t) && Fair(carries, act)
    ensures var t' := Move(c, t, act);
      |t.ring.popped| <= |t.sent| && |t'.ring.popped| <= |t'.sent| &&
      if act.Pushes? && t.ring.prod.Publish? then |t.now| == 1 && Blocks(t') == Blocks(t) + t.now
      else if act.Other? && act.a.Consume? && t.ring.cons.MoveStore? then
        Blocks(t) != [] && Blocks(t') == Blocks(t)[1..] && carries(t'.ring.held, Blocks(t)[0])
      else Blocks(t') == Blocks(t)
  {
    match act
    case Pushes(b, u) => PushIsQueue(c, carries, t, b, u);
    case Other(a) => OtherIsQueue(c, carries, t, a);
  }

  lemma PushIsQueue<B>(c: Config, carries: (seq<byte>, B) -> bool, t: Queue<B>, b: Block, u: B)
    requires |t.ring.mem| == c.length && ProducerInv(c, t.ring) && t.ring.popped <= t.ring.pushed
    requires Linked(carries, t) && Fair(carries, Pushes(b, u))
    ensures var t' := Move(c, t, Pushes(b, u));
      |t'.ring.popped| <= |t'.sent| &&
      if t.ring.prod.Publish? then |t.now| == 1 && Blocks(t') == Blocks(t) + t.now else Blocks(t') == Blocks(t)
  {
    PushKeepsFrame(c, t.ring, b);
    ProducerEffect(c, t.ring, b);
  }

  lemma OtherIsQueue<B>(c: Config, carries: (seq<byte>, B) -> bool, t: Queue<B>, a: Action)
    requires c.Valid() && Inv(c, t.ring) && Linked(carries, t) && !a.Produce?
    ensures var t' := Move(c, t, Act<B>.Other(a));
      |t'.ring.popped| <= |t'.sent| &&
      if a.Consume? && t.ring.cons.MoveStore? then
        Blocks(t) != [] && Blocks(t') == Blocks(t)[1..] && carries(t'.ring.held, Blocks(t)[0])
      else Blocks(t') == Blocks(t)
  {
    if a.Consume? {
      ConsumerEffect(c, t.ring);
      if t.ring.cons.MoveStore? {
        HandsOut(c, t.ring);
      }
    }
  }

  /** So a worker's `recvq` may be the contents of its ring: publishing is the protocol's push, and popping
      is how the protocol's next `Handle` begins. */
  lemma RecvqIsTheRing(c: Config, q: Queue<S.Up>, acts: seq<Act<S.Up>>, act: Act<S.Up>, s: S.State, i: nat)
    requires Fresh(c, q) && AllFair(ReadsAsUp, acts) && Fair(ReadsAsUp, act) && i < |s.workers|
    requires var t := Moves(c, ReadsAsUp, q, acts);
      |t.ring.popped| <= |t.sent| && s.workers[i].recvq == Blocks(t)
    ensures var t := Moves(c, ReadsAsUp, q, acts);
      var t' := Move(c, t, act);
      |t'.ring.popped| <= |t'.sent| &&
      if act.Pushes? && t.ring.prod.Publish? then
        |t.now| == 1 && S.PushUp(s, i, t.now[0]).workers[i].recvq == Blocks(t')
      else if act.Other? && act.a.Consume? && t.ring.cons.MoveStore? then
        S.Enabled(s, S.Handle(i)) && S.Next(s, S.Handle(i)).workers[i].recvq == Blocks(t') &&
        ReadsAsUp(t'.ring.held, s.workers[i].recvq[0])
      else s.workers[i].recvq == Blocks(t')
  {
    RingIsTheQueue(c, ReadsAsUp, q, acts, act);
  }

  /** What a worker pops are, in order, the blocks its parent pushed. */
  lemma WorkerReadsWhatWasPushed(c: Config, q: Queue<S.Up>, acts: seq<Act<S.Up>>, i: nat)
    requires Fresh(c, q) && AllFair(ReadsAsUp, acts) && i < |Moves(c, ReadsAsUp, q, acts).ring.popped|
    ensures var t := Moves(c, ReadsAsUp, q, acts);
      i < |t.sent| && ReadsAsUp(t.ring.popped[i], t.sent[i])
  {
    InitInv(c, q.ring);
    RunLinks(c, ReadsAsUp, q, acts);
  }

  /** And what the parent pops are those its worker pushed. */
  lemma ParentReadsWhatWasPushed(c: Config, q: Queue<S.Down>, acts: seq<Act<S.Down>>, i: nat)
    requires Fresh(c, q) && AllFair(ReadsAsDown, acts) && i < |Moves(c, ReadsAsDown, q, acts).ring.popped|
    ensures var t := Moves(c, ReadsAsDown, q, acts);
      i < |t.sent| && ReadsAsDown(t.ring.popped[i], t.sent[i])
  {
    InitInv(c, q.ring);
    RunLinks(c, ReadsAsDown, q, acts);
  }

  // ----- the frames the code builds -----

  /** The block built for `u`; `info` is the peer's address and time. */
  function UpBlock(u: S.Up, info: seq<byte>): Block {
    match u
    case Open(fd, gen) => Block(S.WireId(gen), fd, OPEN_BLOCK, info)
    case Data(fd, gen, packet) => Block(S.WireId(gen), fd, DATA_BLOCK, packet)
    case Close(fd, gen) => Block(S.WireId(gen), fd, CLOSE_BLOCK, [])
  }

  function DownBlock(d: S.Down): Block {
    match d
    case Reply(fd, gen, bytes) => Block(S.WireId(gen), fd, DATA_BLOCK, bytes)
    case Fin(fd, gen) => Block(S.WireId(gen), fd, FIN_BLOCK, [])
  }

  lemma UpBlockReads(u: S.Up, info: seq<byte>)
    requires UpBlock(u, info).Valid() && |info| == REMOTE_INFO
    ensures ReadsAsUp(Encode(UpBlock(u, info)), u) && UpBlock(u, info).kind != PAD_BLOCK
    ensures |Encode(UpBlock(u, info))| == ChildCalls.BlockLen(u)
  {
    EncodeDecode(UpBlock(u, info));
  }

  lemma DownBlockReads(d: S.Down)
    requires DownBlock(d).Valid()
    ensures ReadsAsDown(Encode(DownBlock(d)), d) && DownBlock(d).kind != PAD_BLOCK
  {
    EncodeDecode(DownBlock(d));
  }

  /** A packet the parent may hand on is one whose block the ring does not call too large. */
  lemma PushableIsLegal(c: Config, d: Inbound.Config, head: int, tail: int, u: S.Up)
    requires d.page == c.page && u.Data? && UpBlock(u, []).Valid()
    ensures Inbound.Pushable(d, |u.packet|) <==>
      !SharedRing.Expect(c, head, tail, |Encode(UpBlock(u, []))|).TooLarge?
  {
  }
}
