/** One producer inside `shmq_push` and one consumer inside `shmq_pop`, interleaved at every access
    to shared memory.  `head`, `tail`, the header fields and each copied byte are separate steps;
    memory is sequentially consistent.  */
module RingSteps {
  import opened Frames
  import opened RingLayout

  const RETRIES := 10
  const PIPE_CAPACITY := 65536   // a full pipe refuses the byte, and still holds one
  const TRASH := 4096            // bytes taken by one read of the pipe

  /** Where the producer is, with the values it has already read.  `f` is the frame being pushed. */
  datatype Producer =
    | Ready
    | LoadTail(f: seq<byte>)                                   // int tail_pos = tail
    | LoadHead(f: seq<byte>, tailPos: int)                     // int head_pos = head
    | Recheck(f: seq<byte>, headPos: int)                      // tail > head_pos
    | BugTail(f: seq<byte>) | BugHead(f: seq<byte>)            // the branch marked impossible
    | PadPointer(f: seq<byte>, surplus: nat)
    | PadKind(f: seq<byte>, pad: int, surplus: nat)
    | PadLength(f: seq<byte>, pad: int, surplus: nat)
    | PadId(f: seq<byte>, pad: int)
    | WrapHead(f: seq<byte>)
    | FullTail(f: seq<byte>, cnt: nat) | FullHead(f: seq<byte>, cnt: nat, t: int)
    | SlackTail(f: seq<byte>, cnt: nat) | SlackHead(f: seq<byte>, cnt: nat, t: int)
    | BlockPointer(f: seq<byte>)
    | Copy(f: seq<byte>, at: int, k: nat)
    | Advance(f: seq<byte>) | Publish(f: seq<byte>, h: int)
    | Notify
    | Halted        // exit(-1)
    | WildWrite     // an access outside the mapping

  /** Where the consumer is, with the values it has already read. */
  datatype Consumer =
    | Idle
    | EmptyTail | EmptyHead(t: int)
    | AlignHead | AlignTail(h: int)
    | Remainder | KindAt(p: int) | ResetTail
    | AgainTail | AgainHead(t: int)
    | Locate | LengthAt(p: int)
    | MoveLoad(p: int, n: nat) | MoveStore(p: int, n: nat, t: int)
    | WildRead

  /** The shared words and bytes, both program counters, the notification pipe, and history:
      every frame published and popped so far, the block the consumer still holds (where it lies and
      how it left it, or nothing), and where and after how many frames `head` last wrapped. */
  datatype State = State(mem: seq<byte>, head: int, tail: int,
                         prod: Producer, cons: Consumer, pipe: nat,
                         pushed: seq<seq<byte>>, popped: seq<seq<byte>>,
                         heldAt: int, held: seq<byte>,
                         wrapAt: nat, wrapIdx: nat)

  /** What the scheduler may do: run one producer step (starting `b` if none is running), run one
      consumer step (starting a pop if none is running), or let the consumer write over the block it
      was handed. */
  datatype Action = Produce(b: Block) | Consume | Rewrite(v: seq<byte>)

  predicate Init(c: Config, s: State) {
    |s.mem| == c.length && s.head == START && s.tail == START &&
    s.prod == Ready && s.cons == Idle && s.pipe == 0 &&
    s.pushed == [] && s.popped == [] && s.held == [] && s.wrapAt == 0 && s.wrapIdx == 0
  }

  predicate Callable(a: Action) {
    a.Produce? ==> a.b.Valid() && a.b.kind != PAD_BLOCK
  }

  predicate InMap(s: State, p: int, n: nat) {
    0 <= p && p + n <= |s.mem|
  }

  function Store(mem: seq<byte>, p: nat, v: seq<byte>): (m: seq<byte>)
    requires p + |v| <= |mem|
    ensures |m| == |mem| && m[p..p + |v|] == v
    ensures forall i :: 0 <= i < |mem| && !(p <= i < p + |v|) ==> m[i] == mem[i]
  {
    mem[..p] + v + mem[p + |v|..]
  }

  function ProducerStep(c: Config, s: State, b: Block): State
    requires b.Valid()
  {
    match s.prod
    case Ready =>
      var f := Encode(b);
      if |f| > c.page then s else s.(prod := LoadTail(f))
    case LoadTail(f) => s.(prod := LoadHead(f, s.tail))
    case LoadHead(f, tp) =>
      var surplus := c.length - s.head;
      if surplus >= |f| then s.(prod := FullTail(f, 0))
      else if tp == START then s.(prod := Halted)
      else s.(prod := Recheck(f, s.head))
    case Recheck(f, hp) =>
      var surplus := c.length - hp;
      if s.tail > hp then s.(prod := BugTail(f))
      else if surplus < HEADER then s.(prod := WrapHead(f))
      else s.(prod := PadPointer(f, surplus))
    case BugTail(f) => s.(tail := START, prod := BugHead(f))
    case BugHead(f) => s.(head := START, prod := FullTail(f, 0))
    case PadPointer(f, surplus) => s.(prod := PadKind(f, s.head, surplus))
    case PadKind(f, p, surplus) =>
      if !InMap(s, p + 12, 1) then s.(prod := WildWrite)
      else s.(mem := Store(s.mem, p + 12, [PAD_BLOCK]), prod := PadLength(f, p, surplus))
    case PadLength(f, p, surplus) =>
      if !InMap(s, p + 8, 4) || surplus >= U32 then s.(prod := WildWrite)
      else s.(mem := Store(s.mem, p + 8, WordBytes(surplus)), prod := PadId(f, p))
    case PadId(f, p) =>
      if !InMap(s, p, 4) then s.(prod := WildWrite)
      else s.(mem := Store(s.mem, p, WordBytes(0)), prod := WrapHead(f))
    case WrapHead(f) =>
      if s.head < 0 then s.(prod := WildWrite)
      else s.(head := START, wrapAt := s.head, wrapIdx := |s.pushed|, prod := FullTail(f, 0))
    case FullTail(f, cnt) =>
      if cnt == RETRIES then s.(prod := Ready) else s.(prod := FullHead(f, cnt, s.tail))
    case FullHead(f, cnt, t) =>
      s.(prod := if t > s.head then SlackTail(f, cnt) else BlockPointer(f))
    case SlackTail(f, cnt) => s.(prod := SlackHead(f, cnt, s.tail))
    case SlackHead(f, cnt, t) =>
      s.(prod := if t < s.head + |f| + c.page then FullTail(f, cnt + 1) else BlockPointer(f))
    case BlockPointer(f) => s.(prod := Copy(f, s.head, 0))
    case Copy(f, at, k) =>
      if k >= |f| then s.(prod := Advance(f))
      else if !InMap(s, at + k, 1) then s.(prod := WildWrite)
      else s.(mem := Store(s.mem, at + k, [f[k]]), prod := Copy(f, at, k + 1))
    case Advance(f) => s.(prod := Publish(f, s.head))
    case Publish(f, h) => s.(head := h + |f|, pushed := s.pushed + [f], prod := Notify)
    case Notify => s.(pipe := if s.pipe < PIPE_CAPACITY then s.pipe + 1 else s.pipe, prod := Ready)
    case Halted => s
    case WildWrite => s
  }

  function ConsumerStep(c: Config, s: State): State {
    match s.cons
    case Idle => s.(cons := EmptyTail, held := [])
    case EmptyTail => s.(cons := EmptyHead(s.tail))
    case EmptyHead(t) => s.(cons := if t == s.head then Idle else AlignHead)
    case AlignHead => s.(cons := AlignTail(s.head))
    case AlignTail(h) => s.(cons := if h >= s.tail then AgainTail else Remainder)
    case Remainder =>
      s.(cons := if c.length - s.tail < HEADER then ResetTail else KindAt(s.tail))
    case KindAt(p) =>
      if !InMap(s, p + 12, 1) then s.(cons := WildRead)
      else s.(cons := if s.mem[p + 12] == PAD_BLOCK then ResetTail else AgainTail)
    case ResetTail => s.(tail := START, cons := AgainTail)
    case AgainTail => s.(cons := AgainHead(s.tail))
    case AgainHead(t) => s.(cons := if t == s.head then Idle else Locate)
    case Locate => s.(cons := LengthAt(s.tail))
    case LengthAt(p) =>
      if !InMap(s, p + 8, 4) then s.(cons := WildRead)
      else s.(cons := MoveLoad(p, Word(s.mem, p + 8)))
    case MoveLoad(p, n) => s.(cons := MoveStore(p, n, s.tail))
    case MoveStore(p, n, t) =>
      if !InMap(s, p, n) then s.(cons := WildRead)
      else
        var f := s.mem[p..p + n];
        s.(tail := t + n, popped := s.popped + [f], heldAt := p, held := f, cons := Idle)
    case WildRead => s
  }

  function Next(c: Config, s: State, a: Action): State
    requires Callable(a)
  {
    match a
    case Produce(b) => ProducerStep(c, s, b)
    case Consume => ConsumerStep(c, s)
    case Rewrite(v) => RewriteStep(s, v)
  }

  /** The consumer writes over the block it was handed, as the worker does with a refused OPEN. */
  function RewriteStep(s: State, v: seq<byte>): State {
    if s.held == [] || |v| != |s.held| || !InMap(s, s.heldAt, |v|) then s
    else s.(mem := Store(s.mem, s.heldAt, v), held := v)
  }

  /** The state after a schedule. */
  function Run(c: Config, s: State, acts: seq<Action>): State
    requires forall a :: a in acts ==> Callable(a)
    decreases |acts|
  {
    if acts == [] then s
    else Next(c, Run(c, s, acts[..|acts| - 1]), acts[|acts| - 1])
  }

  // ----- the invariant -----

  /** Frames published and not yet popped. */
  function Fifo(s: State): seq<seq<byte>>
    requires |s.popped| <= |s.pushed|
  {
    s.pushed[|s.popped|..]
  }

  predicate Wrapped(s: State) {
    s.tail > s.head
  }

  /** The end of the ring that `head` left behind is marked so that the consumer skips it. */
  predicate Skippable(c: Config, mem: seq<byte>, w: nat) {
    |mem| == c.length && (c.length - w < HEADER || mem[w + 12] == PAD_BLOCK)
  }

  /** If the end of the ring holds a header, it is that of a pad block over all that is left. */
  predicate PadHeader(c: Config, mem: seq<byte>, w: nat)
    requires |mem| == c.length
  {
    c.length - w >= HEADER ==>
      Word(mem, w) == 0 && Word(mem, w + 8) == c.length - w && mem[w + 12] == PAD_BLOCK
  }

  /** The bytes between `tail` and `head` spell out exactly the unpopped frames. */
  predicate Stored(c: Config, s: State)
    requires |s.popped| <= |s.pushed| && 0 <= s.tail && 0 <= s.head
  {
    if !Wrapped(s) then Chain(s.mem, s.tail, s.head, s.pushed[|s.popped|..])
    else
      |s.popped| <= s.wrapIdx <= |s.pushed| && s.tail <= s.wrapAt <= c.length &&
      Chain(s.mem, s.tail, s.wrapAt, s.pushed[|s.popped|..s.wrapIdx]) &&
      Chain(s.mem, START, s.head, s.pushed[s.wrapIdx..]) &&
      Skippable(c, s.mem, s.wrapAt) &&
      (s.head == START || s.head + c.page <= s.tail)
  }

  predicate Shared(c: Config, s: State) {
    |s.mem| == c.length &&
    START <= s.head <= c.length && START <= s.tail <= c.length &&
    s.popped <= s.pushed && AllFrames(s.pushed, c.page) &&
    Stored(c, s)
  }

  /** The block handed out by the last pop still reads as the consumer left it. */
  predicate HeldIntact(c: Config, s: State) {
    s.held != [] ==>
      s.cons.Idle? && 0 <= s.heldAt && s.heldAt + |s.held| == s.tail <= |s.mem| && |s.held| <= c.page &&
      s.mem[s.heldAt..s.tail] == s.held
  }

  predicate NewFrame(c: Config, f: seq<byte>) {
    IsFrame(f, c.page)
  }

  /** `head` is about to leave the end of the ring for its start. */
  predicate Wrapping(c: Config, s: State, f: seq<byte>) {
    NewFrame(c, f) && c.length - s.head < |f| && START < s.tail && !Wrapped(s)
  }

  /** The frame fits at `head`, and never within a page below `tail`. */
  predicate RoomFor(c: Config, s: State, f: seq<byte>) {
    NewFrame(c, f) && s.head + |f| <= c.length && (Wrapped(s) ==> s.head + |f| + c.page <= s.tail)
  }

  predicate ProducerInv(c: Config, s: State)
    requires |s.mem| == c.length
  {
    match s.prod
    case Ready => true
    case LoadTail(f) => NewFrame(c, f)
    case LoadHead(f, tp) =>
      NewFrame(c, f) && START <= tp && (if tp > s.head then s.head + c.page <= c.length else tp <= s.tail <= s.head)
    case Recheck(f, hp) => Wrapping(c, s, f) && hp == s.head
    case BugTail(_) => false
    case BugHead(_) => false
    case PadPointer(f, surplus) => Wrapping(c, s, f) && HEADER <= surplus == c.length - s.head
    case PadKind(f, p, surplus) => Wrapping(c, s, f) && p == s.head && HEADER <= surplus == c.length - s.head
    case PadLength(f, p, surplus) =>
      Wrapping(c, s, f) && p == s.head && HEADER <= surplus == c.length - s.head && s.mem[p + 12] == PAD_BLOCK
    case PadId(f, p) =>
      Wrapping(c, s, f) && p == s.head && HEADER <= c.length - s.head && s.mem[p + 12] == PAD_BLOCK &&
      Word(s.mem, p + 8) == c.length - s.head
    case WrapHead(f) =>
      Wrapping(c, s, f) && 0 <= s.head && Skippable(c, s.mem, s.head) && PadHeader(c, s.mem, s.head)
    case FullTail(f, cnt) => NewFrame(c, f) && s.head + |f| <= c.length && cnt <= RETRIES
    case FullHead(f, cnt, t) =>
      NewFrame(c, f) && s.head + |f| <= c.length && cnt < RETRIES && (t <= s.head ==> !Wrapped(s))
    case SlackTail(f, cnt) => NewFrame(c, f) && s.head + |f| <= c.length && cnt < RETRIES
    case SlackHead(f, cnt, t) =>
      NewFrame(c, f) && s.head + |f| <= c.length && cnt < RETRIES && (Wrapped(s) ==> t <= s.tail)
    case BlockPointer(f) => RoomFor(c, s, f)
    case Copy(f, at, k) =>
      RoomFor(c, s, f) && at == s.head >= 0 && k <= |f| && s.mem[at..at + k] == f[..k]
    case Advance(f) => RoomFor(c, s, f) && 0 <= s.head && s.mem[s.head..s.head + |f|] == f
    case Publish(f, h) => RoomFor(c, s, f) && h == s.head >= 0 && s.mem[h..h + |f|] == f
    case Notify => true
    case Halted => true
    case WildWrite => false
  }

  /** A frame, not padding, lies at `tail`. */
  predicate FrameWaiting(s: State) {
    |s.popped| < |s.pushed| && (Wrapped(s) ==> |s.popped| < s.wrapIdx)
  }

  /** Once aligned, either a frame lies at `tail` or `tail` went back to the start of the ring. */
  predicate Aligned(s: State) {
    FrameWaiting(s) || (s.tail == START && !Wrapped(s))
  }

  predicate ConsumerInv(c: Config, s: State)
    requires |s.mem| == c.length
  {
    match s.cons
    case Idle => true
    case EmptyTail => true
    case EmptyHead(t) => t == s.tail
    case AlignHead => FrameWaiting(s) || Wrapped(s)
    case AlignTail(h) => if h >= s.tail then FrameWaiting(s) else Wrapped(s)
    case Remainder => Wrapped(s)
    case KindAt(p) => Wrapped(s) && p == s.tail >= 0 && c.length - s.tail >= HEADER
    case ResetTail => Wrapped(s) && s.tail == s.wrapAt
    case AgainTail => Aligned(s)
    case AgainHead(t) => Aligned(s) && t == s.tail
    case Locate => FrameWaiting(s)
    case LengthAt(p) => FrameWaiting(s) && p == s.tail
    case MoveLoad(p, n) => FrameWaiting(s) && p == s.tail && n == |s.pushed[|s.popped|]|
    case MoveStore(p, n, t) => FrameWaiting(s) && p == t == s.tail && n == |s.pushed[|s.popped|]|
    case WildRead => false
  }

  predicate Inv(c: Config, s: State) {
    Shared(c, s) && HeldIntact(c, s) && ProducerInv(c, s) && ConsumerInv(c, s)
  }

  lemma InitInv(c: Config, s: State)
    requires c.Valid() && Init(c, s)
    ensures Inv(c, s)
  {
  }

  // ----- what each side may rely on while the other runs -----

  /** Nothing the producer does upsets what the consumer has already read. */
  lemma ConsumerStable(c: Config, s: State, s': State)
    requires |s.mem| == c.length && |s'.mem| == c.length && ConsumerInv(c, s)
    requires s'.cons == s.cons && s'.tail == s.tail && s'.popped == s.popped && s.pushed <= s'.pushed
    requires Wrapped(s) ==> Wrapped(s') && s'.wrapAt == s.wrapAt && s'.wrapIdx == s.wrapIdx
    requires !Wrapped(s) && Wrapped(s') ==> START < s.tail && s'.wrapIdx == |s.pushed|
    ensures ConsumerInv(c, s')
  {
  }

  /** Nothing the consumer does upsets what the producer has already read. */
  lemma ProducerStable(c: Config, s: State, s': State)
    requires |s.mem| == c.length && ProducerInv(c, s)
    requires s'.prod == s.prod && s'.head == s.head && s'.mem == s.mem
    requires !Wrapped(s) ==> !Wrapped(s') && s.tail <= s'.tail
    requires Wrapped(s) && Wrapped(s') ==> s.tail <= s'.tail
    ensures ProducerInv(c, s')
  {
  }

  // ----- every step keeps the invariant -----

  /** A store on free bytes at `head` disturbs neither the queue nor the block in use. */
  lemma StoreKeeps(c: Config, s: State, m: seq<byte>, p: nat, n: nat)
    requires c.Valid() && Shared(c, s) && HeldIntact(c, s)
    requires s.head <= p && p + n <= c.length == |m|
    requires Wrapped(s) ==> p + n + c.page <= s.tail
    requires forall i :: 0 <= i < |m| && !(p <= i < p + n) ==> m[i] == s.mem[i]
    ensures Shared(c, s.(mem := m)) && HeldIntact(c, s.(mem := m))
  {
    if !Wrapped(s) {
      ChainFrame(s.mem, m, s.tail, s.head, s.pushed[|s.popped|..]);
    } else {
      ChainBounds(s.mem, s.tail, s.wrapAt, s.pushed[|s.popped|..s.wrapIdx]);
      ChainFrame(s.mem, m, s.tail, s.wrapAt, s.pushed[|s.popped|..s.wrapIdx]);
      ChainFrame(s.mem, m, START, s.head, s.pushed[s.wrapIdx..]);
    }
    if s.held != [] {
      assert m[s.heldAt..s.tail] == s.mem[s.heldAt..s.tail];
    }
  }

  lemma PublishStores(c: Config, s: State, s': State, f: seq<byte>)
    requires c.Valid() && Shared(c, s) && RoomFor(c, s, f) && s.mem[s.head..s.head + |f|] == f
    requires s' == s.(head := s.head + |f|, pushed := s.pushed + [f], prod := Notify)
    ensures Stored(c, s')
  {
    if !Wrapped(s) {
      PublishAhead(s.mem, s.tail, s.head, s.pushed, |s.popped|, f);
    } else {
      PublishAhead(s.mem, START, s.head, s.pushed, s.wrapIdx, f);
      SuffixAppend(s.pushed, f, |s.popped|, s.wrapIdx);
    }
  }

  lemma PublishAhead(mem: seq<byte>, a: nat, b: nat, pushed: seq<seq<byte>>, i: nat, f: seq<byte>)
    requires i <= |pushed| && Chain(mem, a, b, pushed[i..]) && b + |f| <= |mem| && mem[b..b + |f|] == f
    ensures Chain(mem, a, b + |f|, (pushed + [f])[i..])
  {
    ChainAppend(mem, a, b, pushed[i..], f);
    SuffixAppend(pushed, f, i, i);
  }

  lemma SuffixAppend<T>(q: seq<T>, x: T, i: nat, j: nat)
    requires i <= j <= |q|
    ensures (q + [x])[i..] == q[i..] + [x] && (q + [x])[i..j] == q[i..j]
  {
  }

  lemma PublishKeeps(c: Config, s: State, s': State, f: seq<byte>)
    requires c.Valid() && Shared(c, s) && RoomFor(c, s, f) && s.mem[s.head..s.head + |f|] == f
    requires s' == s.(head := s.head + |f|, pushed := s.pushed + [f], prod := Notify)
    ensures Shared(c, s')
  {
    PublishStores(c, s, s', f);
  }

  lemma WrapKeeps(c: Config, s: State, s': State, f: seq<byte>)
    requires c.Valid() && Shared(c, s) && Wrapping(c, s, f) && Skippable(c, s.mem, s.head)
    requires s' == s.(head := START, wrapAt := s.head, wrapIdx := |s.pushed|, prod := FullTail(f, 0))
    ensures Shared(c, s')
  {
    assert s'.pushed[|s.popped|..s'.wrapIdx] == s.pushed[|s.popped|..];
    assert s'.pushed[s'.wrapIdx..] == [];
  }

  lemma CopyKeeps(c: Config, s: State, s': State, f: seq<byte>, k: nat)
    requires c.Valid() && Inv(c, s) && s.prod == Copy(f, s.head, k) && k < |f|
    requires s' == s.(mem := Store(s.mem, s.head + k, [f[k]]), prod := Copy(f, s.head, k + 1))
    ensures Shared(c, s') && HeldIntact(c, s') && ProducerInv(c, s')
  {
    StoreKeeps(c, s, s'.mem, s.head + k, 1);
    ReadKeeps(c, s.(mem := s'.mem), s');
    StoreExtends(s.mem, s.head, f, k);
  }

  /** Storing the next byte extends the copied prefix. */
  lemma StoreExtends(mem: seq<byte>, at: nat, f: seq<byte>, k: nat)
    requires k < |f| && at + |f| <= |mem| && mem[at..at + k] == f[..k]
    ensures Store(mem, at + k, [f[k]])[at..at + k + 1] == f[..k + 1]
  {
    var m := Store(mem, at + k, [f[k]]);
    assert m[at..at + k] == mem[at..at + k];
    assert m[at..at + k + 1] == m[at..at + k] + m[at + k..at + k + 1];
  }

  /** Steps that only read leave the queue and the held block alone. */
  lemma ReadKeeps(c: Config, s: State, s': State)
    requires Shared(c, s) && HeldIntact(c, s)
    requires s' == s.(prod := s'.prod, cons := s'.cons, pipe := s'.pipe, held := s'.held)
    requires (s'.held == s.held && s'.cons == s.cons) || s'.held == []
    ensures Shared(c, s') && HeldIntact(c, s')
  {
  }

  lemma PadKeeps(c: Config, s: State, s': State, p: nat, v: seq<byte>)
    requires c.Valid() && Inv(c, s) && !Wrapped(s) && PadsAt(c, s, s', p, v) && ProducerInv(c, s')
    ensures Inv(c, s')
  {
    StoreKeeps(c, s, s'.mem, p, |v|);
    ConsumerStable(c, s, s');
  }

  /** The producer is still in `align_queue_head`. */
  predicate Aligning(p: Producer) {
    p.LoadTail? || p.LoadHead? || p.Recheck? || p.BugTail? || p.BugHead? || p.PadPointer?
  }

  /** Reading steps of the producer establish the next program point. */
  lemma AligningReads(c: Config, s: State, b: Block)
    requires c.Valid() && |s.mem| == c.length && ProducerInv(c, s) && b.Valid() && Aligning(s.prod)
    requires START <= s.head <= c.length && START <= s.tail <= c.length
    requires Wrapped(s) ==> s.head == START || s.head + c.page <= s.tail
    ensures var s' := ProducerStep(c, s, b);
      s' == s.(prod := s'.prod) && ProducerInv(c, s')
  {
  }

  /** The producer is in the full test. */
  predicate Testing(p: Producer) {
    p.FullTail? || p.FullHead? || p.SlackTail? || p.SlackHead? || p.BlockPointer?
  }

  lemma TestingReads(c: Config, s: State, b: Block)
    requires |s.mem| == c.length && ProducerInv(c, s) && b.Valid() && START <= s.head && Testing(s.prod)
    ensures var s' := ProducerStep(c, s, b);
      s' == s.(prod := s'.prod) && ProducerInv(c, s')
  {
  }

  lemma CopyingReads(c: Config, s: State, b: Block)
    requires |s.mem| == c.length && ProducerInv(c, s) && b.Valid() && START <= s.head && !CopyStep(s.prod)
    requires s.prod.Copy? || s.prod.Advance? || s.prod.Notify? || s.prod.Halted?
    ensures var s' := ProducerStep(c, s, b);
      s' == s.(prod := s'.prod, pipe := s'.pipe) && ProducerInv(c, s')
  {
  }

  lemma ProducerStarts(c: Config, s: State, b: Block)
    requires c.Valid() && |s.mem| == c.length && s.prod.Ready? && b.Valid() && b.kind != PAD_BLOCK
    ensures var s' := ProducerStep(c, s, b);
      s' == s.(prod := s'.prod) && ProducerInv(c, s')
  {
    EncodeDecode(b);
  }

  predicate PadStep(p: Producer) {
    p.PadKind? || p.PadLength? || p.PadId?
  }

  predicate CopyStep(p: Producer) {
    p.Copy? && p.k < |p.f|
  }

  /** A padding step stores `v` at `p`, past `head`. */
  predicate PadsAt(c: Config, s: State, s': State, p: int, v: seq<byte>) {
    s.head <= p && 0 <= p && p + |v| <= |s.mem| && s' == s.(mem := Store(s.mem, p, v), prod := s'.prod)
  }

  lemma PadWrites(c: Config, s: State, b: Block) returns (p: int, v: seq<byte>)
    requires c.length < U32 && |s.mem| == c.length && ProducerInv(c, s) && b.Valid() && PadStep(s.prod)
    requires 0 <= s.head
    ensures PadsAt(c, s, ProducerStep(c, s, b), p, v) && ProducerInv(c, ProducerStep(c, s, b))
  {
    match s.prod
    case PadKind(_, pad, _) => p, v := PadKindWrites(c, s, b);
    case PadLength(_, pad, surplus) => p, v := PadLengthWrites(c, s, b);
    case PadId(_, pad) => p, v := PadIdWrites(c, s, b);
  }

  lemma PadKindWrites(c: Config, s: State, b: Block) returns (p: int, v: seq<byte>)
    requires |s.mem| == c.length && ProducerInv(c, s) && b.Valid() && s.prod.PadKind? && 0 <= s.head
    ensures PadsAt(c, s, ProducerStep(c, s, b), p, v) && ProducerInv(c, ProducerStep(c, s, b))
  {
    p, v := s.prod.pad + 12, [PAD_BLOCK];
    assert ProducerStep(c, s, b).mem[p..p + 1][0] == PAD_BLOCK;
  }

  lemma PadLengthWrites(c: Config, s: State, b: Block) returns (p: int, v: seq<byte>)
    requires c.length < U32 && |s.mem| == c.length && ProducerInv(c, s) && b.Valid() && s.prod.PadLength?
    requires 0 <= s.head
    ensures PadsAt(c, s, ProducerStep(c, s, b), p, v) && ProducerInv(c, ProducerStep(c, s, b))
  {
    p, v := s.prod.pad + 8, WordBytes(s.prod.surplus);
    WordOfSlice(ProducerStep(c, s, b).mem, p);
  }

  lemma PadIdWrites(c: Config, s: State, b: Block) returns (p: int, v: seq<byte>)
    requires |s.mem| == c.length && ProducerInv(c, s) && b.Valid() && s.prod.PadId? && 0 <= s.head
    ensures PadsAt(c, s, ProducerStep(c, s, b), p, v) && ProducerInv(c, ProducerStep(c, s, b))
  {
    p, v := s.prod.pad, WordBytes(0);
    var m := ProducerStep(c, s, b).mem;
    WordOfSlice(m, p);
    WordOfSlice(m, p + 8);
    WordOfSlice(s.mem, p + 8);
    assert m[p + 8..p + 12] == s.mem[p + 8..p + 12];
  }

  lemma PadStepKeeps(c: Config, s: State, b: Block)
    requires c.Valid() && c.length < U32 && Inv(c, s) && b.Valid() && PadStep(s.prod)
    ensures Inv(c, ProducerStep(c, s, b))
  {
    var p, v := PadWrites(c, s, b);
    PadKeeps(c, s, ProducerStep(c, s, b), p, v);
  }

  lemma HeadStepKeeps(c: Config, s: State, b: Block)
    requires c.Valid() && Inv(c, s) && b.Valid() && (s.prod.WrapHead? || s.prod.Publish?)
    ensures Inv(c, ProducerStep(c, s, b))
  {
    if s.prod.WrapHead? {
      WrapStepKeeps(c, s, b);
    } else {
      PublishStepKeeps(c, s, b);
    }
  }

  lemma WrapStepKeeps(c: Config, s: State, b: Block)
    requires c.Valid() && Inv(c, s) && b.Valid() && s.prod.WrapHead?
    ensures Inv(c, ProducerStep(c, s, b))
  {
    var s' := ProducerStep(c, s, b);
    WrapKeeps(c, s, s', s.prod.f);
    ConsumerStable(c, s, s');
  }

  lemma PublishStepKeeps(c: Config, s: State, b: Block)
    requires c.Valid() && Inv(c, s) && b.Valid() && s.prod.Publish?
    ensures Inv(c, ProducerStep(c, s, b))
  {
    var s' := ProducerStep(c, s, b);
    PublishKeeps(c, s, s', s.prod.f);
    ConsumerStable(c, s, s');
  }

  lemma QuietStepKeeps(c: Config, s: State, b: Block)
    requires c.Valid() && Inv(c, s) && b.Valid() && b.kind != PAD_BLOCK
    requires !PadStep(s.prod) && !s.prod.WrapHead? && !s.prod.Publish? && !CopyStep(s.prod)
    ensures Inv(c, ProducerStep(c, s, b))
  {
    var s' := ProducerStep(c, s, b);
    if s.prod.Ready? {
      ProducerStarts(c, s, b);
    } else if Aligning(s.prod) {
      AligningReads(c, s, b);
    } else if Testing(s.prod) {
      TestingReads(c, s, b);
    } else {
      CopyingReads(c, s, b);
    }
    ReadKeeps(c, s, s');
    ConsumerStable(c, s, s');
  }

  lemma ProducerKeeps(c: Config, s: State, b: Block)
    requires c.Valid() && c.length < U32 && Inv(c, s) && b.Valid() && b.kind != PAD_BLOCK
    ensures Inv(c, ProducerStep(c, s, b))
  {
    if PadStep(s.prod) {
      PadStepKeeps(c, s, b);
    } else if s.prod.WrapHead? || s.prod.Publish? {
      HeadStepKeeps(c, s, b);
    } else if CopyStep(s.prod) {
      var s' := ProducerStep(c, s, b);
      CopyKeeps(c, s, s', s.prod.f, s.prod.k);
      ConsumerStable(c, s, s');
    } else {
      QuietStepKeeps(c, s, b);
    }
  }

  /** With a frame waiting, the chain at `tail` starts with it. */
  lemma FrontFrame(c: Config, s: State)
    requires c.Valid() && Shared(c, s) && FrameWaiting(s)
    ensures var f := s.pushed[|s.popped|];
      IsFrame(f, c.page) && s.tail + |f| <= c.length && s.mem[s.tail..s.tail + |f|] == f &&
      Word(s.mem, s.tail + 8) == |f| && s.mem[s.tail + 12] != PAD_BLOCK &&
      (if Wrapped(s) then s.tail + |f| <= s.wrapAt else s.tail + |f| <= s.head)
  {
    var q := if Wrapped(s) then s.pushed[|s.popped|..s.wrapIdx] else s.pushed[|s.popped|..];
    assert q[0] == s.pushed[|s.popped|];
    ChainBounds(s.mem, s.tail, if Wrapped(s) then s.wrapAt else s.head, q);
    FrameAt(s.mem, s.tail, q[0], c.page);
  }

  lemma PopKeeps(c: Config, s: State, s': State)
    requires c.Valid() && Shared(c, s) && FrameWaiting(s)
    requires s.tail + |s.pushed[|s.popped|]| <= |s.mem|
    requires s' == s.(tail := s.tail + |s.pushed[|s.popped|]|,
                      popped := s.popped + [s.mem[s.tail..s.tail + |s.pushed[|s.popped|]|]],
                      heldAt := s.tail, held := s.mem[s.tail..s.tail + |s.pushed[|s.popped|]|], cons := Idle)
    ensures Shared(c, s') && HeldIntact(c, s')
    ensures Wrapped(s) == Wrapped(s')
  {
    FrontFrame(c, s);
    assert s'.popped == s.pushed[..|s.popped| + 1];
    if Wrapped(s) {
      assert s.pushed[|s.popped|..s.wrapIdx][1..] == s.pushed[|s'.popped|..s.wrapIdx];
    } else {
      assert s.pushed[|s.popped|..][1..] == s.pushed[|s'.popped|..];
    }
  }

  lemma ResetKeeps(c: Config, s: State, s': State)
    requires c.Valid() && Shared(c, s) && Wrapped(s) && s.tail == s.wrapAt
    requires s' == s.(tail := START, cons := AgainTail)
    ensures Shared(c, s')
  {
    if |s.popped| < s.wrapIdx {
      FrontFrame(c, s);
      assert false;
    }
  }

  /** What lies at `tail`, in the terms the consumer's tests use. */
  predicate AtTail(c: Config, s: State)
    requires |s.mem| == c.length && START <= s.tail
  {
    if FrameWaiting(s) then
      s.tail != s.head && s.tail + HEADER <= c.length && s.mem[s.tail + 12] != PAD_BLOCK &&
      Word(s.mem, s.tail + 8) == |s.pushed[|s.popped|]|
    else if Wrapped(s) then s.tail == s.wrapAt && Skippable(c, s.mem, s.tail)
    else s.tail == s.head
  }

  lemma SeeTail(c: Config, s: State)
    requires c.Valid() && Shared(c, s)
    ensures AtTail(c, s)
  {
    if FrameWaiting(s) { FrontFrame(c, s); }
  }

  /** Reading steps of the consumer establish the next program point. */
  lemma ConsumerReads(c: Config, s: State)
    requires |s.mem| == c.length && START <= s.tail && AtTail(c, s) && ConsumerInv(c, s)
    requires !s.cons.MoveStore? && !s.cons.ResetTail?
    ensures var s' := ConsumerStep(c, s);
      s' == s.(cons := s'.cons, held := s'.held) && ConsumerInv(c, s') &&
      s'.held == (if s.cons.Idle? then [] else s.held)
  {
  }

  lemma ConsumerReadKeeps(c: Config, s: State)
    requires c.Valid() && Inv(c, s) && !s.cons.MoveStore? && !s.cons.ResetTail?
    ensures Inv(c, ConsumerStep(c, s))
  {
    var s' := ConsumerStep(c, s);
    SeeTail(c, s);
    ConsumerReads(c, s);
    ReadKeeps(c, s, s');
    ProducerStable(c, s, s');
  }

  lemma MoveStoreKeeps(c: Config, s: State)
    requires c.Valid() && Inv(c, s) && s.cons.MoveStore?
    ensures Inv(c, ConsumerStep(c, s))
  {
    var s' := ConsumerStep(c, s);
    FrontFrame(c, s);
    MoveStoreTakes(c, s);
    PopKeeps(c, s, s');
    ProducerStable(c, s, s');
  }

  lemma MoveStoreTakes(c: Config, s: State)
    requires |s.mem| == c.length && ConsumerInv(c, s) && s.cons.MoveStore?
    requires 0 <= s.tail && s.tail + |s.pushed[|s.popped|]| <= c.length
    ensures var f := s.mem[s.tail..s.tail + |s.pushed[|s.popped|]|];
      ConsumerStep(c, s) ==
        s.(tail := s.tail + |f|, popped := s.popped + [f], heldAt := s.tail, held := f, cons := Idle)
  {
  }

  lemma ConsumerKeeps(c: Config, s: State)
    requires c.Valid() && Inv(c, s)
    ensures Inv(c, ConsumerStep(c, s))
  {
    match s.cons
    case MoveStore(_, _, _) => MoveStoreKeeps(c, s);
    case ResetTail =>
      var s' := ConsumerStep(c, s);
      ResetKeeps(c, s, s');
      ProducerStable(c, s, s');
    case _ =>
      ConsumerReadKeeps(c, s);
  }

  // ----- whole runs -----

  /** Schedules of a ring whose callers never push padding. */
  predicate Schedule(acts: seq<Action>) {
    forall a :: a in acts ==> Callable(a)
  }

  predicate Starts(c: Config, s: State) {
    c.Valid() && c.length < U32 && Init(c, s)
  }

  lemma {:induction false} RunKeeps(c: Config, s: State, acts: seq<Action>)
    requires c.Valid() && c.length < U32 && Inv(c, s) && Schedule(acts)
    ensures Inv(c, Run(c, s, acts))
    decreases |acts|
  {
    if acts == [] {
    } else {
      var before := acts[..|acts| - 1];
      RunKeeps(c, s, before);
      var m := Run(c, s, before);
      var a := acts[|acts| - 1];
      assert a in acts;
      match a {
        case Produce(b) => ProducerKeeps(c, m, b);
        case Consume => ConsumerKeeps(c, m);
        case Rewrite(v) => HeldBlockIsTheConsumers(c, m, v);
      }
    }
  }

  predicate SameQueue(s: State, s': State) {
    s'.tail == s.tail && s'.popped == s.popped && s'.cons == s.cons &&
    s'.heldAt == s.heldAt && s'.held == s.held
  }

  lemma AligningEffect(c: Config, s: State, b: Block)
    requires |s.mem| == c.length && ProducerInv(c, s) && b.Valid()
    requires s.prod.Ready? || Aligning(s.prod) || PadStep(s.prod) || s.prod.WrapHead?
    ensures SameQueue(s, ProducerStep(c, s, b)) && ProducerStep(c, s, b).pushed == s.pushed
  {
  }

  lemma PushingEffect(c: Config, s: State, b: Block)
    requires |s.mem| == c.length && ProducerInv(c, s) && b.Valid()
    requires !(s.prod.Ready? || Aligning(s.prod) || PadStep(s.prod) || s.prod.WrapHead?)
    ensures SameQueue(s, ProducerStep(c, s, b))
    ensures ProducerStep(c, s, b).pushed == if s.prod.Publish? then s.pushed + [s.prod.f] else s.pushed
  {
  }

  /** What one producer step does to everything but the bytes and its own program counter. */
  lemma ProducerEffect(c: Config, s: State, b: Block)
    requires |s.mem| == c.length && ProducerInv(c, s) && b.Valid()
    ensures SameQueue(s, ProducerStep(c, s, b))
    ensures ProducerStep(c, s, b).pushed == if s.prod.Publish? then s.pushed + [s.prod.f] else s.pushed
  {
    if s.prod.Ready? || Aligning(s.prod) || PadStep(s.prod) || s.prod.WrapHead? {
      AligningEffect(c, s, b);
    } else {
      PushingEffect(c, s, b);
    }
  }

  lemma ConsumerEffect(c: Config, s: State)
    requires |s.mem| == c.length && ConsumerInv(c, s)
    ensures var s' := ConsumerStep(c, s);
      s'.mem == s.mem && s'.head == s.head && s'.pushed == s.pushed && s'.prod == s.prod && s'.pipe == s.pipe &&
      (!s.cons.MoveStore? ==> s'.popped == s.popped)
  {
  }

  lemma Reachable(c: Config, s: State, acts: seq<Action>)
    requires Starts(c, s) && Schedule(acts)
    ensures Inv(c, Run(c, s, acts))
  {
    InitInv(c, s);
    RunKeeps(c, s, acts);
  }

  lemma InvIsSafe(c: Config, t: State)
    requires Inv(c, t)
    ensures t.popped <= t.pushed && START <= t.head <= c.length && START <= t.tail <= c.length
    ensures t.tail > t.head ==> t.head == START || t.head + c.page <= t.tail
    ensures !t.prod.WildWrite? && !t.cons.WildRead? && !t.prod.BugTail? && !t.prod.BugHead?
  {
  }

  /** In every interleaving the frames popped are the frames pushed, in order and byte for byte; both
      offsets stay inside the mapping, no access leaves it, and the branch marked impossible is. */
  lemma PoppedArePushed(c: Config, s: State, acts: seq<Action>)
    requires Starts(c, s) && Schedule(acts)
    ensures var t := Run(c, s, acts);
      t.popped <= t.pushed && START <= t.head <= c.length && START <= t.tail <= c.length &&
      (t.tail > t.head ==> t.head == START || t.head + c.page <= t.tail) &&
      !t.prod.WildWrite? && !t.cons.WildRead? && !t.prod.BugTail? && !t.prod.BugHead?
  {
    Reachable(c, s, acts);
    InvIsSafe(c, Run(c, s, acts));
  }

  /** When `head` leaves the end of the ring, what it leaves there reads as a pad block over all of it. */
  lemma PadIsWritten(c: Config, s: State, acts: seq<Action>)
    requires Starts(c, s) && Schedule(acts) && Run(c, s, acts).prod.WrapHead?
    ensures var t := Run(c, s, acts);
      0 <= t.head <= c.length == |t.mem| && PadHeader(c, t.mem, t.head)
  {
    Reachable(c, s, acts);
  }

  /** Each step is one of: append the caller's frame, take the oldest frame, or leave the queue alone.
      In particular a push that gives up never reaches `Publish`, so it changes nothing even if it
      has already written padding and moved `head`. */
  lemma StepRefinesFifo(c: Config, s: State, acts: seq<Action>, a: Action)
    requires Starts(c, s) && Schedule(acts) && Callable(a)
    ensures var t := Run(c, s, acts);
      var t' := Next(c, t, a);
      t.popped <= t.pushed && t'.popped <= t'.pushed &&
      if a.Produce? && t.prod.Publish? then Fifo(t') == Fifo(t) + [t.prod.f]
      else if a.Consume? && t.cons.MoveStore? then
        Fifo(t) != [] && Fifo(t') == Fifo(t)[1..] && t'.popped == t.popped + [Fifo(t)[0]]
      else Fifo(t') == Fifo(t)
  {
    Reachable(c, s, acts);
    StepFifo(c, Run(c, s, acts), a);
  }

  lemma StepFifo(c: Config, t: State, a: Action)
    requires c.Valid() && c.length < U32 && Inv(c, t) && Callable(a)
    ensures var t' := Next(c, t, a);
      t.popped <= t.pushed && t'.popped <= t'.pushed &&
      if a.Produce? && t.prod.Publish? then Fifo(t') == Fifo(t) + [t.prod.f]
      else if a.Consume? && t.cons.MoveStore? then
        Fifo(t) != [] && Fifo(t') == Fifo(t)[1..] && t'.popped == t.popped + [Fifo(t)[0]]
      else Fifo(t') == Fifo(t)
  {
    match a {
      case Produce(b) => ProduceFifo(c, t, b);
      case Consume => ConsumeFifo(c, t);
      case Rewrite(v) =>
    }
  }

  lemma ProduceFifo(c: Config, t: State, b: Block)
    requires |t.mem| == c.length && t.popped <= t.pushed && ProducerInv(c, t) && b.Valid()
    ensures var t' := ProducerStep(c, t, b);
      t'.popped <= t'.pushed && Fifo(t') == if t.prod.Publish? then Fifo(t) + [t.prod.f] else Fifo(t)
  {
    ProducerEffect(c, t, b);
  }

  lemma ConsumeFifo(c: Config, t: State)
    requires c.Valid() && Shared(c, t) && ConsumerInv(c, t)
    ensures var t' := ConsumerStep(c, t);
      t'.popped <= t'.pushed &&
      if t.cons.MoveStore? then Fifo(t) != [] && Fifo(t') == Fifo(t)[1..] && t'.popped == t.popped + [Fifo(t)[0]]
      else Fifo(t') == Fifo(t)
  {
    ConsumerEffect(c, t);
    if t.cons.MoveStore? {
      FrontFrame(c, t);
    }
  }

  /** A pop answers "empty" only at a moment when every published frame has been popped. */
  predicate AnswersEmpty(c: Config, s: State) {
    (s.cons.EmptyHead? || s.cons.AgainHead?) && ConsumerStep(c, s).cons.Idle?
  }

  lemma EmptyAnswer(c: Config, s: State)
    requires c.Valid() && Inv(c, s) && AnswersEmpty(c, s)
    ensures s.popped == s.pushed
  {
    SeeTail(c, s);
  }

  lemma EmptyMeansEmpty(c: Config, s: State, acts: seq<Action>)
    requires Starts(c, s) && Schedule(acts)
    ensures var t := Run(c, s, acts);
      AnswersEmpty(c, t) ==> t.popped == t.pushed
  {
    Reachable(c, s, acts);
    if AnswersEmpty(c, Run(c, s, acts)) {
      EmptyAnswer(c, Run(c, s, acts));
    }
  }

  /** The block a pop hands out survives any number of producer steps as it was pushed, although `tail`
      is already past it. */
  lemma HeldBlockSurvives(c: Config, s: State, acts: seq<Action>, more: seq<Action>)
    requires Starts(c, s) && Schedule(acts) && Schedule(more)
    requires forall a :: a in more ==> a.Produce?
    requires Run(c, s, acts).cons.MoveStore?
    ensures var t := ConsumerStep(c, Run(c, s, acts));
      ReadsAsPushed(t, Run(c, t, more).mem)
  {
    Reachable(c, s, acts);
    HandsOut(c, Run(c, s, acts));
    HeldSurvives(c, ConsumerStep(c, Run(c, s, acts)), more);
  }

  /** `mem` holds the last popped frame where it was handed out, byte for byte as it was pushed. */
  predicate ReadsAsPushed(t: State, mem: seq<byte>) {
    0 <= t.heldAt && t.heldAt + |t.held| <= |mem| && 0 < |t.popped| <= |t.pushed| &&
    mem[t.heldAt..t.heldAt + |t.held|] == t.popped[|t.popped| - 1] == t.pushed[|t.popped| - 1]
  }

  lemma HeldSurvives(c: Config, t: State, more: seq<Action>)
    requires c.Valid() && c.length < U32 && Inv(c, t) && t.held != []
    requires Schedule(more) && forall a :: a in more ==> a.Produce?
    ensures var u := Run(c, t, more);
      0 <= t.heldAt && t.heldAt + |t.held| <= |u.mem| && u.mem[t.heldAt..t.heldAt + |t.held|] == t.held
  {
    RunKeeps(c, t, more);
    ProducerLeavesConsumer(c, t, more);
    HeldBytes(c, Run(c, t, more));
  }

  lemma HandsOut(c: Config, r: State)
    requires c.Valid() && Inv(c, r) && r.cons.MoveStore?
    ensures var t := ConsumerStep(c, r);
      Inv(c, t) && t.held != [] && 0 < |t.popped| <= |t.pushed| &&
      t.held == t.popped[|t.popped| - 1] == t.pushed[|t.popped| - 1]
  {
    FrontFrame(c, r);
    MoveStoreKeeps(c, r);
  }

  lemma HeldBytes(c: Config, t: State)
    requires Inv(c, t) && t.held != []
    ensures 0 <= t.heldAt && t.heldAt + |t.held| <= |t.mem| && t.mem[t.heldAt..t.heldAt + |t.held|] == t.held
  {
  }

  lemma {:induction false} ProducerLeavesConsumer(c: Config, t: State, more: seq<Action>)
    requires c.Valid() && c.length < U32 && Inv(c, t) && Schedule(more) && forall a :: a in more ==> a.Produce?
    ensures SameQueue(t, Run(c, t, more))
    decreases |more|
  {
    if more == [] {
    } else {
      var before, a := more[..|more| - 1], more[|more| - 1];
      assert a in more;
      ProducerLeavesConsumer(c, t, before);
      RunKeeps(c, t, before);
      ProducerEffect(c, Run(c, t, before), a.b);
    }
  }

  /** The block in use belongs to the consumer: it may rewrite it in place without disturbing the queue
      or a push in progress. */
  lemma HeldBlockIsTheConsumers(c: Config, s: State, v: seq<byte>)
    requires c.Valid() && Inv(c, s)
    ensures var s' := RewriteStep(s, v);
      Inv(c, s') && s' == s.(mem := s'.mem, held := s'.held) && (|v| == |s.held| ==> s'.held == v)
  {
    var s' := RewriteStep(s, v);
    if s' != s {
      var m := s'.mem;
      RewriteShared(c, s, s');
      RewriteProducer(c, s, m);
      ProducerStable(c, s.(mem := m), s');
      ConsumerStable(c, s, s');
    }
  }

  lemma RewriteShared(c: Config, s: State, s': State)
    requires c.Valid() && Shared(c, s) && HeldIntact(c, s) && s.held != [] && |s'.held| == |s.held|
    requires s' == s.(mem := Store(s.mem, s.heldAt, s'.held), held := s'.held)
    ensures Shared(c, s') && HeldIntact(c, s')
  {
    if !Wrapped(s) {
      ChainFrame(s.mem, s'.mem, s.tail, s.head, s.pushed[|s.popped|..]);
    } else {
      ChainFrame(s.mem, s'.mem, s.tail, s.wrapAt, s.pushed[|s.popped|..s.wrapIdx]);
      ChainFrame(s.mem, s'.mem, START, s.head, s.pushed[s.wrapIdx..]);
    }
  }

  lemma RewriteProducer(c: Config, s: State, m: seq<byte>)
    requires |s.mem| == c.length && ProducerInv(c, s) && HeldIntact(c, s) && s.held != [] && |m| == c.length
    requires START <= s.head
    requires forall i :: 0 <= i < |m| && !(s.heldAt <= i < s.tail) ==> m[i] == s.mem[i]
    ensures ProducerInv(c, s.(mem := m))
  {
    if s.prod.Copy? || s.prod.Advance? || s.prod.Publish? {
      RewriteCopied(c, s, m);
    }
  }

  lemma RewriteCopied(c: Config, s: State, m: seq<byte>)
    requires |s.mem| == c.length && ProducerInv(c, s) && HeldIntact(c, s) && s.held != [] && |m| == c.length
    requires START <= s.head && (s.prod.Copy? || s.prod.Advance? || s.prod.Publish?)
    requires forall i :: 0 <= i < |m| && !(s.heldAt <= i < s.tail) ==> m[i] == s.mem[i]
    ensures ProducerInv(c, s.(mem := m))
  {
    var k := if s.prod.Copy? then s.prod.k else |s.prod.f|;
    assert m[s.head..s.head + k] == s.mem[s.head..s.head + k];
  }

  /** Reading the pipe concerns neither side's proof. */
  lemma PipeKeeps(c: Config, s: State, left: nat)
    requires Inv(c, s)
    ensures Inv(c, s.(pipe := left))
  {
    var s' := s.(pipe := left);
    ReadKeeps(c, s, s');
    ProducerStable(c, s, s');
    ConsumerStable(c, s, s');
  }

  // ----- 32-bit arithmetic -----

  /** The sums and differences the producer's next step computes. */
  function ProducerSums(c: Config, s: State): seq<int> {
    match s.prod
    case LoadHead(_, _) => [c.length - s.head]
    case Recheck(_, headPos) => [c.length - headPos]
    case PadKind(_, p, _) => [p + 12]
    case PadLength(_, p, surplus) => [p + 8, surplus]
    case SlackHead(f, _, _) => [s.head + |f|, s.head + |f| + c.page]
    case Copy(f, at, k) => [at + k]
    case Publish(f, h) => [h + |f|]
    case _ => []
  }

  /** The sums and differences the consumer's next step computes. */
  function ConsumerSums(c: Config, s: State): seq<int> {
    match s.cons
    case Remainder => [c.length - s.tail]
    case KindAt(p) => [p + 12]
    case LengthAt(p) => [p + 8]
    case MoveStore(p, n, t) => [t + n]
    case _ => []
  }

  /** Signed and unsigned 32-bit words hold these numbers alike. */
  predicate Fit32(values: seq<int>) {
    forall v :: v in values ==> 0 <= v < 0x8000_0000
  }

  lemma ProducerInRange(c: Config, s: State)
    requires c.Valid() && |s.mem| == c.length && ProducerInv(c, s) && START <= s.head <= c.length
    requires c.length + 2 * c.page < 0x8000_0000
    ensures Fit32(ProducerSums(c, s))
  {
  }

  lemma ConsumerInRange(c: Config, s: State)
    requires c.Valid() && Shared(c, s) && ConsumerInv(c, s) && c.length + 2 * c.page < 0x8000_0000
    ensures Fit32(ConsumerSums(c, s)) && Fit32([s.head, s.tail])
  {
    if FrameWaiting(s) {
      FrontFrame(c, s);
    }
  }

  /** Every number either side computes in any interleaving fits a signed 32-bit word, so that signed,
      unsigned and mixed comparisons mean what they say. */
  lemma ArithmeticNeverWraps(c: Config, s: State, acts: seq<Action>)
    requires Starts(c, s) && Schedule(acts) && c.length + 2 * c.page < 0x8000_0000
    ensures var t := Run(c, s, acts);
      Fit32(ProducerSums(c, t)) && Fit32(ConsumerSums(c, t)) && Fit32([t.head, t.tail])
  {
    Reachable(c, s, acts);
    var t := Run(c, s, acts);
    ProducerInRange(c, t);
    ConsumerInRange(c, t);
  }

  /** The frame a push in progress is about. */
  function InPush(p: Producer): seq<byte> {
    match p
    case LoadTail(f) => f
    case LoadHead(f, _) => f
    case Recheck(f, _) => f
    case BugTail(f) => f
    case BugHead(f) => f
    case PadPointer(f, _) => f
    case PadKind(f, _, _) => f
    case PadLength(f, _, _) => f
    case PadId(f, _) => f
    case WrapHead(f) => f
    case FullTail(f, _) => f
    case FullHead(f, _, _) => f
    case SlackTail(f, _) => f
    case SlackHead(f, _, _) => f
    case BlockPointer(f) => f
    case Copy(f, _, _) => f
    case Advance(f) => f
    case Publish(f, _) => f
    case _ => []
  }

  /** A push is about one frame from start to end. */
  lemma PushKeepsFrame(c: Config, s: State, b: Block)
    requires b.Valid() && |s.mem| == c.length && ProducerInv(c, s)
    ensures var f := InPush(ProducerStep(c, s, b).prod);
      f == [] || f == if s.prod.Ready? then Encode(b) else InPush(s.prod)
    ensures s.prod.Publish? ==> s.prod.f == InPush(s.prod) && HEADER <= |s.prod.f|
  {
  }

  /** How many more steps the current pop can take. */
  function Remaining(p: Consumer): nat {
    match p
    case Idle => 14
    case EmptyTail => 13
    case EmptyHead(_) => 12
    case AlignHead => 11
    case AlignTail(_) => 10
    case Remainder => 9
    case KindAt(_) => 8
    case ResetTail => 7
    case AgainTail => 6
    case AgainHead(_) => 5
    case Locate => 4
    case LengthAt(_) => 3
    case MoveLoad(_, _) => 2
    case MoveStore(_, _, _) => 1
    case WildRead => 0
  }

  /** `n` consumer steps in a row. */
  function Alone(c: Config, s: State, n: nat): State
    decreases n
  {
    if n == 0 then s else Alone(c, ConsumerStep(c, s), n - 1)
  }

  /** A consumer step pops a frame, answers empty, or brings the pop closer to its end. */
  lemma Progress(c: Config, s: State)
    requires |s.mem| == c.length && START <= s.tail && AtTail(c, s) && ConsumerInv(c, s)
    requires !AnswersEmpty(c, s) && ConsumerInv(c, ConsumerStep(c, s))
    ensures var s' := ConsumerStep(c, s);
      |s'.popped| > |s.popped| || Remaining(s'.cons) < Remaining(s.cons)
  {
  }

  lemma SoloStep(c: Config, s: State)
    requires c.Valid() && Inv(c, s) && !AnswersEmpty(c, s)
    ensures var s' := ConsumerStep(c, s);
      Inv(c, s') && s'.pushed == s.pushed && |s.popped| <= |s'.popped| <= |s.pushed| &&
      (|s'.popped| > |s.popped| || Remaining(s'.cons) < Remaining(s.cons))
  {
    ConsumerKeeps(c, s);
    ConsumerEffect(c, s);
    SeeTail(c, s);
    Progress(c, s);
  }

  /** Nothing published can get stuck: a consumer left alone pops exactly what remains. */
  lemma {:induction false} Drains(c: Config, s: State) returns (n: nat)
    requires c.Valid() && Inv(c, s)
    ensures Alone(c, s, n).popped == s.pushed
    decreases |s.pushed| - |s.popped|, Remaining(s.cons)
  {
    if s.popped == s.pushed {
      n := 0;
    } else {
      if AnswersEmpty(c, s) {
        EmptyAnswer(c, s);
        assert false;
      }
      SoloStep(c, s);
      var m := Drains(c, ConsumerStep(c, s));
      n := m + 1;
    }
  }

  lemma EveryRunDrains(c: Config, s: State, acts: seq<Action>)
    requires Starts(c, s) && Schedule(acts)
    ensures exists n: nat :: Alone(c, Run(c, s, acts), n).popped == Run(c, s, acts).pushed
  {
    Reachable(c, s, acts);
    var n := Drains(c, Run(c, s, acts));
  }
}
