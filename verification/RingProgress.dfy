/** What a push comes to in the interleaved ring when the consumer rests: from every reachable state it
    ends, and as the offsets say. */
module RingProgress {
  import opened Frames
  import opened RingLayout
  import opened RingSteps
  import SharedRing

  /** `n` producer steps in a row. */
  function Solo(c: Config, s: State, b: Block, n: nat): State
    requires b.Valid()
    decreases n
  {
    if n == 0 then s else Solo(c, ProducerStep(c, s, b), b, n - 1)
  }

  /** A push is under way. */
  predicate InCall(p: Producer) {
    !p.Ready? && !p.Halted?
  }

  /** A push is under way in each of the next `n` states. */
  predicate Busy(c: Config, s: State, b: Block, n: nat)
    requires b.Valid()
    decreases n
  {
    n == 0 || (InCall(s.prod) && Busy(c, ProducerStep(c, s, b), b, n - 1))
  }

  /** What the producer has read is still so. */
  predicate UpToDate(s: State) {
    match s.prod
    case LoadHead(_, tailPos) => tailPos == s.tail
    case Recheck(_, headPos) => s.tail <= headPos
    case FullHead(_, _, t) => t == s.tail
    case SlackTail(_, _) => s.tail > s.head
    case SlackHead(_, _, t) => t == s.tail && s.tail > s.head
    case _ => true
  }

  /** The full test for `n` bytes at `head`. */
  function Tested(c: Config, head: int, tail: int, n: nat): SharedRing.Outcome {
    if head < tail < head + n + c.page then SharedRing.Full else SharedRing.Accepted
  }

  /** What the push under way will come to. */
  function Verdict(c: Config, s: State): SharedRing.Outcome {
    match s.prod
    case LoadTail(f) => SharedRing.Expect(c, s.head, s.tail, |f|)
    case LoadHead(f, _) => SharedRing.Expect(c, s.head, s.tail, |f|)
    case Recheck(f, _) => Tested(c, START, s.tail, |f|)
    case PadPointer(f, _) => Tested(c, START, s.tail, |f|)
    case PadKind(f, _, _) => Tested(c, START, s.tail, |f|)
    case PadLength(f, _, _) => Tested(c, START, s.tail, |f|)
    case PadId(f, _) => Tested(c, START, s.tail, |f|)
    case WrapHead(f) => Tested(c, START, s.tail, |f|)
    case FullTail(f, cnt) => if cnt == RETRIES then SharedRing.Full else Tested(c, s.head, s.tail, |f|)
    case FullHead(f, _, _) => Tested(c, s.head, s.tail, |f|)
    case SlackTail(f, _) => Tested(c, s.head, s.tail, |f|)
    case SlackHead(f, _, _) => Tested(c, s.head, s.tail, |f|)
    case _ => SharedRing.Accepted
  }

  /** Where the frame will lie. */
  function Place(c: Config, s: State): int {
    match s.prod
    case LoadTail(f) => if c.length - s.head < |f| then START else s.head
    case LoadHead(f, _) => if c.length - s.head < |f| then START else s.head
    case Recheck(_, _) => START
    case PadPointer(_, _) => START
    case PadKind(_, _, _) => START
    case PadLength(_, _, _) => START
    case PadId(_, _) => START
    case WrapHead(_) => START
    case Notify => s.head
    case _ => s.head
  }

  /** How many more producer steps the push takes at most. */
  function Left(p: Producer): nat {
    match p
    case Ready => 0
    case LoadTail(f) => |f| + 57
    case LoadHead(f, _) => |f| + 56
    case Recheck(f, _) => |f| + 55
    case BugTail(_) => 0
    case BugHead(_) => 0
    case PadPointer(f, _) => |f| + 54
    case PadKind(f, _, _) => |f| + 53
    case PadLength(f, _, _) => |f| + 52
    case PadId(f, _) => |f| + 51
    case WrapHead(f) => |f| + 50
    case FullTail(f, cnt) => |f| + 9 + 4 * (if cnt < RETRIES then RETRIES - cnt else 0)
    case FullHead(f, cnt, _) => |f| + 8 + 4 * (if cnt < RETRIES then RETRIES - cnt else 0)
    case SlackTail(f, cnt) => |f| + 7 + 4 * (if cnt < RETRIES then RETRIES - cnt else 0)
    case SlackHead(f, cnt, _) => |f| + 6 + 4 * (if cnt < RETRIES then RETRIES - cnt else 0)
    case BlockPointer(f) => |f| + 5
    case Copy(f, _, k) => 4 + if k < |f| then |f| - k else 0
    case Advance(_) => 3
    case Publish(_, _) => 2
    case Notify => 1
    case Halted => 0
    case WildWrite => 0
  }

  /** How a push under way in `s` ends in `t`: the offsets of `s` decide, and the consumer's side of the
      ring is as it was. */
  predicate EndsAs(c: Config, s: State, t: State, o: SharedRing.Outcome) {
    SameQueue(s, t) &&
    match o
    case Accepted =>
      t.prod.Ready? && t.pipe == (if s.pipe < PIPE_CAPACITY then s.pipe + 1 else s.pipe) &&
      if s.prod.Notify? then t.pushed == s.pushed && t.head == s.head
      else t.pushed == s.pushed + [InPush(s.prod)] && t.head == Place(c, s) + |InPush(s.prod)|
    case Full => t.prod.Ready? && t.pushed == s.pushed && t.head == Place(c, s) && t.pipe == s.pipe
    case Exit => t.prod.Halted? && t.pushed == s.pushed && t.head == s.head && t.pipe == s.pipe
    case TooLarge => false
  }

  /** One step leaves what the push will come to as it was, and brings the end closer. */
  predicate Nearer(c: Config, s: State, s': State) {
    InCall(s'.prod) && UpToDate(s') && Verdict(c, s') == Verdict(c, s) && Left(s'.prod) < Left(s.prod) &&
    SameQueue(s, s') &&
    if s.prod.Publish? then s'.prod.Notify? && s'.pushed == s.pushed + [s.prod.f] && s'.head == Place(c, s) + |s.prod.f|
                            && s'.pipe == s.pipe
    else
      s'.pushed == s.pushed && s'.pipe == s.pipe && InPush(s'.prod) == InPush(s.prod) && Place(c, s') == Place(c, s) &&
      (Verdict(c, s).Exit? ==> s'.head == s.head) && !s'.prod.Notify?
  }

  predicate Bounded(c: Config, s: State) {
    c.Valid() && |s.mem| == c.length && START <= s.head <= c.length && START <= s.tail <= c.length &&
    ProducerInv(c, s)
  }

  lemma AligningStep(c: Config, s: State, b: Block)
    requires Bounded(c, s) && UpToDate(s) && b.Valid() && Aligning(s.prod)
    ensures var s' := ProducerStep(c, s, b); Nearer(c, s, s') || EndsAs(c, s, s', Verdict(c, s))
  {
  }

  lemma PaddingStep(c: Config, s: State, b: Block)
    requires Bounded(c, s) && UpToDate(s) && b.Valid() && PadStep(s.prod) && c.length < U32
    ensures Nearer(c, s, ProducerStep(c, s, b))
  {
    match s.prod
    case PadKind(_, _, _) => PadKindStep(c, s, b);
    case PadLength(_, _, _) => PadLengthStep(c, s, b);
    case PadId(_, _) => PadIdStep(c, s, b);
  }

  lemma PadKindStep(c: Config, s: State, b: Block)
    requires Bounded(c, s) && b.Valid() && s.prod.PadKind?
    ensures Nearer(c, s, ProducerStep(c, s, b))
  {
  }

  lemma PadLengthStep(c: Config, s: State, b: Block)
    requires Bounded(c, s) && b.Valid() && s.prod.PadLength? && c.length < U32
    ensures Nearer(c, s, ProducerStep(c, s, b))
  {
  }

  lemma PadIdStep(c: Config, s: State, b: Block)
    requires Bounded(c, s) && b.Valid() && s.prod.PadId?
    ensures Nearer(c, s, ProducerStep(c, s, b))
  {
  }

  lemma WrappingStep(c: Config, s: State, b: Block)
    requires Bounded(c, s) && UpToDate(s) && b.Valid() && s.prod.WrapHead?
    ensures Nearer(c, s, ProducerStep(c, s, b))
  {
  }

  lemma TestingStep(c: Config, s: State, b: Block)
    requires Bounded(c, s) && UpToDate(s) && b.Valid() && Testing(s.prod)
    ensures var s' := ProducerStep(c, s, b); Nearer(c, s, s') || EndsAs(c, s, s', Verdict(c, s))
  {
  }

  lemma CopyingStep(c: Config, s: State, b: Block)
    requires Bounded(c, s) && UpToDate(s) && b.Valid() && !Aligning(s.prod) && !PadStep(s.prod) && !Testing(s.prod)
    requires InCall(s.prod) && !s.prod.WrapHead?
    ensures var s' := ProducerStep(c, s, b); Nearer(c, s, s') || EndsAs(c, s, s', Verdict(c, s))
  {
  }

  lemma CallStep(c: Config, s: State, b: Block)
    requires Bounded(c, s) && UpToDate(s) && b.Valid() && InCall(s.prod) && c.length < U32
    ensures var s' := ProducerStep(c, s, b); Nearer(c, s, s') || EndsAs(c, s, s', Verdict(c, s))
  {
    if Aligning(s.prod) {
      AligningStep(c, s, b);
    } else if PadStep(s.prod) {
      PaddingStep(c, s, b);
    } else if s.prod.WrapHead? {
      WrappingStep(c, s, b);
    } else if Testing(s.prod) {
      TestingStep(c, s, b);
    } else {
      CopyingStep(c, s, b);
    }
  }

  lemma NearerEnds(c: Config, s: State, s': State, t: State)
    requires Nearer(c, s, s') && EndsAs(c, s', t, Verdict(c, s')) && !s.prod.Notify?
    ensures EndsAs(c, s, t, Verdict(c, s))
  {
  }

  lemma InvBounded(c: Config, s: State)
    requires c.Valid() && Inv(c, s)
    ensures Bounded(c, s)
  {
  }

  /** A push under way, left alone, ends as the offsets say. */
  lemma {:induction false} CallEnds(c: Config, s: State, b: Block) returns (n: nat)
    requires c.Valid() && c.length < U32 && Inv(c, s) && UpToDate(s) && InCall(s.prod)
    requires b.Valid() && b.kind != PAD_BLOCK
    ensures n > 0 && Busy(c, s, b, n) && Inv(c, Solo(c, s, b, n))
    ensures EndsAs(c, s, Solo(c, s, b, n), Verdict(c, s))
    decreases Left(s.prod)
  {
    var s' := ProducerStep(c, s, b);
    InvBounded(c, s);
    CallStep(c, s, b);
    ProducerKeeps(c, s, b);
    if Nearer(c, s, s') {
      var m := CallEnds(c, s', b);
      n := m + 1;
      NearerEnds(c, s, s', Solo(c, s', b, m));
    } else {
      n := 1;
      assert Solo(c, s', b, 0) == s';
    }
  }

  /** What one call of `shmq_push`, with the consumer at rest, makes of the ring: the outcome that the two
      offsets decide. */
  predicate Pushed(c: Config, s: State, t: State, f: seq<byte>) {
    SameQueue(s, t) &&
    match SharedRing.Expect(c, s.head, s.tail, |f|)
    case TooLarge => t == s
    case Exit => t.prod.Halted? && t.pushed == s.pushed && t.head == s.head && t.pipe == s.pipe
    case Full =>
      t.prod.Ready? && t.pushed == s.pushed && t.pipe == s.pipe &&
      t.head == if c.length - s.head < |f| then START else s.head
    case Accepted =>
      t.prod.Ready? && t.pushed == s.pushed + [f] &&
      t.pipe == (if s.pipe < PIPE_CAPACITY then s.pipe + 1 else s.pipe) &&
      t.head == |f| + if c.length - s.head < |f| then START else s.head
  }

  /** From `s`, the `n`-th step of the producer is the first to end the call. */
  predicate OneCall(c: Config, s: State, b: Block, n: nat)
    requires b.Valid()
  {
    n > 0 && Busy(c, ProducerStep(c, s, b), b, n - 1) && !InCall(Solo(c, s, b, n).prod)
  }

  lemma PushDecides(c: Config, s: State, b: Block) returns (n: nat)
    requires c.Valid() && c.length < U32 && Inv(c, s) && s.prod.Ready? && b.Valid() && b.kind != PAD_BLOCK
    ensures OneCall(c, s, b, n) && Inv(c, Solo(c, s, b, n)) && Pushed(c, s, Solo(c, s, b, n), Encode(b))
  {
    var s' := ProducerStep(c, s, b);
    if |Encode(b)| > c.page {
      n := 1;
      assert Solo(c, s', b, 0) == s';
    } else {
      assert s' == s.(prod := LoadTail(Encode(b)));
      ProducerKeeps(c, s, b);
      var m := CallEnds(c, s', b);
      n := m + 1;
      CallIsPush(c, s, b, Solo(c, s', b, m));
    }
  }

  lemma CallIsPush(c: Config, s: State, b: Block, t: State)
    requires b.Valid() && s.prod.Ready? && |Encode(b)| <= c.page
    requires var s' := ProducerStep(c, s, b); EndsAs(c, s', t, Verdict(c, s'))
    ensures Pushed(c, s, t, Encode(b)) && !InCall(t.prod)
  {
  }

  /** In every interleaving, whenever the producer starts a push and the consumer then rests, the push ends,
      and its outcome is the one the offsets decide: accepted exactly if they leave room. */
  lemma EveryPushDecides(c: Config, s: State, acts: seq<Action>, b: Block)
    requires Starts(c, s) && Schedule(acts) && Run(c, s, acts).prod.Ready? && b.Valid() && b.kind != PAD_BLOCK
    ensures var r := Run(c, s, acts);
      exists n: nat :: OneCall(c, r, b, n) && Pushed(c, r, Solo(c, r, b, n), Encode(b))
  {
    Reachable(c, s, acts);
    var n := PushDecides(c, Run(c, s, acts), b);
  }

  /** A push that is still testing for room gets in as soon as there is some, if the consumer then rests. */
  lemma RoomIsSeen(c: Config, s: State, acts: seq<Action>, b: Block) returns (n: nat)
    requires Starts(c, s) && Schedule(acts) && b.Valid() && b.kind != PAD_BLOCK
    requires var r := Run(c, s, acts);
      r.prod.FullTail? && r.prod.cnt < RETRIES &&
      (r.tail <= r.head || r.head + |r.prod.f| + c.page <= r.tail)
    ensures var r := Run(c, s, acts);
      var t := Solo(c, r, b, n);
      Busy(c, r, b, n) && t.prod.Ready? && t.pushed == r.pushed + [r.prod.f]
  {
    Reachable(c, s, acts);
    n := CallEnds(c, Run(c, s, acts), b);
  }

  /** One failed test. */
  lemma TestFails(c: Config, s: State, b: Block)
    requires b.Valid() && s.prod.FullTail? && s.prod.cnt < RETRIES
    requires s.head < s.tail < s.head + |s.prod.f| + c.page
    ensures Solo(c, s, b, 4) == s.(prod := FullTail(s.prod.f, s.prod.cnt + 1))
  {
    var f, cnt := s.prod.f, s.prod.cnt;
    var s1 := s.(prod := FullHead(f, cnt, s.tail));
    var s2 := s.(prod := SlackTail(f, cnt));
    var s3 := s.(prod := SlackHead(f, cnt, s.tail));
    assert Solo(c, s, b, 2) == s2;
    assert Solo(c, s2, b, 2) == s.(prod := FullTail(f, cnt + 1));
    SoloAdds(c, s, b, 2, 2);
  }

  lemma {:induction false} SoloAdds(c: Config, s: State, b: Block, m: nat, n: nat)
    requires b.Valid()
    ensures Solo(c, s, b, m + n) == Solo(c, Solo(c, s, b, m), b, n)
    decreases m
  {
    if m == 0 {
    } else {
      SoloAdds(c, ProducerStep(c, s, b), b, m - 1, n);
    }
  }

  lemma {:induction false} TestsFail(c: Config, s: State, b: Block, k: nat)
    requires b.Valid() && s.prod.FullTail? && s.prod.cnt + k <= RETRIES
    requires s.head < s.tail < s.head + |s.prod.f| + c.page
    ensures Solo(c, s, b, 4 * k) == s.(prod := FullTail(s.prod.f, s.prod.cnt + k))
    decreases k
  {
    if k == 0 {
    } else {
      var t := s.(prod := FullTail(s.prod.f, s.prod.cnt + 1));
      TestFails(c, s, b);
      TestsFail(c, t, b, k - 1);
      SoloAdds(c, s, b, 4, 4 * (k - 1));
    }
  }

  /** A push that keeps finding the ring full tests it ten times before it gives up. */
  lemma TenTests(c: Config, s: State, f: seq<byte>, b: Block)
    requires b.Valid() && s.prod == FullTail(f, 0) && s.head < s.tail < s.head + |f| + c.page
    ensures Solo(c, s, b, 36).prod == FullTail(f, 9)
    ensures Solo(c, s, b, 41) == s.(prod := Ready)
  {
    TestsFail(c, s, b, 9);
    TestsFail(c, s, b, 10);
    SoloAdds(c, s, b, 40, 1);
    var t := Solo(c, s, b, 40);
    assert Solo(c, t, b, 1) == Solo(c, ProducerStep(c, t, b), b, 0);
  }
}
