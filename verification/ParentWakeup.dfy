/** The parent's event loop around a worker's send ring: wait in epoll, pop until the ring answers
    "empty", and only then read the notification pipe, if epoll reported it.  That order can lose a
    wakeup; this module says exactly when.  */
module ParentWakeup {
  import opened Frames
  import opened RingLayout
  import opened RingSteps
  import Progress = RingProgress

  datatype Phase = Waiting | Popping | Draining

  /** `due`: the pipe was readable when epoll returned. */
  datatype Loop = Loop(ring: State, phase: Phase, due: bool)

  /** The worker runs a step of its pushes; the parent runs a step of its loop. */
  datatype Turn = Worker(b: Block) | Parent

  function ParentStep(c: Config, l: Loop): Loop {
    match l.phase
    case Waiting => l.(phase := Popping, due := l.ring.pipe > 0)   // an event, or the timeout
    case Popping =>
      var phase := if !AnswersEmpty(c, l.ring) then Popping else if l.due then Draining else Waiting;
      l.(ring := ConsumerStep(c, l.ring), phase := phase)
    case Draining =>
      var got := if l.ring.pipe < TRASH then l.ring.pipe else TRASH;
      l.(ring := l.ring.(pipe := l.ring.pipe - got), phase := if got == TRASH then Draining else Waiting)
  }

  predicate Callable(t: Turn) {
    t.Worker? ==> t.b.Valid() && t.b.kind != PAD_BLOCK
  }

  function Step(c: Config, l: Loop, t: Turn): Loop
    requires Callable(t)
  {
    match t
    case Worker(b) => l.(ring := ProducerStep(c, l.ring, b))
    case Parent => ParentStep(c, l)
  }

  predicate Turns(ts: seq<Turn>) {
    forall t :: t in ts ==> Callable(t)
  }

  function RunLoop(c: Config, l: Loop, ts: seq<Turn>): Loop
    requires Turns(ts)
    decreases |ts|
  {
    if ts == [] then l else RunLoop(c, Step(c, l, ts[0]), ts[1..])
  }

  // ----- when the parent sleeps over work -----

  /** In epoll with frames to pop, and no byte in the pipe or on its way: only the timeout helps. */
  predicate Asleep(l: Loop) {
    l.phase.Waiting? && l.ring.popped != l.ring.pushed && l.ring.pipe == 0 && !l.ring.prod.Notify?
  }

  /** The read of the pipe that ends the loop, after a frame was published and announced behind the
      empty answer. */
  predicate Misses(l: Loop, t: Turn) {
    t.Parent? && l.phase.Draining? && l.ring.pipe < TRASH &&
    l.ring.popped != l.ring.pushed && !l.ring.prod.Notify?
  }

  predicate NeverAsleep(c: Config, l: Loop, ts: seq<Turn>)
    requires Turns(ts)
    decreases |ts|
  {
    !Asleep(l) && (ts == [] || NeverAsleep(c, Step(c, l, ts[0]), ts[1..]))
  }

  predicate NeverMisses(c: Config, l: Loop, ts: seq<Turn>)
    requires Turns(ts)
    decreases |ts|
  {
    ts == [] || (!Misses(l, ts[0]) && NeverMisses(c, Step(c, l, ts[0]), ts[1..]))
  }

  lemma WorkerWakes(c: Config, l: Loop, b: Block)
    requires |l.ring.mem| == c.length && ProducerInv(c, l.ring) && b.Valid() && !Asleep(l)
    ensures !Asleep(l.(ring := ProducerStep(c, l.ring, b)))
  {
  }

  lemma ParentSleeps(c: Config, l: Loop)
    requires c.Valid() && Inv(c, l.ring) && !Asleep(l)
    ensures Inv(c, ParentStep(c, l).ring)
    ensures Asleep(ParentStep(c, l)) <==> Misses(l, Parent)
  {
    match l.phase
    case Waiting =>
    case Draining => PipeKeeps(c, l.ring, ParentStep(c, l).ring.pipe);
    case Popping => PoppingAwake(c, l);
  }

  lemma PoppingAwake(c: Config, l: Loop)
    requires c.Valid() && Inv(c, l.ring) && l.phase.Popping?
    ensures Inv(c, ParentStep(c, l).ring) && !Asleep(ParentStep(c, l))
  {
    ConsumerKeeps(c, l.ring);
    if AnswersEmpty(c, l.ring) {
      EmptyAnswer(c, l.ring);
      ConsumerEffect(c, l.ring);
    }
  }

  /** One step puts the parent to sleep over work exactly if it is such a read. */
  lemma StepSleeps(c: Config, l: Loop, t: Turn)
    requires c.Valid() && c.length < U32 && Inv(c, l.ring) && Callable(t) && !Asleep(l)
    ensures Inv(c, Step(c, l, t).ring)
    ensures Asleep(Step(c, l, t)) <==> Misses(l, t)
  {
    match t
    case Worker(b) =>
      ProducerKeeps(c, l.ring, b);
      WorkerWakes(c, l, b);
    case Parent => ParentSleeps(c, l);
  }

  lemma {:induction false} RunSleeps(c: Config, l: Loop, ts: seq<Turn>)
    requires c.Valid() && c.length < U32 && Inv(c, l.ring) && Turns(ts) && !Asleep(l)
    ensures NeverAsleep(c, l, ts) <==> NeverMisses(c, l, ts)
    decreases |ts|
  {
    if ts == [] {
    } else {
      var m := Step(c, l, ts[0]);
      StepSleeps(c, l, ts[0]);
      if !Asleep(m) {
        RunSleeps(c, m, ts[1..]);
      }
    }
  }

  /** Over every run from a fresh ring: the parent is never asleep over work if and only if no read that
      ends the draining of the pipe swallows the announcement of a frame that is still queued. */
  lemma SleepsExactlyOnOverlap(c: Config, l: Loop, ts: seq<Turn>)
    requires Starts(c, l.ring) && Turns(ts)
    ensures NeverAsleep(c, l, ts) <==> NeverMisses(c, l, ts)
  {
    InitInv(c, l.ring);
    RunSleeps(c, l, ts);
  }

  // ----- and it happens on every ring with room for two blocks -----

  function Repeat(t: Turn, n: nat): (ts: seq<Turn>)
    ensures |ts| == n && forall u :: u in ts ==> u == t
  {
    if n == 0 then [] else [t] + Repeat(t, n - 1)
  }

  lemma {:induction false} RunAppends(c: Config, l: Loop, ts: seq<Turn>, us: seq<Turn>)
    requires Turns(ts) && Turns(us)
    ensures RunLoop(c, l, ts + us) == RunLoop(c, RunLoop(c, l, ts), us)
    decreases |ts|
  {
    if ts == [] {
      assert ts + us == us;
    } else {
      assert (ts + us)[0] == ts[0] && (ts + us)[1..] == ts[1..] + us;
      RunAppends(c, Step(c, l, ts[0]), ts[1..], us);
    }
  }

  lemma {:induction false} SoloIsARun(c: Config, l: Loop, b: Block, n: nat)
    requires Callable(Worker(b))
    ensures RunLoop(c, l, Repeat(Worker(b), n)) == l.(ring := Progress.Solo(c, l.ring, b, n))
    decreases n
  {
    if n == 0 {
    } else {
      assert Repeat(Worker(b), n)[1..] == Repeat(Worker(b), n - 1);
      SoloIsARun(c, Step(c, l, Worker(b)), b, n - 1);
    }
  }

  /** Where the parent goes once the ring is empty. */
  function AfterPops(l: Loop): Phase {
    if l.due then Draining else Waiting
  }

  /** One step towards the empty answer. */
  lemma PopStep(c: Config, l: Loop)
    requires c.Valid() && Inv(c, l.ring) && l.phase.Popping?
    ensures var l' := ParentStep(c, l);
      Inv(c, l'.ring) && l'.ring.head == l.ring.head && l'.ring.pushed == l.ring.pushed && l'.due == l.due &&
      l'.ring.pipe == l.ring.pipe && l'.ring.prod == l.ring.prod &&
      if l'.phase == AfterPops(l) then l'.ring.tail == l'.ring.head && l'.ring.popped == l'.ring.pushed
      else
        l'.phase.Popping? && |l.ring.popped| <= |l'.ring.popped| <= |l.ring.pushed| &&
        (|l'.ring.popped| > |l.ring.popped| || Remaining(l'.ring.cons) < Remaining(l.ring.cons))
  {
    ConsumerKeeps(c, l.ring);
    ConsumerEffect(c, l.ring);
    if AnswersEmpty(c, l.ring) {
      EmptyAnswer(c, l.ring);
    } else {
      SoloStep(c, l.ring);
    }
  }

  /** A parent left alone pops everything, and goes on to the pipe if epoll had reported it. */
  lemma {:induction false} PopAlone(c: Config, l: Loop) returns (n: nat)
    requires c.Valid() && Inv(c, l.ring) && l.phase.Popping?
    ensures var m := RunLoop(c, l, Repeat(Parent, n));
      Inv(c, m.ring) && m.phase == AfterPops(l) && m.ring.tail == m.ring.head == l.ring.head &&
      m.ring.popped == m.ring.pushed == l.ring.pushed && m.ring.pipe == l.ring.pipe && m.ring.prod == l.ring.prod
    decreases |l.ring.pushed| - |l.ring.popped|, Remaining(l.ring.cons)
  {
    PopStep(c, l);
    var l' := ParentStep(c, l);
    if l'.phase == AfterPops(l) {
      n := 1;
      assert Repeat(Parent, 1)[1..] == [];
    } else {
      n := PopAlone(c, l');
      n := n + 1;
      assert Repeat(Parent, n)[1..] == Repeat(Parent, n - 1);
    }
  }

  lemma {:induction false} DrainAlone(c: Config, l: Loop) returns (n: nat)
    requires l.phase.Draining?
    ensures RunLoop(c, l, Repeat(Parent, n)) == l.(ring := l.ring.(pipe := 0), phase := Waiting)
    decreases l.ring.pipe
  {
    var l' := ParentStep(c, l);
    if l'.phase.Waiting? {
      n := 1;
      assert Repeat(Parent, 1)[1..] == [];
    } else {
      n := DrainAlone(c, l');
      n := n + 1;
      assert Repeat(Parent, n)[1..] == Repeat(Parent, n - 1);
    }
  }

  /** A parent that wakes up and is then left alone pops all there is and waits again, with its pipe read
      dry. */
  lemma ParentCatchesUp(c: Config, l: Loop) returns (ts: seq<Turn>)
    requires c.Valid() && Inv(c, l.ring) && l.phase.Waiting?
    ensures ts != [] && (forall t :: t in ts ==> t.Parent?)
    ensures var m := RunLoop(c, l, ts);
      m.phase.Waiting? && m.ring.popped == m.ring.pushed == l.ring.pushed && m.ring.pipe == 0
  {
    var l1 := ParentStep(c, l);
    var n := PopAlone(c, l1);
    var l2, rest := RunLoop(c, l1, Repeat(Parent, n)), Repeat(Parent, n);
    if l1.due {
      var k := DrainAlone(c, l2);
      RunAppends(c, l1, Repeat(Parent, n), Repeat(Parent, k));
      rest := Repeat(Parent, n) + Repeat(Parent, k);
    }
    ts := [Parent] + rest;
    assert ts[1..] == rest;
  }

  /** One block pushed and popped, then a second push before the parent reads the pipe: asleep. */
  lemma ParentMissesAWakeup(c: Config, l: Loop, b: Block) returns (ts: seq<Turn>)
    requires Starts(c, l.ring) && l.phase.Waiting? && Callable(Worker(b))
    requires |Encode(b)| <= c.page && START + 2 * |Encode(b)| <= c.length
    ensures Turns(ts) && Asleep(RunLoop(c, l, ts))
  {
    InitInv(c, l.ring);
    var n1 := Progress.PushDecides(c, l.ring, b);
    SoloIsARun(c, l, b, n1);
    var ts1 := Repeat(Worker(b), n1);
    var l1 := RunLoop(c, l, ts1);
    var l2 := ParentStep(c, l1);
    var n2 := PopAlone(c, l2);
    var ts2 := Repeat(Parent, n2);
    var l3 := RunLoop(c, l2, ts2);
    var ts3 := OverlapSleeps(c, l3, b);
    RunAppends(c, l2, ts2, ts3);
    RunAppends(c, l, ts1, [Parent] + (ts2 + ts3));
    assert ([Parent] + (ts2 + ts3))[1..] == ts2 + ts3;
    ts := ts1 + ([Parent] + (ts2 + ts3));
  }

  lemma OverlapSleeps(c: Config, l: Loop, b: Block) returns (ts: seq<Turn>)
    requires c.Valid() && c.length < U32 && Inv(c, l.ring)
    requires l.phase.Draining? && l.ring.prod.Ready? && l.ring.popped == l.ring.pushed
    requires l.ring.tail == l.ring.head && l.ring.pipe < TRASH - 1
    requires Callable(Worker(b)) && |Encode(b)| <= c.page && l.ring.head + |Encode(b)| <= c.length
    ensures Turns(ts) && Asleep(RunLoop(c, l, ts))
  {
    var n := Progress.PushDecides(c, l.ring, b);
    SoloIsARun(c, l, b, n);
    ts := Repeat(Worker(b), n) + [Parent];
    RunAppends(c, l, Repeat(Worker(b), n), [Parent]);
    assert [Parent][1..] == [];
  }
}
