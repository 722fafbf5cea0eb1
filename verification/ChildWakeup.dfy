/** The worker's event loop around its receive ring: wait in epoll, read the notification pipe dry,
    then pop until the ring answers "empty".  The parent keeps pushing throughout.  */
module ChildWakeup {
  import opened Frames
  import opened RingLayout
  import opened RingSteps

  datatype Phase = Waiting | Draining | Popping

  datatype Loop = Loop(ring: State, phase: Phase)

  /** The parent runs a step of its pushes; the child runs a step of its loop. */
  datatype Turn = Parent(b: Block) | Child

  function ChildStep(c: Config, l: Loop): Loop {
    match l.phase
    case Waiting => l.(phase := if l.ring.pipe > 0 then Draining else Popping)   // an event, or the timeout
    case Draining =>
      var got := if l.ring.pipe < TRASH then l.ring.pipe else TRASH;
      Loop(l.ring.(pipe := l.ring.pipe - got), if got == TRASH then Draining else Popping)
    case Popping =>
      Loop(ConsumerStep(c, l.ring), if AnswersEmpty(c, l.ring) then Waiting else Popping)
  }

  function Step(c: Config, l: Loop, t: Turn): Loop
    requires t.Parent? ==> t.b.Valid() && t.b.kind != PAD_BLOCK
  {
    match t
    case Parent(b) => l.(ring := ProducerStep(c, l.ring, b))
    case Child => ChildStep(c, l)
  }

  predicate Turns(ts: seq<Turn>) {
    forall t :: t in ts ==> t.Parent? ==> t.b.Valid() && t.b.kind != PAD_BLOCK
  }

  function RunLoop(c: Config, l: Loop, ts: seq<Turn>): Loop
    requires Turns(ts)
    decreases |ts|
  {
    if ts == [] then l else Step(c, RunLoop(c, l, ts[..|ts| - 1]), ts[|ts| - 1])
  }

  /** A child asleep over a non-empty ring has a wakeup waiting or on its way. */
  predicate WillWake(l: Loop) {
    l.phase.Waiting? && l.ring.popped != l.ring.pushed ==> l.ring.pipe > 0 || l.ring.prod.Notify?
  }

  lemma ParentKeepsWake(c: Config, l: Loop, b: Block)
    requires |l.ring.mem| == c.length && ProducerInv(c, l.ring) && b.Valid() && WillWake(l)
    ensures WillWake(l.(ring := ProducerStep(c, l.ring, b)))
  {
  }

  lemma ChildKeepsInv(c: Config, l: Loop)
    requires c.Valid() && Inv(c, l.ring)
    ensures Inv(c, ChildStep(c, l).ring)
  {
    match l.phase
    case Waiting =>
    case Draining => PipeKeeps(c, l.ring, ChildStep(c, l).ring.pipe);
    case Popping => ConsumerKeeps(c, l.ring);
  }

  lemma ChildKeepsWake(c: Config, l: Loop)
    requires c.Valid() && Inv(c, l.ring) && WillWake(l)
    ensures WillWake(ChildStep(c, l))
  {
    if l.phase.Popping? && AnswersEmpty(c, l.ring) {
      EmptyAnswer(c, l.ring);
    }
  }

  lemma {:induction false} LoopKeeps(c: Config, l: Loop, ts: seq<Turn>)
    requires c.Valid() && c.length < U32 && Inv(c, l.ring) && WillWake(l) && Turns(ts)
    ensures var m := RunLoop(c, l, ts); Inv(c, m.ring) && WillWake(m)
    decreases |ts|
  {
    if ts == [] {
    } else {
      var before, t := ts[..|ts| - 1], ts[|ts| - 1];
      assert t in ts;
      LoopKeeps(c, l, before);
      var m := RunLoop(c, l, before);
      if t.Parent? {
        ParentKeepsWake(c, m, t.b);
        ProducerKeeps(c, m.ring, t.b);
      } else {
        ChildKeepsInv(c, m);
        ChildKeepsWake(c, m);
      }
    }
  }

  /** No lost wakeup, over every run of parent and child from a fresh ring. */
  lemma NoLostWakeup(c: Config, l: Loop, ts: seq<Turn>)
    requires Starts(c, l.ring) && Turns(ts)
    ensures var m := RunLoop(c, l, ts);
      m.phase.Waiting? && m.ring.popped != m.ring.pushed ==> m.ring.pipe > 0 || m.ring.prod.Notify?
  {
    InitInv(c, l.ring);
    LoopKeeps(c, l, ts);
  }

  // ----- a child left alone catches up -----

  /** `n` steps of the child in a row. */
  function ChildAlone(c: Config, l: Loop, n: nat): Loop
    decreases n
  {
    if n == 0 then l else ChildAlone(c, ChildStep(c, l), n - 1)
  }

  lemma {:induction false} AloneAdds(c: Config, l: Loop, m: nat, n: nat)
    ensures ChildAlone(c, l, m + n) == ChildAlone(c, ChildAlone(c, l, m), n)
    decreases m
  {
    if m == 0 {
    } else {
      AloneAdds(c, ChildStep(c, l), m - 1, n);
    }
  }

  lemma PopStep(c: Config, l: Loop)
    requires c.Valid() && Inv(c, l.ring) && l.phase.Popping?
    ensures var m := ChildStep(c, l);
      Inv(c, m.ring) && m.ring.pushed == l.ring.pushed && m.ring.pipe == l.ring.pipe &&
      if m.phase.Waiting? then m.ring.popped == m.ring.pushed
      else
        m.phase.Popping? && |l.ring.popped| <= |m.ring.popped| <= |l.ring.pushed| &&
        (|m.ring.popped| > |l.ring.popped| || Remaining(m.ring.cons) < Remaining(l.ring.cons))
  {
    ConsumerKeeps(c, l.ring);
    ConsumerEffect(c, l.ring);
    if AnswersEmpty(c, l.ring) {
      EmptyAnswer(c, l.ring);
    } else {
      SoloStep(c, l.ring);
    }
  }

  lemma {:induction false} PopAlone(c: Config, l: Loop) returns (n: nat)
    requires c.Valid() && Inv(c, l.ring) && l.phase.Popping?
    ensures var m := ChildAlone(c, l, n);
      n > 0 && m.phase.Waiting? && m.ring.popped == m.ring.pushed == l.ring.pushed && m.ring.pipe == l.ring.pipe
    decreases |l.ring.pushed| - |l.ring.popped|, Remaining(l.ring.cons)
  {
    PopStep(c, l);
    var m := ChildStep(c, l);
    if m.phase.Waiting? {
      n := 1;
      assert ChildAlone(c, m, 0) == m;
    } else {
      var k := PopAlone(c, m);
      n := k + 1;
    }
  }

  lemma {:induction false} DrainAlone(c: Config, l: Loop) returns (n: nat)
    requires l.phase.Draining?
    ensures n > 0 && ChildAlone(c, l, n) == Loop(l.ring.(pipe := 0), Popping)
    decreases l.ring.pipe
  {
    var m := ChildStep(c, l);
    if m.phase.Popping? {
      n := 1;
      assert ChildAlone(c, m, 0) == m;
    } else {
      var k := DrainAlone(c, m);
      n := k + 1;
    }
  }

  lemma CatchesUp(c: Config, l: Loop) returns (n: nat)
    requires c.Valid() && Inv(c, l.ring)
    ensures var m := ChildAlone(c, l, n);
      n > 0 && m.phase.Waiting? && m.ring.popped == m.ring.pushed == l.ring.pushed &&
      m.ring.pipe == if l.phase.Popping? then l.ring.pipe else 0
    decreases if l.phase.Waiting? then 2 else if l.phase.Draining? then 1 else 0
  {
    match l.phase
    case Popping => n := PopAlone(c, l);
    case Draining =>
      var k := DrainAlone(c, l);
      PipeKeeps(c, l.ring, 0);
      var j := PopAlone(c, ChildAlone(c, l, k));
      AloneAdds(c, l, k, j);
      n := k + j;
    case Waiting =>
      var k := CatchesUp(c, ChildStep(c, l));
      n := k + 1;
  }

  /** Over every run: a child left alone pops all there is and waits again, and if it was waiting, its
      pipe is read dry. */
  lemma ChildCatchesUp(c: Config, l: Loop, ts: seq<Turn>)
    requires Starts(c, l.ring) && Turns(ts)
    ensures var r := RunLoop(c, l, ts);
      exists n: nat ::
        n > 0 && ChildAlone(c, r, n).phase.Waiting? && ChildAlone(c, r, n).ring.popped == r.ring.pushed &&
        (r.phase.Waiting? ==> ChildAlone(c, r, n).ring.pipe == 0)
  {
    InitInv(c, l.ring);
    LoopKeeps(c, l, ts);
    var n := CatchesUp(c, RunLoop(c, l, ts));
  }
}
