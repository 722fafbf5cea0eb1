/** How queued frames lie in the ring's bytes, independent of who moves `head` and `tail`. */
module RingLayout {
  import opened Frames

  const START := 8   // sizeof(shm_head_t): the first usable offset

  datatype Config = Config(length: nat, page: nat) {
    predicate Valid() {
      page + START <= length && page < U32
    }
  }

  /** `frames` lie back to back in `mem` from offset `a` exactly up to offset `b`. */
  predicate Chain(mem: seq<byte>, a: nat, b: nat, frames: seq<seq<byte>>)
    decreases |frames|
  {
    if frames == [] then a == b
    else
      var e := a + |frames[0]|;
      e <= b <= |mem| && mem[a..e] == frames[0] && Chain(mem, e, b, frames[1..])
  }

  predicate AllFrames(frames: seq<seq<byte>>, page: nat) {
    forall f :: f in frames ==> IsFrame(f, page)
  }

  predicate SameBytes(m: seq<byte>, m': seq<byte>, a: int, b: int) {
    |m| == |m'| && forall i :: a <= i < b && 0 <= i < |m| ==> m[i] == m'[i]
  }

  lemma {:induction false} ChainBounds(mem: seq<byte>, a: nat, b: nat, frames: seq<seq<byte>>)
    requires Chain(mem, a, b, frames)
    ensures a <= b
    ensures frames != [] ==> a + |frames[0]| <= b <= |mem|
    decreases |frames|
  {
    if frames == [] {
    } else {
      ChainBounds(mem, a + |frames[0]|, b, frames[1..]);
    }
  }

  lemma {:induction false} ChainFrame(m: seq<byte>, m': seq<byte>, a: nat, b: nat, frames: seq<seq<byte>>)
    requires Chain(m, a, b, frames) && SameBytes(m, m', a, b)
    ensures Chain(m', a, b, frames)
    decreases |frames|
  {
    ChainBounds(m, a, b, frames);
    if frames == [] {
    } else {
      var e := a + |frames[0]|;
      ChainBounds(m, e, b, frames[1..]);
      assert m'[a..e] == m[a..e];
      ChainFrame(m, m', e, b, frames[1..]);
    }
  }

  lemma {:induction false} ChainAppend(mem: seq<byte>, a: nat, b: nat, frames: seq<seq<byte>>, f: seq<byte>)
    requires Chain(mem, a, b, frames)
    requires b + |f| <= |mem| && mem[b..b + |f|] == f
    ensures Chain(mem, a, b + |f|, frames + [f])
    decreases |frames|
  {
    if frames == [] {
      assert (frames + [f])[1..] == [];
    } else {
      ChainBounds(mem, a, b, frames);
      assert (frames + [f])[1..] == frames[1..] + [f];
      ChainAppend(mem, a + |frames[0]|, b, frames[1..], f);
    }
  }

  /** The length field a consumer reads at a chained frame is that frame's length. */
  lemma FrameAt(mem: seq<byte>, p: nat, f: seq<byte>, page: nat)
    requires p + |f| <= |mem| && mem[p..p + |f|] == f && IsFrame(f, page)
    ensures Word(mem, p + 8) == |f| && mem[p + 12] == f[12]
  {
    assert forall i :: 0 <= i < |f| ==> mem[p + i] == f[i];
  }
}
