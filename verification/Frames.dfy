/** The wire format of one shared-memory block (`struct shm_block`, packed, little endian):
    id, fd and length as 32-bit words, one type byte, then the payload.  */
module Frames {
  type byte = x: int | 0 <= x < 256

  const U32 := 0x1_0000_0000
  const HEADER := 13
  const DATA_BLOCK: byte := 0
  const PAD_BLOCK: byte := 1
  const FIN_BLOCK: byte := 2
  const OPEN_BLOCK: byte := 3
  const CLOSE_BLOCK: byte := 4

  /** The 32-bit word stored at offset `p`. */
  function Word(s: seq<byte>, p: nat): (w: nat)
    requires p + 4 <= |s|
    ensures w < U32
  {
    var b0: int, b1: int, b2: int, b3: int := s[p], s[p + 1], s[p + 2], s[p + 3];
    b0 + 0x100 * b1 + 0x1_0000 * b2 + 0x100_0000 * b3
  }

  function WordBytes(w: nat): (b: seq<byte>)
    requires w < U32
    ensures |b| == 4 && Word(b, 0) == w
  {
    var q1 := w / 0x100;
    var q2 := q1 / 0x100;
    var q3 := q2 / 0x100;
    [w % 0x100, q1 % 0x100, q2 % 0x100, q3]
  }

  datatype Block = Block(id: nat, fd: nat, kind: byte, payload: seq<byte>) {
    predicate Valid() {
      id < U32 && fd < U32 && HEADER + |payload| < U32
    }
  }

  function Encode(b: Block): (f: seq<byte>)
    requires b.Valid()
    ensures |f| == HEADER + |b.payload|
  {
    WordBytes(b.id) + WordBytes(b.fd) + WordBytes(HEADER + |b.payload|) + [b.kind] + b.payload
  }

  function Decode(f: seq<byte>): Block
    requires |f| >= HEADER
  {
    Block(Word(f, 0), Word(f, 4), f[12], f[HEADER..])
  }

  /** A byte string the consumer can walk over: its own length field is right and it is not padding. */
  predicate IsFrame(f: seq<byte>, page: nat) {
    HEADER <= |f| <= page && Word(f, 8) == |f| && f[12] != PAD_BLOCK
  }

  /** Encoding loses nothing, and what callers push is a frame. */
  lemma EncodeDecode(b: Block)
    requires b.Valid()
    ensures Decode(Encode(b)) == b
    ensures Word(Encode(b), 0) == b.id && Word(Encode(b), 4) == b.fd
    ensures Word(Encode(b), 8) == |Encode(b)| && Encode(b)[12] == b.kind && Encode(b)[HEADER..] == b.payload
  {
    var f := Encode(b);
    assert f[0..4] == WordBytes(b.id) && f[4..8] == WordBytes(b.fd) && f[8..12] == WordBytes(|f|);
    WordOfSlice(f, 0);
    WordOfSlice(f, 4);
    WordOfSlice(f, 8);
    assert f[HEADER..] == b.payload;
  }

  lemma WordOfSlice(f: seq<byte>, p: nat)
    requires p + 4 <= |f|
    ensures Word(f, p) == Word(f[p..p + 4], 0)
  {
  }
}
