/** The parent's table of descriptors: one record and one list node per fd, the etin and close queues
    threaded through those nodes, and the `maxfd` and `count` summaries the sweeps rely on.  */
module FdTable {
  import opened IntrusiveList
  import Sessions

  datatype FdType = Unused | Listen | Pipe | Remote | OtherType

  /** `struct fdinfo` without its buffers; `worker` stands for `bc_elem`. */
  datatype FdInfo = FdInfo(typ: FdType, needClose: bool, needPollin: bool, id: nat, worker: int, lastTm: int)

  const ZEROED := FdInfo(Unused, false, false, 0, 0, 0)

  /** A CLOSE block pushed on a worker's queue. */
  datatype CloseBlock = CloseBlock(worker: int, fd: nat, id: nat)

  function CloseOf(fd: nat, info: FdInfo): CloseBlock {
    CloseBlock(info.worker, fd, info.id)
  }

  /** A record after `do_del_conn`. */
  function Freed(info: FdInfo): FdInfo {
    if info.typ == Unused then info else info.(typ := Unused, needPollin := false, needClose := false)
  }

  // ----- the two queues -----

  predicate Members(list: seq<nat>, n: nat) {
    forall fd :: fd in list ==> fd < n
  }

  /** Two disjoint circular lists: nodes 0..n-1 belong to the fds, node n heads the etin queue and node
      n+1 the close queue. */
  predicate Rings(nodes: seq<Links>, n: nat, etin: seq<nat>, close: seq<nat>) {
    |nodes| == n + 2 && IsRing(nodes, n, etin) && IsRing(nodes, n + 1, close) &&
    Members(etin, n) && Members(close, n) && forall fd :: fd in etin ==> fd !in close
  }

  /** The flags say which queue an fd is on; an unused fd is on none. */
  predicate Flags(fds: seq<FdInfo>, etin: seq<nat>, close: seq<nat>) {
    forall fd :: 0 <= fd < |fds| ==>
      (fd in etin <==> fds[fd].needPollin) && (fd in close <==> fds[fd].needClose) &&
      (fds[fd].typ == Unused ==> !fds[fd].needPollin && !fds[fd].needClose)
  }

  predicate Queues(fds: seq<FdInfo>, nodes: seq<Links>, etin: seq<nat>, close: seq<nat>) {
    Rings(nodes, |fds|, etin, close) && Flags(fds, etin, close)
  }

  /** Linking a free node into one ring leaves another ring alone. */
  lemma PushApart(nodes: seq<Links>, head: nat, list: seq<nat>, x: nat, head2: nat, list2: seq<nat>)
    requires IsRing(nodes, head, list) && IsRing(nodes, head2, list2) && x < |nodes| && x != head && x !in list
    requires head2 != head && head2 !in list && head !in list2 && x != head2 && x !in list2
    requires forall y :: y in list ==> y !in list2
    ensures 0 <= nodes[head].prev < |nodes| && IsRing(PushTail(nodes, x, head), head2, list2)
  {
    PushTailRing(nodes, x, head, list);
    forall i | 0 <= i < |list2|
      ensures PushTail(nodes, x, head)[list2[i]] == nodes[list2[i]]
    {
      assert list2[i] in list2;
    }
    RingFrame(nodes, PushTail(nodes, x, head), head2, list2);
  }

  lemma PushRings(nodes: seq<Links>, n: nat, etin: seq<nat>, close: seq<nat>, fd: nat)
    requires Rings(nodes, n, etin, close) && fd < n && fd !in etin && fd !in close
    ensures 0 <= nodes[n].prev < |nodes| && Rings(PushTail(nodes, fd, n), n, etin + [fd], close)
    ensures 0 <= nodes[n + 1].prev < |nodes| && Rings(PushTail(nodes, fd, n + 1), n, etin, close + [fd])
  {
    PushTailRing(nodes, fd, n, etin);
    PushApart(nodes, n, etin, fd, n + 1, close);
    PushTailRing(nodes, fd, n + 1, close);
    PushApart(nodes, n + 1, close, fd, n, etin);
  }

  /** Unlinking a member of one ring leaves another ring alone. */
  lemma OtherRing(nodes: seq<Links>, head: nat, list: seq<nat>, k: nat, head2: nat, list2: seq<nat>)
    requires IsRing(nodes, head, list) && IsRing(nodes, head2, list2) && k < |list|
    requires head2 != head && head2 !in list && head !in list2 && forall x :: x in list ==> x !in list2
    ensures 0 <= nodes[list[k]].prev < |nodes| && 0 <= nodes[list[k]].next < |nodes|
    ensures IsRing(DelInit(nodes, list[k]), head2, list2)
  {
    MemberLinks(nodes, head, list, k);
    forall i | 0 <= i < |list2|
      ensures DelInit(nodes, list[k])[list2[i]] == nodes[list2[i]]
    {
      assert list2[i] in list2;
    }
    RingFrame(nodes, DelInit(nodes, list[k]), head2, list2);
  }

  lemma DelEtinRings(nodes: seq<Links>, n: nat, etin: seq<nat>, close: seq<nat>, k: nat)
    requires Rings(nodes, n, etin, close) && k < |etin|
    ensures 0 <= nodes[etin[k]].prev < |nodes| && 0 <= nodes[etin[k]].next < |nodes|
    ensures Rings(DelInit(nodes, etin[k]), n, Without(etin, k), close)
  {
    OtherRing(nodes, n, etin, k, n + 1, close);
    DelInitRing(nodes, n, etin, k);
    WithoutKeeps(etin, k);
  }

  lemma DelCloseRings(nodes: seq<Links>, n: nat, etin: seq<nat>, close: seq<nat>, k: nat)
    requires Rings(nodes, n, etin, close) && k < |close|
    ensures 0 <= nodes[close[k]].prev < |nodes| && 0 <= nodes[close[k]].next < |nodes|
    ensures Rings(DelInit(nodes, close[k]), n, etin, Without(close, k))
  {
    OtherRing(nodes, n + 1, close, k, n, etin);
    DelInitRing(nodes, n + 1, close, k);
    WithoutKeeps(close, k);
  }

  lemma WithoutFlags(fds: seq<FdInfo>, etin: seq<nat>, close: seq<nat>, k: nat)
    requires Flags(fds, etin, close)
    ensures k < |etin| && Distinct(etin) && etin[k] < |fds| ==>
      Flags(fds[etin[k] := fds[etin[k]].(needPollin := false)], Without(etin, k), close)
    ensures k < |close| && Distinct(close) && close[k] < |fds| ==>
      Flags(fds[close[k] := fds[close[k]].(needClose := false)], etin, Without(close, k))
  {
    if k < |etin| && Distinct(etin) { WithoutKeeps(etin, k); }
    if k < |close| && Distinct(close) { WithoutKeeps(close, k); }
  }

  lemma DelEtinQueues(fds: seq<FdInfo>, nodes: seq<Links>, etin: seq<nat>, close: seq<nat>, k: nat)
    requires Queues(fds, nodes, etin, close) && k < |etin|
    ensures var fd := etin[k];
      fd < |fds| && 0 <= nodes[fd].prev < |nodes| && 0 <= nodes[fd].next < |nodes| &&
      Queues(fds[fd := fds[fd].(needPollin := false)], DelInit(nodes, fd), Without(etin, k), close) &&
      fd !in Without(etin, k) && Removed(etin, fd, Without(etin, k))
  {
    assert etin[k] in etin;
    DelEtinRings(nodes, |fds|, etin, close, k);
    WithoutFlags(fds, etin, close, k);
    WithoutKeeps(etin, k);
  }

  lemma DelCloseQueues(fds: seq<FdInfo>, nodes: seq<Links>, etin: seq<nat>, close: seq<nat>, k: nat)
    requires Queues(fds, nodes, etin, close) && k < |close|
    ensures var fd := close[k];
      fd < |fds| && 0 <= nodes[fd].prev < |nodes| && 0 <= nodes[fd].next < |nodes| &&
      Queues(fds[fd := fds[fd].(needClose := false)], DelInit(nodes, fd), etin, Without(close, k)) &&
      fd !in Without(close, k) && Removed(close, fd, Without(close, k))
  {
    assert close[k] in close;
    DelCloseRings(nodes, |fds|, etin, close, k);
    WithoutFlags(fds, etin, close, k);
    WithoutKeeps(close, k);
  }

  lemma PushEtinQueues(fds: seq<FdInfo>, nodes: seq<Links>, etin: seq<nat>, close: seq<nat>, fd: nat)
    requires Queues(fds, nodes, etin, close) && fd < |fds| && fds[fd].typ != Unused && fd !in etin && fd !in close
    ensures 0 <= nodes[|fds|].prev < |nodes|
    ensures Queues(fds[fd := fds[fd].(needPollin := true)], PushTail(nodes, fd, |fds|), etin + [fd], close)
  {
    PushRings(nodes, |fds|, etin, close, fd);
  }

  lemma PushCloseQueues(fds: seq<FdInfo>, nodes: seq<Links>, etin: seq<nat>, close: seq<nat>, fd: nat)
    requires Queues(fds, nodes, etin, close) && fd < |fds| && fds[fd].typ != Unused && fd !in etin && fd !in close
    ensures 0 <= nodes[|fds| + 1].prev < |nodes|
    ensures Queues(fds[fd := fds[fd].(needClose := true)], PushTail(nodes, fd, |fds| + 1), etin, close + [fd])
  {
    PushRings(nodes, |fds|, etin, close, fd);
  }

  /** A record off both queues may be rewritten, and its node cleared. */
  lemma RewriteIdle(fds: seq<FdInfo>, nodes: seq<Links>, etin: seq<nat>, close: seq<nat>,
                    fd: nat, info: FdInfo, l: Links)
    requires Queues(fds, nodes, etin, close) && fd < |fds| && fd !in etin && fd !in close
    requires !info.needPollin && !info.needClose
    ensures Queues(fds[fd := info], nodes[fd := l], etin, close)
  {
    RingFrame(nodes, nodes[fd := l], |fds|, etin);
    RingFrame(nodes, nodes[fd := l], |fds| + 1, close);
  }

  // ----- maxfd and count -----

  function UsedCount(fds: seq<FdInfo>): nat {
    if fds == [] then 0
    else UsedCount(fds[..|fds| - 1]) + if fds[|fds| - 1].typ == Unused then 0 else 1
  }

  lemma {:induction false} UsedUpdate(fds: seq<FdInfo>, fd: nat, info: FdInfo)
    requires fd < |fds|
    ensures UsedCount(fds[fd := info])
            == UsedCount(fds) + (if info.typ == Unused then 0 else 1) - (if fds[fd].typ == Unused then 0 else 1)
  {
    var last := |fds| - 1;
    if fd == last {
      assert fds[fd := info][..last] == fds[..last];
    } else {
      assert fds[fd := info][..last] == fds[..last][fd := info];
      UsedUpdate(fds[..last], fd, info);
    }
  }

  lemma {:induction false} NoneUsed(fds: seq<FdInfo>)
    requires forall fd :: 0 <= fd < |fds| ==> fds[fd].typ == Unused
    ensures UsedCount(fds) == 0
  {
    if fds == [] {
    } else {
      NoneUsed(fds[..|fds| - 1]);
    }
  }

  predicate Summary(fds: seq<FdInfo>, maxfd: int, count: int) {
    -1 <= maxfd < |fds| && count == UsedCount(fds) &&
    forall fd :: maxfd < fd < |fds| ==> fds[fd].typ == Unused
  }

  lemma SameSummary(fds: seq<FdInfo>, maxfd: int, count: int, fd: nat, info: FdInfo)
    requires Summary(fds, maxfd, count) && fd < |fds| && info.typ == fds[fd].typ
    ensures Summary(fds[fd := info], maxfd, count)
  {
    UsedUpdate(fds, fd, info);
  }

  lemma AddSummary(fds: seq<FdInfo>, maxfd: int, count: int, fd: nat, info: FdInfo)
    requires Summary(fds, maxfd, count) && fd < |fds| && fds[fd].typ == Unused && info.typ != Unused
    ensures Summary(fds[fd := info], if maxfd > fd then maxfd else fd, count + 1)
  {
    UsedUpdate(fds, fd, info);
  }

  // ----- the table -----

  /** What a sweep of the etin queue meets at one fd. */
  datatype Visit =
    | Stays       // the read filled the buffer again, or accept failed other than by EAGAIN
    | Drained     // a short read, or accept's EAGAIN
    | Failed      // net_recv returned -1 (clients only)

  class Table {
    const fds: array<FdInfo>
    const nodes: array<Links>
    var maxfd: int
    var count: int
    var seqno: nat                      // the static counter of do_add_conn
    ghost var closes: seq<CloseBlock>   // every CLOSE block pushed so far
    ghost var etin: seq<nat>
    ghost var close: seq<nat>

    ghost predicate Valid()
      reads this, fds, nodes
    {
      fds as object != nodes && Queues(fds[..], nodes[..], etin, close) && Summary(fds[..], maxfd, count)
    }

    /** `net_init` */
    constructor (size: nat)
      requires size > 0
      ensures Valid() && fds.Length == size && etin == [] && close == [] && count == 0 && seqno == 0 && closes == []
      ensures fresh(fds) && fresh(nodes)
    {
      fds := new FdInfo[size](_ => ZEROED);
      nodes := new Links[size + 2](i => if i < size then Links(NULL, NULL) else Links(i, i));
      maxfd, count, seqno, closes, etin, close := 0, 0, 0, [], [], [];
      new;
      NoneUsed(fds[..]);
    }

    /** `list_push_tail` on the node array. */
    method ListPushTail(x: nat, head: nat)
      requires x < nodes.Length && head < nodes.Length && 0 <= nodes[head].prev < nodes.Length
      modifies nodes
      ensures nodes[..] == PushTail(old(nodes[..]), x, head)
    {
      var p := nodes[head].prev;
      nodes[head] := nodes[head].(prev := x);
      nodes[x] := Links(p, head);
      nodes[p] := nodes[p].(next := x);
    }

    /** `list_del_init` on the node array. */
    method ListDelInit(x: nat)
      requires x < nodes.Length && 0 <= nodes[x].prev < nodes.Length && 0 <= nodes[x].next < nodes.Length
      modifies nodes
      ensures nodes[..] == DelInit(old(nodes[..]), x)
    {
      var p, n := nodes[x].prev, nodes[x].next;
      nodes[n] := nodes[n].(prev := p);
      nodes[p] := nodes[p].(next := n);
      nodes[x] := Links(x, x);
    }

    /** `add_to_etin_queue`: nothing if the fd is on either queue. */
    method AddToEtin(fd: nat)
      requires Valid() && fd < fds.Length && fds[fd].typ != Unused
      modifies this`etin, fds, nodes
      ensures Valid()
      ensures etin == if old(fds[fd].needClose || fds[fd].needPollin) then old(etin) else old(etin) + [fd]
      ensures fds[..] == old(fds[..])[fd := old(fds[fd]).(needPollin := fd in etin)]
    {
      if !fds[fd].needClose && !fds[fd].needPollin {
        PushEtinQueues(fds[..], nodes[..], etin, close, fd);
        SameSummary(fds[..], maxfd, count, fd, fds[fd].(needPollin := true));
        ListPushTail(fd, fds.Length);
        fds[fd] := fds[fd].(needPollin := true);
        etin := etin + [fd];
        assert fds[..] == old(fds[..])[fd := old(fds[fd]).(needPollin := true)];
      }
    }

    /** `del_from_etin_queue` */
    method DelFromEtin(fd: nat)
      requires Valid() && fd < fds.Length
      modifies this`etin, fds, nodes
      ensures Valid() && fd !in etin && Removed(old(etin), fd, etin)
      ensures fds[..] == old(fds[..])[fd := old(fds[fd]).(needPollin := false)]
    {
      if fds[fd].needPollin {
        ghost var k :| 0 <= k < |etin| && etin[k] == fd;
        DelEtinQueues(fds[..], nodes[..], etin, close, k);
        SameSummary(fds[..], maxfd, count, fd, fds[fd].(needPollin := false));
        fds[fd] := fds[fd].(needPollin := false);
        ListDelInit(fd);
        etin := Without(etin, k);
        assert fds[..] == old(fds[..])[fd := old(fds[fd]).(needPollin := false)];
      }
    }

    /** `del_from_close_queue` */
    method DelFromClose(fd: nat)
      requires Valid() && fd < fds.Length
      modifies this`close, fds, nodes
      ensures Valid() && fd !in close && Removed(old(close), fd, close)
      ensures fds[..] == old(fds[..])[fd := old(fds[fd]).(needClose := false)]
    {
      if fds[fd].needClose {
        ghost var k :| 0 <= k < |close| && close[k] == fd;
        DelCloseQueues(fds[..], nodes[..], etin, close, k);
        SameSummary(fds[..], maxfd, count, fd, fds[fd].(needClose := false));
        fds[fd] := fds[fd].(needClose := false);
        ListDelInit(fd);
        close := Without(close, k);
        assert fds[..] == old(fds[..])[fd := old(fds[fd]).(needClose := false)];
      }
    }

    /** `add_to_close_queue`: off the etin queue first, so never on both. */
    method AddToClose(fd: nat)
      requires Valid() && fd < fds.Length && fds[fd].typ != Unused
      modifies this`etin, this`close, fds, nodes
      ensures Valid() && fd !in etin && Removed(old(etin), fd, etin)
      ensures close == if old(fds[fd]).needClose then old(close) else old(close) + [fd]
      ensures fds[..] == old(fds[..])[fd := old(fds[fd]).(needPollin := false, needClose := true)]
    {
      DelFromEtin(fd);
      if !fds[fd].needClose {
        PushClose(fd);
      }
      assert fds[..] == old(fds[..])[fd := old(fds[fd]).(needPollin := false, needClose := true)];
    }

    method PushClose(fd: nat)
      requires Valid() && fd < fds.Length && fds[fd].typ != Unused && fd !in etin && fd !in close
      modifies this`close, fds, nodes
      ensures Valid() && close == old(close) + [fd]
      ensures fds[..] == old(fds[..])[fd := old(fds[fd]).(needClose := true)]
    {
      PushCloseQueues(fds[..], nodes[..], etin, close, fd);
      SameSummary(fds[..], maxfd, count, fd, fds[fd].(needClose := true));
      ListPushTail(fd, fds.Length + 1);
      fds[fd] := fds[fd].(needClose := true);
      close := close + [fd];
      assert fds[..] == old(fds[..])[fd := old(fds[fd]).(needClose := true)];
    }

    /** Write a whole record and zero its node. */
    method Reset(fd: nat, info: FdInfo)
      requires fds as object != nodes && fd < fds.Length && fd < nodes.Length
      modifies fds, nodes
      ensures fds[..] == old(fds[..])[fd := info] && nodes[..] == old(nodes[..])[fd := Links(NULL, NULL)]
    {
      fds[fd] := info;
      nodes[fd] := Links(NULL, NULL);
    }

    /** `do_add_conn`: the record and its node are zeroed first, so no flag of an earlier user survives;
        the id is the next of the sequence, never 0. */
    method AddConn(fd: nat, typ: FdType, worker: int, now: int)
      requires Valid() && fd < fds.Length && fds[fd].typ == Unused && typ != Unused
      modifies this`seqno, this`maxfd, this`count, fds, nodes
      ensures Valid() && fd !in etin && fd !in close
      ensures seqno == Sessions.NextSeq(old(seqno)) && seqno != 0
      ensures fds[..] == old(fds[..])[fd := FdInfo(typ, false, false, seqno, worker, now)]
      ensures count == old(count) + 1 && maxfd == if old(maxfd) > fd then old(maxfd) else fd
    {
      seqno := (seqno + 1) % 0x1_0000_0000;
      if seqno == 0 {
        seqno := 1;
      }
      var info := FdInfo(typ, false, false, seqno, worker, now);
      AddSummary(fds[..], maxfd, count, fd, info);
      RewriteIdle(fds[..], nodes[..], etin, close, fd, info, Links(NULL, NULL));
      Reset(fd, info);
      maxfd := if maxfd > fd then maxfd else fd;
      count := count + 1;
    }

    /** The backward scan of `do_del_conn` for the new highest fd. */
    method HighestBelow(fd: nat) returns (i: int)
      requires fd <= fds.Length
      ensures -1 <= i < fd && (i >= 0 ==> fds[i].typ != Unused)
      ensures forall j :: i < j < fd ==> fds[j].typ == Unused
    {
      i := fd - 1;
      while i >= 0 && fds[i].typ == Unused
        invariant -1 <= i < fd
        invariant forall j :: i < j < fd ==> fds[j].typ == Unused
      {
        i := i - 1;
      }
    }

    /** `do_del_conn`: nothing for an unused fd, else off both queues, unused, and out of the summaries;
        in mode 1 its worker is sent a CLOSE with its id. */
    method DelConn(fd: nat, mode: int)
      requires Valid() && fd < fds.Length
      modifies this`etin, this`close, this`maxfd, this`count, this`closes, fds, nodes
      ensures Valid() && fds[..] == old(fds[..])[fd := Freed(old(fds[fd]))]
      ensures count == old(count) - if old(fds[fd]).typ == Unused then 0 else 1
      ensures maxfd <= old(maxfd)
      ensures Removed(old(etin), fd, etin) && Removed(old(close), fd, close)
      ensures closes == old(closes) +
        if mode == 1 && old(fds[fd]).typ != Unused then [CloseOf(fd, old(fds[fd]))] else []
    {
      if fds[fd].typ == Unused {
        assert fds[..] == old(fds[..])[fd := fds[fd]];
        return;
      }
      if mode == 1 {
        closes := closes + [CloseBlock(fds[fd].worker, fd, fds[fd].id)];
      }
      Release(fd);
    }

    method Release(fd: nat)
      requires Valid() && fd < fds.Length && fds[fd].typ != Unused
      modifies this`etin, this`close, this`maxfd, this`count, fds, nodes
      ensures Valid() && fds[..] == old(fds[..])[fd := Freed(old(fds[fd]))]
      ensures count == old(count) - 1 && maxfd <= old(maxfd)
      ensures Removed(old(etin), fd, etin) && Removed(old(close), fd, close)
    {
      Unlink(fd);
      Free(fd);
      assert fds[..] == old(fds[..])[fd := Freed(old(fds[fd]))];
    }

    /** Off both queues. */
    method Unlink(fd: nat)
      requires Valid() && fd < fds.Length
      modifies this`etin, this`close, fds, nodes
      ensures Valid() && fd !in etin && fd !in close
      ensures Removed(old(etin), fd, etin) && Removed(old(close), fd, close)
      ensures fds[..] == old(fds[..])[fd := old(fds[fd]).(needPollin := false, needClose := false)]
    {
      DelFromEtin(fd);
      DelFromClose(fd);
    }

    /** The end of `do_del_conn`, for an fd already off both queues. */
    method Free(fd: nat)
      requires Valid() && fd < fds.Length && fds[fd].typ != Unused && fd !in etin && fd !in close
      modifies this`maxfd, this`count, fds
      ensures Valid() && count == old(count) - 1 && maxfd <= old(maxfd)
      ensures fds[..] == old(fds[..])[fd := old(fds[fd]).(typ := Unused)]
    {
      UsedUpdate(fds[..], fd, fds[fd].(typ := Unused));
      fds[fd] := fds[fd].(typ := Unused);
      assert fds[..] == old(fds[..])[fd := old(fds[fd]).(typ := Unused)];
      count := count - 1;
      if maxfd == fd {
        maxfd := HighestBelow(fd);
      }
    }

    /** One turn of a sweep over all fds. */
    method DropIf(i: nat, go: FdInfo -> bool, ghost before: seq<FdInfo>, ghost sent: seq<CloseBlock>)
      requires Valid() && i < fds.Length && DroppedTo(before, fds[..], i, go) && closes == sent + Closes(before, i, go)
      modifies this`etin, this`close, this`maxfd, this`count, this`closes, fds, nodes
      ensures Valid() && DroppedTo(before, fds[..], i + 1, go) && closes == sent + Closes(before, i + 1, go)
      ensures maxfd <= old(maxfd)
    {
      assert fds[..][i] == before[i];
      if go(fds[i]) {
        DelConn(i, 1);
      }
    }

    /** A sweep up to `maxfd`: the bound shrinks as it deletes, yet exactly the fds that `go` picks are
        dropped, and their workers are told in the order of the fds. */
    method Sweep(go: FdInfo -> bool)
      requires Valid()
      modifies this`etin, this`close, this`maxfd, this`count, this`closes, fds, nodes
      ensures Valid() && DroppedTo(old(fds[..]), fds[..], fds.Length, go)
      ensures closes == old(closes) + Closes(old(fds[..]), fds.Length, go)
    {
      var i := 0;
      while i <= maxfd
        invariant Valid() && 0 <= i <= fds.Length
        invariant DroppedTo(old(fds[..]), fds[..], i, go) && closes == old(closes) + Closes(old(fds[..]), i, go)
        decreases fds.Length - i
      {
        DropIf(i, go, old(fds[..]), old(closes));
        i := i + 1;
      }
      NoMoreDrops(old(fds[..]), fds[..], i, go);
    }

    /** The timeout sweep drops exactly the expired clients. */
    method SweepTimeout(now: int, timeout: int)
      requires Valid()
      modifies this`etin, this`close, this`maxfd, this`count, this`closes, fds, nodes
      ensures Valid() && DroppedTo(old(fds[..]), fds[..], fds.Length, Expired(now, timeout))
      ensures forall fd :: 0 <= fd < fds.Length ==>
        fds[fd] == if old(fds[fd]).typ == Remote && now - old(fds[fd]).lastTm >= timeout then Freed(old(fds[fd]))
                   else old(fds[fd])
      ensures closes == old(closes) + Closes(old(fds[..]), fds.Length, Expired(now, timeout))
    {
      Sweep(Expired(now, timeout));
    }

    /** The sweep after a worker crashed drops exactly its fds other than listeners. */
    method SweepCrashed(worker: int)
      requires Valid()
      modifies this`etin, this`close, this`maxfd, this`count, this`closes, fds, nodes
      ensures Valid() && DroppedTo(old(fds[..]), fds[..], fds.Length, Orphaned(worker))
      ensures forall fd :: 0 <= fd < fds.Length ==>
        fds[fd] == if old(fds[fd]).worker == worker && old(fds[fd]).typ != Listen then Freed(old(fds[fd]))
                   else old(fds[fd])
      ensures closes == old(closes) + Closes(old(fds[..]), fds.Length, Orphaned(worker))
    {
      Sweep(Orphaned(worker));
    }

    /** `iterate_close_queue` in the parent: visits exactly the fds queued at its start, in order, and
        frees each without a CLOSE; the queue ends empty. */
    method IterateClose() returns (visited: seq<nat>)
      requires Valid()
      modifies this`etin, this`close, this`maxfd, this`count, this`closes, fds, nodes
      ensures Valid() && visited == old(close) && close == [] && Swept(old(fds[..]), fds[..], visited)
      ensures closes == old(closes)
    {
      visited := [];
      ghost var all := close;
      var pos, n := CloseFirst();
      while pos != fds.Length + 1
        invariant Valid() && closes == old(closes) && AtFront(pos, n)
        invariant Split(all, visited, close) && Swept(old(fds[..]), fds[..], visited)
        decreases |close|
      {
        pos, n, visited := CloseStep(pos, n, visited, all, old(fds[..]));
      }
      CloseIsEmpty();
    }

    /** `pos` is the first on the close queue, or its head, and `n` the one after it. */
    ghost predicate AtFront(pos: nat, n: int)
      reads this, nodes
    {
      pos == Nth(close, 0, fds.Length + 1) && pos < nodes.Length && n == nodes[pos].next
    }

    lemma CloseIsEmpty()
      requires Valid() && Nth(close, 0, fds.Length + 1) == fds.Length + 1
      ensures close == []
    {
      if close != [] {
        HeadIsNoMember(close, 0, fds.Length + 1);
      }
    }

    method CloseFirst() returns (pos: nat, n: nat)
      requires Valid()
      ensures AtFront(pos, n)
    {
      FirstHop(nodes[..], fds.Length + 1, close);
      pos := nodes[fds.Length + 1].next;
      n := nodes[pos].next;
    }

    /** The body of the sweep and the macro's step: `n` was read before the body ran. */
    method CloseStep(pos: nat, n: nat, visited: seq<nat>, ghost all: seq<nat>, ghost before: seq<FdInfo>)
      returns (pos': nat, n': nat, visited': seq<nat>)
      requires Valid() && AtFront(pos, n) && pos != fds.Length + 1
      requires Split(all, visited, close) && Swept(before, fds[..], visited)
      modifies this`etin, this`close, this`maxfd, this`count, this`closes, fds, nodes
      ensures Valid() && AtFront(pos', n') && closes == old(closes) && |close| < |old(close)|
      ensures Split(all, visited', close) && Swept(before, fds[..], visited')
    {
      Shift(all, visited, close);
      pos', n' := FreeFront(pos, n);
      SweptMore(before, old(fds[..]), fds[..], visited, pos);
      visited' := visited + [pos];
    }

    method FreeFront(pos: nat, n: nat) returns (pos': nat, n': nat)
      requires Valid() && AtFront(pos, n) && close != []
      modifies this`etin, this`close, this`maxfd, this`count, this`closes, fds, nodes
      ensures Valid() && AtFront(pos', n') && close == old(close)[1..] && closes == old(closes)
      ensures pos < fds.Length && fds[..] == old(fds[..])[pos := Freed(old(fds[pos]))]
    {
      FirstHop(nodes[..], fds.Length + 1, close);
      assert pos in close;
      DelConn(pos, 2);
      FirstHop(nodes[..], fds.Length + 1, close);
      pos' := n;
      n' := nodes[pos'].next;
    }

    /** The accept loop of a listener: each new fd was unused; one whose OPEN was refused goes again,
        without a CLOSE. */
    method AcceptAll(news: seq<(nat, bool)>, worker: int, now: int)
      requires Valid()
      modifies this`etin, this`close, this`maxfd, this`count, this`seqno, this`closes, fds, nodes
      ensures Valid() && etin == old(etin) && close == old(close) && closes == old(closes)
      ensures UsedKept(old(fds[..]), fds[..])
      ensures Accepted(fds[..], seqno) == AfterAccepts(Accepted(old(fds[..]), old(seqno)), news, worker, now)
    {
      for i := 0 to |news|
        invariant Valid() && etin == old(etin) && close == old(close) && closes == old(closes)
        invariant UsedKept(old(fds[..]), fds[..])
        invariant Accepted(fds[..], seqno) == AfterAccepts(Accepted(old(fds[..]), old(seqno)), news[..i], worker, now)
      {
        ghost var mid := fds[..];
        NextAccept(Accepted(old(fds[..]), old(seqno)), news, i, worker, now);
        AcceptNext(news[i].0, news[i].1, worker, now);
        UsedKeptMore(old(fds[..]), mid, fds[..], news[i].0);
      }
      assert news[..|news|] == news;
    }

    /** One turn of the loop; `accept` only returns fds that are free. */
    method AcceptNext(fd: nat, pushed: bool, worker: int, now: int)
      requires Valid()
      modifies this`etin, this`close, this`maxfd, this`count, this`seqno, this`closes, fds, nodes
      ensures Valid() && etin == old(etin) && close == old(close) && closes == old(closes)
      ensures Accepted(fds[..], seqno) == AfterAccept(Accepted(old(fds[..]), old(seqno)), (fd, pushed), worker, now)
    {
      if fd < fds.Length && fds[fd].typ == Unused {
        AcceptOne(fd, pushed, worker, now);
      }
    }

    /** `do_open_conn` on a connection accepted as `fd`. */
    method AcceptOne(fd: nat, pushed: bool, worker: int, now: int)
      requires Valid() && fd < fds.Length && fds[fd].typ == Unused
      modifies this`etin, this`close, this`maxfd, this`count, this`seqno, this`closes, fds, nodes
      ensures Valid() && etin == old(etin) && close == old(close) && closes == old(closes)
      ensures fds[..] == old(fds[..])[fd := fds[fd]] && seqno == Sessions.NextSeq(old(seqno))
      ensures var info := FdInfo(Remote, false, false, seqno, worker, now);
        fds[fd] == if pushed then info else Freed(info)
    {
      AddConn(fd, Remote, worker, now);
      if !pushed {
        DelConn(fd, 2);
      }
    }

    /** What the sweep does at one fd; other records in use are untouched. */
    method VisitOne(fd: nat, v: Visit, news: seq<(nat, bool)>, now: int)
      requires Valid() && fd < fds.Length && fd in etin
      modifies this`etin, this`close, this`maxfd, this`count, this`seqno, this`closes, fds, nodes
      ensures Valid() && close == old(close)
      ensures if v == Stays then etin == old(etin) else Removed(old(etin), fd, etin)
      ensures VisitedOne(old(fds[..]), fds[..], fd, v) && closes == old(closes) + FailClose(fd, old(fds[fd]), v)
      ensures Accepted(fds[..], seqno) == AfterVisitAt(Accepted(old(fds[..]), old(seqno)), fd, v, news, now)
    {
      if fds[fd].typ == Listen {
        AcceptAll(news, fds[fd].worker, now);
        assert fds[..][fd] == old(fds[..])[fd];
        if v == Stays {
          AddToEtin(fd);
        } else {
          DelFromEtin(fd);
        }
      } else {
        VisitClient(fd, v);
      }
    }

    method VisitClient(fd: nat, v: Visit)
      requires Valid() && fd < fds.Length && fd in etin && fds[fd].typ != Listen
      modifies this`etin, this`close, this`maxfd, this`count, this`closes, fds, nodes
      ensures Valid() && close == old(close)
      ensures if v == Stays then etin == old(etin) else Removed(old(etin), fd, etin)
      ensures fds[..] == old(fds[..])[fd := AfterVisit(old(fds[fd]), v)]
      ensures closes == old(closes) + FailClose(fd, old(fds[fd]), v)
    {
      match v
      case Stays => AddToEtin(fd);
      case Drained => DelFromEtin(fd);
      case Failed => DelConn(fd, 1);
    }

    /** Body and macro step of the etin sweep, with `done` still queued in front. */
    method EtinStep(pos: nat, n: nat, v: Visit, news: seq<(nat, bool)>, now: int,
                    ghost done: seq<nat>, ghost rest: seq<nat>)
      returns (pos': nat, n': nat)
      requires Valid() && etin == done + rest && rest != [] && pos == rest[0]
      requires EtinAt(pos, n, rest)
      modifies this`etin, this`close, this`maxfd, this`count, this`seqno, this`closes, fds, nodes
      ensures Valid() && close == old(close)
      ensures etin == done + (if v == Stays then [pos] else []) + rest[1..]
      ensures EtinAt(pos', n', rest[1..])
      ensures VisitedOne(old(fds[..]), fds[..], pos, v)
      ensures pos < fds.Length && closes == old(closes) + FailClose(pos, old(fds[pos]), v)
      ensures Accepted(fds[..], seqno) == AfterVisitAt(Accepted(old(fds[..]), old(seqno)), pos, v, news, now)
    {
      AroundFront(etin, done, rest, fds.Length);
      Hop(nodes[..], fds.Length, etin, |done|);
      assert pos in etin;
      VisitOne(pos, v, news, now);
      pos' := n;
      HopAny(nodes[..], fds.Length, etin, pos');
      n' := nodes[pos'].next;
    }

    method EtinFirst() returns (pos: nat, n: nat)
      requires Valid()
      ensures EtinAt(pos, n, etin)
    {
      HopAny(nodes[..], fds.Length, etin, fds.Length);
      pos := nodes[fds.Length].next;
      HopAny(nodes[..], fds.Length, etin, pos);
      n := nodes[pos].next;
    }

    /** `iterate_etin_queue` in the parent: visits exactly the fds queued at its start, each once and in
        order, whatever each visit does to the queue; those not drained stay queued.  Clients that
        failed are dropped and their workers told, in that order; every other record that was in use is
        as its visit left it. */
    method IterateEtin(visit: nat -> Visit, accepts: nat -> seq<(nat, bool)>, now: int) returns (visited: seq<nat>)
      requires Valid()
      modifies this`etin, this`close, this`maxfd, this`count, this`seqno, this`closes, fds, nodes
      ensures Valid() && close == old(close) && visited == old(etin) && etin == Staying(old(etin), visit)
      ensures VisitedAll(old(fds[..]), fds[..], visited, visit)
      ensures closes == old(closes) + FailCloses(old(fds[..]), visited, visit)
      ensures Accepted(fds[..], seqno) ==
        AfterSweep(Accepted(old(fds[..]), old(seqno)), visited, visit, accepts, now)
    {
      visited := [];
      ghost var all, rest, done := etin, etin, [];
      StartOfSweep(fds[..], etin, visit, closes);
      var pos, n := EtinFirst();
      while pos != fds.Length
        invariant Valid() && close == old(close) && etin == done + rest && EtinAt(pos, n, rest)
        invariant Halfway(all, visit, visited, done, rest)
        invariant Records(old(fds[..]), fds[..], all, visited, visit, old(closes), closes)
        invariant Accepted(fds[..], seqno) ==
          AfterSweep(Accepted(old(fds[..]), old(seqno)), visited, visit, accepts, now)
        decreases |rest|
      {
        NextVisit(Accepted(old(fds[..]), old(seqno)), visited, pos, visit, accepts, now);
        pos, n, visited, done, rest :=
          EtinTurn(pos, n, visit, accepts, now, visited, all, done, rest, old(fds[..]), old(closes));
      }
      AllVisited(all, visit, visited, done, rest, fds.Length);
    }

    /** `pos` is the next fd to visit, or the head, and `n` the one after it. */
    ghost predicate EtinAt(pos: nat, n: int, rest: seq<nat>)
      reads nodes
    {
      pos == Nth(rest, 0, fds.Length) && pos < nodes.Length && n == nodes[pos].next
    }

    /** One turn of the sweep, with all that is known about the turns before it. */
    method EtinTurn(pos: nat, n: nat, visit: nat -> Visit, accepts: nat -> seq<(nat, bool)>, now: int,
                    visited: seq<nat>,
                    ghost all: seq<nat>, ghost done: seq<nat>, ghost rest: seq<nat>,
                    ghost before: seq<FdInfo>, ghost sent: seq<CloseBlock>)
      returns (pos': nat, n': nat, visited': seq<nat>, ghost done': seq<nat>, ghost rest': seq<nat>)
      requires Valid() && etin == done + rest && EtinAt(pos, n, rest) && pos != fds.Length
      requires Halfway(all, visit, visited, done, rest) && Records(before, fds[..], all, visited, visit, sent, closes)
      modifies this`etin, this`close, this`maxfd, this`count, this`seqno, this`closes, fds, nodes
      ensures Valid() && close == old(close) && etin == done' + rest' && EtinAt(pos', n', rest') && |rest'| < |rest|
      ensures Halfway(all, visit, visited', done', rest')
      ensures Records(before, fds[..], all, visited', visit, sent, closes) && visited' == visited + [pos]
      ensures Accepted(fds[..], seqno) ==
        AfterVisitAt(Accepted(old(fds[..]), old(seqno)), pos, visit(pos), accepts(pos), now)
    {
      Turn(all, visit, visited, done, rest);
      NotYet(before, fds[..], all, visited, rest, visit, sent, closes);
      pos', n' := EtinStep(pos, n, visit(pos), accepts(pos), now, done, rest);
      RecordsMore(before, old(fds[..]), fds[..], all, visited, visit, pos, sent, old(closes), closes);
      visited' := visited + [pos];
      done', rest' := done + if visit(pos) == Stays then [pos] else [], rest[1..];
    }
  }

  // ----- what the sweeps do to the records -----

  function Expired(now: int, timeout: int): FdInfo -> bool {
    (f: FdInfo) => f.typ == Remote && now - f.lastTm >= timeout
  }

  function Orphaned(worker: int): FdInfo -> bool {
    (f: FdInfo) => f.worker == worker && f.typ != Listen
  }

  /** The fds below `i` that `go` picks are freed; all others are as they were. */
  predicate DroppedTo(before: seq<FdInfo>, after: seq<FdInfo>, i: nat, go: FdInfo -> bool) {
    |before| == |after| &&
    forall fd :: 0 <= fd < |after| ==> after[fd] == if fd < i && go(before[fd]) then Freed(before[fd]) else before[fd]
  }

  /** The CLOSE blocks for them, in the order of the fds. */
  function Closes(fds: seq<FdInfo>, i: nat, go: FdInfo -> bool): seq<CloseBlock>
    requires i <= |fds|
  {
    if i == 0 then []
    else
      var info := fds[i - 1];
      Closes(fds, i - 1, go) + if go(info) && info.typ != Unused then [CloseOf(i - 1, info)] else []
  }

  /** Beyond `maxfd` there is nothing to drop. */
  lemma {:induction false} NoMoreDrops(before: seq<FdInfo>, after: seq<FdInfo>, i: nat, go: FdInfo -> bool)
    requires i <= |before| && DroppedTo(before, after, i, go)
    requires forall fd :: i <= fd < |after| ==> after[fd].typ == Unused
    ensures DroppedTo(before, after, |before|, go) && Closes(before, |before|, go) == Closes(before, i, go)
    decreases |before| - i
  {
    if i == |before| {
    } else {
      assert after[i] == before[i];
      NoMoreDrops(before, after, i + 1, go);
    }
  }

  /** Unused, or a client on no queue. */
  predicate Idle(info: FdInfo) {
    (info.typ == Unused || info.typ == Remote) && !info.needPollin && !info.needClose
  }

  /** Records in use are kept; others may become those of new clients. */
  predicate UsedKept(before: seq<FdInfo>, after: seq<FdInfo>) {
    |before| == |after| &&
    forall fd :: 0 <= fd < |after| && after[fd] != before[fd] ==> before[fd].typ == Unused && Idle(after[fd])
  }

  lemma UsedKeptMore(before: seq<FdInfo>, mid: seq<FdInfo>, after: seq<FdInfo>, fd: nat)
    requires UsedKept(before, mid) && |mid| == |after|
    requires after == mid ||
      (fd < |mid| && mid[fd].typ == Unused && after == mid[fd := after[fd]] && Idle(after[fd]))
    ensures UsedKept(before, after)
  {
  }

  /** The table and the sequence counter. */
  datatype Accepted = Accepted(fds: seq<FdInfo>, seqno: nat)

  /** A free fd becomes a client under the next id, or is freed again if its OPEN was refused. */
  function AfterAccept(a: Accepted, conn: (nat, bool), worker: int, now: int): Accepted {
    if conn.0 < |a.fds| && a.fds[conn.0].typ == Unused then
      var id := Sessions.NextSeq(a.seqno);
      var info := FdInfo(Remote, false, false, id, worker, now);
      Accepted(a.fds[conn.0 := if conn.1 then info else Freed(info)], id)
    else a
  }

  function AfterAccepts(a: Accepted, news: seq<(nat, bool)>, worker: int, now: int): Accepted {
    if news == [] then a
    else AfterAccept(AfterAccepts(a, news[..|news| - 1], worker, now), news[|news| - 1], worker, now)
  }

  lemma NextAccept(a: Accepted, news: seq<(nat, bool)>, i: nat, worker: int, now: int)
    requires i < |news|
    ensures AfterAccepts(a, news[..i + 1], worker, now) ==
      AfterAccept(AfterAccepts(a, news[..i], worker, now), news[i], worker, now)
  {
    assert news[..i + 1][..i] == news[..i];
  }

  /** The counter after `n` more connections. */
  function IdAfter(seqno: nat, n: nat): nat {
    if n == 0 then seqno else Sessions.NextSeq(IdAfter(seqno, n - 1))
  }

  /** The fds are free and different, as `accept` returns them. */
  predicate FreeFds(fds: seq<FdInfo>, news: seq<(nat, bool)>) {
    (forall i :: 0 <= i < |news| ==> news[i].0 < |fds| && fds[news[i].0].typ == Unused) &&
    forall i, j :: 0 <= i < j < |news| ==> news[i].0 != news[j].0
  }

  /** Every connection of `news` is a client of its own, numbered in the order of arrival, or freed again;
      nothing else has changed. */
  predicate AcceptedAs(a: Accepted, r: Accepted, news: seq<(nat, bool)>, worker: int, now: int) {
    |r.fds| == |a.fds| && r.seqno == IdAfter(a.seqno, |news|) &&
    (forall i :: 0 <= i < |news| && news[i].0 < |r.fds| ==>
      var info := FdInfo(Remote, false, false, IdAfter(a.seqno, i + 1), worker, now);
      r.fds[news[i].0] == if news[i].1 then info else Freed(info)) &&
    (forall fd :: 0 <= fd < |a.fds| && (forall i :: 0 <= i < |news| ==> news[i].0 != fd) ==> r.fds[fd] == a.fds[fd])
  }

  lemma AcceptsMore(a: Accepted, r: Accepted, news: seq<(nat, bool)>, worker: int, now: int)
    requires news != [] && FreeFds(a.fds, news) && AcceptedAs(a, r, news[..|news| - 1], worker, now)
    ensures AcceptedAs(a, AfterAccept(r, news[|news| - 1], worker, now), news, worker, now)
  {
    var before, last := news[..|news| - 1], news[|news| - 1];
    assert forall i :: 0 <= i < |before| ==> before[i] == news[i] && news[i].0 != last.0;
    assert r.fds[last.0] == a.fds[last.0];
  }

  lemma {:induction false} AcceptsExact(a: Accepted, news: seq<(nat, bool)>, worker: int, now: int)
    requires FreeFds(a.fds, news)
    ensures AcceptedAs(a, AfterAccepts(a, news, worker, now), news, worker, now)
  {
    if news == [] {
    } else {
      AcceptsExact(a, news[..|news| - 1], worker, now);
      AcceptsMore(a, AfterAccepts(a, news[..|news| - 1], worker, now), news, worker, now);
    }
  }

  /** What a visit makes of the table. */
  function AfterVisitAt(a: Accepted, fd: nat, v: Visit, news: seq<(nat, bool)>, now: int): Accepted {
    if fd >= |a.fds| then a
    else if a.fds[fd].typ == Listen then
      var b := AfterAccepts(a, news, a.fds[fd].worker, now);
      if fd < |b.fds| then b.(fds := b.fds[fd := b.fds[fd].(needPollin := v == Stays)]) else b
    else a.(fds := a.fds[fd := AfterVisit(a.fds[fd], v)])
  }

  /** What the visits of a sweep make of it, one after the other. */
  function AfterSweep(a: Accepted, visited: seq<nat>, visit: nat -> Visit, accepts: nat -> seq<(nat, bool)>, now: int):
    Accepted
  {
    if visited == [] then a
    else
      var fd := visited[|visited| - 1];
      AfterVisitAt(AfterSweep(a, visited[..|visited| - 1], visit, accepts, now), fd, visit(fd), accepts(fd), now)
  }

  lemma NextVisit(a: Accepted, visited: seq<nat>, fd: nat, visit: nat -> Visit, accepts: nat -> seq<(nat, bool)>,
                  now: int)
    ensures AfterSweep(a, visited + [fd], visit, accepts, now) ==
      AfterVisitAt(AfterSweep(a, visited, visit, accepts, now), fd, visit(fd), accepts(fd), now)
  {
    assert (visited + [fd])[..|visited|] == visited;
  }

  predicate Fails(info: FdInfo, v: Visit) {
    v == Failed && info.typ != Listen
  }

  function AfterVisit(info: FdInfo, v: Visit): FdInfo {
    if v == Stays then info else if Fails(info, v) then Freed(info) else info.(needPollin := false)
  }

  function FailClose(fd: nat, info: FdInfo, v: Visit): seq<CloseBlock> {
    if Fails(info, v) && info.typ != Unused then [CloseOf(fd, info)] else []
  }

  /** A visit changes the visited record, and otherwise only records that were unused. */
  predicate VisitedOne(before: seq<FdInfo>, after: seq<FdInfo>, fd: nat, v: Visit) {
    |before| == |after| && fd < |after| && after[fd] == AfterVisit(before[fd], v) &&
    forall x :: 0 <= x < |after| && x != fd && after[x] != before[x] ==> before[x].typ == Unused && Idle(after[x])
  }

  /** Every record that was in use is as its visit left it; one freed on the way is free, or already a new
      client's. */
  predicate VisitedAll(before: seq<FdInfo>, after: seq<FdInfo>, visited: seq<nat>, visit: nat -> Visit) {
    |before| == |after| &&
    forall x :: 0 <= x < |after| && before[x].typ != Unused ==>
      if x !in visited then after[x] == before[x]
      else if Fails(before[x], visit(x)) then Idle(after[x])
      else after[x] == AfterVisit(before[x], visit(x))
  }

  lemma VisitedMore(before: seq<FdInfo>, mid: seq<FdInfo>, after: seq<FdInfo>, visited: seq<nat>,
                    visit: nat -> Visit, fd: nat)
    requires VisitedAll(before, mid, visited, visit) && VisitedOne(mid, after, fd, visit(fd))
    requires fd !in visited && mid[fd] == before[fd]
    ensures VisitedAll(before, after, visited + [fd], visit)
  {
  }

  function FailCloses(fds: seq<FdInfo>, visited: seq<nat>, visit: nat -> Visit): seq<CloseBlock> {
    if visited == [] then []
    else
      var fd := visited[|visited| - 1];
      FailCloses(fds, visited[..|visited| - 1], visit) + if fd < |fds| then FailClose(fd, fds[fd], visit(fd)) else []
  }

  lemma FailClosesMore(fds: seq<FdInfo>, visited: seq<nat>, visit: nat -> Visit, fd: nat)
    requires fd < |fds|
    ensures FailCloses(fds, visited + [fd], visit) ==
      FailCloses(fds, visited, visit) + FailClose(fd, fds[fd], visit(fd))
  {
    assert (visited + [fd])[..|visited|] == visited;
  }

  /** What the sweep over `all` has done to the records and sent, having visited `visited`. */
  predicate Records(before: seq<FdInfo>, after: seq<FdInfo>, all: seq<nat>, visited: seq<nat>, visit: nat -> Visit,
                    sent: seq<CloseBlock>, closes: seq<CloseBlock>) {
    VisitedAll(before, after, visited, visit) && closes == sent + FailCloses(before, visited, visit) &&
    Distinct(all) && forall fd :: fd in all ==> fd < |before| && before[fd].typ != Unused
  }

  lemma StartOfSweep(fds: seq<FdInfo>, etin: seq<nat>, visit: nat -> Visit, closes: seq<CloseBlock>)
    requires Distinct(etin) && Members(etin, |fds|)
    requires forall fd :: fd in etin ==> fd < |fds| && fds[fd].typ != Unused
    ensures Records(fds, fds, etin, [], visit, closes, closes)
    ensures Halfway(etin, visit, [], [], etin) && [] + etin == etin
  {
    assert closes + [] == closes;
  }

  lemma RecordsMore(before: seq<FdInfo>, mid: seq<FdInfo>, after: seq<FdInfo>, all: seq<nat>, visited: seq<nat>,
                    visit: nat -> Visit, fd: nat,
                    sent: seq<CloseBlock>, closes: seq<CloseBlock>, closes': seq<CloseBlock>)
    requires Records(before, mid, all, visited, visit, sent, closes) && VisitedOne(mid, after, fd, visit(fd))
    requires fd !in visited && mid[fd] == before[fd] && closes' == closes + FailClose(fd, before[fd], visit(fd))
    ensures Records(before, after, all, visited + [fd], visit, sent, closes')
  {
    VisitedMore(before, mid, after, visited, visit, fd);
    FailClosesMore(before, visited, visit, fd);
  }

  /** The next fd to visit has not been visited, and its record is as it was at the start. */
  lemma NotYet(before: seq<FdInfo>, mid: seq<FdInfo>, all: seq<nat>, visited: seq<nat>, rest: seq<nat>,
               visit: nat -> Visit, sent: seq<CloseBlock>, closes: seq<CloseBlock>)
    requires Records(before, mid, all, visited, visit, sent, closes) && visited + rest == all && rest != []
    ensures rest[0] !in visited && rest[0] < |mid| && mid[rest[0]] == before[rest[0]]
  {
    assert all[|visited|] == rest[0];
    assert rest[0] in all;
    forall i | 0 <= i < |visited|
      ensures visited[i] != rest[0]
    {
      assert all[i] == visited[i];
    }
  }

  /** The queue around the fd to be visited. */
  lemma AroundFront(etin: seq<nat>, done: seq<nat>, rest: seq<nat>, head: nat)
    requires etin == done + rest && rest != []
    ensures |done| < |etin| && etin[|done|] == rest[0] && Nth(etin, |done| + 1, head) == Nth(rest[1..], 0, head)
    ensures Without(etin, |done|) == done + [] + rest[1..] && etin == done + [rest[0]] + rest[1..]
  {
  }

  /** The sweep has visited a prefix of `all` and has `rest` to go; `done` is what it left queued. */
  predicate Halfway(all: seq<nat>, visit: nat -> Visit, visited: seq<nat>, done: seq<nat>, rest: seq<nat>) {
    visited + rest == all && done == Staying(visited, visit)
  }

  lemma Turn(all: seq<nat>, visit: nat -> Visit, visited: seq<nat>, done: seq<nat>, rest: seq<nat>)
    requires Halfway(all, visit, visited, done, rest) && rest != []
    ensures var done' := done + if visit(rest[0]) == Stays then [rest[0]] else [];
      Halfway(all, visit, visited + [rest[0]], done', rest[1..])
  {
    assert (visited + [rest[0]])[..|visited|] == visited;
  }

  lemma HeadIsNoMember(list: seq<nat>, k: nat, head: nat)
    requires Members(list, head) && k < |list|
    ensures list[k] != head
  {
    assert list[k] in list;
  }

  lemma AllVisited(all: seq<nat>, visit: nat -> Visit, visited: seq<nat>, done: seq<nat>, rest: seq<nat>, head: nat)
    requires Halfway(all, visit, visited, done, rest) && Members(all, head) && Nth(rest, 0, head) == head
    ensures visited == all && done + rest == Staying(all, visit)
  {
    if rest != [] {
      HeadIsNoMember(all, |visited|, head);
    }
    assert visited + [] == visited && done + [] == done;
  }

  /** Those whose visit left them queued, in order. */
  function Staying(list: seq<nat>, visit: nat -> Visit): seq<nat> {
    if list == [] then []
    else
      var last := list[|list| - 1];
      Staying(list[..|list| - 1], visit) + if visit(last) == Stays then [last] else []
  }

  /** Where `next` leads from position `k`. */
  lemma Hop(nodes: seq<Links>, head: nat, list: seq<nat>, k: nat)
    requires IsRing(nodes, head, list) && k < |list|
    ensures nodes[list[k]].next == Nth(list, k + 1, head) < |nodes|
  {
    assert nodes[list[k]] == Links(Before(head, list, k), After(head, list, k));
  }

  lemma HopAny(nodes: seq<Links>, head: nat, list: seq<nat>, p: nat)
    requires IsRing(nodes, head, list) && (p == head || p in list)
    ensures 0 <= nodes[p].next < |nodes| && (nodes[p].next == head || nodes[p].next in list)
    ensures p == head ==> nodes[p].next == Nth(list, 0, head)
  {
    if p in list {
      var k :| 0 <= k < |list| && list[k] == p;
      Hop(nodes, head, list, k);
    }
  }

  lemma SweptMore(before: seq<FdInfo>, mid: seq<FdInfo>, after: seq<FdInfo>, visited: seq<nat>, fd: nat)
    requires Swept(before, mid, visited) && fd < |mid| == |after| && after == mid[fd := Freed(mid[fd])]
    ensures Swept(before, after, visited + [fd])
  {
  }

  predicate Split(all: seq<nat>, visited: seq<nat>, rest: seq<nat>) {
    visited + rest == all
  }

  lemma Shift(all: seq<nat>, visited: seq<nat>, rest: seq<nat>)
    requires Split(all, visited, rest) && rest != []
    ensures Split(all, visited + [rest[0]], rest[1..])
  {
  }

  /** The visited fds are free; the others are as they were. */
  predicate Swept(before: seq<FdInfo>, after: seq<FdInfo>, visited: seq<nat>) {
    |before| == |after| &&
    forall fd :: 0 <= fd < |after| ==> after[fd] == if fd in visited then Freed(before[fd]) else before[fd]
  }

  /** The `k`-th member, or the head after the last. */
  function Nth(list: seq<nat>, k: nat, head: nat): nat {
    if k < |list| then list[k] else head
  }

  /** Where `next` leads from the head and from the first member. */
  lemma FirstHop(nodes: seq<Links>, head: nat, list: seq<nat>)
    requires IsRing(nodes, head, list)
    ensures nodes[head].next == Nth(list, 0, head) < |nodes|
    ensures nodes[Nth(list, 0, head)].next == (if list == [] then head else Nth(list, 1, head)) < |nodes|
  {
    if list != [] {
      assert nodes[list[0]] == Links(Before(head, list, 0), After(head, list, 0));
    }
  }

  /** `after` is `before` without `fd`. */
  predicate Removed(before: seq<nat>, fd: nat, after: seq<nat>) {
    (fd !in before ==> after == before) &&
    forall k :: 0 <= k < |before| && before[k] == fd ==> after == Without(before, k)
  }
}
