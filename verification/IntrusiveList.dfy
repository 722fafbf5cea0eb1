/** List.h: circular doubly linked lists threaded through an array of nodes.  */
module IntrusiveList {
  const NULL := -1

  datatype Links = Links(prev: int, next: int)

  predicate Distinct(list: seq<nat>) {
    forall i, j :: 0 <= i < j < |list| ==> list[i] != list[j]
  }

  /** The neighbours of position `i`; positions -1 and |list| are the head. */
  function After(head: nat, list: seq<nat>, i: int): nat
    requires -1 <= i < |list|
  {
    if i + 1 < |list| then list[i + 1] else head
  }

  function Before(head: nat, list: seq<nat>, i: int): nat
    requires 0 <= i <= |list|
  {
    if i > 0 then list[i - 1] else head
  }

  /** Following `next` from `head` meets exactly `list` and comes back, and `prev` is the reverse. */
  predicate IsRing(nodes: seq<Links>, head: nat, list: seq<nat>) {
    head < |nodes| && head !in list && Distinct(list) &&
    (forall i :: 0 <= i < |list| ==> list[i] < |nodes|) &&
    nodes[head] == Links(Before(head, list, |list|), After(head, list, -1)) &&
    forall i {:trigger nodes[list[i]]} ::
      0 <= i < |list| ==> nodes[list[i]] == Links(Before(head, list, i), After(head, list, i))
  }

  /** `list_push_tail` */
  function PushTail(nodes: seq<Links>, x: nat, head: nat): seq<Links>
    requires x < |nodes| && head < |nodes| && 0 <= nodes[head].prev < |nodes|
  {
    var p := nodes[head].prev;
    var n1 := nodes[head := nodes[head].(prev := x)];
    var n2 := n1[x := Links(p, head)];
    n2[p := n2[p].(next := x)]
  }

  /** `list_del_init` */
  function DelInit(nodes: seq<Links>, x: nat): seq<Links>
    requires x < |nodes| && 0 <= nodes[x].prev < |nodes| && 0 <= nodes[x].next < |nodes|
  {
    var p, n := nodes[x].prev, nodes[x].next;
    var n1 := nodes[n := nodes[n].(prev := p)];
    var n2 := n1[p := n1[p].(next := n)];
    n2[x := Links(x, x)]
  }

  /** A list is untouched by changes outside it. */
  lemma RingFrame(nodes: seq<Links>, nodes': seq<Links>, head: nat, list: seq<nat>)
    requires IsRing(nodes, head, list) && |nodes'| == |nodes| && nodes'[head] == nodes[head]
    requires forall i :: 0 <= i < |list| ==> nodes'[list[i]] == nodes[list[i]]
    ensures IsRing(nodes', head, list)
  {
  }

  lemma PushTailRing(nodes: seq<Links>, x: nat, head: nat, list: seq<nat>)
    requires IsRing(nodes, head, list) && x < |nodes| && x != head && x !in list
    ensures 0 <= nodes[head].prev < |nodes| && IsRing(PushTail(nodes, x, head), head, list + [x])
    ensures forall i :: 0 <= i < |nodes| && i != head && i != x && i !in list ==>
      PushTail(nodes, x, head)[i] == nodes[i]
  {
    var nodes', list' := PushTail(nodes, x, head), list + [x];
    forall i | 0 <= i < |list'|
      ensures nodes'[list'[i]] == Links(Before(head, list', i), After(head, list', i))
    {
      if i < |list| {
        assert list'[i] == list[i];
      }
    }
  }

  function Without(list: seq<nat>, k: nat): seq<nat>
    requires k < |list|
  {
    list[..k] + list[k + 1..]
  }

  lemma WithoutKeeps(list: seq<nat>, k: nat)
    requires k < |list| && Distinct(list)
    ensures Distinct(Without(list, k)) && list[k] !in Without(list, k)
    ensures forall x :: x in Without(list, k) ==> x in list
    ensures forall x :: x in list && x != list[k] ==> x in Without(list, k)
  {
    var rest := Without(list, k);
    forall x | x in list && x != list[k]
      ensures x in rest
    {
      var j :| 0 <= j < |list| && list[j] == x;
      assert rest[if j < k then j else j - 1] == x;
    }
  }

  /** Unlinking a member changes its two neighbours only. */
  lemma DelInitAt(nodes: seq<Links>, head: nat, list: seq<nat>, k: nat, j: nat)
    requires IsRing(nodes, head, list) && k < |list| && j < |list| && j != k
    requires 0 <= nodes[list[k]].prev < |nodes| && 0 <= nodes[list[k]].next < |nodes|
    ensures DelInit(nodes, list[k])[list[j]] ==
      Links(if j == k + 1 then Before(head, list, k) else Before(head, list, j),
            if j + 1 == k then After(head, list, k) else After(head, list, j))
  {
  }

  lemma DelInitHead(nodes: seq<Links>, head: nat, list: seq<nat>, k: nat)
    requires IsRing(nodes, head, list) && k < |list|
    requires 0 <= nodes[list[k]].prev < |nodes| && 0 <= nodes[list[k]].next < |nodes|
    ensures DelInit(nodes, list[k])[head] ==
      Links(Before(head, Without(list, k), |list| - 1), After(head, Without(list, k), -1))
  {
  }

  lemma MemberLinks(nodes: seq<Links>, head: nat, list: seq<nat>, k: nat)
    requires IsRing(nodes, head, list) && k < |list|
    ensures 0 <= nodes[list[k]].prev < |nodes| && 0 <= nodes[list[k]].next < |nodes|
    ensures forall i :: 0 <= i < |nodes| && i != head && i !in list ==> DelInit(nodes, list[k])[i] == nodes[i]
  {
    assert nodes[list[k]] == Links(Before(head, list, k), After(head, list, k));
  }

  lemma DelInitMember(nodes: seq<Links>, head: nat, list: seq<nat>, k: nat, i: nat)
    requires IsRing(nodes, head, list) && k < |list| && i < |list| - 1
    requires 0 <= nodes[list[k]].prev < |nodes| && 0 <= nodes[list[k]].next < |nodes|
    ensures var rest := Without(list, k);
      rest[i] < |nodes| &&
      DelInit(nodes, list[k])[rest[i]] == Links(Before(head, rest, i), After(head, rest, i))
  {
    var j := if i < k then i else i + 1;
    DelInitAt(nodes, head, list, k, j);
    assert Without(list, k)[i] == list[j];
  }

  lemma DelInitRing(nodes: seq<Links>, head: nat, list: seq<nat>, k: nat)
    requires IsRing(nodes, head, list) && k < |list|
    requires 0 <= nodes[list[k]].prev < |nodes| && 0 <= nodes[list[k]].next < |nodes|
    ensures IsRing(DelInit(nodes, list[k]), head, Without(list, k))
  {
    var nodes', rest := DelInit(nodes, list[k]), Without(list, k);
    forall i | 0 <= i < |rest|
      ensures rest[i] < |nodes'| && nodes'[rest[i]] == Links(Before(head, rest, i), After(head, rest, i))
    {
      DelInitMember(nodes, head, list, k, i);
    }
    DelInitHead(nodes, head, list, k);
    WithoutKeeps(list, k);
  }
}
