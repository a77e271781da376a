/** Destroying the owner of a chain of futures, without recursion along the chain. */
module FutureTeardown {

  /** A future state: its references, whether a functor is attached, and the state after it. */
  class Node {
    var refs: nat
    var notify: bool
    var chain: Node?
    var destroyed: nat   // how often its destructor ran
    var deleted: nat     // how often its functor was deleted

    constructor (refs: nat, notify: bool, chain: Node?)
      ensures this.refs == refs && this.notify == notify && this.chain == chain && destroyed == 0 && deleted == 0
    {
      this.refs, this.notify, this.chain, destroyed, deleted := refs, notify, chain, 0, 0;
    }
  }

  /** The fields of a node at some moment. */
  datatype Shot = Shot(refs: nat, notify: bool, chain: Node?, destroyed: nat, deleted: nat)

  ghost function ShotOf(n: Node): Shot
    reads n
  {
    Shot(n.refs, n.notify, n.chain, n.destroyed, n.deleted)
  }

  ghost function Shots(nodes: seq<Node>): (s: seq<Shot>)
    reads nodes
    ensures |s| == |nodes| && forall i :: 0 <= i < |nodes| ==> s[i] == ShotOf(nodes[i])
  {
    if nodes == [] then [] else Shots(nodes[..|nodes| - 1]) + [ShotOf(nodes[|nodes| - 1])]
  }

  ghost function Behind(nodes: seq<Node>, i: nat): Node? { if i < |nodes| then nodes[i] else null }

  ghost predicate Distinct(nodes: seq<Node>) { forall i, j :: 0 <= i < j < |nodes| ==> nodes[i] != nodes[j] }

  /** The nodes stand in a row, each the chain of the one before. */
  ghost predicate Row(nodes: seq<Node>, shots: seq<Shot>) {
    |shots| == |nodes| && Distinct(nodes) && forall i :: 0 <= i < |nodes| ==> shots[i].chain == Behind(nodes, i + 1)
  }

  ghost predicate Held(shots: seq<Shot>) { forall i :: 0 <= i < |shots| ==> shots[i].refs >= 1 }

  /** Destroyed once, its functor, if any, deleted once; what it held was moved out. */
  ghost function Dead(s: Shot): Shot {
    Shot(0, s.notify, null, s.destroyed + 1, s.deleted + if s.notify then 1 else 0)
  }

  /** How many leading nodes nobody else holds. */
  ghost function Exclusive(shots: seq<Shot>): (k: nat)
    ensures k <= |shots| && (k < |shots| ==> shots[k].refs != 1)
    ensures forall i :: 0 <= i < k ==> shots[i].refs == 1
  {
    if shots == [] || shots[0].refs != 1 then 0 else 1 + Exclusive(shots[1..])
  }

  /** The first k nodes dead, the rest as they were. */
  ghost function Killed(shots: seq<Shot>, k: nat): (r: seq<Shot>)
    requires k <= |shots|
    ensures |r| == |shots|
  {
    seq(|shots|, i requires 0 <= i < |shots| => if i < k then Dead(shots[i]) else shots[i])
  }

  /** After the owner's destructor: the exclusive part is dead, the first shared node has one reference
      less, and nothing behind it was touched. */
  ghost function TornDown(shots: seq<Shot>): seq<Shot> {
    var k := Exclusive(shots);
    if k < |shots| then Killed(shots, k)[k := Fewer(shots[k])] else Killed(shots, k)
  }

  /** One reference less. */
  ghost function Fewer(s: Shot): Shot { s.(refs := if s.refs > 0 then s.refs - 1 else 0) }

  lemma {:induction false} OneChanged(nodes: seq<Node>, i: nat, was: seq<Shot>)
    requires i < |nodes| == |was| && forall j :: 0 <= j < |nodes| && j != i ==> ShotOf(nodes[j]) == was[j]
    ensures Shots(nodes) == was[i := ShotOf(nodes[i])]
  {}

  lemma NoneChanged(nodes: seq<Node>, was: seq<Shot>)
    requires |nodes| == |was| && forall j :: 0 <= j < |nodes| ==> ShotOf(nodes[j]) == was[j]
    ensures Shots(nodes) == was
  {}

  lemma Others(n: Node, nodes: seq<Node>, i: nat)
    requires Distinct(nodes) && n !in nodes
    ensures forall j :: 0 <= j < |nodes| ==> nodes[j] != n
    ensures i < |nodes| ==> forall j :: 0 <= j < |nodes| && j != i ==> nodes[j] != nodes[i]
  {}

  /** What that means, field by field: with k the number of leading nodes that have one owner. */
  lemma TornDownIs(shots: seq<Shot>)
    requires Held(shots)
    ensures var (k, r) := (Exclusive(shots), TornDown(shots));
            && |r| == |shots|
            && (forall i :: 0 <= i < k ==>
                  && shots[i].refs == 1 && r[i].refs == 0 && r[i].destroyed == shots[i].destroyed + 1
                  && r[i].deleted == shots[i].deleted + (if shots[i].notify then 1 else 0))
            && (k < |shots| ==> shots[k].refs > 1 && r[k] == shots[k].(refs := shots[k].refs - 1))
            && (forall i :: k < i < |shots| ==> r[i] == shots[i])
  {}

  /** ~Base of the last owner of a chain.  The leading nodes with one owner are destroyed, each once, with
      their functors; the first with more loses one reference and nothing else; what lies behind it is not
      touched. */
  method Destroy(n: Node, ghost nodes: seq<Node>) returns (ghost k: nat)
    requires n !in nodes && n.chain == Behind(nodes, 0) && Row(nodes, Shots(nodes)) && Held(Shots(nodes))
    modifies n, nodes
    ensures n.destroyed == old(n.destroyed) + 1 && n.deleted == old(n.deleted) + (if old(n.notify) then 1 else 0) && n.chain == null
    ensures k <= |nodes| && (forall i :: 0 <= i < k ==> old(nodes[i].refs) == 1) && (k < |nodes| ==> old(nodes[k].refs) > 1)
    ensures forall i :: 0 <= i < k ==>
              nodes[i].refs == 0 && nodes[i].destroyed == old(nodes[i].destroyed) + 1
              && nodes[i].deleted == old(nodes[i].deleted) + (if old(nodes[i].notify) then 1 else 0)
    ensures k < |nodes| ==> nodes[k].refs == old(nodes[k].refs) - 1 && nodes[k].chain == old(nodes[k].chain)
                            && nodes[k].notify == old(nodes[k].notify) && nodes[k].destroyed == old(nodes[k].destroyed)
                            && nodes[k].deleted == old(nodes[k].deleted)
    ensures forall i :: k < i < |nodes| ==>
              nodes[i].refs == old(nodes[i].refs) && nodes[i].chain == old(nodes[i].chain)
              && nodes[i].notify == old(nodes[i].notify) && nodes[i].destroyed == old(nodes[i].destroyed)
              && nodes[i].deleted == old(nodes[i].deleted)
  {
    hide TornDown, Exclusive, Killed, Row, Held;
    ghost var was := Shots(nodes);
    TornDownIs(was);
    TearDown(n, nodes, 0);
    k := Exclusive(was);
  }

  /** `level` counts nested destructor calls: it never passes 1, however long the chain. */
  method TearDown(n: Node, ghost nodes: seq<Node>, ghost level: nat)
    requires level <= 1 && (level == 1 ==> nodes == [])
    requires n !in nodes && n.chain == Behind(nodes, 0) && Row(nodes, Shots(nodes)) && Held(Shots(nodes))
    modifies n, nodes
    ensures ShotOf(n) == old(Dead(ShotOf(n)).(refs := n.refs))
    ensures Shots(nodes) == TornDown(old(Shots(nodes)))
    decreases 1 - level, 3
  {
    hide Distinct, Shots, Dead, TornDown, Exclusive, Killed, Row, Held;
    ghost var was := Shots(nodes);
    RowDistinct(nodes, was);
    Deleted(n);
    Others(n, nodes, 0);
    n.destroyed := n.destroyed + 1;
    if n.notify { n.deleted := n.deleted + 1; }
    NoneChanged(nodes, was);
    UnlinkAll(n, nodes, level);
    Released(was);
    ReleaseChain(n, nodes, Exclusive(was));
  }

  /** The loop of ~Base. */
  method UnlinkAll(n: Node, ghost nodes: seq<Node>, ghost level: nat)
    requires level <= 1 && (level == 1 ==> nodes == [])
    requires n !in nodes && n.chain == Behind(nodes, 0) && Row(nodes, Shots(nodes))
    modifies n`chain, set x | x in nodes
    ensures var k := Exclusive(old(Shots(nodes)));
            n.chain == Behind(nodes, k) && Shots(nodes) == Killed(old(Shots(nodes)), k)
    decreases 1 - level, 2
  {
    hide Distinct, Shots, Dead, TornDown, Exclusive, Killed;
    ghost var was := Shots(nodes);
    ghost var k := Exclusive(was);
    ghost var i := 0;
    NoneKilled(was);
    if k > 0 { FirstAlive(nodes, was, 0); }
    while n.chain != null && n.chain.refs == 1
      invariant 0 <= i <= k && n.chain == Behind(nodes, i)
      invariant Shots(nodes) == Killed(was, i)
      invariant i < k ==> n.chain != null && n.chain.refs == 1
      decreases |nodes| - i
    {
      KillNext(was, i);
      Others(n, nodes, i);
      ShotAt(nodes, i);
      ghost var before := Shots(nodes);
      Unlink(n, nodes[i], level);
      OneChanged(nodes, i, before);
      i := i + 1;
      if i < k { FirstAlive(nodes, was, i); }
    }
  }

  lemma FirstAlive(nodes: seq<Node>, was: seq<Shot>, i: nat)
    requires i < Exclusive(was) && |nodes| == |was| && Shots(nodes) == Killed(was, i)
    ensures nodes[i].refs == 1
  {
    KillNext(was, i);
    ShotAt(nodes, i);
  }

  /** The chain member goes: a node that is still there is shared, and loses one reference. */
  method ReleaseChain(n: Node, ghost nodes: seq<Node>, ghost i: nat)
    requires n !in nodes && Distinct(nodes) && n.chain == Behind(nodes, i)
    requires i < |nodes| ==> Shots(nodes)[i].refs > 1
    modifies n`chain, set x | x in nodes
    ensures n.chain == null
    ensures Shots(nodes) == old(if i < |nodes| then Shots(nodes)[i := Fewer(Shots(nodes)[i])] else Shots(nodes))
  {
    hide Distinct, Shots;
    Others(n, nodes, i);
    ghost var before := Shots(nodes);
    if n.chain != null {
      ShotAt(nodes, i);
      n.chain.refs := n.chain.refs - 1;
      n.chain := null;
      OneChanged(nodes, i, before);
    } else {
      n.chain := null;
      NoneChanged(nodes, before);
    }
  }

  lemma Released(was: seq<Shot>)
    requires Held(was)
    ensures var k := Exclusive(was);
            k < |was| ==> was[k].refs > 1 && Killed(was, k)[k] == was[k] && TornDown(was) == Killed(was, k)[k := Fewer(was[k])]
    ensures Exclusive(was) == |was| ==> TornDown(was) == Killed(was, |was|)
  {
    var k := Exclusive(was);
    if k < |was| {
      KillNext(was, k);
      hide Killed, Exclusive;
    }
  }

  lemma ShotAt(nodes: seq<Node>, i: nat)
    requires i < |nodes|
    ensures Shots(nodes)[i] == ShotOf(nodes[i])
  {}

  lemma RowDistinct(nodes: seq<Node>, was: seq<Shot>)
    requires Row(nodes, was)
    ensures Distinct(nodes)
  {}

  lemma Deleted(n: Node)
    ensures Dead(ShotOf(n)) == Shot(0, n.notify, null, n.destroyed + 1, n.deleted + if n.notify then 1 else 0)
  {}

  lemma NoneKilled(was: seq<Shot>)
    ensures Killed(was, 0) == was
  {}

  lemma KillNext(was: seq<Shot>, i: nat)
    requires i < |was|
    ensures Killed(was, i)[i] == was[i] && Killed(was, i)[i := Dead(was[i])] == Killed(was, i + 1)
  {}

  /** One round of the loop: move the next chain out of the first node, drop that node, go on with
      what was moved out. */
  method Unlink(n: Node, ghost first: Node, ghost level: nat)
    requires n.chain == first && first != n && level == 0 && first.refs == 1
    modifies n`chain, first
    ensures n.chain == old(first.chain) && ShotOf(first) == old(Dead(ShotOf(first)))
    decreases 1 - level, 1
  {
    var dying := n.chain;
    var next := dying.chain;
    n.chain := null;
    DropLast(dying, level);
    n.chain := next;
  }

  /** Dropping the only reference to a state whose chain was moved out of it. */
  method DropLast(n: Node, ghost level: nat)
    requires level == 0 && n.refs == 1
    modifies n
    ensures ShotOf(n) == old(Dead(ShotOf(n)))
    decreases 1 - level, 0
  {
    n.chain := null;
    n.refs := n.refs - 1;
    TearDown(n, [], level + 1);
  }
}
