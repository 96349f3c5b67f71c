/** Reachability in the arena and what a topological order of the nodes
    reachable from a root is. */
module Order {
  import opened Tape

  /** The nodes reachable from `v` through children, `v` included. */
  ghost function Reach(ops: seq<Op>, v: nat): (r: set<nat>)
    requires Acyclic(ops) && v < |ops|
    ensures v in r
    ensures forall u :: u in r ==> u <= v
    decreases v
  {
    assert OperandsBelow(ops[v], v);
    {v}
    + (if ops[v].Leaf? then {} else Reach(ops, ops[v].a))
    + (if ops[v].Add? || ops[v].Mul? then Reach(ops, ops[v].b) else {})
  }

  /** A child's reachable set is part of its parent's. */
  lemma ChildReach(ops: seq<Op>, v: nat, c: nat)
    requires Acyclic(ops) && v < |ops| && c in Children(ops[v])
    ensures c < v && Reach(ops, c) <= Reach(ops, v)
  {
    ChildBelow(ops, v, c);
  }

  /** Reachability is transitive. */
  lemma {:induction false} ReachTransitive(ops: seq<Op>, v: nat, u: nat)
    requires Acyclic(ops) && v < |ops| && u in Reach(ops, v)
    ensures Reach(ops, u) <= Reach(ops, v)
    decreases v
  {
    if u != v {
      assert OperandsBelow(ops[v], v);
      if !ops[v].Leaf? && u in Reach(ops, ops[v].a) {
        ReachTransitive(ops, ops[v].a, u);
      } else {
        ReachTransitive(ops, ops[v].b, u);
      }
    }
  }

  function Elems(s: seq<nat>): set<nat>
  {
    set x | x in s
  }

  predicate NoDup(s: seq<nat>)
  {
    forall i, j :: 0 <= i < j < |s| ==> s[i] != s[j]
  }

  /** Every node of `topo` is in the arena, and its children all occur
      strictly before it. */
  predicate ChildrenFirst(ops: seq<Op>, topo: seq<nat>)
  {
    forall i :: 0 <= i < |topo| ==>
      topo[i] < |ops| && forall c :: c in Children(ops[topo[i]]) ==> c in topo[..i]
  }

  /** `topo` lists every node reachable from `root` exactly once, children
      before the nodes that use them, with `root` last. */
  ghost predicate IsTopoOrder(ops: seq<Op>, root: nat, topo: seq<nat>)
    requires Acyclic(ops) && root < |ops|
  {
    && NoDup(topo)
    && ChildrenFirst(ops, topo)
    && Elems(topo) == Reach(ops, root)
    && |topo| > 0 && topo[|topo| - 1] == root
  }

  /** The nodes of a prefix that respects children-first cover everything
      reachable from each of them. */
  lemma {:induction false} ChildrenFirstClosed(ops: seq<Op>, topo: seq<nat>, t: nat)
    requires Acyclic(ops) && ChildrenFirst(ops, topo) && t in topo
    ensures Reach(ops, t) <= Elems(topo)
    decreases t
  {
    var i :| 0 <= i < |topo| && topo[i] == t;
    assert OperandsBelow(ops[t], t);
    if !ops[t].Leaf? {
      assert ops[t].a in Children(ops[t]);
      assert ops[t].a in topo[..i];
      ChildrenFirstClosed(ops, topo, ops[t].a);
    }
    if ops[t].Add? || ops[t].Mul? {
      assert ops[t].b in Children(ops[t]);
      assert ops[t].b in topo[..i];
      ChildrenFirstClosed(ops, topo, ops[t].b);
    }
  }

  /** A node whose children's reachable sets lie in `s` reaches nothing
      outside `s` but itself. */
  lemma ReachCovered(ops: seq<Op>, v: nat, s: set<nat>)
    requires Acyclic(ops) && v < |ops|
    requires forall c :: c in Children(ops[v]) ==> c < |ops| && Reach(ops, c) <= s
    ensures Reach(ops, v) <= s + {v}
  {
    assert OperandsBelow(ops[v], v);
    if !ops[v].Leaf? {
      assert ops[v].a in Children(ops[v]);
    }
    if ops[v].Add? || ops[v].Mul? {
      assert ops[v].b in Children(ops[v]);
    }
  }

  lemma ElemsAppend(s: seq<nat>, x: nat)
    ensures Elems(s + [x]) == Elems(s) + {x}
  {
    assert forall y :: y in s + [x] <==> y in s || y == x;
  }

  /** Appending a new node whose children are all listed keeps a list
      duplicate-free and children-first. */
  lemma AppendOrdered(ops: seq<Op>, topo: seq<nat>, v: nat)
    requires NoDup(topo) && ChildrenFirst(ops, topo) && v < |ops| && v !in Elems(topo)
    requires forall c :: c in Children(ops[v]) ==> c in Elems(topo)
    ensures NoDup(topo + [v]) && ChildrenFirst(ops, topo + [v])
  {
    var t := topo + [v];
    assert t[..|topo|] == topo;
    forall i | 0 <= i < |t| ensures t[i] < |ops| && forall c :: c in Children(ops[t[i]]) ==> c in t[..i] {
      if i < |topo| {
        assert t[..i] == topo[..i];
      }
    }
  }

  /** Finishing node `v` of a depth-first walk: once every child's
      reachable set is listed, listing `v` lists all that `v` reaches, and
      `v` leaves the set of walks in progress. */
  lemma FinishNode(ops: seq<Op>, v: nat, visited: set<nat>, topo: seq<nat>, visited1: set<nat>, listed: set<nat>)
    requires Acyclic(ops) && v < |ops| && v !in visited && Elems(topo) <= visited && listed <= visited1
    requires visited + {v} <= visited1 <= visited + {v} + Reach(ops, v)
    requires Elems(topo) <= listed <= Elems(topo) + Reach(ops, v)
    requires visited1 - listed == visited + {v} - Elems(topo)
    requires forall c :: c in Children(ops[v]) ==> c < |ops| && Reach(ops, c) <= listed
    ensures v !in listed
    ensures visited1 == visited + Reach(ops, v)
    ensures listed + {v} == Elems(topo) + Reach(ops, v)
    ensures visited1 - (listed + {v}) == visited - Elems(topo)
  {
    assert v in visited1 - listed;
    ReachCovered(ops, v, listed);
  }

  /** A list without duplicates has as many elements as its set. */
  lemma {:induction false} NoDupCard(s: seq<nat>)
    requires NoDup(s)
    ensures |Elems(s)| == |s|
  {
    if s != [] {
      var n := |s| - 1;
      assert NoDup(s[..n]);
      NoDupCard(s[..n]);
      assert Elems(s) == Elems(s[..n]) + {s[n]};
      assert s[n] !in Elems(s[..n]);
    }
  }

  /** A topological order has exactly one entry per reachable node. */
  lemma TopoLength(ops: seq<Op>, root: nat, topo: seq<nat>)
    requires Acyclic(ops) && root < |ops| && IsTopoOrder(ops, root, topo)
    ensures |topo| == |Reach(ops, root)|
  {
    NoDupCard(topo);
  }

  /** In a topological order no node is an operand of itself or of any node
      listed before it. */
  lemma TopoOperandsEarlier(ops: seq<Op>, topo: seq<nat>, i: nat, j: nat)
    requires NoDup(topo) && ChildrenFirst(ops, topo)
    requires j <= i < |topo|
    ensures topo[i] !in Children(ops[topo[j]])
  {
  }
}
