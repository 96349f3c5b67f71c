/** What one backward pass computes: seed the root's accumulator with 1, then
    run the rule of every node of a topological order, last node first. */
module Backprop {
  import opened Tape
  import opened Rules
  import opened Order

  /** No reachable node is `x ** 0` with x == 0, the one rule that divides by
      zero (it computes `0 * x ** -1`). */
  ghost predicate ZeroPowSafe(ops: seq<Op>, data: seq<real>, root: nat)
    requires Acyclic(ops) && |data| == |ops| && root < |ops|
  {
    forall u :: u in Reach(ops, root) ==>
      assert OperandsBelow(ops[u], u);
      (ops[u].Pow? && ops[u].p == 0 ==> data[ops[u].a] != 0.0)
  }

  /** In a well-formed arena every rule along a topological order can run
      exactly when no reachable `x ** 0` has x == 0. */
  lemma SafeRunnable(m: Libm, ops: seq<Op>, data: seq<real>, root: nat, topo: seq<nat>)
    requires WellFormed(m, ops, data) && root < |ops| && IsTopoOrder(ops, root, topo)
    ensures Runnable(ops, data, topo) <==> ZeroPowSafe(ops, data, root)
  {
    if ZeroPowSafe(ops, data, root) {
      forall i | 0 <= i < |topo| ensures topo[i] < |ops| && RuleDefined(ops, data, topo[i]) {
        assert topo[i] in Elems(topo);
        var v := topo[i];
        assert OperandsBelow(ops[v], v);
        if ops[v].Log? || (ops[v].Pow? && ops[v].p < 0) {
          assert InDomain(ops[v], data);
        }
      }
    }
    if Runnable(ops, data, topo) {
      forall u | u in Reach(ops, root) && ops[u].Pow? && ops[u].p == 0
        ensures data[ops[u].a] != 0.0
      {
        assert u in Elems(topo);
        var i :| 0 <= i < |topo| && topo[i] == u;
        assert RuleDefined(ops, data, topo[i]);
      }
    }
  }

  /** The accumulators after `backward()` on `root`, for a given
      topological order. */
  function BackwardPass(ops: seq<Op>, data: seq<real>, grad: seq<real>, root: nat, topo: seq<nat>): (r: seq<real>)
    requires Shaped(ops, data, grad) && root < |ops| && Runnable(ops, data, topo)
    ensures |r| == |grad|
  {
    RunReversed(ops, data, grad[root := 1.0], topo)
  }

  /** No node of a topological order of `root` uses `root`, nor any node
      outside what `root` reaches. */
  lemma NotUsedBelowRoot(ops: seq<Op>, root: nat, topo: seq<nat>, u: nat)
    requires Acyclic(ops) && root < |ops| && IsTopoOrder(ops, root, topo)
    requires u == root || u !in Reach(ops, root)
    ensures NotAnOperand(ops, topo, u)
  {
    forall i | 0 <= i < |topo| && topo[i] < |ops| ensures u !in Children(ops[topo[i]]) {
      assert topo[i] in Elems(topo);
    }
  }

  /** After the pass the root's gradient is exactly 1, whatever it held, and
      every node the root does not reach keeps its gradient. */
  lemma BackwardFrame(ops: seq<Op>, data: seq<real>, grad: seq<real>, root: nat, topo: seq<nat>)
    requires Shaped(ops, data, grad) && root < |ops| && IsTopoOrder(ops, root, topo)
    requires Runnable(ops, data, topo)
    ensures BackwardPass(ops, data, grad, root, topo)[root] == 1.0
    ensures forall u :: 0 <= u < |grad| && u !in Reach(ops, root) ==>
      BackwardPass(ops, data, grad, root, topo)[u] == grad[u]
  {
    NotUsedBelowRoot(ops, root, topo, root);
    RunFrame(ops, data, grad[root := 1.0], topo, root);
    forall u | 0 <= u < |grad| && u !in Reach(ops, root)
      ensures BackwardPass(ops, data, grad, root, topo)[u] == grad[u]
    {
      NotUsedBelowRoot(ops, root, topo, u);
      RunFrame(ops, data, grad[root := 1.0], topo, u);
    }
  }

  /** Every node of `order` accumulates (no pow or log node). */
  predicate AllAccumulate(ops: seq<Op>, order: seq<nat>)
  {
    forall i :: 0 <= i < |order| && order[i] < |ops| ==> Accumulates(ops[order[i]])
  }

  /** No node of `order` is an operand of a node at or before its position. */
  predicate OperandsEarlier(ops: seq<Op>, order: seq<nat>)
  {
    forall i, j :: 0 <= j <= i < |order| && order[j] < |ops| ==> order[i] !in Children(ops[order[j]])
  }

  /** The sum, over the nodes of `order`, of d(node)/d(u) times the node's
      gradient in `grad`. */
  function AdjointSum(ops: seq<Op>, data: seq<real>, order: seq<nat>, grad: seq<real>, u: nat): real
    requires Shaped(ops, data, grad) && Runnable(ops, data, order)
    decreases |order|
  {
    if order == [] then 0.0
    else
      var n := |order| - 1;
      AdjointSum(ops, data, order[..n], grad, u) + Contribution(ops, data, order[n], u, grad[order[n]])
  }

  /** Dropping the last node of a run keeps what the run lemmas need, and the
      dropped node is used by none of the nodes left. */
  lemma FrontKeeps(ops: seq<Op>, data: seq<real>, order: seq<nat>)
    requires Acyclic(ops) && |data| == |ops| && Runnable(ops, data, order)
    requires AllAccumulate(ops, order) && OperandsEarlier(ops, order) && order != []
    ensures var front := order[..|order| - 1];
            && Runnable(ops, data, front)
            && AllAccumulate(ops, front)
            && OperandsEarlier(ops, front)
            && NotAnOperand(ops, front, order[|order| - 1])
  {
    var n := |order| - 1;
    var front := order[..n];
    assert forall i :: 0 <= i < n ==> front[i] == order[i];
  }

  lemma AdjointSumLast(ops: seq<Op>, data: seq<real>, order: seq<nat>, grad: seq<real>, u: nat)
    requires Shaped(ops, data, grad) && Runnable(ops, data, order) && order != []
    ensures var n := |order| - 1;
            AdjointSum(ops, data, order, grad, u)
            == AdjointSum(ops, data, order[..n], grad, u) + Contribution(ops, data, order[n], u, grad[order[n]])
  {
  }

  /** The reverse-mode invariant of a run: when no node of `order` is used
      by a node run after it and every rule accumulates, each accumulator
      ends up as its start value plus the chain-rule contributions of every
      node of `order`, each weighted by that node's FINAL gradient. */
  lemma {:induction false} AdjointRun(ops: seq<Op>, data: seq<real>, grad: seq<real>, order: seq<nat>, u: nat)
    requires Shaped(ops, data, grad) && Runnable(ops, data, order)
    requires AllAccumulate(ops, order) && OperandsEarlier(ops, order) && u < |grad|
    ensures RunReversed(ops, data, grad, order)[u]
            == grad[u] + AdjointSum(ops, data, order, RunReversed(ops, data, grad, order), u)
    decreases |order|
  {
    if order != [] {
      var n := |order| - 1;
      var v := order[n];
      var front := order[..n];
      FrontKeeps(ops, data, order);
      var g1 := Rule(ops, data, grad, v);
      var fin := RunReversed(ops, data, g1, front);
      assert fin == RunReversed(ops, data, grad, order);
      AdjointRun(ops, data, g1, front, u);
      var A := AdjointSum(ops, data, front, fin, u);
      assert fin[u] == g1[u] + A;
      AccumulatingRule(ops, data, grad, v, u);
      // v's gradient is final once its own rule has run: nothing left uses it.
      RunFrame(ops, data, g1, front, v);
      assert fin[v] == g1[v] == grad[v];
      AdjointSumLast(ops, data, order, fin, u);
    }
  }

  /** The backward pass solves the adjoint equations when no reachable node
      is a pow or log node: the root's gradient is 1 and every other node's
      gradient is its previous value plus, over every reachable node v,
      d(v)/d(node) times v's final gradient.  This holds for every
      topological order the sort may return. */
  lemma BackwardAdjoint(ops: seq<Op>, data: seq<real>, grad: seq<real>, root: nat, topo: seq<nat>)
    requires Shaped(ops, data, grad) && root < |ops| && IsTopoOrder(ops, root, topo)
    requires Runnable(ops, data, topo) && AllAccumulate(ops, topo)
    ensures var fin := BackwardPass(ops, data, grad, root, topo);
            && fin[root] == 1.0
            && forall u :: 0 <= u < |grad| && u != root ==>
                 fin[u] == grad[u] + AdjointSum(ops, data, topo, fin, u)
  {
    BackwardFrame(ops, data, grad, root, topo);
    assert OperandsEarlier(ops, topo) by {
      forall i, j | 0 <= j <= i < |topo| && topo[j] < |ops| ensures topo[i] !in Children(ops[topo[j]]) {
        TopoOperandsEarlier(ops, topo, i, j);
      }
    }
    forall u | 0 <= u < |grad| && u != root
      ensures BackwardPass(ops, data, grad, root, topo)[u]
              == grad[u] + AdjointSum(ops, data, topo, BackwardPass(ops, data, grad, root, topo), u)
    {
      AdjointRun(ops, data, grad[root := 1.0], topo, u);
    }
  }
}
