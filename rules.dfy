/** The local backward rules (the `_backward` closures) and the reversed run
    of them that a backward pass performs.  Gradients live in a sequence
    indexed like the arena. */
module Rules {
  import opened Tape

  /** The shape every rule needs: an acyclic arena with one value and one
      gradient accumulator per node. */
  predicate Shaped(ops: seq<Op>, data: seq<real>, grad: seq<real>)
  {
    Acyclic(ops) && |data| == |ops| && |grad| == |ops|
  }

  /** The rule of node `v` can run without a division by zero.  Only
      `x ** 0` at x == 0 can fail here: its rule computes `0 * x ** -1`.
      Every other case is guaranteed by the forward domain checks. */
  predicate RuleDefined(ops: seq<Op>, data: seq<real>, v: nat)
    requires Acyclic(ops) && |data| == |ops| && v < |ops|
  {
    assert OperandsBelow(ops[v], v);
    match ops[v]
    case Pow(a, p) => p >= 1 || data[a] != 0.0
    case Log(a) => data[a] != 0.0
    case _ => true
  }

  /** Rules that add into their operands' accumulators, as opposed to the
      pow and log rules, which assign. */
  predicate Accumulates(op: Op)
  {
    !op.Pow? && !op.Log?
  }

  /** d(x ** p)/dx = p * x ** (p - 1), as the pow rule computes it; it
      divides by zero exactly when x == 0 and p < 1. */
  function PowDerivative(x: real, p: int): real
    requires p >= 1 || x != 0.0
  {
    p as real * Power(x, p - 1)
  }

  /** The local derivative of node `v` with respect to each operand slot: the
      chain-rule table of the catalog. */
  function LocalDerivs(ops: seq<Op>, data: seq<real>, v: nat): (r: seq<real>)
    requires Acyclic(ops) && |data| == |ops| && v < |ops| && RuleDefined(ops, data, v)
    ensures |r| == |Operands(ops[v])|
  {
    assert OperandsBelow(ops[v], v);
    match ops[v]
    case Leaf => []
    case Add(_, _) => [1.0, 1.0]
    case Mul(a, b) => [data[b], data[a]]
    case Pow(a, p) => [PowDerivative(data[a], p)]
    case Exp(_) => [data[v]]
    case Log(a) => [1.0 / data[a]]
    case Tanh(_) => [1.0 - data[v] * data[v]]
  }

  /** The sum of the local derivatives over the slots that name node `u`. */
  function SlotSum(cs: seq<nat>, ds: seq<real>, u: nat): real
    requires |cs| == |ds|
  {
    if cs == [] then 0.0
    else (if cs[0] == u then ds[0] else 0.0) + SlotSum(cs[1..], ds[1..], u)
  }

  lemma SlotSumSingle(a: nat, x: real)
    ensures forall u :: SlotSum([a], [x], u) == (if a == u then x else 0.0)
  {
    forall u ensures SlotSum([a], [x], u) == (if a == u then x else 0.0) {
      assert [a][1..] == [] && [x][1..] == [];
    }
  }

  lemma SlotSumPair(a: nat, b: nat, x: real, y: real)
    ensures forall u :: SlotSum([a, b], [x, y], u)
                        == (if a == u then x else 0.0) + (if b == u then y else 0.0)
  {
    SlotSumSingle(b, y);
    forall u ensures SlotSum([a, b], [x, y], u)
                     == (if a == u then x else 0.0) + (if b == u then y else 0.0)
    {
      assert [a, b][1..] == [b] && [x, y][1..] == [y];
    }
  }

  /** d(node v) / d(node u) through v's own operation: zero unless u is an
      operand of v, and counted once per slot. */
  function Partial(ops: seq<Op>, data: seq<real>, v: nat, u: nat): real
    requires Acyclic(ops) && |data| == |ops| && v < |ops| && RuleDefined(ops, data, v)
  {
    SlotSum(Operands(ops[v]), LocalDerivs(ops, data, v), u)
  }

  /** What a rule passes from node `v`, holding gradient `gv`, to node `u`:
      the chain-rule term d(v)/d(u) * gv. */
  function Contribution(ops: seq<Op>, data: seq<real>, v: nat, u: nat, gv: real): real
    requires Acyclic(ops) && |data| == |ops| && v < |ops| && RuleDefined(ops, data, v)
  {
    Partial(ops, data, v, u) * gv
  }

  /** The chain-rule term a rule passes to an operand: the local
      derivative times the output's gradient. */
  function Chain(local: real, outGrad: real): real
  {
    local * outGrad
  }

  /** Equal factors give equal products; the solver does not always see
      this when the factors are written differently. */
  lemma Congruence(x: real, x': real, y: real, y': real)
    requires x == x' && y == y'
    ensures x * y == x' * y'
  {
  }

  /** Running the `_backward` rule of node `v` on the accumulators `grad`:
      only `v`'s children are written. */
  function Rule(ops: seq<Op>, data: seq<real>, grad: seq<real>, v: nat): (r: seq<real>)
    requires Shaped(ops, data, grad) && v < |ops| && RuleDefined(ops, data, v)
    ensures |r| == |grad|
    ensures forall u :: 0 <= u < |grad| && u !in Children(ops[v]) ==> r[u] == grad[u]
  {
    assert OperandsBelow(ops[v], v);
    match ops[v]
    case Leaf => grad
    case Add(a, b) =>
      var g1 := grad[a := grad[a] + Chain(1.0, grad[v])];
      g1[b := g1[b] + Chain(1.0, grad[v])]
    case Mul(a, b) =>
      var g1 := grad[a := grad[a] + Chain(data[b], grad[v])];
      g1[b := g1[b] + Chain(data[a], grad[v])]
    case Pow(a, p) => grad[a := Chain(PowDerivative(data[a], p), grad[v])]
    case Exp(a) => grad[a := grad[a] + Chain(data[v], grad[v])]
    case Log(a) => grad[a := Chain(1.0 / data[a], grad[v])]
    case Tanh(a) => grad[a := grad[a] + Chain(1.0 - data[v] * data[v], grad[v])]
  }

  /** The add, mul, exp and tanh rules add to every node the chain-rule
      contribution of each slot that names it (so `x + x` gives `x` twice
      the output gradient); a leaf's rule changes nothing. */
  lemma {:induction false} AccumulatingRule(ops: seq<Op>, data: seq<real>, grad: seq<real>, v: nat, u: nat)
    requires Shaped(ops, data, grad) && v < |ops| && RuleDefined(ops, data, v)
    requires Accumulates(ops[v]) && u < |grad|
    ensures Rule(ops, data, grad, v)[u] == grad[u] + Contribution(ops, data, v, u, grad[v])
  {
    assert OperandsBelow(ops[v], v);
    var g := grad[v];
    var r := Rule(ops, data, grad, v);
    match ops[v]
    case Leaf =>
    case Add(a, b) =>
      SlotSumPair(a, b, 1.0, 1.0);
      var k := (if a == u then 1.0 else 0.0) + (if b == u then 1.0 else 0.0);
      assert Partial(ops, data, v, u) == k;
      assert r[u] == grad[u] + k * g;
    case Mul(a, b) =>
      SlotSumPair(a, b, data[b], data[a]);
      var da := if a == u then data[b] else 0.0;
      var db := if b == u then data[a] else 0.0;
      assert Partial(ops, data, v, u) == da + db;
      assert r[u] == grad[u] + da * g + db * g;
      assert (da + db) * g == da * g + db * g;
    case Exp(a) =>
      SlotSumSingle(a, data[v]);
    case Tanh(a) =>
      SlotSumSingle(a, 1.0 - data[v] * data[v]);
  }

  /** The pow and log rules assign their single operand's accumulator the
      local derivative times the output gradient, whatever it held before. */
  lemma OverwritingRule(ops: seq<Op>, data: seq<real>, grad: seq<real>, v: nat)
    requires Shaped(ops, data, grad) && v < |ops| && RuleDefined(ops, data, v)
    requires !Accumulates(ops[v])
    ensures Children(ops[v]) == {ops[v].a}
    ensures Rule(ops, data, grad, v)[ops[v].a] == LocalDerivs(ops, data, v)[0] * grad[v]
  {
  }

  /** Every node of `order` is a node whose rule can run. */
  predicate Runnable(ops: seq<Op>, data: seq<real>, order: seq<nat>)
    requires Acyclic(ops) && |data| == |ops|
  {
    forall i :: 0 <= i < |order| ==> order[i] < |ops| && RuleDefined(ops, data, order[i])
  }

  /** The rules of `order` run from its last node to its first: the loop
      `for node in reversed(topo): node._backward()`. */
  function RunReversed(ops: seq<Op>, data: seq<real>, grad: seq<real>, order: seq<nat>): (r: seq<real>)
    requires Shaped(ops, data, grad) && Runnable(ops, data, order)
    ensures |r| == |grad|
    decreases |order|
  {
    if order == [] then grad
    else
      var n := |order| - 1;
      RunReversed(ops, data, Rule(ops, data, grad, order[n]), order[..n])
  }

  /** Running the first `k` nodes of a runnable order starts with the rule
      of node `k - 1`, then runs the first `k - 1`. */
  lemma RunPrefixStep(ops: seq<Op>, data: seq<real>, grad: seq<real>, order: seq<nat>, k: nat)
    requires Shaped(ops, data, grad) && Runnable(ops, data, order) && 0 < k <= |order|
    ensures Runnable(ops, data, order[..k]) && Runnable(ops, data, order[..k - 1])
    ensures RunReversed(ops, data, grad, order[..k])
            == RunReversed(ops, data, Rule(ops, data, grad, order[k - 1]), order[..k - 1])
  {
    assert order[..k][..k - 1] == order[..k - 1];
  }

  /** Node `u` is an operand of no node in `order`. */
  predicate NotAnOperand(ops: seq<Op>, order: seq<nat>, u: nat)
  {
    forall i :: 0 <= i < |order| && order[i] < |ops| ==> u !in Children(ops[order[i]])
  }

  /** A run writes only to operands of the nodes it runs. */
  lemma {:induction false} RunFrame(ops: seq<Op>, data: seq<real>, grad: seq<real>, order: seq<nat>, u: nat)
    requires Shaped(ops, data, grad) && Runnable(ops, data, order)
    requires u < |grad| && NotAnOperand(ops, order, u)
    ensures RunReversed(ops, data, grad, order)[u] == grad[u]
    decreases |order|
  {
    if order != [] {
      var n := |order| - 1;
      var g1 := Rule(ops, data, grad, order[n]);
      assert u !in Children(ops[order[n]]);
      assert NotAnOperand(ops, order[..n], u) by {
        forall i | 0 <= i < n && order[..n][i] < |ops|
          ensures u !in Children(ops[order[..n][i]])
        {
          assert order[..n][i] == order[i];
        }
      }
      RunFrame(ops, data, g1, order[..n], u);
    }
  }
}
