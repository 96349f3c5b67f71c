/** The `Scalar` class: every Scalar of one computation graph lives in a
    `Graph` arena, so a Scalar is an index into it.  Operators allocate new
    nodes, the backward rules update gradient accumulators in place, and
    `backward` runs them in reverse topological order. */
module Engine {
  import opened Tape
  import opened Rules
  import opened Order
  import opened Backprop

  class Graph {
    /** `math.exp` and `math.log`. */
    const libm: Libm
    /** Per node: its op tag with operands (`_op`, `_prev`, `_backward`),
        its value (`data`) and its gradient accumulator (`grad`). */
    var ops: seq<Op>
    var data: seq<real>
    var grad: seq<real>

    ghost predicate Valid()
      reads this
    {
      WellFormed(libm, ops, data) && |grad| == |ops|
    }

    constructor (libm: Libm)
      requires Sound(libm)
      ensures Valid() && this.libm == libm
      ensures ops == [] && data == [] && grad == []
    {
      this.libm := libm;
      ops, data, grad := [], [], [];
    }

    /** `Scalar(data, _children, _op)`: allocates the next node, with
        gradient 0 and the given operands as its children. */
    method Init(x: real, op: Op) returns (v: nat)
      requires Valid() && OperandsBelow(op, |ops|)
      requires !op.Leaf? ==> InDomain(op, data) && x == Forward(libm, op, data)
      modifies this
      ensures Valid() && v == old(|ops|)
      ensures ops == old(ops) + [op] && data == old(data) + [x] && grad == old(grad) + [0.0]
    {
      AppendWellFormed(libm, ops, data, op, x);
      v := |ops|;
      ops, data, grad := ops + [op], data + [x], grad + [0.0];
    }

    /** A new leaf: a user value, a parameter or a constant. */
    method Leaf(x: real) returns (v: nat)
      requires Valid()
      modifies this
      ensures Valid() && v == old(|ops|)
      ensures ops == old(ops) + [Tape.Leaf] && data == old(data) + [x] && grad == old(grad) + [0.0]
    {
      v := Init(x, Tape.Leaf);
    }

    /** `other if isinstance(other, Scalar) else Scalar(other)`. */
    method Wrap(x: Operand) returns (v: nat)
      requires Valid() && (x.Ref? ==> x.node < |ops|)
      modifies this
      ensures Valid() && v == Wrapped(x, old(|ops|)) && v < |ops|
      ensures ops == old(ops) + WrapOps(x) && data == old(data) + WrapData(x)
      ensures grad == old(grad) + Zeros(|WrapOps(x)|)
      ensures data[v] == ValueOf(old(data), x)
    {
      match x
      case Ref(i) =>
        v := i;
        assert grad == old(grad) + Zeros(0);
      case Num(c) =>
        v := Init(c, Tape.Leaf);
        assert grad == old(grad) + Zeros(1);
    }

    /** `self + other`, and `other + self` for a raw number `other`. */
    method Add(a: nat, other: Operand) returns (out: nat)
      requires Valid() && a < |ops| && (other.Ref? ==> other.node < |ops|)
      modifies this
      ensures Valid() && out == |ops| - 1
      ensures ops == old(ops) + WrapOps(other) + [Tape.Add(a, Wrapped(other, old(|ops|)))]
      ensures data == old(data) + WrapData(other) + [old(data)[a] + ValueOf(old(data), other)]
      ensures grad == old(grad) + Zeros(|ops| - old(|ops|))
    {
      var b := Wrap(other);
      ghost var g := grad;
      out := Init(data[a] + data[b], Tape.Add(a, b));
      assert g + [0.0] == old(grad) + Zeros(|ops| - old(|ops|));
    }

    /** `self * other`, and `other * self` for a raw number `other`. */
    method Mul(a: nat, other: Operand) returns (out: nat)
      requires Valid() && a < |ops| && (other.Ref? ==> other.node < |ops|)
      modifies this
      ensures Valid() && out == |ops| - 1
      ensures ops == old(ops) + WrapOps(other) + [Tape.Mul(a, Wrapped(other, old(|ops|)))]
      ensures data == old(data) + WrapData(other) + [old(data)[a] * ValueOf(old(data), other)]
      ensures grad == old(grad) + Zeros(|ops| - old(|ops|))
    {
      var b := Wrap(other);
      ghost var g := grad;
      var x, y := data[a], data[b];
      out := Init(x * y, Tape.Mul(a, b));
      Congruence(x, old(data)[a], y, ValueOf(old(data), other));
      assert x * y == old(data)[a] * ValueOf(old(data), other);
      assert g + [0.0] == old(grad) + Zeros(|ops| - old(|ops|));
    }

    /** `-self`, built as `self * (-1)`. */
    method Neg(a: nat) returns (out: nat)
      requires Valid() && a < |ops|
      modifies this
      ensures Valid() && out == old(|ops|) + 1
      ensures ops == old(ops) + [Tape.Leaf, Tape.Mul(a, old(|ops|))]
      ensures data == old(data) + [-1.0, old(data)[a] * -1.0]
      ensures grad == old(grad) + [0.0, 0.0]
    {
      out := Mul(a, Num(-1.0));
    }

    /** `self - other`, built as `self + (-other)`: a Scalar `other` is
        negated by a node of its own, a raw number by plain arithmetic. */
    method Sub(a: nat, other: Operand) returns (out: nat)
      requires Valid() && a < |ops| && (other.Ref? ==> other.node < |ops|)
      modifies this
      ensures Valid() && out == |ops| - 1
      ensures var n := old(|ops|);
              other.Ref? ==>
                && ops == old(ops) + [Tape.Leaf, Tape.Mul(other.node, n), Tape.Add(a, n + 1)]
                && data == old(data) + [-1.0, old(data)[other.node] * -1.0,
                                        old(data)[a] + old(data)[other.node] * -1.0]
      ensures var n := old(|ops|);
              other.Num? ==>
                && ops == old(ops) + [Tape.Leaf, Tape.Add(a, n)]
                && data == old(data) + [-other.value, old(data)[a] + -other.value]
      ensures grad == old(grad) + Zeros(|ops| - old(|ops|))
    {
      match other
      case Ref(b) =>
        var negated := Neg(b);
        out := Add(a, Ref(negated));
      case Num(c) =>
        out := Add(a, Num(-c));
    }

    /** `other - self` for a raw number `other`, built as `(-self) + other`. */
    method RSub(a: nat, other: real) returns (out: nat)
      requires Valid() && a < |ops|
      modifies this
      ensures Valid() && out == old(|ops|) + 3
      ensures var n := old(|ops|);
              && ops == old(ops) + [Tape.Leaf, Tape.Mul(a, n), Tape.Leaf, Tape.Add(n + 1, n + 2)]
              && data == old(data) + [-1.0, old(data)[a] * -1.0, other, old(data)[a] * -1.0 + other]
      ensures grad == old(grad) + Zeros(4)
    {
      var negated := Neg(a);
      out := Add(negated, Num(other));
    }

    /** `self ** other`: the exponent must be a number (only integers are
        modelled), and zero cannot be raised to a negative power.  Nothing
        is allocated when either check fails. */
    method Pow(a: nat, e: Exponent) returns (r: Outcome)
      requires Valid() && a < |ops|
      modifies this
      ensures Valid()
      ensures e.NonNumeric? ==> r == Err(ExponentNotNumber)
      ensures e.IntExponent? && e.p < 0 && old(data)[a] == 0.0 ==> r == Err(ZeroDivision)
      ensures r.Err? <==> e.NonNumeric? || (e.p < 0 && old(data)[a] == 0.0)
      ensures r.Err? ==> ops == old(ops) && data == old(data) && grad == old(grad)
      ensures r.Ok? ==>
        && r.node == old(|ops|)
        && ops == old(ops) + [Tape.Pow(a, e.p)]
        && data == old(data) + [Power(old(data)[a], e.p)]
        && grad == old(grad) + [0.0]
    {
      match e
      case NonNumeric =>
        r := Err(ExponentNotNumber);
      case IntExponent(p) =>
        if p < 0 && data[a] == 0.0 {
          r := Err(ZeroDivision);
        } else {
          var out := Init(Power(data[a], p), Tape.Pow(a, p));
          r := Ok(out);
        }
    }

    /** `self / other`, built as `self * other ** -1`.  Dividing by a Scalar
        allocates its reciprocal as a pow node; dividing by a raw number
        takes the reciprocal in plain arithmetic and wraps it as a constant.
        A zero divisor fails before anything is allocated. */
    method Div(a: nat, other: Operand) returns (r: Outcome)
      requires Valid() && a < |ops| && (other.Ref? ==> other.node < |ops|)
      modifies this
      ensures Valid()
      ensures r.Err? <==> ValueOf(old(data), other) == 0.0
      ensures r.Err? ==> r.error == ZeroDivision
      ensures r.Err? ==> ops == old(ops) && data == old(data) && grad == old(grad)
      ensures r.Ok? ==>
        && r.node == old(|ops|) + 1
        && ops == old(ops) + [if other.Ref? then Tape.Pow(other.node, -1) else Tape.Leaf, Tape.Mul(a, old(|ops|))]
        && |data| == |old(data)| + 2 && data[..|old(data)|] == old(data)
        && data[|old(data)|] == Power(ValueOf(old(data), other), -1)
        && data[|old(data)| + 1] == old(data)[a] * Power(ValueOf(old(data), other), -1)
        && grad == old(grad) + [0.0, 0.0]
    {
      ghost var d0 := data;
      match other
      case Ref(b) =>
        var reciprocal := Pow(b, IntExponent(-1));
        if reciprocal.Err? {
          r := reciprocal;
        } else {
          ghost var mid := data;
          var out := Mul(a, Ref(reciprocal.node));
          Congruence(mid[a], d0[a], ValueOf(mid, Ref(reciprocal.node)), Power(ValueOf(d0, other), -1));
          r := Ok(out);
        }
      case Num(c) =>
        if c == 0.0 {
          r := Err(ZeroDivision);
        } else {
          var inv := Power(c, -1);
          var out := Mul(a, Num(inv));
          Congruence(d0[a], d0[a], ValueOf(d0, Num(inv)), Power(ValueOf(d0, other), -1));
          r := Ok(out);
        }
    }

    /** `self.exp()`. */
    method Exp(a: nat) returns (out: nat)
      requires Valid() && a < |ops|
      modifies this
      ensures Valid() && out == old(|ops|)
      ensures ops == old(ops) + [Tape.Exp(a)] && data == old(data) + [libm.exp(old(data)[a])]
      ensures grad == old(grad) + [0.0]
    {
      out := Init(libm.exp(data[a]), Tape.Exp(a));
    }

    /** `self.log()`: `math.log` rejects a non-positive value before
        anything is allocated. */
    method Log(a: nat) returns (r: Outcome)
      requires Valid() && a < |ops|
      modifies this
      ensures Valid()
      ensures r.Err? <==> old(data)[a] <= 0.0
      ensures r.Err? ==> r.error == MathDomain
      ensures r.Err? ==> ops == old(ops) && data == old(data) && grad == old(grad)
      ensures r.Ok? ==>
        && r.node == old(|ops|)
        && ops == old(ops) + [Tape.Log(a)]
        && data == old(data) + [libm.log(old(data)[a])]
        && grad == old(grad) + [0.0]
    {
      if data[a] <= 0.0 {
        r := Err(MathDomain);
      } else {
        var out := Init(libm.log(data[a]), Tape.Log(a));
        r := Ok(out);
      }
    }

    /** `self.tanh()`, with the value `(exp(2x) - 1) / (exp(2x) + 1)`. */
    method Tanh(a: nat) returns (out: nat)
      requires Valid() && a < |ops|
      modifies this
      ensures Valid() && out == old(|ops|)
      ensures ops == old(ops) + [Tape.Tanh(a)] && data == old(data) + [TanhOf(libm, old(data)[a])]
      ensures grad == old(grad) + [0.0]
    {
      out := Init(TanhOf(libm, data[a]), Tape.Tanh(a));
    }

    /** `self > other`: compares values only; it allocates no node and
        takes no part in differentiation.  A raw number is compared as the
        constant leaf that wrapping it would create. */
    function Greater(a: nat, other: Operand): (r: bool)
      reads this
      requires a < |data| && (other.Ref? ==> other.node < |data|)
      ensures r <==> data[a] > (data + WrapData(other))[Wrapped(other, |data|)]
      ensures r ==> data[a] != ValueOf(data, other)
      ensures other.Ref? ==> !(r && data[other.node] > data[a])
    {
      var o := ValueOf(data, other);
      if data[a] > o then true else false
    }

    /** `node._backward()`: the rule installed by the operator that built
        node `v`, updating its operands' accumulators in place. */
    method RunRule(v: nat)
      requires Valid() && v < |ops| && RuleDefined(ops, data, v)
      modifies this`grad
      ensures grad == Rule(ops, data, old(grad), v)
    {
      assert OperandsBelow(ops[v], v);
      // Every rule reads `out.grad`, grad[v], which no rule of v writes.
      var acc := grad;
      match ops[v] {
        case Leaf =>
        case Add(a, b) =>
          acc := acc[a := acc[a] + Chain(1.0, grad[v])];
          acc := acc[b := acc[b] + Chain(1.0, grad[v])];
        case Mul(a, b) =>
          acc := acc[a := acc[a] + Chain(data[b], grad[v])];
          acc := acc[b := acc[b] + Chain(data[a], grad[v])];
        case Pow(a, p) =>
          acc := acc[a := Chain(PowDerivative(data[a], p), grad[v])];
        case Exp(a) =>
          acc := acc[a := acc[a] + Chain(data[v], grad[v])];
        case Log(a) =>
          acc := acc[a := Chain(1.0 / data[a], grad[v])];
        case Tanh(a) =>
          acc := acc[a := acc[a] + Chain(1.0 - data[v] * data[v], grad[v])];
      }
      assert acc == Rule(ops, data, grad, v);
      grad := acc;
    }

    /** `build_topo(v)`: a depth-first postorder walk.  `visited` holds the
        finished nodes (those already in `topo`) and the nodes whose walk is
        still in progress, all of which use `v` transitively and so have
        larger indices. */
    method BuildTopo(v: nat, visited: set<nat>, topo: seq<nat>) returns (visited': set<nat>, topo': seq<nat>)
      requires Acyclic(ops) && v < |ops|
      requires NoDup(topo) && ChildrenFirst(ops, topo) && Elems(topo) <= visited
      requires forall x :: x in visited && x !in Elems(topo) ==> v < x
      ensures NoDup(topo') && ChildrenFirst(ops, topo') && Elems(topo') <= visited'
      ensures topo <= topo'
      ensures visited' == visited + Reach(ops, v)
      ensures Elems(topo') == Elems(topo) + Reach(ops, v)
      ensures visited' - Elems(topo') == visited - Elems(topo)
      ensures v !in visited ==> topo' == topo'[..|topo'| - 1] + [v]
      decreases v, 1
    {
      if v in visited {
        ChildrenFirstClosed(ops, topo, v);
        return visited, topo;
      }
      visited', topo' := VisitChildren(v, visited + {v}, topo);
      FinishNode(ops, v, visited, topo, visited', Elems(topo'));
      AppendOrdered(ops, topo', v);
      ElemsAppend(topo', v);
      topo' := topo' + [v];
    }

    /** The loop of `build_topo(v)` over `v._prev`, in an arbitrary order:
        afterwards everything a child reaches is listed. */
    method VisitChildren(v: nat, visited: set<nat>, topo: seq<nat>) returns (visited': set<nat>, topo': seq<nat>)
      requires Acyclic(ops) && v < |ops|
      requires NoDup(topo) && ChildrenFirst(ops, topo) && Elems(topo) <= visited
      requires v in visited && v !in Elems(topo)
      requires forall x :: x in visited && x !in Elems(topo) ==> v <= x
      ensures NoDup(topo') && ChildrenFirst(ops, topo') && Elems(topo') <= visited'
      ensures topo <= topo'
      ensures visited <= visited' <= visited + Reach(ops, v)
      ensures Elems(topo) <= Elems(topo') <= Elems(topo) + Reach(ops, v)
      ensures visited' - Elems(topo') == visited - Elems(topo)
      ensures forall c :: c in Children(ops[v]) ==> c < |ops| && Reach(ops, c) <= Elems(topo')
      decreases v, 0
    {
      visited', topo' := visited, topo;
      var rest := Children(ops[v]);
      forall c | c in rest ensures c < v {
        ChildBelow(ops, v, c);
      }
      while rest != {}
        invariant rest <= Children(ops[v])
        invariant forall c :: c in Children(ops[v]) ==> c < v
        invariant NoDup(topo') && ChildrenFirst(ops, topo') && Elems(topo') <= visited'
        invariant topo <= topo'
        invariant visited <= visited' <= visited + Reach(ops, v)
        invariant Elems(topo) <= Elems(topo') <= Elems(topo) + Reach(ops, v)
        invariant visited' - Elems(topo') == visited - Elems(topo)
        invariant forall c :: c in Children(ops[v]) && c !in rest ==> Reach(ops, c) <= Elems(topo')
        decreases rest
      {
        var c :| c in rest;
        ChildReach(ops, v, c);
        forall x | x in visited' && x !in Elems(topo') ensures c < x {
          assert x in visited' - Elems(topo');
        }
        visited', topo' := BuildTopo(c, visited', topo');
        rest := rest - {c};
      }
    }

    /** `topological_sort()`: every node reachable from `root` exactly once,
        children before the nodes that use them, `root` last, whatever order
        the children sets are walked in. */
    method TopologicalSort(root: nat) returns (topo: seq<nat>)
      requires Valid() && root < |ops|
      ensures IsTopoOrder(ops, root, topo)
      ensures |topo| == |Reach(ops, root)|
    {
      var visited;
      visited, topo := BuildTopo(root, {}, []);
      TopoLength(ops, root, topo);
    }

    /** `backward()`: seed the root's gradient with 1, then run the rule of
        every node of a topological order, last node first.  The gradients
        are what `BackwardPass` gives for that order. */
    method Backward(root: nat) returns (ghost topo: seq<nat>)
      requires Valid() && root < |ops| && ZeroPowSafe(ops, data, root)
      modifies this`grad
      ensures Valid()
      ensures IsTopoOrder(ops, root, topo) && |topo| == |Reach(ops, root)|
      ensures Runnable(ops, data, topo)
      ensures grad == BackwardPass(ops, data, old(grad), root, topo)
      ensures grad[root] == 1.0
      ensures forall u :: 0 <= u < |ops| && u !in Reach(ops, root) ==> grad[u] == old(grad)[u]
    {
      grad := grad[root := 1.0];
      var order := TopologicalSort(root);
      topo := order;
      SafeRunnable(libm, ops, data, root, order);
      ghost var seeded := grad;
      var k := |order|;
      assert order[..k] == order;
      while k > 0
        invariant 0 <= k <= |order| && Valid()
        invariant RunReversed(ops, data, grad, order[..k]) == RunReversed(ops, data, seeded, order)
      {
        RunPrefixStep(ops, data, grad, order, k);
        RunRule(order[k - 1]);
        k := k - 1;
      }
      BackwardFrame(ops, data, old(grad), root, order);
    }
  }
}
