/** Small graphs built through the engine's own operators, with the
    gradients one backward pass leaves in them. */
module Examples {
  import opened Tape
  import opened Rules
  import opened Order
  import opened Backprop
  import opened Engine

  /** `x = 3; y = x * x; y.backward()` gives `y.data == 9` and
      `x.grad == 6`: both mul slots name `x`, and each adds `3 * 1`. */
  method SquareGradient(m: Libm) returns (y: real, dx: real)
    requires Sound(m)
    ensures y == 9.0 && dx == 6.0
  {
    var g := new Graph(m);
    var x := g.Leaf(3.0);
    var sq := g.Mul(x, Ref(x));
    assert g.ops == [Tape.Leaf, Tape.Mul(0, 0)];
    assert Reach(g.ops, 0) == {0};
    assert Reach(g.ops, 1) == {0, 1};
    ghost var grad0 := g.grad;
    ghost var topo := g.Backward(sq);
    assert topo == [0, 1] by {
      assert topo[1] == 1 && |topo| == 2;
      assert topo[0] in Elems(topo);
    }
    assert [0, 1][..1] == [0] && [0][..0] == [];
    assert g.grad == Rule(g.ops, g.data, Rule(g.ops, g.data, grad0[1 := 1.0], 1), 0);
    y, dx := g.data[sq], g.grad[x];
  }

  /** `x + x` passes the output gradient to `x` twice, although `x` is
      listed once among the children: `x.grad == 2`. */
  method DoubleGradient(m: Libm, value: real) returns (dx: real)
    requires Sound(m)
    ensures dx == 2.0
  {
    var g := new Graph(m);
    var x := g.Leaf(value);
    var twice := g.Add(x, Ref(x));
    assert g.ops == [Tape.Leaf, Tape.Add(0, 0)];
    assert Reach(g.ops, 0) == {0};
    assert Reach(g.ops, 1) == {0, 1};
    ghost var grad0 := g.grad;
    ghost var topo := g.Backward(twice);
    assert topo == [0, 1] by {
      assert topo[1] == 1 && |topo| == 2;
      assert topo[0] in Elems(topo);
    }
    assert [0, 1][..1] == [0] && [0][..0] == [];
    assert g.grad == Rule(g.ops, g.data, Rule(g.ops, g.data, grad0[1 := 1.0], 1), 0);
    dx := g.grad[x];
  }

  /** `x = 0; x.tanh().backward()` gives the value 0 and `x.grad == 1`,
      for any `exp` with `exp(0) == 1`. */
  method TanhAtZero(m: Libm) returns (t: real, dx: real)
    requires Sound(m) && m.exp(0.0) == 1.0
    ensures t == 0.0 && dx == 1.0
  {
    var g := new Graph(m);
    var x := g.Leaf(0.0);
    var th := g.Tanh(x);
    assert g.ops == [Tape.Leaf, Tape.Tanh(0)];
    assert g.data[1] == 0.0;
    assert Reach(g.ops, 0) == {0};
    assert Reach(g.ops, 1) == {0, 1};
    ghost var grad0 := g.grad;
    ghost var topo := g.Backward(th);
    assert topo == [0, 1] by {
      assert topo[1] == 1 && |topo| == 2;
      assert topo[0] in Elems(topo);
    }
    assert [0, 1][..1] == [0] && [0][..0] == [];
    assert g.grad == Rule(g.ops, g.data, Rule(g.ops, g.data, grad0[1 := 1.0], 1), 0);
    t, dx := g.data[th], g.grad[x];
  }

  /** `x ** 2 + x` (nodes x, x ** 2, the sum) has exactly one topological
      order. */
  lemma PowPlusLinearOrder(topo: seq<nat>)
    requires Acyclic([Tape.Leaf, Tape.Pow(0, 2), Tape.Add(1, 0)])
    requires IsTopoOrder([Tape.Leaf, Tape.Pow(0, 2), Tape.Add(1, 0)], 2, topo)
    ensures topo == [0, 1, 2]
  {
    var ops := [Tape.Leaf, Tape.Pow(0, 2), Tape.Add(1, 0)];
    assert Reach(ops, 0) == {0};
    assert Reach(ops, 1) == {0, 1};
    assert Reach(ops, 2) == {0, 1, 2};
    assert |topo| == 3 by {
      NoDupCard(topo);
    }
    assert topo[0] in Elems(topo) && topo[1] in Elems(topo);
    assert 0 in Children(ops[1]);
    assert topo[..0] == [];
  }

  /** Backward from `x ** 2 + x` at x == 3, fresh accumulators: the add
      rule runs first and adds 1 to `x.grad`, then the pow rule assigns
      `2 * 3 * 1` over it, so `x.grad` ends at 6 where d(x^2 + x)/dx is 7. */
  lemma {:induction false} PowPlusLinearPass()
    ensures var ops := [Tape.Leaf, Tape.Pow(0, 2), Tape.Add(1, 0)];
            var data := [3.0, 9.0, 12.0];
            && Acyclic(ops) && Runnable(ops, data, [0, 1, 2])
            && BackwardPass(ops, data, [0.0, 0.0, 0.0], 2, [0, 1, 2])[0] == 6.0
  {
    var ops := [Tape.Leaf, Tape.Pow(0, 2), Tape.Add(1, 0)];
    var data := [3.0, 9.0, 12.0];
    assert Acyclic(ops) by {
      forall i | 0 <= i < |ops| ensures OperandsBelow(ops[i], i) {
      }
    }
    var order := [0, 1, 2];
    assert Runnable(ops, data, order);
    var g1 := Rule(ops, data, [0.0, 0.0, 1.0], 2);
    assert g1 == [1.0, 1.0, 1.0];
    assert Power(3.0, 1) == 3.0;
    var g2 := Rule(ops, data, g1, 1);
    assert g2 == [6.0, 1.0, 1.0];
    var g3 := Rule(ops, data, g2, 0);
    assert g3 == g2;
    assert order[..2] == [0, 1] && [0, 1][..1] == [0] && [0][..0] == [];
    assert RunReversed(ops, data, g3, []) == g3;
    assert RunReversed(ops, data, g2, [0]) == g3;
    assert RunReversed(ops, data, g1, [0, 1]) == g3;
    assert [0.0, 0.0, 0.0][2 := 1.0] == [0.0, 0.0, 1.0];
  }

  /** `x = 3; (x ** 2 + x).backward()` through the engine leaves
      `x.grad == 6`: the pow rule assigns instead of adding. */
  method PowOverwritesSum(m: Libm) returns (dx: real)
    requires Sound(m)
    ensures dx == 6.0
  {
    var g := new Graph(m);
    var x := g.Leaf(3.0);
    var sq := g.Pow(x, IntExponent(2));
    var sum := g.Add(sq.node, Ref(x));
    assert Power(3.0, 2) == 9.0;
    assert g.ops == [Tape.Leaf, Tape.Pow(0, 2), Tape.Add(1, 0)];
    assert g.data == [3.0, 9.0, 12.0];
    assert g.grad == [0.0, 0.0, 0.0];
    ghost var topo := g.Backward(sum);
    PowPlusLinearOrder(topo);
    PowPlusLinearPass();
    dx := g.grad[x];
  }
  /** The reachable sets of `x ** 2 + x ** 3` (nodes x, x ** 2, x ** 3,
      the sum). */
  lemma TwoPowReach()
    ensures var ops := [Tape.Leaf, Tape.Pow(0, 2), Tape.Pow(0, 3), Tape.Add(1, 2)];
            && Acyclic(ops) && Reach(ops, 3) == {0, 1, 2, 3}
  {
    var ops := [Tape.Leaf, Tape.Pow(0, 2), Tape.Pow(0, 3), Tape.Add(1, 2)];
    assert Acyclic(ops) by {
      forall i | 0 <= i < |ops| ensures OperandsBelow(ops[i], i) {
      }
    }
    assert Reach(ops, 0) == {0};
    assert Reach(ops, 1) == {0, 1};
    assert Reach(ops, 2) == {0, 2};
  }

  /** Listing the square before the cube is a topological order; it is the
      depth-first postorder for visiting the sum's first child first. */
  lemma SquareFirstOrder()
    ensures var ops := [Tape.Leaf, Tape.Pow(0, 2), Tape.Pow(0, 3), Tape.Add(1, 2)];
            && Acyclic(ops) && IsTopoOrder(ops, 3, [0, 1, 2, 3])
  {
    var ops := [Tape.Leaf, Tape.Pow(0, 2), Tape.Pow(0, 3), Tape.Add(1, 2)];
    var o := [0, 1, 2, 3];
    forall i | 0 <= i < |o| ensures o[i] < |ops| && forall c :: c in Children(ops[o[i]]) ==> c in o[..i] {
      if i == 1 {
        assert o[..i] == [0];
      } else if i == 2 {
        assert o[..i] == [0, 1];
      } else if i == 3 {
        assert o[..i] == [0, 1, 2];
      }
    }
    assert Elems(o) == {0, 1, 2, 3} by {
      assert forall x :: x in o <==> x == 0 || x == 1 || x == 2 || x == 3;
    }
    TwoPowReach();
  }

  /** Listing the cube before the square is a topological order too; it is
      the depth-first postorder for visiting the sum's second child first. */
  lemma CubeFirstOrder()
    ensures var ops := [Tape.Leaf, Tape.Pow(0, 2), Tape.Pow(0, 3), Tape.Add(1, 2)];
            && Acyclic(ops) && IsTopoOrder(ops, 3, [0, 2, 1, 3])
  {
    var ops := [Tape.Leaf, Tape.Pow(0, 2), Tape.Pow(0, 3), Tape.Add(1, 2)];
    var o := [0, 2, 1, 3];
    forall i | 0 <= i < |o| ensures o[i] < |ops| && forall c :: c in Children(ops[o[i]]) ==> c in o[..i] {
      if i == 1 {
        assert o[..i] == [0];
      } else if i == 2 {
        assert o[..i] == [0, 2];
      } else if i == 3 {
        assert o[..i] == [0, 2, 1];
      }
    }
    assert Elems(o) == {0, 1, 2, 3} by {
      assert forall x :: x in o <==> x == 0 || x == 1 || x == 2 || x == 3;
    }
    TwoPowReach();
  }

  /** The rules of `x ** 2 + x ** 3` at x == 2: the sum passes 1 to both
      pow nodes, and each pow rule assigns `x.grad` its own term, 4 for
      the square and 12 for the cube, whatever `x.grad` held. */
  lemma TwoPowRules()
    ensures var ops := [Tape.Leaf, Tape.Pow(0, 2), Tape.Pow(0, 3), Tape.Add(1, 2)];
            var data := [2.0, 4.0, 8.0, 12.0];
            && Acyclic(ops)
            && Rule(ops, data, [0.0, 0.0, 0.0, 1.0], 3) == [0.0, 1.0, 1.0, 1.0]
            && Rule(ops, data, [0.0, 1.0, 1.0, 1.0], 2) == [12.0, 1.0, 1.0, 1.0]
            && Rule(ops, data, [0.0, 1.0, 1.0, 1.0], 1) == [4.0, 1.0, 1.0, 1.0]
            && Rule(ops, data, [12.0, 1.0, 1.0, 1.0], 1) == [4.0, 1.0, 1.0, 1.0]
            && Rule(ops, data, [4.0, 1.0, 1.0, 1.0], 2) == [12.0, 1.0, 1.0, 1.0]
            && Rule(ops, data, [4.0, 1.0, 1.0, 1.0], 0) == [4.0, 1.0, 1.0, 1.0]
            && Rule(ops, data, [12.0, 1.0, 1.0, 1.0], 0) == [12.0, 1.0, 1.0, 1.0]
  {
    var ops := [Tape.Leaf, Tape.Pow(0, 2), Tape.Pow(0, 3), Tape.Add(1, 2)];
    assert Acyclic(ops) by {
      forall i | 0 <= i < |ops| ensures OperandsBelow(ops[i], i) {
      }
    }
    assert Power(2.0, 1) == 2.0 && Power(2.0, 2) == 4.0;
  }

  /** Backward from `x ** 2 + x ** 3` at x == 2 along `SquareFirstOrder`:
      the cube's rule runs first, then the square's overwrites `x.grad`
      with 4 (d/dx is 16). */
  lemma SquareFirstPass()
    ensures var ops := [Tape.Leaf, Tape.Pow(0, 2), Tape.Pow(0, 3), Tape.Add(1, 2)];
            var data := [2.0, 4.0, 8.0, 12.0];
            && Acyclic(ops) && Runnable(ops, data, [0, 1, 2, 3])
            && BackwardPass(ops, data, [0.0, 0.0, 0.0, 0.0], 3, [0, 1, 2, 3])[0] == 4.0
  {
    var ops := [Tape.Leaf, Tape.Pow(0, 2), Tape.Pow(0, 3), Tape.Add(1, 2)];
    var data := [2.0, 4.0, 8.0, 12.0];
    TwoPowRules();
    var o := [0, 1, 2, 3];
    assert Runnable(ops, data, o);
    assert [0.0, 0.0, 0.0, 0.0][3 := 1.0] == [0.0, 0.0, 0.0, 1.0];
    var g3, g2, g1 := [0.0, 1.0, 1.0, 1.0], [12.0, 1.0, 1.0, 1.0], [4.0, 1.0, 1.0, 1.0];
    assert RunReversed(ops, data, g1, [0]) == g1 by {
      assert [0][..0] == [];
    }
    assert RunReversed(ops, data, g2, [0, 1]) == g1 by {
      assert [0, 1][..1] == [0];
    }
    assert RunReversed(ops, data, g3, [0, 1, 2]) == g1 by {
      assert [0, 1, 2][..2] == [0, 1];
    }
    assert RunReversed(ops, data, [0.0, 0.0, 0.0, 1.0], o) == g1 by {
      assert o[..3] == [0, 1, 2];
    }
  }

  /** The same pass along `CubeFirstOrder` ends with the cube's rule and
      leaves `x.grad` at 12: two topological orders give two different
      gradients. */
  lemma CubeFirstPass()
    ensures var ops := [Tape.Leaf, Tape.Pow(0, 2), Tape.Pow(0, 3), Tape.Add(1, 2)];
            var data := [2.0, 4.0, 8.0, 12.0];
            && Acyclic(ops) && Runnable(ops, data, [0, 2, 1, 3])
            && BackwardPass(ops, data, [0.0, 0.0, 0.0, 0.0], 3, [0, 2, 1, 3])[0] == 12.0
  {
    var ops := [Tape.Leaf, Tape.Pow(0, 2), Tape.Pow(0, 3), Tape.Add(1, 2)];
    var data := [2.0, 4.0, 8.0, 12.0];
    TwoPowRules();
    var o := [0, 2, 1, 3];
    assert Runnable(ops, data, o);
    assert [0.0, 0.0, 0.0, 0.0][3 := 1.0] == [0.0, 0.0, 0.0, 1.0];
    var g3, g2, g1 := [0.0, 1.0, 1.0, 1.0], [4.0, 1.0, 1.0, 1.0], [12.0, 1.0, 1.0, 1.0];
    assert RunReversed(ops, data, g1, [0]) == g1 by {
      assert [0][..0] == [];
    }
    assert RunReversed(ops, data, g2, [0, 2]) == g1 by {
      assert [0, 2][..1] == [0];
    }
    assert RunReversed(ops, data, g3, [0, 2, 1]) == g1 by {
      assert [0, 2, 1][..2] == [0, 2];
    }
    assert RunReversed(ops, data, [0.0, 0.0, 0.0, 1.0], o) == g1 by {
      assert o[..3] == [0, 2, 1];
    }
  }

  /** `x ** 2 + x ** 3` at x == 2 is a well-formed graph with two
      topological orders, the depth-first postorders for the two orders of
      visiting the sum's children, along which a backward pass leaves two
      different gradients in `x`. */
  lemma PowGradientDependsOnOrder(m: Libm)
    requires Sound(m)
    ensures var ops := [Tape.Leaf, Tape.Pow(0, 2), Tape.Pow(0, 3), Tape.Add(1, 2)];
            var data := [2.0, 4.0, 8.0, 12.0];
            var grad := [0.0, 0.0, 0.0, 0.0];
            && WellFormed(m, ops, data)
            && IsTopoOrder(ops, 3, [0, 1, 2, 3]) && IsTopoOrder(ops, 3, [0, 2, 1, 3])
            && Runnable(ops, data, [0, 1, 2, 3]) && Runnable(ops, data, [0, 2, 1, 3])
            && BackwardPass(ops, data, grad, 3, [0, 1, 2, 3])[0]
               != BackwardPass(ops, data, grad, 3, [0, 2, 1, 3])[0]
  {
    var ops := [Tape.Leaf, Tape.Pow(0, 2), Tape.Pow(0, 3), Tape.Add(1, 2)];
    var data := [2.0, 4.0, 8.0, 12.0];
    TwoPowReach();
    assert Power(2.0, 2) == 4.0 && Power(2.0, 3) == 8.0;
    assert WellFormed(m, ops, data) by {
      forall i | 0 <= i < |ops| && !ops[i].Leaf?
        ensures InDomain(ops[i], data) && data[i] == Forward(m, ops[i], data)
      {
      }
    }
    SquareFirstOrder();
    CubeFirstOrder();
    SquareFirstPass();
    CubeFirstPass();
  }
}
