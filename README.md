# AutoGrad engine: a verified model of the `Scalar` class

AutoGrad is a small reverse-mode automatic-differentiation engine. A
`Scalar` wraps one number. Arithmetic on Scalars builds a computation graph
in which every result records its operands (`_prev`) and a backward rule
(`_backward`) that pushes the result's gradient into the operands' `grad`
fields. `backward()` seeds the root's gradient with 1, sorts the graph
topologically by a depth-first walk, and runs the rules in reverse.

This project models that engine in Dafny:

- `tape.dfy` (module `Tape`): the node representation. Every Scalar of one
  graph is a slot of an arena, addressed by allocation index. An op tag
  (`Leaf`, `Add`, `Mul`, `Pow`, `Exp`, `Log`, `Tanh`) keeps the rule's
  operand slots apart from the deduplicated children set, so `x + x` has two
  slots but one child. Operands always have smaller indices, so the graph
  is acyclic by construction. The module also holds the forward values and
  the arena invariant `WellFormed`.
- `rules.dfy` (module `Rules`): each `_backward` closure as the function
  `Rule` on a gradient sequence, the chain-rule reference `Partial` /
  `Contribution` it is compared against, and `RunReversed`, the loop over
  `reversed(topo)`.
- `order.dfy` (module `Order`): reachability and what a topological order
  of the nodes reachable from a root is, with the lemmas the depth-first
  walk needs.
- `backprop.dfy` (module `Backprop`): `BackwardPass`, what one `backward()`
  computes for a given order, and its properties: the root ends at 1,
  unreachable nodes keep their gradients, and, when no reachable node is a
  pow or log node, the result solves the adjoint (chain-rule) equations for
  every order the sort may return.
- `engine.dfy` (module `Engine`): the class `Graph`, whose methods are the
  operators (each allocates into the arena and states the new arena
  exactly), the in-place rule `RunRule`, the recursive `BuildTopo` walk with
  an arbitrary child order, `TopologicalSort` and `Backward`. Each is proved
  against the functions above.
- `examples.dfy` (module `Examples`): small graphs built through the
  operators, with the gradients `backward()` leaves in them.

The pow and log rules assign `self.grad = ...` where the other rules add
(`AutoGrad/engine.py:84`, `AutoGrad/engine.py:110`). The model keeps this
as written. `Examples.PowOverwritesSum` shows that `x ** 2 + x` at x == 3
leaves `x.grad == 6`, where the derivative is 7.
`Examples.PowGradientDependsOnOrder` shows that for `x ** 2 + x ** 3` the
result even depends on which child of the sum the walk visits first. Both
orders are legitimate topological orders, and they give 4 and 12 where the
derivative is 16. The chain-rule theorem `Backprop.BackwardAdjoint` is
therefore stated for graphs whose reachable rules all accumulate.

The modelled failures the source raises while building a node are
`Outcome.Err` values: a non-numeric exponent, zero to a negative power, the
logarithm of a non-positive number, and division by zero. In each case the
arena is unchanged, because Python raises before the new `Scalar` exists.
Float overflow is not among them; see "Left out".

## Model

| member | source | states |
|---|---|---|
| Tape.Children | AutoGrad/engine.py:12 | `_prev` holds exactly the operands, duplicates removed: never more children than operand slots, and `x + x` and `x * x` have the single child `x` |
| Tape.AppendWellFormed | AutoGrad/engine.py:6-13 | allocating a node whose operands exist and whose value is its operator applied to their values keeps the arena acyclic and every stored value correct |
| Engine.Graph.constructor | AutoGrad/engine.py:6-13 | the state before any Scalar exists (no source line builds it): an empty graph that is well-formed and holds no nodes, ready for `__init__` to allocate into |
| Engine.Graph.Init | AutoGrad/engine.py:6-13 | `Scalar(data, _children, _op)` appends one node with the given op and value and gradient 0, and leaves every existing node as it was |
| Engine.Graph.Leaf | AutoGrad/engine.py:6-13 | a Scalar made from a raw value is a leaf with that value and gradient 0 |
| Engine.Graph.Wrap | AutoGrad/engine.py:24-25 | a Scalar operand is used as is; a raw number is first allocated as a constant leaf holding it |
| Engine.Graph.Add | AutoGrad/engine.py:32-48 | `self + other` (and `other + self` for a number) wraps a raw operand, then appends an add node over both with value `self.data + other.data` and gradient 0 |
| Engine.Graph.Mul | AutoGrad/engine.py:59-75 | `self * other` (and `other * self` for a number) wraps a raw operand, then appends a mul node with value `self.data * other.data` and gradient 0 |
| Engine.Graph.Neg | AutoGrad/engine.py:50-51 | `-a` adds no rule of its own: it is the constant leaf -1 and the mul node `a * (-1)` |
| Engine.Graph.Sub | AutoGrad/engine.py:53-54 | `a - b` is `a + (-b)`: a Scalar `b` gets a negation node, a raw number is negated before it is wrapped; the nodes and values appended are listed exactly |
| Engine.Graph.RSub | AutoGrad/engine.py:56-57 | `c - a` for a raw number `c` is `(-a) + c`: four nodes, negation first, then the wrapped `c` and the add |
| Engine.Graph.Pow | AutoGrad/engine.py:77-88 | a non-numeric exponent fails the assertion, zero to a negative power fails with division by zero, and in both cases nothing is allocated; otherwise one pow node with value `data ** p` |
| Engine.Graph.Div | AutoGrad/engine.py:90-91 | `a / b` is `a * b ** -1`; it fails exactly when the divisor's value is 0, before anything is allocated; otherwise it appends the reciprocal (a pow node, or a constant leaf for a raw number) and the mul node, with value `a.data * b ** -1` |
| Engine.Graph.Exp | AutoGrad/engine.py:93-102 | appends an exp node with value `exp(data)` and gradient 0 |
| Engine.Graph.Log | AutoGrad/engine.py:104-113 | fails with a domain error exactly when the value is not positive, allocating nothing; otherwise appends a log node with value `log(data)` |
| Engine.Graph.Tanh | AutoGrad/engine.py:119-129 | appends a tanh node with value `(exp(2x) - 1) / (exp(2x) + 1)` and gradient 0 |
| Engine.Graph.Greater | AutoGrad/engine.py:23-26 | `self > other` is true exactly when `self.data` exceeds the value of the (wrapped) other operand; true excludes equal values and the reverse comparison |
| Rules.Rule | AutoGrad/engine.py:38-125 | a node's backward rule changes only its children's gradients; a leaf's rule (`lambda: None`, line 10) changes nothing |
| Rules.AccumulatingRule | AutoGrad/engine.py:38-41 | the add, mul, exp and tanh rules add to every node d(out)/d(node) times `out.grad`, counted once per operand slot, so `x + x` gives `x` twice `out.grad` |
| Rules.OverwritingRule | AutoGrad/engine.py:83-84 | the pow rule (and the log rule at line 110) sets its operand's gradient to the local derivative times `out.grad`, discarding what it held |
| Rules.RunFrame | AutoGrad/engine.py:152-153 | running rules in reverse order writes only to operands of the nodes run |
| Engine.Graph.RunRule | AutoGrad/engine.py:38-125 | `node._backward()` updates the gradients in place to exactly what `Rules.Rule` gives: add and mul add `1 * out.grad` / `other.data * out.grad` and `self.data * out.grad`, exp adds `out.data * out.grad`, tanh adds `(1 - t^2) * out.grad`, pow assigns `p * x ** (p - 1) * out.grad`, log assigns `(1 / x) * out.grad` |
| Order.Reach | AutoGrad/engine.py:136-141 | the nodes reachable from `v` include `v` and have no larger index |
| Order.ChildReach | AutoGrad/engine.py:139-140 | a child has a smaller index and reaches a subset of what its parent reaches |
| Order.ReachTransitive | AutoGrad/engine.py:136-141 | reachability is transitive |
| Order.ChildrenFirstClosed | AutoGrad/engine.py:137 | a children-first list already contains everything reachable from each of its nodes, which is why skipping a visited node loses nothing |
| Order.FinishNode | AutoGrad/engine.py:138-141 | after the children loop, appending `v` lists exactly what the walk had listed plus all that `v` reaches, and `v` leaves the set of walks in progress |
| Order.AppendOrdered | AutoGrad/engine.py:141 | appending a node whose children are all listed keeps the list duplicate-free and children-first |
| Order.TopoLength | AutoGrad/engine.py:131-145 | a topological order has exactly one entry per reachable node |
| Order.TopoOperandsEarlier | AutoGrad/engine.py:152-153 | no node of a topological order is an operand of itself or of a node listed before it |
| Engine.Graph.BuildTopo | AutoGrad/engine.py:136-141 | `build_topo(v)` marks everything `v` reaches as visited and appends exactly the not yet listed reachable nodes, children first and `v` last, keeping the list duplicate-free |
| Engine.Graph.VisitChildren | AutoGrad/engine.py:139-140 | the loop over `_prev`, in an arbitrary order, lists everything each child reaches and nothing outside what `v` reaches |
| Engine.Graph.TopologicalSort | AutoGrad/engine.py:131-145 | the result holds every node reachable from the root exactly once, each child before the nodes that use it, the root last, for any iteration order of the children sets |
| Backprop.SafeRunnable | AutoGrad/engine.py:84 | in a well-formed graph every rule along a topological order can run exactly when no reachable `x ** 0` has x == 0 (the one rule that divides by zero) |
| Backprop.BackwardFrame | AutoGrad/engine.py:147-153 | after `backward()` the root's gradient is exactly 1, whatever it held, and nodes the root does not reach keep their gradients |
| Backprop.AdjointRun | AutoGrad/engine.py:152-153 | a reversed run of accumulating rules leaves each gradient at its start value plus the chain-rule contributions of all nodes run, each weighted by that node's final gradient |
| Backprop.BackwardAdjoint | AutoGrad/engine.py:147-153 | when every reachable rule accumulates, `backward()` solves the adjoint equations: root gradient 1, every other gradient its old value plus the sum over reachable v of d(v)/d(node) times v's gradient, for every topological order |
| Engine.Graph.Backward | AutoGrad/engine.py:147-153 | sets the root's gradient to 1, sorts, and runs each reachable node's rule exactly once, last node first; the gradients are `BackwardPass` of that order, the root ends at 1 and unreachable nodes are unchanged |
| Examples.SquareGradient | AutoGrad/engine.py:59-71 | `x = 3; y = x * x; y.backward()` gives `y.data == 9` and `x.grad == 6` |
| Examples.DoubleGradient | AutoGrad/engine.py:38-41 | `(x + x).backward()` gives `x.grad == 2` |
| Examples.TanhAtZero | AutoGrad/engine.py:119-129 | `tanh(0)` is 0 and its backward gives `x.grad == 1` |
| Examples.PowPlusLinearOrder | AutoGrad/engine.py:131-145 | for `x ** 2 + x` the sort has a single possible result |
| Examples.PowPlusLinearPass | AutoGrad/engine.py:83-84 | along that order the pow rule overwrites the 1 the add rule gave `x`, leaving `x.grad == 6` |
| Examples.PowOverwritesSum | AutoGrad/engine.py:77-88 | building `x ** 2 + x` at x == 3 through the operators and calling `backward()` leaves `x.grad == 6` (the derivative is 7) |
| Examples.SquareFirstOrder | AutoGrad/engine.py:131-145 | for `x ** 2 + x ** 3`, listing the square before the cube is a topological order |
| Examples.CubeFirstOrder | AutoGrad/engine.py:131-145 | listing the cube before the square is one too |
| Examples.TwoPowRules | AutoGrad/engine.py:83-84 | each pow rule assigns `x.grad` its own term (4 for the square, 12 for the cube at x == 2), whatever `x.grad` held |
| Examples.SquareFirstPass | AutoGrad/engine.py:152-153 | along the square-first order `backward()` leaves `x.grad == 4` |
| Examples.CubeFirstPass | AutoGrad/engine.py:152-153 | along the cube-first order it leaves `x.grad == 12` |
| Examples.PowGradientDependsOnOrder | AutoGrad/engine.py:83-84 | `x ** 2 + x ** 3` at x == 2 is a well-formed graph with two topological orders that give `x` different gradients |

## Left out

- `AutoGrad/nn.py` is not part of this model. It holds neurons, layers and the
  network built from Scalars, with random initial weights.
- `__repr__` and the `label` strings are debug text only.
- Floating point is modelled by `real`. There is no rounding, no infinity
  and no NaN. Python's distinction between `int` and `float` data is
  dropped.
- `math.exp` and `math.log` are uninterpreted functions (`Tape.Libm`). The
  only fact assumed about them is that `exp` is positive, which keeps the
  tanh formula's denominator nonzero. A `log` outside its domain is the
  `MathDomain` error.
- Engine.Graph.Exp, Engine.Graph.Tanh, Engine.Graph.Pow: the `OverflowError`
  paths are not modelled, because `real` has no range limit. `math.exp`
  raises for arguments above about 709.78, which `exp()` reaches at line 95
  and `tanh()` reaches for x above about 354.9 through `math.exp(2*x)` at
  line 121. A float `**` whose result is out of range raises at line 81, and
  the pow rule's `self.data**(other-1)` can raise in the middle of a backward
  pass at line 84. The model always appends the node and always runs the rule.
- Engine.Graph.Pow: only integer exponents are modelled. A float exponent
  (and the complex result Python gives for a negative base) is not.
  `NonNumeric` stands for every exponent the assertion rejects.
- Engine.Graph.Backward: requires that no reachable node is `x ** 0` with
  x == 0 (`Backprop.ZeroPowSafe`). Its rule computes `0 * 0.0 ** -1` and
  raises in the middle of the pass, after some gradients have already been
  written. That partial state is not modelled.
- Engine.Graph.Backward and Engine.Graph.TopologicalSort return the order
  they used. `Backward` returns it as a ghost value, because the source
  does not return it.
- Backprop.BackwardAdjoint: stated only for graphs whose reachable rules all
  accumulate. With pow or log nodes the assigning rules break the chain-rule
  equations, as the examples show.
- Engine.Graph.Greater: the temporary constant Scalar that `__gt__` wraps a
  raw number in is not allocated in the arena. It is unreachable once the
  comparison returns.
- `__radd__` and `__rmul__` are `Engine.Graph.Add` and `Engine.Graph.Mul`
  with a raw-number operand. This is the call the source makes, with the
  Scalar as `self`.
- The `_backward` closures are dispatch on the op tag (`Rules.Rule`,
  `Engine.Graph.RunRule`), not stored functions.
- Python exception objects, and the recursion limit that a deep graph hits
  in the recursive `build_topo`, are not modelled. Construction errors are
  `Outcome.Err` values.
- The identity-keyed Python `set` of visited Scalars is a set of arena
  indices. Two distinct Scalars are always distinct indices.
