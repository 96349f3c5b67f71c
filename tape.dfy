/** The node representation of the engine: every Scalar is one slot of an
    arena, addressed by its allocation index.  A node records the operation
    that produced it and the indices of its operands; an operand is always an
    index of a node allocated earlier, so the graph is acyclic by
    construction. */
module Tape {

  /** The op tag together with the rule's operands (`self`, `other`). */
  datatype Op =
    | Leaf
    | Add(a: nat, b: nat)
    | Mul(a: nat, b: nat)
    | Pow(a: nat, p: int)
    | Exp(a: nat)
    | Log(a: nat)
    | Tanh(a: nat)

  /** The right-hand operand of a binary operator: a Scalar already in the
      graph, or a raw number that the operator first wraps as a constant leaf. */
  datatype Operand = Ref(node: nat) | Num(value: real)

  /** The exponent handed to `**`: an integer, or anything that is not a
      number (a Scalar, for one), which the exponent assertion rejects. */
  datatype Exponent = IntExponent(p: int) | NonNumeric

  /** The failures an operator can raise before it allocates anything. */
  datatype Error =
    | ExponentNotNumber   // the assertion on the exponent of `**`
    | ZeroDivision        // zero raised to a negative power, or 1 / 0
    | MathDomain          // the logarithm of a non-positive value

  datatype Outcome = Ok(node: nat) | Err(error: Error)

  /** The library functions the engine calls for its forward values; they are
      left uninterpreted. */
  datatype Libm = Libm(exp: real -> real, log: real -> real)

  /** The only fact about `exp` the engine depends on: `exp(2x) + 1` is never
      zero in the forward value of tanh. */
  ghost predicate Sound(m: Libm)
  {
    forall x :: m.exp(x) > 0.0
  }

  /** The operand slots of the backward rule, in the order the rule updates
      them; `x + x` has two slots that name the same node. */
  function Operands(op: Op): seq<nat>
  {
    match op
    case Leaf => []
    case Add(a, b) => [a, b]
    case Mul(a, b) => [a, b]
    case Pow(a, _) => [a]
    case Exp(a) => [a]
    case Log(a) => [a]
    case Tanh(a) => [a]
  }

  /** The children set `_prev`: the operands with duplicates removed, so
      `x + x` and `x * x` have the single child `x`. */
  function Children(op: Op): (r: set<nat>)
    ensures forall c :: c in r <==> c in Operands(op)
    ensures |r| <= |Operands(op)|
    ensures (op.Add? || op.Mul?) && op.a == op.b ==> r == {op.a}
  {
    match op
    case Leaf => {}
    case Add(a, b) => {a, b}
    case Mul(a, b) => {a, b}
    case Pow(a, _) => {a}
    case Exp(a) => {a}
    case Log(a) => {a}
    case Tanh(a) => {a}
  }

  /** Every operand of `op` is an index below `n`. */
  predicate OperandsBelow(op: Op, n: nat)
  {
    match op
    case Leaf => true
    case Add(a, b) => a < n && b < n
    case Mul(a, b) => a < n && b < n
    case Pow(a, _) => a < n
    case Exp(a) => a < n
    case Log(a) => a < n
    case Tanh(a) => a < n
  }

  /** A node only refers to nodes allocated before it. */
  predicate Acyclic(ops: seq<Op>)
  {
    forall i :: 0 <= i < |ops| ==> OperandsBelow(ops[i], i)
  }

  lemma ChildBelow(ops: seq<Op>, v: nat, c: nat)
    requires Acyclic(ops) && v < |ops| && c in Children(ops[v])
    ensures c < v
  {
    assert OperandsBelow(ops[v], v);
  }

  /** Python's `x ** n` for an integer exponent; `0 ** n` with n < 0 raises,
      and `x ** 0` is 1 for every x. */
  function Power(x: real, n: int): real
    requires n >= 0 || x != 0.0
    decreases if n >= 0 then n else -n
  {
    if n == 0 then 1.0
    else if n > 0 then x * Power(x, n - 1)
    else Power(x, n + 1) / x
  }

  /** The forward value of tanh, computed from exp as the engine does. */
  function TanhOf(m: Libm, x: real): real
    requires Sound(m)
  {
    var e := m.exp(2.0 * x);
    (e - 1.0) / (e + 1.0)
  }

  /** The operator's own domain check on its operand values. */
  predicate InDomain(op: Op, data: seq<real>)
    requires OperandsBelow(op, |data|)
  {
    match op
    case Pow(a, p) => p >= 0 || data[a] != 0.0
    case Log(a) => data[a] > 0.0
    case _ => true
  }

  /** The forward value of a non-leaf node from its operands' values. */
  function Forward(m: Libm, op: Op, data: seq<real>): real
    requires Sound(m) && !op.Leaf? && OperandsBelow(op, |data|) && InDomain(op, data)
  {
    match op
    case Add(a, b) => data[a] + data[b]
    case Mul(a, b) => data[a] * data[b]
    case Pow(a, p) => Power(data[a], p)
    case Exp(a) => m.exp(data[a])
    case Log(a) => m.log(data[a])
    case Tanh(a) => TanhOf(m, data[a])
  }

  /** The arena invariant: acyclic, one value per node, and every non-leaf
      value is its operator applied to the operands' values, inside the
      operator's domain. */
  ghost predicate WellFormed(m: Libm, ops: seq<Op>, data: seq<real>)
  {
    && Sound(m)
    && |ops| == |data|
    && Acyclic(ops)
    && forall i :: 0 <= i < |ops| && !ops[i].Leaf? ==>
         InDomain(ops[i], data) && data[i] == Forward(m, ops[i], data)
  }

  /** Allocating a node that refers only to existing nodes, with its
      operator's value inside the operator's domain, keeps the arena
      well-formed. */
  lemma AppendWellFormed(m: Libm, ops: seq<Op>, data: seq<real>, op: Op, x: real)
    requires WellFormed(m, ops, data) && OperandsBelow(op, |ops|)
    requires !op.Leaf? ==> InDomain(op, data) && x == Forward(m, op, data)
    ensures WellFormed(m, ops + [op], data + [x])
  {
    var ops', data' := ops + [op], data + [x];
    forall i | 0 <= i < |ops'| && !ops'[i].Leaf?
      ensures InDomain(ops'[i], data') && data'[i] == Forward(m, ops'[i], data')
    {
      assert OperandsBelow(ops'[i], i);
      assert forall k :: 0 <= k < |data| ==> data'[k] == data[k];
    }
  }

  /** The value of an operand: the node's data, or the raw number. */
  function ValueOf(data: seq<real>, x: Operand): real
    requires x.Ref? ==> x.node < |data|
  {
    match x
    case Ref(i) => data[i]
    case Num(c) => c
  }

  /** The node index an operand ends up as when the next free index is `n`:
      a raw number becomes the fresh constant leaf at `n`. */
  function Wrapped(x: Operand, n: nat): nat
  {
    match x
    case Ref(i) => i
    case Num(_) => n
  }

  /** The nodes wrapping an operand appends: one constant leaf for a raw
      number, none for a Scalar. */
  function WrapOps(x: Operand): seq<Op>
  {
    if x.Num? then [Leaf] else []
  }

  function WrapData(x: Operand): seq<real>
  {
    if x.Num? then [x.value] else []
  }

  /** Fresh gradient accumulators. */
  function Zeros(n: nat): (r: seq<real>)
    ensures |r| == n && forall i :: 0 <= i < n ==> r[i] == 0.0
  {
    seq(n, _ => 0.0)
  }
}
