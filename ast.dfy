/**
 * The abstract syntax tree. Lines 7-15 of lib/9cc/node.rb declare the arithmetic and
 * comparison nodes and `Num`; lib/9cc/node/parser.rb builds the remaining ones.
 * There is no greater-than node: the parsers swap the operands of `>` and `>=`.
 *
 * Node fields in Ruby are untyped, and both parsers store plain arrays of nodes in
 * them (the legacy parser's per-level node lists, the statement lists of `if`
 * branches and of `x = { ... }`). `Arr` stands for such an array.
 */
module Ast {
  import opened Outcomes

  datatype Node =
    | Num(value: int)
    | Add(lhs: Node, rhs: Node)
    | Sub(lhs: Node, rhs: Node)
    | Mul(lhs: Node, rhs: Node)
    | Div(lhs: Node, rhs: Node)
    | Lte(lhs: Node, rhs: Node)   // less-than-or-equal
    | Lt(lhs: Node, rhs: Node)    // less-than
    | Eq(lhs: Node, rhs: Node)
    | Neq(lhs: Node, rhs: Node)
    | Lvar(name: string)
    | Assign(lvar: Node, rhs: Node)
    | Ret(inner: Option<Node>)
    | If(cond: Node, thenSide: Node, elseSide: Node)
    | Block(nodes: seq<Node>)
    | Fcall(callee: string, args: seq<Node>)
    | Farg(arg: Node, index: nat)
    | Fdef(fname: string, params: seq<string>, body: Node)
    | Arr(items: seq<Node>)       // a Ruby array held where a node is expected

  predicate IsBinary(n: Node)
  {
    n.Add? || n.Sub? || n.Mul? || n.Div? || n.Lte? || n.Lt? || n.Eq? || n.Neq?
  }

  /** The number of tree nodes, counting an array as one. */
  function Size(n: Node): (k: nat)
    ensures k >= 1
    decreases n, 1
  {
    match n
    case Add(l, r) => 1 + Size(l) + Size(r)
    case Sub(l, r) => 1 + Size(l) + Size(r)
    case Mul(l, r) => 1 + Size(l) + Size(r)
    case Div(l, r) => 1 + Size(l) + Size(r)
    case Lte(l, r) => 1 + Size(l) + Size(r)
    case Lt(l, r) => 1 + Size(l) + Size(r)
    case Eq(l, r) => 1 + Size(l) + Size(r)
    case Neq(l, r) => 1 + Size(l) + Size(r)
    case Assign(l, r) => 1 + Size(l) + Size(r)
    case Arr(items) => 1 + SizeList(items)
    case _ => 1
  }

  function SizeList(ns: seq<Node>): nat
    decreases ns, 0
  {
    if ns == [] then 0 else Size(ns[0]) + SizeList(ns[1..])
  }

  lemma BinarySize(n: Node)
    requires IsBinary(n)
    ensures Size(n) == 1 + Size(n.lhs) + Size(n.rhs)
  {
  }

  lemma SizeListSingle(n: Node)
    ensures SizeList([n]) == Size(n)
  {
    assert [n][1..] == [];
  }

  lemma {:induction false} SizeListAppend(a: seq<Node>, b: seq<Node>)
    ensures SizeList(a + b) == SizeList(a) + SizeList(b)
    decreases |a|
  {
    if a == [] {
      assert a + b == b;
    } else {
      assert (a + b)[1..] == a[1..] + b;
      SizeListAppend(a[1..], b);
    }
  }

  /** Trees of numbers and binary operators, possibly grouped in arrays: all the expression parser builds. */
  predicate Arith(n: Node)
  {
    if n.Num? then true
    else if n.Arr? then forall i :: 0 <= i < |n.items| ==> Arith(n.items[i])
    else IsBinary(n) && Arith(n.lhs) && Arith(n.rhs)
  }

  lemma ArithAppend(nodes: seq<Node>, node: Node)
    requires Arith(Arr(nodes)) && Arith(node)
    ensures Arith(Arr(nodes + [node]))
  {
    assert forall i :: 0 <= i < |nodes| ==> (nodes + [node])[i] == nodes[i];
  }
}
