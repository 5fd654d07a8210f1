/**
 * What the code of lib/9cc/generator.rb does on the machine of module Asm.
 *
 * The statements are about "simple" trees: numbers, variables, assignments to a
 * variable and the eight binary operators, where every operand is a single simple
 * tree (possibly wrapped in a one-element array, as the legacy parser leaves it).
 * `Eval` is the reference meaning of such a tree; division truncates toward zero
 * and comparisons give 0 or 1, as `idiv` and `setX`/`movzb` do.
 */
module GeneratorProps {
  import opened Outcomes
  import opened Ast
  import opened Asm
  import opened Generator

  // ----- simple trees -----

  /** The node an operand stands for: itself, or the element of a one-element array (recursively). */
  function Operand(x: Node): (y: Node)
    ensures SimpleOperand(x) ==> Simple(y)
  {
    if x.Arr? && |x.items| == 1 then Operand(x.items[0]) else x
  }

  predicate Simple(n: Node)
    decreases n, 1
  {
    if n.Num? || n.Lvar? then true
    else if n.Assign? then n.lvar.Lvar? && SimpleOperand(n.rhs)
    else IsBinary(n) && SimpleOperand(n.lhs) && SimpleOperand(n.rhs)
  }

  /** An operand that flattens to exactly one simple tree. */
  predicate SimpleOperand(x: Node)
    decreases x, 2
  {
    if x.Arr? then |x.items| == 1 && SimpleOperand(x.items[0]) else Simple(x)
  }

  lemma {:induction false} OperandFlattens(x: Node)
    requires SimpleOperand(x)
    ensures Simple(Operand(x))
    ensures Flatten(x) == [Operand(x)]
    ensures Size(Operand(x)) <= Size(x)
  {
    if x.Arr? {
      OperandFlattens(x.items[0]);
      assert x.items[1..] == [];
      assert Flatten(x) == Flatten(x.items[0]) + FlattenAll([]);
      SizeListSingle(x.items[0]);
    }
  }

  predicate AllSimple(ns: seq<Node>)
  {
    ns == [] || (Simple(ns[0]) && AllSimple(ns[1..]))
  }

  // ----- stack discipline -----

  /**
   * The code of k simple trees never pops an empty stack and leaves k more values:
   * one per tree, whatever the order the values end up in.
   */
  lemma {:induction false} GenDepth(ns: seq<Node>, names: seq<string>, d: nat)
    requires AllSimple(ns)
    ensures Gen(ns, names).Ok?
    ensures Depth(Gen(ns, names).value.code, d) == Some(d + |ns|)
    decreases SizeList(ns), 3
  {
    if ns != [] {
      var n := ns[0];
      assert Simple(n);
      if n.Num? {
        NumDepth(ns, names, d);
      } else if n.Lvar? {
        LvarDepth(ns, names, d);
      } else if n.Assign? {
        AssignDepth(ns, names, d);
      } else {
        BinaryDepth(ns, names, d);
      }
    }
  }

  /** The head of a list of simple trees is simple, and so is its tail. */
  lemma RestSimple(ns: seq<Node>)
    requires ns != [] && AllSimple(ns)
    ensures Simple(ns[0]) && AllSimple(ns[1..]) && SizeList(ns) == Size(ns[0]) + SizeList(ns[1..])
  {
  }

  lemma {:induction false} NumDepth(ns: seq<Node>, names: seq<string>, d: nat)
    requires ns != [] && ns[0].Num? && AllSimple(ns)
    ensures Gen(ns, names).Ok?
    ensures Depth(Gen(ns, names).value.code, d) == Some(d + |ns|)
    decreases SizeList(ns), 0
  {
    RestSimple(ns);
    GenDepth(ns[1..], names, d + 1);
    var tc := Gen(ns[1..], names).value;
    GenNumParts(ns, names, tc);
    PushImmThen(ns[0].value, tc.code, d, d + |ns|);
  }

  lemma PushImmThen(v: int, tc: seq<Line>, d: nat, e: nat)
    requires Depth(tc, d + 1) == Some(e)
    ensures Depth(Plain([PushImm(v)]) + tc, d) == Some(e)
  {
    PushImmDepth(v, d);
    DepthThen(Plain([PushImm(v)]), tc, d, d + 1, e);
  }

  lemma {:induction false} LvarDepth(ns: seq<Node>, names: seq<string>, d: nat)
    requires ns != [] && ns[0].Lvar? && AllSimple(ns)
    ensures Gen(ns, names).Ok?
    ensures Depth(Gen(ns, names).value.code, d) == Some(d + |ns|)
    decreases SizeList(ns), 0
  {
    RestSimple(ns);
    var nm := Intern(names, ns[0].name);
    GenDepth(ns[1..], nm, d + 1);
    var tc := Gen(ns[1..], nm).value;
    GenLvarParts(ns, names, tc);
    LvarLoadThen(nm, ns[0].name, tc.code, d, d + |ns|);
  }

  lemma LvarLoadThen(names: seq<string>, x: string, tc: seq<Line>, d: nat, e: nat)
    requires x in names
    requires Depth(tc, d + 1) == Some(e)
    ensures Depth(LvarCode(names, x) + Plain([Pop(Rax), Load, Push(Rax)]) + tc, d) == Some(e)
  {
    LvarCodeDepth(names, x, d);
    LoadDepth(d + 1);
    DepthThen(LvarCode(names, x), Plain([Pop(Rax), Load, Push(Rax)]), d, d + 1, d + 1);
    DepthThen(LvarCode(names, x) + Plain([Pop(Rax), Load, Push(Rax)]), tc, d, d + 1, e);
  }

  lemma {:induction false} AssignDepth(ns: seq<Node>, names: seq<string>, d: nat)
    requires ns != [] && ns[0].Assign? && AllSimple(ns)
    ensures Gen(ns, names).Ok?
    ensures Depth(Gen(ns, names).value.code, d) == Some(d + |ns|)
    decreases SizeList(ns), 2
  {
    RestSimple(ns);
    GenHead(ns, names);
    AssignPartsDepth(ns[0], ns[1..], names, d);
  }

  lemma {:induction false} AssignPartsDepth(n: Node, rest: seq<Node>, names: seq<string>, d: nat)
    requires n.Assign? && Simple(n) && AllSimple(rest)
    ensures GenAssign(n, rest, names).Ok?
    ensures Depth(GenAssign(n, rest, names).value.code, d) == Some(d + 1 + |rest|)
    decreases Size(n) + SizeList(rest), 1
  {
    var rc, tc, m, e := AssignRestDepth(n, rest, names, d);
    AssignComposes(n, rest, names, rc, tc, d, m, e);
  }

  /** The right side of a simple assignment leaves one value, and the rest one per tree. */
  lemma {:induction false} AssignRestDepth(n: Node, rest: seq<Node>, names: seq<string>, d: nat)
    returns (rc: Emitted, tc: Emitted, m: nat, e: nat)
    requires n.Assign? && Simple(n) && AllSimple(rest)
    ensures n.lvar.Lvar? && e == d + 1 + |rest| && AssignPieces(n.lvar.name, n.rhs, rest, names, rc, tc, d, m, e)
    decreases Size(n) + SizeList(rest), 0
  {
    var nm := Intern(names, n.lvar.name);
    OperandDepth(n.rhs, nm, d + 1);
    rc := Gen(Flatten(n.rhs), nm).value;
    GenDepth(rest, rc.names, d + 1);
    tc, m, e := Gen(rest, rc.names).value, d + 2, d + 1 + |rest|;
  }

  /** Address, right side (from d + 1 to m), store, then the rest (from m - 1 to e). */
  lemma AssignCodeDepth(names: seq<string>, x: string, rc: seq<Line>, tc: seq<Line>, d: nat, m: nat, e: nat)
    requires x in names && m >= 2
    requires Depth(rc, d + 1) == Some(m) && Depth(tc, m - 1) == Some(e)
    ensures Depth(LvarCode(names, x) + rc + Plain([Pop(Rdi), Pop(Rax), Store, Push(Rdi)]) + tc, d) == Some(e)
  {
    StoreDepth(m - 2);
    LvarCodeDepth(names, x, d);
    FourPiecesDepth(LvarCode(names, x), rc, Plain([Pop(Rdi), Pop(Rax), Store, Push(Rdi)]), tc, d, d + 1, m, m - 1, e);
  }

  lemma {:induction false} BinaryDepth(ns: seq<Node>, names: seq<string>, d: nat)
    requires ns != [] && IsBinary(ns[0]) && AllSimple(ns)
    ensures Gen(ns, names).Ok?
    ensures Depth(Gen(ns, names).value.code, d) == Some(d + |ns|)
    decreases SizeList(ns), 2
  {
    RestSimple(ns);
    GenHead(ns, names);
    BinaryPartsDepth(ns[0], ns[1..], names, d);
  }

  lemma {:induction false} BinaryPartsDepth(n: Node, rest: seq<Node>, names: seq<string>, d: nat)
    requires IsBinary(n) && Simple(n) && AllSimple(rest)
    ensures GenLeftAndRight(n, rest, names).Ok?
    ensures Depth(GenLeftAndRight(n, rest, names).value.code, d) == Some(d + 1 + |rest|)
    decreases Size(n) + SizeList(rest), 1
  {
    var lc, rc, tc, m2, e := BinaryRestDepth(n, rest, names, d);
    BinaryComposes(n, rest, names, lc, rc, tc, d, d + 1, m2, e);
  }

  /** Both operands of a simple binary node leave one value each, and the rest one per tree. */
  lemma {:induction false} BinaryRestDepth(n: Node, rest: seq<Node>, names: seq<string>, d: nat)
    returns (lc: Emitted, rc: Emitted, tc: Emitted, m2: nat, e: nat)
    requires IsBinary(n) && Simple(n) && AllSimple(rest)
    ensures e == d + |rest| && BinaryPieces(n.lhs, n.rhs, rest, names, lc, rc, tc, d, d + 1, m2, e)
    decreases Size(n) + SizeList(rest), 0
  {
    lc, rc := OperandsDepth(n, names, d);
    GenDepth(rest, rc.names, d);
    tc, m2, e := Gen(rest, rc.names).value, d + 2, d + |rest|;
  }

  /** Both operands of a binary node leave one value each. */
  lemma {:induction false} OperandsDepth(n: Node, names: seq<string>, d: nat) returns (lc: Emitted, rc: Emitted)
    requires IsBinary(n) && Simple(n)
    ensures Gen(Flatten(n.lhs), names) == Ok(lc) && Depth(lc.code, d) == Some(d + 1)
    ensures Gen(Flatten(n.rhs), lc.names) == Ok(rc) && Depth(rc.code, d + 1) == Some(d + 2)
    decreases Size(n) - 1, 5
  {
    BinarySize(n);
    OperandDepth(n.lhs, names, d);
    lc := Gen(Flatten(n.lhs), names).value;
    OperandDepth(n.rhs, lc.names, d + 1);
    rc := Gen(Flatten(n.rhs), lc.names).value;
  }

  /** Left (from d to m1), right (from m1 to m2), the operator, the rest (from m2 - 2 to e), `push rax`. */
  lemma BinaryCodeDepth(n: Node, lc: seq<Line>, rc: seq<Line>, tc: seq<Line>, d: nat, m1: nat, m2: nat, e: nat)
    requires IsBinary(n) && m2 >= 2
    requires Depth(lc, d) == Some(m1) && Depth(rc, m1) == Some(m2) && Depth(tc, m2 - 2) == Some(e)
    ensures Depth(lc + rc + Plain([Pop(Rdi), Pop(Rax)] + OpCode(n)) + tc + Plain([Push(Rax)]), d) == Some(e + 1)
  {
    var op := Plain([Pop(Rdi), Pop(Rax)] + OpCode(n));
    OpDepth(n, m2 - 2);
    PushDepth(e);
    FourPiecesDepth(lc, rc, op, tc, d, m1, m2, m2 - 2, e);
    DepthThen(lc + rc + op + tc, Plain([Push(Rax)]), d, e, e + 1);
  }

  /** A simple operand's code leaves exactly one more value. */
  lemma {:induction false} OperandDepth(x: Node, names: seq<string>, d: nat)
    requires SimpleOperand(x)
    ensures Gen(Flatten(x), names).Ok?
    ensures Depth(Gen(Flatten(x), names).value.code, d) == Some(d + 1)
    decreases Size(x), 4
  {
    OperandFlattens(x);
    SizeListSingle(Operand(x));
    GenDepth([Operand(x)], names, d);
  }

  lemma FourPiecesDepth(a: seq<Line>, b: seq<Line>, c: seq<Line>, e: seq<Line>, d0: nat, d1: nat, d2: nat, d3: nat, d4: nat)
    requires Depth(a, d0) == Some(d1) && Depth(b, d1) == Some(d2) && Depth(c, d2) == Some(d3) && Depth(e, d3) == Some(d4)
    ensures Depth(a + b + c + e, d0) == Some(d4)
  {
    DepthThen(a, b, d0, d1, d2);
    DepthThen(a + b, c, d0, d2, d3);
    DepthThen(a + b + c, e, d0, d3, d4);
  }

  lemma OpDepth(n: Node, d: nat)
    requires IsBinary(n)
    ensures Depth(Plain([Pop(Rdi), Pop(Rax)] + OpCode(n)), d + 2) == Some(d)
  {
    var op := Plain([Pop(Rdi), Pop(Rax)] + OpCode(n));
    assert op[0].instr == Pop(Rdi) && op[1].instr == Pop(Rax) && op[1..][1..] == Plain(OpCode(n));
    PlainNoStack(OpCode(n), d);
  }

  lemma PushImmDepth(v: int, d: nat)
    ensures Depth(Plain([PushImm(v)]), d) == Some(d + 1)
  {
    assert Plain([PushImm(v)])[1..] == [];
  }

  lemma PushDepth(d: nat)
    ensures Depth(Plain([Push(Rax)]), d) == Some(d + 1)
  {
    assert Plain([Push(Rax)])[1..] == [];
  }

  lemma LvarCodeDepth(names: seq<string>, x: string, d: nat)
    requires x in names
    ensures Depth(LvarCode(names, x), d) == Some(d + 1)
  {
    var c := LvarCode(names, x);
    assert c[1..][1..][1..] == [];
    assert Depth(c[1..][1..], d) == Some(d + 1);
    assert Depth(c[1..], d) == Some(d + 1);
  }

  lemma LoadDepth(d: nat)
    requires d >= 1
    ensures Depth(Plain([Pop(Rax), Load, Push(Rax)]), d) == Some(d)
  {
    var c := Plain([Pop(Rax), Load, Push(Rax)]);
    assert c[1..][1..][1..] == [];
  }

  lemma StoreDepth(d: nat)
    ensures Depth(Plain([Pop(Rdi), Pop(Rax), Store, Push(Rdi)]), d + 2) == Some(d + 1)
  {
    var c := Plain([Pop(Rdi), Pop(Rax), Store, Push(Rdi)]);
    assert c[1..][1..][1..][1..] == [];
  }

  /** Operator instructions neither push nor pop. */
  lemma {:induction false} PlainNoStack(code: seq<Instr>, d: nat)
    requires forall k :: 0 <= k < |code| ==> !code[k].Push? && !code[k].PushImm? && !code[k].Pop?
    ensures Depth(Plain(code), d) == Some(d)
    decreases |code|
  {
    if code != [] {
      assert Plain(code)[1..] == Plain(code[1..]);
      PlainNoStack(code[1..], d);
    }
  }

  // ----- any tree the generator accepts -----

  /**
   * How many values the code of a tree leaves on the stack: one for a number or a
   * variable; for an assignment, what its right side leaves (the store consumes the
   * address and one value and pushes the value back); for a binary operator, what both
   * operands leave less one (it pops two and pushes one); for an array, which is spliced
   * into the list, the sum over its items. Nodes the generator rejects count nothing.
   */
  function Leaves(x: Node): (k: int)
    ensures k + Size(x) >= 0
    decreases x, 1
  {
    match x
    case Num(_) => 1
    case Lvar(_) => 1
    case Assign(_, r) => Leaves(r)
    case Arr(items) => LeavesAll(items)
    case Add(l, r) => Leaves(l) + Leaves(r) - 1
    case Sub(l, r) => Leaves(l) + Leaves(r) - 1
    case Mul(l, r) => Leaves(l) + Leaves(r) - 1
    case Div(l, r) => Leaves(l) + Leaves(r) - 1
    case Lte(l, r) => Leaves(l) + Leaves(r) - 1
    case Lt(l, r) => Leaves(l) + Leaves(r) - 1
    case Eq(l, r) => Leaves(l) + Leaves(r) - 1
    case Neq(l, r) => Leaves(l) + Leaves(r) - 1
    case _ => 0
  }

  /** An assignment leaves what its right side leaves. */
  lemma AssignLeaves(n: Node)
    requires n.Assign?
    ensures Leaves(n) == Leaves(n.rhs) && Size(n) == 1 + Size(n.lvar) + Size(n.rhs)
  {
  }

  /** A binary node leaves what its operands leave, less one. */
  lemma BinaryLeaves(n: Node)
    requires IsBinary(n)
    ensures Leaves(n) == Leaves(n.lhs) + Leaves(n.rhs) - 1
  {
  }

  function LeavesAll(xs: seq<Node>): (k: int)
    ensures k + SizeList(xs) >= 0
    decreases xs, 0
  {
    if xs == [] then 0 else Leaves(xs[0]) + LeavesAll(xs[1..])
  }

  lemma {:induction false} LeavesAllAppend(a: seq<Node>, b: seq<Node>)
    ensures LeavesAll(a + b) == LeavesAll(a) + LeavesAll(b)
    decreases |a|
  {
    if a == [] {
      assert a + b == b;
    } else {
      assert (a + b)[0] == a[0] && (a + b)[1..] == a[1..] + b;
      LeavesAllAppend(a[1..], b);
    }
  }

  /** Flattening keeps the count: an array's items leave their values wherever the array stands. */
  lemma {:induction false} FlattenLeaves(x: Node)
    ensures LeavesAll(Flatten(x)) == Leaves(x)
    decreases x, 1
  {
    match x
    case Arr(items) => FlattenAllLeaves(items);
    case _ => assert [x][0] == x && [x][1..] == [];
  }

  lemma {:induction false} FlattenAllLeaves(xs: seq<Node>)
    ensures LeavesAll(FlattenAll(xs)) == LeavesAll(xs)
    decreases xs, 0
  {
    if xs != [] {
      FlattenLeaves(xs[0]);
      FlattenAllLeaves(xs[1..]);
      LeavesAllAppend(Flatten(xs[0]), FlattenAll(xs[1..]));
    }
  }

  /** A simple tree leaves exactly one value, so k simple trees leave k (the count of GenDepth). */
  lemma {:induction false} SimpleLeaves(ns: seq<Node>)
    requires AllSimple(ns)
    ensures LeavesAll(ns) == |ns|
    decreases ns, 3
  {
    if ns != [] {
      SimpleLeavesOne(ns[0]);
      SimpleLeaves(ns[1..]);
    }
  }

  lemma {:induction false} SimpleLeavesOne(n: Node)
    requires Simple(n)
    ensures Leaves(n) == 1
    decreases n, 1
  {
    if n.Assign? {
      OperandLeaves(n.rhs);
    } else if IsBinary(n) {
      OperandLeaves(n.lhs);
      OperandLeaves(n.rhs);
      BinaryLeaves(n);
    }
  }

  lemma {:induction false} OperandLeaves(x: Node)
    requires SimpleOperand(x)
    ensures Leaves(x) == 1
    decreases x, 2
  {
    if x.Arr? {
      OperandLeaves(x.items[0]);
      assert x.items[1..] == [] && LeavesAll(x.items[1..]) == 0;
    } else {
      SimpleLeavesOne(x);
    }
  }

  /**
   * The trees `run_statement` has a branch for at every level: numbers, variables,
   * assignments to a variable and the eight binary operators, with arrays anywhere
   * (they are spliced, as `flatten` does).
   */
  predicate Accepted(x: Node)
    decreases x, 1
  {
    match x
    case Num(_) => true
    case Lvar(_) => true
    case Assign(l, r) => l.Lvar? && Accepted(r)
    case Arr(items) => AcceptedAll(items)
    case Add(l, r) => Accepted(l) && Accepted(r)
    case Sub(l, r) => Accepted(l) && Accepted(r)
    case Mul(l, r) => Accepted(l) && Accepted(r)
    case Div(l, r) => Accepted(l) && Accepted(r)
    case Lte(l, r) => Accepted(l) && Accepted(r)
    case Lt(l, r) => Accepted(l) && Accepted(r)
    case Eq(l, r) => Accepted(l) && Accepted(r)
    case Neq(l, r) => Accepted(l) && Accepted(r)
    case _ => false
  }

  predicate AcceptedAll(xs: seq<Node>)
    decreases xs, 0
  {
    xs == [] || (Accepted(xs[0]) && AcceptedAll(xs[1..]))
  }

  lemma {:induction false} AcceptedAllAppend(a: seq<Node>, b: seq<Node>)
    requires AcceptedAll(a) && AcceptedAll(b)
    ensures AcceptedAll(a + b)
    decreases |a|
  {
    if a == [] {
      assert a + b == b;
    } else {
      assert (a + b)[0] == a[0] && (a + b)[1..] == a[1..] + b;
      AcceptedAllAppend(a[1..], b);
    }
  }

  /** Flattening an accepted tree gives a list of accepted trees. */
  lemma {:induction false} FlattenAccepted(x: Node)
    requires Accepted(x)
    ensures AcceptedAll(Flatten(x))
    decreases x, 1
  {
    match x
    case Arr(items) => FlattenAllAccepted(items);
    case _ => assert [x][0] == x && [x][1..] == [];
  }

  lemma {:induction false} FlattenAllAccepted(xs: seq<Node>)
    requires AcceptedAll(xs)
    ensures AcceptedAll(FlattenAll(xs))
    decreases xs, 0
  {
    if xs != [] {
      FlattenAccepted(xs[0]);
      FlattenAllAccepted(xs[1..]);
      AcceptedAllAppend(Flatten(xs[0]), FlattenAll(xs[1..]));
    }
  }

  /** The head of a flat list of accepted trees is accepted and no array, and its tail is such a list. */
  lemma RestAccepted(ns: seq<Node>)
    requires ns != [] && AcceptedAll(ns) && IsFlat(ns)
    ensures Accepted(ns[0]) && !ns[0].Arr? && AcceptedAll(ns[1..]) && IsFlat(ns[1..])
    ensures SizeList(ns) == Size(ns[0]) + SizeList(ns[1..])
    ensures LeavesAll(ns) == Leaves(ns[0]) + LeavesAll(ns[1..])
  {
    assert forall k :: 0 <= k < |ns[1..]| ==> ns[1..][k] == ns[k + 1];
  }

  /** An accepted binary node has accepted operands; an accepted assignment has a variable target and an accepted value. */
  lemma AcceptedParts(n: Node)
    requires Accepted(n)
    ensures n.Num? || n.Lvar? || n.Assign? || n.Arr? || IsBinary(n)
    ensures IsBinary(n) ==> Accepted(n.lhs) && Accepted(n.rhs)
    ensures n.Assign? ==> n.lvar.Lvar? && Accepted(n.rhs)
  {
  }

  /**
   * The generator accepts every list of accepted trees, and their code, started at
   * least twice the list's size deep, never pops an empty stack and leaves
   * `LeavesAll(ns)` more values. Unlike GenDepth this covers array operands, whose
   * items all leave their values.
   */
  lemma {:induction false} GenLeaves(ns: seq<Node>, names: seq<string>, d: nat)
    requires AcceptedAll(ns) && IsFlat(ns) && d >= 2 * SizeList(ns)
    ensures Gen(ns, names).Ok?
    ensures Depth(Gen(ns, names).value.code, d) == Some(d + LeavesAll(ns))
    decreases SizeList(ns), 2
  {
    if ns != [] {
      var n := ns[0];
      RestAccepted(ns);
      AcceptedParts(n);
      if n.Num? {
        NumLeaves(ns, names, d);
      } else if n.Lvar? {
        LvarLeaves(ns, names, d);
      } else if n.Assign? {
        GenHead(ns, names);
        AssignPartsLeaves(n, ns[1..], names, d);
      } else {
        GenHead(ns, names);
        BinaryPartsLeaves(n, ns[1..], names, d);
      }
    }
  }

  lemma {:induction false} NumLeaves(ns: seq<Node>, names: seq<string>, d: nat)
    requires ns != [] && ns[0].Num? && AcceptedAll(ns) && IsFlat(ns) && d >= 2 * SizeList(ns)
    ensures Gen(ns, names).Ok?
    ensures Depth(Gen(ns, names).value.code, d) == Some(d + LeavesAll(ns))
    decreases SizeList(ns), 1
  {
    var tc, e := HeadRestLeaves(ns, names, d);
    NumComposes(ns, names, tc, d, e);
  }

  /** The rest after a leaf at the head of the list, started one deeper. */
  lemma {:induction false} HeadRestLeaves(ns: seq<Node>, names: seq<string>, d: nat) returns (tc: Emitted, e: nat)
    requires ns != [] && (ns[0].Num? || ns[0].Lvar?) && AcceptedAll(ns) && IsFlat(ns) && d >= 2 * SizeList(ns)
    ensures Gen(ns[1..], names) == Ok(tc) && e == d + LeavesAll(ns) && Depth(tc.code, d + 1) == Some(e)
    decreases SizeList(ns), 0
  {
    RestAccepted(ns);
    assert Leaves(ns[0]) == 1;
    tc, e := RestLeavesDepth(ns[1..], names, d + 1);
  }

  /** The depth of a number's code from the depth of the rest. */
  lemma NumComposes(ns: seq<Node>, names: seq<string>, tc: Emitted, d: nat, e: nat)
    requires ns != [] && ns[0].Num?
    requires Gen(ns[1..], names) == Ok(tc) && Depth(tc.code, d + 1) == Some(e)
    ensures Gen(ns, names).Ok? && Depth(Gen(ns, names).value.code, d) == Some(e)
  {
    GenNumParts(ns, names, tc);
    PushImmThen(ns[0].value, tc.code, d, e);
  }


  lemma {:induction false} LvarLeaves(ns: seq<Node>, names: seq<string>, d: nat)
    requires ns != [] && ns[0].Lvar? && AcceptedAll(ns) && IsFlat(ns) && d >= 2 * SizeList(ns)
    ensures Gen(ns, names).Ok?
    ensures Depth(Gen(ns, names).value.code, d) == Some(d + LeavesAll(ns))
    decreases SizeList(ns), 1
  {
    var tc, e := HeadRestLeaves(ns, Intern(names, ns[0].name), d);
    LvarComposes(ns, names, tc, d, e);
  }

  /** The depth of a variable's code from the depth of the rest. */
  lemma LvarComposes(ns: seq<Node>, names: seq<string>, tc: Emitted, d: nat, e: nat)
    requires ns != [] && ns[0].Lvar?
    requires Gen(ns[1..], Intern(names, ns[0].name)) == Ok(tc) && Depth(tc.code, d + 1) == Some(e)
    ensures Gen(ns, names).Ok? && Depth(Gen(ns, names).value.code, d) == Some(e)
  {
    GenLvarParts(ns, names, tc);
    LvarLoadThen(Intern(names, ns[0].name), ns[0].name, tc.code, d, e);
  }


  lemma {:induction false} AssignPartsLeaves(n: Node, rest: seq<Node>, names: seq<string>, d: nat)
    requires n.Assign? && n.lvar.Lvar? && Accepted(n.rhs) && AcceptedAll(rest) && IsFlat(rest)
    requires d >= 2 * (Size(n) + SizeList(rest))
    ensures GenAssign(n, rest, names).Ok?
    ensures Depth(GenAssign(n, rest, names).value.code, d) == Some(d + Leaves(n) + LeavesAll(rest))
    decreases Size(n) + SizeList(rest), 1
  {
    var rc, m, tc, e := AssignRestLeaves(n, rest, names, d);
    AssignComposes(n, rest, names, rc, tc, d, m, e);
  }

  /** The right side and the rest of an assignment, each at the depth its code starts at. */
  lemma {:induction false} AssignRestLeaves(n: Node, rest: seq<Node>, names: seq<string>, d: nat)
    returns (rc: Emitted, m: nat, tc: Emitted, e: nat)
    requires n.Assign? && n.lvar.Lvar? && Accepted(n.rhs) && AcceptedAll(rest) && IsFlat(rest)
    requires d >= 2 * (Size(n) + SizeList(rest))
    ensures AssignPieces(n.lvar.name, n.rhs, rest, names, rc, tc, d, m, e)
    ensures e == d + Leaves(n) + LeavesAll(rest)
    decreases Size(n) + SizeList(rest), 0
  {
    AssignLeaves(n);
    rc, m := OperandLeavesDepth(n.rhs, Intern(names, n.lvar.name), d + 1);
    tc, e := RestLeavesDepth(rest, rc.names, m - 1);
  }

  /**
   * The code of an assignment's right side and of the rest: after the target's address the
   * right side runs from d + 1 to m, and the rest, after the store took one value, from m - 1 to e.
   */
  predicate AssignPieces(x: string, v: Node, rest: seq<Node>, names: seq<string>, rc: Emitted, tc: Emitted, d: nat, m: nat, e: nat)
  {
    && Gen(Flatten(v), Intern(names, x)) == Ok(rc) && Gen(rest, rc.names) == Ok(tc)
    && m >= 2 && Depth(rc.code, d + 1) == Some(m) && Depth(tc.code, m - 1) == Some(e)
  }

  /** The depth of an assignment's code from the depths of its right side and of the rest. */
  lemma AssignComposes(n: Node, rest: seq<Node>, names: seq<string>, rc: Emitted, tc: Emitted, d: nat, m: nat, e: nat)
    requires n.Assign? && n.lvar.Lvar? && AssignPieces(n.lvar.name, n.rhs, rest, names, rc, tc, d, m, e)
    ensures GenAssign(n, rest, names).Ok? && Depth(GenAssign(n, rest, names).value.code, d) == Some(e)
  {
    GenAssignParts(n, rest, names, rc, tc);
    AssignCodeDepth(Intern(names, n.lvar.name), n.lvar.name, rc.code, tc.code, d, m, e);
  }

  lemma {:induction false} BinaryPartsLeaves(n: Node, rest: seq<Node>, names: seq<string>, d: nat)
    requires IsBinary(n) && Accepted(n.lhs) && Accepted(n.rhs) && AcceptedAll(rest) && IsFlat(rest)
    requires d >= 2 * (Size(n) + SizeList(rest))
    ensures GenLeftAndRight(n, rest, names).Ok?
    ensures Depth(GenLeftAndRight(n, rest, names).value.code, d) == Some(d + Leaves(n) + LeavesAll(rest))
    decreases Size(n) + SizeList(rest), 1
  {
    BinarySize(n);
    BinaryLeaves(n);
    var lc, m1, rc, m2, tc, e := BinaryRestLeaves(n.lhs, n.rhs, rest, names, d);
    BinaryComposes(n, rest, names, lc, rc, tc, d, m1, m2, e);
  }

  /** Both operands and the rest of a binary node, each at the depth its code starts at. */
  lemma {:induction false} BinaryRestLeaves(l: Node, r: Node, rest: seq<Node>, names: seq<string>, d: nat)
    returns (lc: Emitted, m1: nat, rc: Emitted, m2: nat, tc: Emitted, e: nat)
    requires Accepted(l) && Accepted(r) && AcceptedAll(rest) && IsFlat(rest)
    requires d >= 2 * (1 + Size(l) + Size(r) + SizeList(rest))
    ensures BinaryPieces(l, r, rest, names, lc, rc, tc, d, m1, m2, e)
    ensures e + 2 == d + Leaves(l) + Leaves(r) + LeavesAll(rest)
    decreases 1 + Size(l) + Size(r) + SizeList(rest), 0
  {
    lc, m1, rc, m2 := OperandPairLeaves(l, r, names, d);
    tc, e := RestLeavesDepth(rest, rc.names, m2 - 2);
  }

  /** Two operands in a row: the second starts where the first ends. */
  lemma {:induction false} OperandPairLeaves(l: Node, r: Node, names: seq<string>, d: nat)
    returns (lc: Emitted, m1: nat, rc: Emitted, m2: nat)
    requires Accepted(l) && Accepted(r) && d >= 2 * (Size(l) + Size(r))
    ensures Gen(Flatten(l), names) == Ok(lc) && Gen(Flatten(r), lc.names) == Ok(rc)
    ensures Depth(lc.code, d) == Some(m1) && Depth(rc.code, m1) == Some(m2)
    ensures m2 == d + Leaves(l) + Leaves(r)
    decreases Size(l) + Size(r), 5
  {
    lc, m1 := OperandLeavesDepth(l, names, d);
    rc, m2 := OperandLeavesDepth(r, lc.names, m1);
  }

  /**
   * The code of a left operand, a right operand and the rest: the left runs from d to m1,
   * the right from m1 to m2, and the rest, after the operator took two values, from m2 - 2 to e.
   */
  predicate BinaryPieces(l: Node, r: Node, rest: seq<Node>, names: seq<string>, lc: Emitted, rc: Emitted, tc: Emitted,
                         d: nat, m1: nat, m2: nat, e: nat)
  {
    && Gen(Flatten(l), names) == Ok(lc) && Gen(Flatten(r), lc.names) == Ok(rc) && Gen(rest, rc.names) == Ok(tc)
    && m2 >= 2 && Depth(lc.code, d) == Some(m1) && Depth(rc.code, m1) == Some(m2) && Depth(tc.code, m2 - 2) == Some(e)
  }

  /** The depth of a binary node's code from the depths of its operands and of the rest. */
  lemma BinaryComposes(n: Node, rest: seq<Node>, names: seq<string>, lc: Emitted, rc: Emitted, tc: Emitted,
                       d: nat, m1: nat, m2: nat, e: nat)
    requires IsBinary(n) && BinaryPieces(n.lhs, n.rhs, rest, names, lc, rc, tc, d, m1, m2, e)
    ensures GenLeftAndRight(n, rest, names).Ok? && Depth(GenLeftAndRight(n, rest, names).value.code, d) == Some(e + 1)
  {
    GenLeftAndRightParts(n, rest, names, lc, rc, tc);
    BinaryCodeDepth(n, lc.code, rc.code, tc.code, d, m1, m2, e);
  }

  /** GenLeaves, with the code and the depth it ends at named. */
  lemma {:induction false} RestLeavesDepth(rest: seq<Node>, names: seq<string>, d: nat) returns (tc: Emitted, e: nat)
    requires AcceptedAll(rest) && IsFlat(rest) && d >= 2 * SizeList(rest)
    ensures Gen(rest, names) == Ok(tc) && e == d + LeavesAll(rest) && Depth(tc.code, d) == Some(e)
    decreases SizeList(rest), 3
  {
    GenLeaves(rest, names, d);
    tc, e := Gen(rest, names).value, d + LeavesAll(rest);
  }

  /** An operand's code, started at least twice its size deep, leaves what the operand leaves. */
  lemma {:induction false} OperandLeavesDepth(x: Node, names: seq<string>, d: nat) returns (c: Emitted, e: nat)
    requires Accepted(x) && d >= 2 * Size(x)
    ensures Gen(Flatten(x), names) == Ok(c) && e == d + Leaves(x) && Depth(c.code, d) == Some(e)
    decreases Size(x), 4
  {
    FlattenSize(x);
    FlattenLeaves(x);
    FlattenAccepted(x);
    c, e := RestLeavesDepth(Flatten(x), names, d);
  }

  /**
   * An array operand leaves all its values: `Add(Arr([1, 2]), 3)` leaves two values where
   * one tree stands, the stale 1 under the sum.
   */
  lemma ArrayOperandLeaves(d: nat)
    requires d >= 10
    ensures var ns := [Add(Arr([Num(1), Num(2)]), Num(3))];
      Gen(ns, []).Ok? && Depth(Gen(ns, []).value.code, d) == Some(d + 2)
  {
    var items := [Num(1), Num(2)];
    var n := Add(Arr(items), Num(3));
    var ns := [n];
    assert ns[0] == n && ns[1..] == [];
    assert items[1..][0] == Num(2) && items[1..][1..] == [];
    assert AcceptedAll(items) && LeavesAll(items) == 2 && SizeList(items) == 2 by {
      assert AcceptedAll(items[1..]) && LeavesAll(items[1..]) == 1 && SizeList(items[1..]) == 1;
    }
    assert Accepted(n) && Leaves(n) == 2 && Size(n) == 5;
    assert AcceptedAll(ns) && IsFlat(ns) && LeavesAll(ns) == 2 && SizeList(ns) == 5;
    GenLeaves(ns, [], d);
  }

  // ----- statements and the listing -----

  /** Statements each of which flattens to one simple tree. */
  predicate AllOperands(stmts: seq<Node>)
  {
    stmts == [] || (SimpleOperand(stmts[0]) && AllOperands(stmts[1..]))
  }

  /** With the `pop rax` after each statement, the statements' code leaves the stack as deep as it found it. */
  lemma {:induction false} StatementsDepth(stmts: seq<Node>, names: seq<string>, d: nat)
    requires AllOperands(stmts)
    ensures GenStatements(stmts, names).Ok?
    ensures Depth(GenStatements(stmts, names).value.code, d) == Some(d)
    decreases |stmts|
  {
    if stmts != [] {
      OperandFlattens(stmts[0]);
      assert Flatten(stmts[0])[1..] == [];
      GenDepth(Flatten(stmts[0]), names, d);
      var c := Gen(Flatten(stmts[0]), names).value;
      PopDepth(d);
      DepthThen(c.code, Plain([Pop(Rax)]), d, d + 1, d);
      StatementsDepth(stmts[1..], c.names, d);
      DepthThen(c.code + Plain([Pop(Rax)]), GenStatements(stmts[1..], c.names).value.code, d, d, d);
    }
  }

  lemma PopDepth(d: nat)
    ensures Depth(Plain([Pop(Rax)]), d + 1) == Some(d)
  {
    assert Plain([Pop(Rax)])[1..] == [];
  }

  /** What the statements leave: each leaves what its tree leaves, less the value `pop rax` takes. */
  function StatementLeaves(stmts: seq<Node>): (k: int)
    ensures k + 2 * SizeList(stmts) >= 0
  {
    if stmts == [] then 0 else Leaves(stmts[0]) - 1 + StatementLeaves(stmts[1..])
  }

  /**
   * The generator accepts every list of accepted statements, and the body, started at least
   * four times the list's size deep, never pops an empty stack and leaves `StatementLeaves`
   * more values. A statement that flattens to several trees leaves all but one of them.
   */
  lemma {:induction false} StatementsLeaves(stmts: seq<Node>, names: seq<string>, d: nat)
    requires AcceptedAll(stmts) && d >= 4 * SizeList(stmts)
    ensures GenStatements(stmts, names).Ok?
    ensures Depth(GenStatements(stmts, names).value.code, d) == Some(d + StatementLeaves(stmts))
    decreases |stmts|, 1
  {
    if stmts != [] {
      var c, m, tc, e := StatementRestLeaves(stmts, names, d);
      StatementComposes(stmts, names, c, tc, d, m, e);
    }
  }

  /** The first statement and the statements after it, each at the depth its code starts at. */
  lemma {:induction false} StatementRestLeaves(stmts: seq<Node>, names: seq<string>, d: nat)
    returns (c: Emitted, m: nat, tc: Emitted, e: nat)
    requires stmts != [] && AcceptedAll(stmts) && d >= 4 * SizeList(stmts)
    ensures Gen(Flatten(stmts[0]), names) == Ok(c) && GenStatements(stmts[1..], c.names) == Ok(tc)
    ensures m >= 1 && Depth(c.code, d) == Some(m) && Depth(tc.code, m - 1) == Some(e)
    ensures e == d + StatementLeaves(stmts)
    decreases |stmts|, 0
  {
    c, m := OperandLeavesDepth(stmts[0], names, d);
    StatementsLeaves(stmts[1..], c.names, m - 1);
    tc, e := GenStatements(stmts[1..], c.names).value, m - 1 + StatementLeaves(stmts[1..]);
  }

  /** The depth of the body from the depths of the first statement and of the statements after it. */
  lemma StatementComposes(stmts: seq<Node>, names: seq<string>, c: Emitted, tc: Emitted, d: nat, m: nat, e: nat)
    requires stmts != [] && m >= 1
    requires Gen(Flatten(stmts[0]), names) == Ok(c) && GenStatements(stmts[1..], c.names) == Ok(tc)
    requires Depth(c.code, d) == Some(m) && Depth(tc.code, m - 1) == Some(e)
    ensures GenStatements(stmts, names).Ok? && Depth(GenStatements(stmts, names).value.code, d) == Some(e)
  {
    assert GenStatements(stmts, names) == Ok(Emitted(c.code + Plain([Pop(Rax)]) + tc.code, tc.names));
    PopDepth(m - 1);
    DepthThen(c.code, Plain([Pop(Rax)]), d, m, m - 1);
    DepthThen(c.code + Plain([Pop(Rax)]), tc.code, d, m - 1, e);
  }

  /** Flattening statements that are single trees gives one simple tree per statement. */
  lemma {:induction false} OperandsFlatten(stmts: seq<Node>)
    requires AllOperands(stmts)
    ensures AllSimple(FlattenAll(stmts)) && |FlattenAll(stmts)| == |stmts|
    decreases |stmts|
  {
    if stmts != [] {
      OperandFlattens(stmts[0]);
      OperandsFlatten(stmts[1..]);
      var fl := FlattenAll(stmts);
      assert fl == [Operand(stmts[0])] + FlattenAll(stmts[1..]);
      assert fl[0] == Operand(stmts[0]) && fl[1..] == FlattenAll(stmts[1..]);
    }
  }

  /**
   * The parser hands the generator its statements as one item, `[Arr(stmts)]`. That item
   * flattens to all the statements' trees and is followed by a single `pop rax`, so k
   * single-tree statements leave k - 1 values on the stack, not none.
   */
  lemma ParserOutputLeaves(stmts: seq<Node>, d: nat)
    requires stmts != [] && AllOperands(stmts)
    ensures GenStatements([Arr(stmts)], []).Ok?
    ensures Depth(GenStatements([Arr(stmts)], []).value.code, d) == Some(d + |stmts| - 1)
  {
    OperandsFlatten(stmts);
    GenDepth(FlattenAll(stmts), [], d);
    var c := Gen(FlattenAll(stmts), []).value;
    OneItemBody(stmts, c);
    PopDepth(d + |stmts| - 1);
    DepthThen(c.code, Plain([Pop(Rax)]), d, d + |stmts|, d + |stmts| - 1);
  }

  /** The body for one array item is the code of its flattened items and one `pop rax`. */
  lemma OneItemBody(stmts: seq<Node>, c: Emitted)
    requires Gen(FlattenAll(stmts), []) == Ok(c)
    ensures GenStatements([Arr(stmts)], []) == Ok(Emitted(c.code + Plain([Pop(Rax)]), c.names))
  {
    var body := [Arr(stmts)];
    assert body[0] == Arr(stmts) && body[1..] == [];
    assert Flatten(Arr(stmts)) == FlattenAll(stmts);
    assert c.code + Plain([Pop(Rax)]) + [] == c.code + Plain([Pop(Rax)]);
  }

  /** `1; 2` as the parser hands it over leaves the 1 on the stack. */
  lemma TwoStatementsLeaveOne(d: nat)
    ensures var body := [Arr([Num(1), Num(2)])];
      GenStatements(body, []).Ok? && Depth(GenStatements(body, []).value.code, d) == Some(d + 1)
  {
    var stmts := [Num(1), Num(2)];
    assert stmts[1..][1..] == [];
    assert AllOperands(stmts);
    ParserOutputLeaves(stmts, d);
  }

  /**
   * Every slot handed out lies in the area the prologue reserves: the k-th name
   * (from 0) is 8 * (k + 1) below rbp, and `sub rsp` reserves 8 bytes per name.
   */
  lemma FrameFits(names: seq<string>, x: string)
    requires x in names
    ensures 8 <= Offset(names, x) <= 8 * |names|
    ensures Prologue(|names| + 1)[2].instr == SubImm(Rsp, 8 * |names|)
  {
  }

  /** A node kind `run_statement` has no branch for fails the whole list. */
  lemma UnsupportedHead(ns: seq<Node>, names: seq<string>)
    requires ns != [] && (ns[0].Ret? || ns[0].If? || ns[0].Block? || ns[0].Fcall? || ns[0].Farg? || ns[0].Fdef?)
    ensures Gen(ns, names) == Err(NoPatternMatched)
  {
  }

  /** An assignment whose target is not a variable fails. */
  lemma NonVariableTarget(ns: seq<Node>, names: seq<string>)
    requires ns != [] && ns[0].Assign? && !ns[0].lvar.Lvar?
    ensures Gen(ns, names) == Err(NotAVariable)
  {
    GenHead(ns, names);
  }

  /**
   * The listing is the three header lines, the prologue sized for the variables,
   * the lines given before, the statements' code and the three epilogue lines.
   */
  lemma ListingShape(stmts: seq<Node>, outputs: seq<Line>)
    requires Listing(stmts, outputs).Ok?
    ensures var r := Listing(stmts, outputs).value;
            var b := GenStatements(stmts, []).value;
      && |r| == 9 + |outputs| + |b.code|
      && r[..3] == Headers() && r[3..6] == Prologue(|b.names| + 1)
      && r[6..6 + |outputs|] == outputs && r[6 + |outputs|..|r| - 3] == b.code
      && r[|r| - 3..] == Epilogue()
      && r[0].instr == IntelSyntax && r[1].instr == GlobalMain && r[2].instr == MainLabel
  {
    var r := Listing(stmts, outputs).value;
    var b := GenStatements(stmts, []).value;
    var h, p, e := Headers(), Prologue(|b.names| + 1), Epilogue();
    assert r == h + p + outputs + b.code + e;
    assert r[..3] == h;
    assert r[3..6] == p;
    assert r[6..6 + |outputs|] == outputs;
    assert r[6 + |outputs|..|r| - 3] == b.code;
    assert r[|r| - 3..] == e;
  }
}
