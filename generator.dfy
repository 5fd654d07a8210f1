/**
 * The stack-machine code generator of lib/9cc/generator.rb.
 *
 * `Gen` is the specification of `run_statement`: the lines it appends for a
 * flattened node list and the frame's variable names afterwards. Local variables
 * get 8-byte slots below rbp in the order of their first use: the k-th distinct
 * name (from 0) lives at rbp - 8 * (k + 1). The `Generator` class keeps the
 * source's mutable state (the output lines, the slot counter, the name-to-offset
 * table) and its methods are proved to append exactly what `Gen` says.
 *
 * As written, a binary operator appends the code of the nodes that follow it in
 * the list BEFORE its own `push rax`; GeneratorProps states what that does.
 */
module Generator {
  import opened Outcomes
  import opened Ast
  import opened Asm

  datatype GenError =
    | NoPatternMatched   // a node the generator has no branch for (If, Ret, Block, Fcall, Farg, Fdef)
    | NotAVariable       // the target of an assignment is not a local variable

  // ----- flattening -----

  /** `Array(x).flatten`: an array is spliced in, recursively; any other node stands alone. */
  function Flatten(x: Node): (ns: seq<Node>)
    ensures !x.Arr? ==> ns == [x]
    decreases x, 1
  {
    match x
    case Arr(items) => FlattenAll(items)
    case _ => [x]
  }

  function FlattenAll(xs: seq<Node>): seq<Node>
    decreases xs, 0
  {
    if xs == [] then [] else Flatten(xs[0]) + FlattenAll(xs[1..])
  }

  /** Flattening leaves no arrays and never makes the tree bigger (it drops the arrays themselves). */
  lemma {:induction false} FlattenSize(x: Node)
    ensures IsFlat(Flatten(x))
    ensures SizeList(Flatten(x)) <= Size(x) - (if x.Arr? then 1 else 0)
    decreases x, 1
  {
    match x
    case Arr(items) => FlattenAllSize(items);
    case _ => assert [x][1..] == [];
  }

  lemma {:induction false} FlattenAllSize(xs: seq<Node>)
    ensures IsFlat(FlattenAll(xs))
    ensures SizeList(FlattenAll(xs)) <= SizeList(xs)
    decreases xs, 0
  {
    if xs != [] {
      FlattenSize(xs[0]);
      FlattenAllSize(xs[1..]);
      SizeListAppend(Flatten(xs[0]), FlattenAll(xs[1..]));
    }
  }

  predicate IsFlat(ns: seq<Node>)
  {
    forall k :: 0 <= k < |ns| ==> !ns[k].Arr?
  }

  /** Flattening a list that holds no arrays changes nothing. */
  lemma {:induction false} FlattenFlat(ns: seq<Node>)
    requires IsFlat(ns)
    ensures FlattenAll(ns) == ns
    ensures Flatten(Arr(ns)) == ns
    decreases |ns|
  {
    if ns != [] {
      FlattenFlat(ns[1..]);
      assert [ns[0]] + ns[1..] == ns;
    }
  }

  // ----- the frame -----

  predicate NoDup(names: seq<string>)
  {
    forall i, j :: 0 <= i < j < |names| ==> names[i] != names[j]
  }

  function IndexOf(names: seq<string>, x: string): (k: nat)
    requires x in names
    ensures k < |names| && names[k] == x
  {
    if names[0] == x then 0 else IndexOf(names[1..], x) + 1
  }

  /** `IndexOf` finds the first occurrence. */
  lemma {:induction false} IndexOfFirst(names: seq<string>, x: string)
    requires x in names
    ensures x !in names[..IndexOf(names, x)]
    decreases |names|
  {
    if names[0] != x {
      IndexOfFirst(names[1..], x);
      assert names[..IndexOf(names, x)] == [names[0]] + names[1..][..IndexOf(names[1..], x)];
    }
  }

  /** The distance below rbp of a variable's slot. */
  function Offset(names: seq<string>, x: string): int
    requires x in names
  {
    8 * (IndexOf(names, x) + 1)
  }

  /** The names after `x` is used: a new name is added at the end. */
  function Intern(names: seq<string>, x: string): (r: seq<string>)
    ensures x in r
  {
    if x in names then names
    else
      assert (names + [x])[|names|] == x;
      names + [x]
  }

  /** Adding a name keeps the others' slots and gives the new one the next slot. */
  lemma InternOffsets(names: seq<string>, x: string)
    requires NoDup(names)
    ensures NoDup(Intern(names, x)) && x in Intern(names, x)
    ensures names <= Intern(names, x)
    ensures forall y :: y in names ==> Offset(Intern(names, x), y) == Offset(names, y)
    ensures x !in names ==> Offset(Intern(names, x), x) == 8 * (|names| + 1)
  {
    if x !in names {
      forall y | y in names
        ensures Offset(names + [x], y) == Offset(names, y)
      {
        PrefixIndex(names, names + [x], y);
      }
      assert IndexOf(names + [x], x) == |names|;
    }
  }

  /** A name's index is the same in any list that extends the one it was found in. */
  lemma {:induction false} PrefixIndex(names: seq<string>, longer: seq<string>, y: string)
    requires names <= longer && y in names
    ensures y in longer && IndexOf(longer, y) == IndexOf(names, y)
    decreases |names|
  {
    if names[0] != y {
      assert longer[1..][..|names| - 1] == names[1..];
      PrefixIndex(names[1..], longer[1..], y);
    }
  }

  /** `generate_lvar`: the address of the variable's slot is pushed. */
  function LvarCode(names: seq<string>, x: string): seq<Line>
    requires x in names
  {
    [Line(Mov(Rax, Rbp), None), Line(SubImm(Rax, Offset(names, x)), Some(x)), Line(Push(Rax), None)]
  }

  /** The instructions that combine rax (left) and rdi (right) for a binary node. */
  function OpCode(n: Node): seq<Instr>
    requires IsBinary(n)
  {
    match n
    case Eq(_, _) => [CmpRdi, Set(Equal), Movzb]
    case Neq(_, _) => [CmpRdi, Set(NotEqual), Movzb]
    case Lt(_, _) => [CmpRdi, Set(Less), Movzb]
    case Lte(_, _) => [CmpRdi, Set(LessEqual), Movzb]
    case Add(_, _) => [AddRdi]
    case Sub(_, _) => [SubRdi]
    case Mul(_, _) => [ImulRdi]
    case Div(_, _) => [Cqo, IdivRdi]
  }

  // ----- the specification of run_statement -----

  /** Appended lines and the frame's names after them. */
  datatype Emitted = Emitted(code: seq<Line>, names: seq<string>)

  function Prepend(code: seq<Line>, r: Result<Emitted, GenError>): Result<Emitted, GenError>
  {
    match r
    case Err(e) => Err(e)
    case Ok(e) => Ok(Emitted(code + e.code, e.names))
  }

  /** What `run_statement` appends for a flattened node list, starting with the frame `names`. */
  function Gen(ns: seq<Node>, names: seq<string>): Result<Emitted, GenError>
    decreases SizeList(ns), 1
  {
    if ns == [] then Ok(Emitted([], names))
    else
      var n, rest := ns[0], ns[1..];
      assert SizeList(ns) == Size(n) + SizeList(rest);
      if n.Num? then Prepend(Plain([PushImm(n.value)]), Gen(rest, names))
      else if n.Lvar? then
        var nm := Intern(names, n.name);
        Prepend(LvarCode(nm, n.name) + Plain([Pop(Rax), Load, Push(Rax)]), Gen(rest, nm))
      else if n.Assign? then GenAssign(n, rest, names)
      else if IsBinary(n) then GenLeftAndRight(n, rest, names)
      else Err(NoPatternMatched)
  }

  /** An assignment at the head of a list: address, value, store, the value pushed, then the rest. */
  function GenAssign(n: Node, rest: seq<Node>, names: seq<string>): Result<Emitted, GenError>
    requires n.Assign?
    decreases Size(n) + SizeList(rest), 0
  {
    if !n.lvar.Lvar? then Err(NotAVariable)
    else
      var nm := Intern(names, n.lvar.name);
      FlattenSize(n.rhs);
      match Gen(Flatten(n.rhs), nm)
      case Err(e) => Err(e)
      case Ok(rc) =>
        Prepend(LvarCode(nm, n.lvar.name) + rc.code + Plain([Pop(Rdi), Pop(Rax), Store, Push(Rdi)]),
                Gen(rest, rc.names))
  }

  /** A binary node at the head of a list: operands, operator, the rest, and only then `push rax`. */
  function GenLeftAndRight(n: Node, rest: seq<Node>, names: seq<string>): Result<Emitted, GenError>
    requires IsBinary(n)
    decreases Size(n) + SizeList(rest), 0
  {
    BinarySize(n);
    FlattenSize(n.lhs);
    FlattenSize(n.rhs);
    match Gen(Flatten(n.lhs), names)
    case Err(e) => Err(e)
    case Ok(lc) =>
      match Gen(Flatten(n.rhs), lc.names)
      case Err(e) => Err(e)
      case Ok(rc) =>
        match Gen(rest, rc.names)
        case Err(e) => Err(e)
        case Ok(tc) =>
          Ok(Emitted(lc.code + rc.code + Plain([Pop(Rdi), Pop(Rax)] + OpCode(n)) + tc.code
                     + Plain([Push(Rax)]), tc.names))
  }

  /** The code of an assignment whose parts were generated. */
  lemma GenAssignParts(n: Node, rest: seq<Node>, names: seq<string>, rc: Emitted, tc: Emitted)
    requires n.Assign? && n.lvar.Lvar?
    requires Gen(Flatten(n.rhs), Intern(names, n.lvar.name)) == Ok(rc)
    requires Gen(rest, rc.names) == Ok(tc)
    ensures GenAssign(n, rest, names) == Ok(Emitted(
      LvarCode(Intern(names, n.lvar.name), n.lvar.name) + rc.code
      + Plain([Pop(Rdi), Pop(Rax), Store, Push(Rdi)]) + tc.code, tc.names))
  {
  }

  /** A list headed by an assignment or a binary node is generated by the matching helper. */
  lemma GenHead(ns: seq<Node>, names: seq<string>)
    requires ns != []
    ensures ns[0].Assign? ==> Gen(ns, names) == GenAssign(ns[0], ns[1..], names)
    ensures IsBinary(ns[0]) ==> Gen(ns, names) == GenLeftAndRight(ns[0], ns[1..], names)
  {
  }

  /** The code of a list headed by a number whose rest was generated. */
  lemma GenNumParts(ns: seq<Node>, names: seq<string>, tc: Emitted)
    requires ns != [] && ns[0].Num?
    requires Gen(ns[1..], names) == Ok(tc)
    ensures Gen(ns, names) == Ok(Emitted(Plain([PushImm(ns[0].value)]) + tc.code, tc.names))
  {
  }

  /** The code of a list headed by a variable whose rest was generated. */
  lemma GenLvarParts(ns: seq<Node>, names: seq<string>, tc: Emitted)
    requires ns != [] && ns[0].Lvar?
    requires Gen(ns[1..], Intern(names, ns[0].name)) == Ok(tc)
    ensures Gen(ns, names) == Ok(Emitted(
      LvarCode(Intern(names, ns[0].name), ns[0].name) + Plain([Pop(Rax), Load, Push(Rax)]) + tc.code, tc.names))
  {
  }

  /** The code of a binary node whose parts were generated. */
  lemma GenLeftAndRightParts(n: Node, rest: seq<Node>, names: seq<string>, lc: Emitted, rc: Emitted, tc: Emitted)
    requires IsBinary(n)
    requires Gen(Flatten(n.lhs), names) == Ok(lc)
    requires Gen(Flatten(n.rhs), lc.names) == Ok(rc)
    requires Gen(rest, rc.names) == Ok(tc)
    ensures GenLeftAndRight(n, rest, names) == Ok(Emitted(
      lc.code + rc.code + Plain([Pop(Rdi), Pop(Rax)] + OpCode(n)) + tc.code + Plain([Push(Rax)]), tc.names))
  {
  }

  /** Each statement's code followed by `pop rax`. */
  function GenStatements(stmts: seq<Node>, names: seq<string>): Result<Emitted, GenError>
    decreases |stmts|
  {
    if stmts == [] then Ok(Emitted([], names))
    else
      match Gen(Flatten(stmts[0]), names)
      case Err(e) => Err(e)
      case Ok(c) => Prepend(c.code + Plain([Pop(Rax)]), GenStatements(stmts[1..], c.names))
  }

  function Headers(): seq<Line>
  {
    [Line(IntelSyntax, Some("headers")), Line(GlobalMain, None), Line(MainLabel, None)]
  }

  /** Saves rbp and reserves the slots of `count - 1` variables. */
  function Prologue(count: int): seq<Line>
  {
    [Line(Push(Rbp), Some("headers")), Line(Mov(Rbp, Rsp), None), Line(SubImm(Rsp, (count - 1) * 8), Some("^^^ headers"))]
  }

  function Epilogue(): seq<Line>
  {
    [Line(Mov(Rsp, Rbp), Some("epilogue")), Line(Pop(Rbp), None), Line(Instr.Ret, Some("^^^ epilogue"))]
  }

  /** The listing `Generator.run` returns for the statements, after the lines already in `outputs`. */
  function Listing(stmts: seq<Node>, outputs: seq<Line>): Result<seq<Line>, GenError>
  {
    match GenStatements(stmts, [])
    case Err(e) => Err(e)
    case Ok(b) => Ok(Headers() + Prologue(|b.names| + 1) + outputs + b.code + Epilogue())
  }

  /** One more statement generated: its code and `pop rax` move from the pending part to the done part. */
  lemma {:induction false} StatementDone(stmts: seq<Node>, i: nat, names: seq<string>, done: seq<Line>, g: Emitted)
    requires i < |stmts| && Gen(Flatten(stmts[i]), names) == Ok(g)
    ensures Prepend(done, GenStatements(stmts[i..], names))
         == Prepend(done + g.code + Plain([Pop(Rax)]), GenStatements(stmts[i + 1..], g.names))
  {
    assert stmts[i..][0] == stmts[i] && stmts[i..][1..] == stmts[i + 1..];
    PrependTwice(done, g.code + Plain([Pop(Rax)]), GenStatements(stmts[i + 1..], g.names));
    assert done + (g.code + Plain([Pop(Rax)])) == done + g.code + Plain([Pop(Rax)]);
  }

  /** Before the first statement nothing is done; after the last nothing is pending. */
  lemma StatementsBounds(stmts: seq<Node>, names: seq<string>, done: seq<Line>)
    ensures Prepend([], GenStatements(stmts[0..], names)) == GenStatements(stmts, names)
    ensures Prepend(done, GenStatements(stmts[|stmts|..], names)) == Ok(Emitted(done, names))
  {
    assert stmts[0..] == stmts;
    assert stmts[|stmts|..] == [];
    assert done + [] == done;
    var all := GenStatements(stmts, names);
    assert all.Ok? ==> [] + all.value.code == all.value.code;
  }

  /** A statement the generator rejects makes the whole run fail the same way. */
  lemma {:induction false} StatementFailed(stmts: seq<Node>, i: nat, names: seq<string>, done: seq<Line>, e: GenError)
    requires i < |stmts| && Gen(Flatten(stmts[i]), names) == Err(e)
    ensures Prepend(done, GenStatements(stmts[i..], names)) == Err(e)
  {
    assert stmts[i..][0] == stmts[i];
  }

  /** Appending pieces one by one appends their concatenation. */
  lemma AppendTwoPieces(o: seq<Line>, a: seq<Line>, b: seq<Line>)
    ensures (o + a) + b == o + (a + b)
  {
  }

  lemma AppendThreePieces(o: seq<Line>, a: seq<Line>, b: seq<Line>, c: seq<Line>)
    ensures ((o + a) + b) + c == o + ((a + b) + c)
  {
  }

  lemma AppendPieces(o: seq<Line>, a: seq<Line>, b: seq<Line>, c: seq<Line>, d: seq<Line>)
    ensures (((o + a) + b) + c) + d == o + (((a + b) + c) + d)
  {
  }

  lemma AppendFivePieces(o: seq<Line>, a: seq<Line>, b: seq<Line>, c: seq<Line>, d: seq<Line>, e: seq<Line>)
    ensures ((((o + a) + b) + c) + d) + e == o + ((((a + b) + c) + d) + e)
  {
  }

  lemma WrapPieces(h: seq<Line>, p: seq<Line>, o: seq<Line>, d: seq<Line>, e: seq<Line>)
    ensures h + (p + ((o + d) + e)) == (((h + p) + o) + d) + e
  {
  }

  lemma PrependTwice(a: seq<Line>, b: seq<Line>, r: Result<Emitted, GenError>)
    ensures Prepend(a, Prepend(b, r)) == Prepend(a + b, r)
  {
    if r.Ok? {
      assert a + (b + r.value.code) == (a + b) + r.value.code;
    }
  }

  // ----- the generator object -----

  class Generator {
    var outputs: seq<Line>
    var lvarCount: int
    var lvars: map<string, int>
    /** The variables in the order they were given slots. */
    ghost var names: seq<string>

    /** The counter is one past the number of slots, and the table gives each name its slot. */
    ghost predicate Valid()
      reads this`names, this`lvarCount, this`lvars
    {
      && NoDup(names)
      && lvarCount == |names| + 1
      && (forall x :: x in names ==> x in lvars)
      && (forall x :: x in lvars ==> x in names && lvars[x] == Offset(names, x))
    }

    constructor(outputs: seq<Line>)
      ensures Valid() && this.outputs == outputs && names == []
    {
      this.outputs := outputs;
      lvarCount := 1;
      lvars := map[];
      names := [];
    }

    /** Pushes the address of the variable's slot, giving the variable a new slot on first use. */
    method GenerateLvar(name: string)
      requires Valid()
      modifies this
      ensures Valid()
      ensures names == Intern(old(names), name)
      ensures outputs == old(outputs) + LvarCode(names, name)
    {
      InternOffsets(names, name);
      var offset: int;
      if name in lvars {
        offset := lvars[name];
      } else {
        offset := lvarCount * 8;
        lvarCount := lvarCount + 1;
        lvars := lvars[name := offset];
        names := names + [name];
      }
      outputs := outputs + [Line(Mov(Rax, Rbp), None), Line(SubImm(Rax, offset), Some(name)), Line(Push(Rax), None)];
    }

    /** `run_statement`: appends the code of the flattened nodes, or fails as `Gen` does. */
    method RunStatement(nodes: Node) returns (r: Result<(), GenError>)
      requires Valid()
      modifies this
      decreases SizeList(Flatten(nodes)), 1
      ensures Valid()
      ensures match Gen(Flatten(nodes), old(names))
        case Err(e) => r == Err(e)
        case Ok(g) => r.Ok? && outputs == old(outputs) + g.code && names == g.names
    {
      var flat := Flatten(nodes);
      if flat == [] {
        return Ok(());
      }
      var n, rest := flat[0], flat[1..];
      FlattenSize(nodes);
      assert IsFlat(rest);
      if n.Num? {
        r := RunNum(n.value, rest);
      } else if n.Lvar? {
        r := RunLvar(n.name, rest);
      } else if n.Assign? {
        r := RunAssign(n, rest);
      } else if IsBinary(n) {
        r := RunLeftAndRight(n, rest);
      } else {
        r := Err(NoPatternMatched);
      }
    }

    /** The number branch of `run_statement`: the constant is pushed. */
    method RunNum(value: int, rest: seq<Node>) returns (r: Result<(), GenError>)
      requires Valid() && IsFlat(rest)
      modifies this
      decreases 1 + SizeList(rest), 0
      ensures Valid()
      ensures match Gen([Num(value)] + rest, old(names))
        case Err(e) => r == Err(e)
        case Ok(g) => r.Ok? && outputs == old(outputs) + g.code && names == g.names
    {
      assert ([Num(value)] + rest)[0] == Num(value) && ([Num(value)] + rest)[1..] == rest;
      FlattenFlat(rest);
      ghost var o0 := outputs;
      var push := Plain([PushImm(value)]);
      outputs := outputs + push;
      r := RunStatement(Arr(rest));
      ghost var t := Gen(rest, old(names));
      if t.Ok? {
        assert outputs == (o0 + push) + t.value.code;
        AppendTwoPieces(o0, push, t.value.code);
      }
    }

    /** The variable branch of `run_statement`: the slot's address is pushed, then replaced by its contents. */
    method RunLvar(name: string, rest: seq<Node>) returns (r: Result<(), GenError>)
      requires Valid() && IsFlat(rest)
      modifies this
      decreases 1 + SizeList(rest), 0
      ensures Valid()
      ensures match Gen([Lvar(name)] + rest, old(names))
        case Err(e) => r == Err(e)
        case Ok(g) => r.Ok? && outputs == old(outputs) + g.code && names == g.names
    {
      assert ([Lvar(name)] + rest)[0] == Lvar(name) && ([Lvar(name)] + rest)[1..] == rest;
      FlattenFlat(rest);
      ghost var o0 := outputs;
      GenerateLvar(name);
      ghost var nm := names;
      var load := Plain([Pop(Rax), Load, Push(Rax)]);
      outputs := outputs + load;
      r := RunStatement(Arr(rest));
      ghost var t := Gen(rest, nm);
      if t.Ok? {
        assert outputs == ((o0 + LvarCode(nm, name)) + load) + t.value.code;
        AppendThreePieces(o0, LvarCode(nm, name), load, t.value.code);
      }
    }

    /** The assignment branch of `run_statement`: address, value, store, and the value pushed. */
    method RunAssign(n: Node, rest: seq<Node>) returns (r: Result<(), GenError>)
      requires Valid() && n.Assign? && IsFlat(rest)
      modifies this
      decreases Size(n) + SizeList(rest), 0
      ensures Valid()
      ensures match GenAssign(n, rest, old(names))
        case Err(e) => r == Err(e)
        case Ok(g) => r.Ok? && outputs == old(outputs) + g.code && names == g.names
    {
      FlattenFlat(rest);
      if !n.lvar.Lvar? {
        return Err(NotAVariable);
      }
      ghost var o0, names0 := outputs, names;
      GenerateLvar(n.lvar.name);
      FlattenSize(n.rhs);
      ghost var nm, o1 := names, outputs;
      r := RunStatement(n.rhs);
      if r.Err? {
        return;
      }
      ghost var rc := Gen(Flatten(n.rhs), nm).value;
      var store := Plain([Pop(Rdi), Pop(Rax), Store, Push(Rdi)]);
      outputs := outputs + store;
      ghost var o2 := outputs;
      r := RunStatement(Arr(rest));
      ghost var t := Gen(rest, rc.names);
      assert GenAssign(n, rest, names0) == Prepend(LvarCode(nm, n.lvar.name) + rc.code + store, t);
      if t.Ok? {
        assert o1 == o0 + LvarCode(nm, n.lvar.name);
        assert o2 == o1 + rc.code + store;
        AppendPieces(o0, LvarCode(nm, n.lvar.name), rc.code, store, t.value.code);
      }
    }

    /**
     * The `run_left_and_right` lambda of `run_statement` and the `push rax` after it:
     * both operands, the operator, the rest of the list, and only then the result.
     */
    method RunLeftAndRight(n: Node, rest: seq<Node>) returns (r: Result<(), GenError>)
      requires Valid() && IsBinary(n) && IsFlat(rest)
      modifies this
      decreases Size(n) + SizeList(rest), 0
      ensures Valid()
      ensures match GenLeftAndRight(n, rest, old(names))
        case Err(e) => r == Err(e)
        case Ok(g) => r.Ok? && outputs == old(outputs) + g.code && names == g.names
    {
      FlattenFlat(rest);
      BinarySize(n);
      FlattenSize(n.lhs);
      FlattenSize(n.rhs);
      ghost var o0, names0 := outputs, names;
      r := RunStatement(n.lhs);
      if r.Err? {
        return;
      }
      ghost var lc := Gen(Flatten(n.lhs), names0).value;
      ghost var o1 := outputs;
      r := RunStatement(n.rhs);
      if r.Err? {
        return;
      }
      ghost var rc := Gen(Flatten(n.rhs), lc.names).value;
      var op := Plain([Pop(Rdi), Pop(Rax)] + OpCode(n));
      outputs := outputs + op;
      ghost var o3 := outputs;
      r := RunStatement(Arr(rest));
      if r.Err? {
        return;
      }
      ghost var tc := Gen(rest, rc.names).value;
      var push := Plain([Push(Rax)]);
      outputs := outputs + push;
      assert o1 == o0 + lc.code;
      assert o3 == o1 + rc.code + op;
      AppendFivePieces(o0, lc.code, rc.code, op, tc.code, push);
    }

    /** `run`: every statement followed by `pop rax`, wrapped in headers, prologue and epilogue. */
    method Run(statements: seq<Node>) returns (r: Result<seq<Line>, GenError>)
      requires Valid()
      modifies this
      ensures match GenStatements(statements, old(names))
        case Err(e) => r == Err(e)
        case Ok(b) =>
          && outputs == Headers() + Prologue(|b.names| + 1) + old(outputs) + b.code + Epilogue()
          && r == Ok(outputs)
    {
      ghost var done: seq<Line> := [];
      ghost var all := GenStatements(statements, names);
      var i := 0;
      StatementsBounds(statements, names, done);
      while i < |statements|
        invariant 0 <= i <= |statements|
        invariant Valid()
        invariant outputs == old(outputs) + done
        invariant all == Prepend(done, GenStatements(statements[i..], names))
      {
        ghost var namesBefore, before := names, outputs;
        var step := RunStatement(statements[i]);
        if step.Err? {
          StatementFailed(statements, i, namesBefore, done, step.error);
          return Err(step.error);
        }
        ghost var g := Gen(Flatten(statements[i]), namesBefore).value;
        var pop := Plain([Pop(Rax)]);
        outputs := outputs + pop;
        StatementDone(statements, i, namesBefore, done, g);
        AppendThreePieces(old(outputs), done, g.code, pop);
        done := done + g.code + pop;
        i := i + 1;
      }
      StatementsBounds(statements, names, done);
      var body := outputs;
      outputs := Headers() + (Prologue(lvarCount) + (body + Epilogue()));
      WrapPieces(Headers(), Prologue(lvarCount), old(outputs), done, Epilogue());
      r := Ok(outputs);
    }

    /** `Generator.run`: a fresh generator over the given initial lines. */
    static method Generate(statements: seq<Node>, outputs: seq<Line>) returns (r: Result<seq<Line>, GenError>)
      ensures r == Listing(statements, outputs)
    {
      var g := new Generator(outputs);
      r := g.Run(statements);
    }
  }
}
