/**
 * What the statement code of lib/9cc/generator.rb computes on the machine of module Asm.
 *
 * `Eval` is the meaning of a simple tree (see GeneratorProps): numbers, variables,
 * assignments and the eight binary operators over unbounded integers, where
 * division truncates toward zero and comparisons give 0 or 1. Reading a variable
 * that was never assigned, or dividing by zero, has no meaning (None); the machine
 * would read an unset slot or fault.
 *
 * The frame `Mirrors` an environment when every variable's value sits at
 * rbp - offset, the slot the generator gave its name. The main lemma, `GenEval`,
 * says that the code of a list of simple trees in which binary nodes come only
 * last pushes the trees' values in order and leaves the frame mirroring the
 * environment after the assignments.
 */
module GeneratorEval {
  import opened Outcomes
  import opened Ast
  import opened Asm
  import opened Generator
  import opened GeneratorProps

  type Env = map<string, int>

  /** What a binary operator computes from its left and right operand; None for a division by zero. */
  function Apply(n: Node, a: int, b: int): Option<int>
    requires IsBinary(n)
  {
    match n
    case Add(_, _) => Some(a + b)
    case Sub(_, _) => Some(a - b)
    case Mul(_, _) => Some(a * b)
    case Div(_, _) => if b == 0 then None else Some(TruncDiv(a, b))
    case Eq(_, _) => Some(if a == b then 1 else 0)
    case Neq(_, _) => Some(if a != b then 1 else 0)
    case Lt(_, _) => Some(if a < b then 1 else 0)
    case Lte(_, _) => Some(if a <= b then 1 else 0)
  }

  datatype Outcome = Outcome(value: int, env: Env)

  /** The value of a simple tree and the environment after its assignments, left operand first. */
  function Eval(n: Node, env: Env): Option<Outcome>
    requires Simple(n)
    decreases Size(n)
  {
    if n.Num? then Some(Outcome(n.value, env))
    else if n.Lvar? then (if n.name in env then Some(Outcome(env[n.name], env)) else None)
    else if n.Assign? then
      OperandFlattens(n.rhs);
      match Eval(Operand(n.rhs), env)
      case None => None
      case Some(o) => Some(Outcome(o.value, o.env[n.lvar.name := o.value]))
    else
      BinarySize(n);
      OperandFlattens(n.lhs);
      OperandFlattens(n.rhs);
      match Eval(Operand(n.lhs), env)
      case None => None
      case Some(l) =>
        match Eval(Operand(n.rhs), l.env)
        case None => None
        case Some(r) =>
          match Apply(n, l.value, r.value)
          case None => None
          case Some(v) => Some(Outcome(v, r.env))
  }

  datatype Pushed = Pushed(values: seq<int>, env: Env)

  /** The values of the trees of a list, in order, and the final environment. */
  function EvalList(ns: seq<Node>, env: Env): Option<Pushed>
    requires AllSimple(ns)
    decreases |ns|
  {
    if ns == [] then Some(Pushed([], env))
    else
      match Eval(ns[0], env)
      case None => None
      case Some(o) =>
        match EvalList(ns[1..], o.env)
        case None => None
        case Some(p) => Some(Pushed([o.value] + p.values, p.env))
  }

  /** Binary nodes appear only as the last element of the list. */
  predicate BinaryLast(ns: seq<Node>)
  {
    |ns| <= 1 || (!IsBinary(ns[0]) && BinaryLast(ns[1..]))
  }

  /** The address of a variable's slot. */
  function Slot(rbp: int, names: seq<string>, x: string): int
    requires x in names
  {
    rbp - Offset(names, x)
  }

  /** Every variable of the environment has a slot in `names` holding its value. */
  predicate Mirrors(names: seq<string>, env: Env, s: State)
  {
    forall x :: x in env ==>
      x in names && Slot(s.rbp, names, x) in s.frame && s.frame[Slot(s.rbp, names, x)] == env[x]
  }

  /**
   * Running the code `e` from `s` pushes the values of `p` on top of the stack,
   * keeps rbp, extends the frame's names and leaves the frame mirroring `p.env`.
   */
  predicate Runs(names: seq<string>, e: Emitted, s: State, p: Pushed)
  {
    && Exec(e.code, s).Some?
    && Exec(e.code, s).value.stack == s.stack + p.values
    && Exec(e.code, s).value.rbp == s.rbp
    && names <= e.names && NoDup(e.names)
    && Mirrors(e.names, p.env, Exec(e.code, s).value)
  }

  // ----- the frame -----

  /** Distinct names have distinct slots. */
  lemma OffsetsDistinct(names: seq<string>, x: string, y: string)
    requires x in names && y in names && x != y
    ensures Offset(names, x) != Offset(names, y)
  {
  }

  /** Code that keeps rbp and the frame keeps the mirroring. */
  lemma MirrorsSameFrame(names: seq<string>, env: Env, s: State, t: State)
    requires Mirrors(names, env, s) && t.rbp == s.rbp && t.frame == s.frame
    ensures Mirrors(names, env, t)
  {
  }

  /** Names added after the ones in use do not move their slots. */
  lemma MirrorsExtend(names: seq<string>, longer: seq<string>, env: Env, s: State)
    requires Mirrors(names, env, s) && names <= longer
    ensures Mirrors(longer, env, s)
  {
    forall x | x in env
      ensures x in longer && Slot(s.rbp, longer, x) == Slot(s.rbp, names, x)
    {
      PrefixIndex(names, longer, x);
    }
  }

  /** Storing a value in a variable's slot updates that variable and no other. */
  lemma MirrorsStore(names: seq<string>, env: Env, s: State, x: string, v: int, t: State)
    requires NoDup(names) && x in names && Mirrors(names, env, s)
    requires t.rbp == s.rbp && t.frame == s.frame[Slot(s.rbp, names, x) := v]
    ensures Mirrors(names, env[x := v], t)
  {
    forall y | y in env && y != x
      ensures Slot(t.rbp, names, y) != Slot(s.rbp, names, x)
    {
      OffsetsDistinct(names, x, y);
    }
  }

  // ----- running pieces of code -----

  lemma ExecThen(a: seq<Line>, b: seq<Line>, s: State, t: State, u: State)
    requires Exec(a, s) == Some(t) && Exec(b, t) == Some(u)
    ensures Exec(a + b, s) == Some(u)
  {
    ExecAppend(a, b, s);
  }

  lemma PushImmRun(v: int, s: State)
    ensures Exec(Plain([PushImm(v)]), s) == Some(s.(stack := s.stack + [v]))
  {
    assert Plain([PushImm(v)])[1..] == [];
  }

  lemma PushRaxRun(s: State)
    ensures Exec(Plain([Push(Rax)]), s) == Some(s.(stack := s.stack + [s.rax]))
  {
    assert Plain([Push(Rax)])[1..] == [];
  }

  /** `generate_lvar`'s three lines push the slot's address (and leave it in rax). */
  lemma LvarCodeRun(names: seq<string>, x: string, s: State)
    requires x in names
    ensures Exec(LvarCode(names, x), s)
         == Some(s.(rax := Slot(s.rbp, names, x), stack := s.stack + [Slot(s.rbp, names, x)]))
  {
    var c := LvarCode(names, x);
    var a := Slot(s.rbp, names, x);
    assert c[1..][1..][1..] == [];
    assert Exec(c[1..][1..], s.(rax := a)) == Some(s.(rax := a, stack := s.stack + [a]));
    assert Exec(c[1..], s.(rax := s.rbp)) == Some(s.(rax := a, stack := s.stack + [a]));
  }

  /** `pop rax; mov rax, [rax]; push rax` replaces the address on top by what the frame holds there. */
  lemma LoadRun(s: State)
    requires s.stack != [] && s.stack[|s.stack| - 1] in s.frame
    ensures Exec(Plain([Pop(Rax), Load, Push(Rax)]), s).Some?
    ensures var t := Exec(Plain([Pop(Rax), Load, Push(Rax)]), s).value;
      && t.stack == s.stack[..|s.stack| - 1] + [s.frame[s.stack[|s.stack| - 1]]]
      && t.rbp == s.rbp && t.frame == s.frame
  {
    var top := s.stack[|s.stack| - 1];
    var s1 := s.(stack := s.stack[..|s.stack| - 1], rax := top);
    var s2 := s1.(rax := s.frame[top]);
    var s3 := s2.(stack := s2.stack + [s.frame[top]]);
    ExecThree(Pop(Rax), Load, Push(Rax), s, s1, s2, s3);
  }

  /** `pop rdi; pop rax; mov [rax], rdi; push rdi` stores the top value at the address under it and keeps the value. */
  lemma StoreRun(s: State)
    requires |s.stack| >= 2
    ensures Exec(Plain([Pop(Rdi), Pop(Rax), Store, Push(Rdi)]), s).Some?
    ensures var t := Exec(Plain([Pop(Rdi), Pop(Rax), Store, Push(Rdi)]), s).value;
      && t.stack == s.stack[..|s.stack| - 2] + [s.stack[|s.stack| - 1]]
      && t.rbp == s.rbp && t.frame == s.frame[s.stack[|s.stack| - 2] := s.stack[|s.stack| - 1]]
  {
    var n := |s.stack|;
    var v, a := s.stack[n - 1], s.stack[n - 2];
    var s2 := s.(stack := s.stack[..n - 2], rdi := v, rax := a);
    var s3 := StoreStep(s2);
    var s4 := PushRdiStep(s3);
    ExecTwo(Store, Push(Rdi), s2, s3, s4);
    PopsRun(s);
    PlainAppend([Pop(Rdi), Pop(Rax)], [Store, Push(Rdi)]);
    assert [Pop(Rdi), Pop(Rax)] + [Store, Push(Rdi)] == [Pop(Rdi), Pop(Rax), Store, Push(Rdi)];
    ExecThen(Plain([Pop(Rdi), Pop(Rax)]), Plain([Store, Push(Rdi)]), s, s2, s4);
  }

  /** `mov [rax], rdi` writes `rdi` into the slot `rax` names. */
  lemma StoreStep(s: State) returns (t: State)
    ensures Step(Store, s) == Some(t) && t == s.(frame := s.frame[s.rax := s.rdi])
  {
    t := s.(frame := s.frame[s.rax := s.rdi]);
  }

  /** `push rdi` pushes `rdi`. */
  lemma PushRdiStep(s: State) returns (t: State)
    ensures Step(Push(Rdi), s) == Some(t) && t == s.(stack := s.stack + [s.rdi])
  {
    t := s.(stack := s.stack + [s.rdi]);
  }

  lemma PlainAppend(xs: seq<Instr>, ys: seq<Instr>)
    ensures Plain(xs + ys) == Plain(xs) + Plain(ys)
  {
  }

  /** `pop rdi; pop rax` takes the right operand into rdi and the left one into rax. */
  lemma PopsRun(s: State)
    requires |s.stack| >= 2
    ensures Exec(Plain([Pop(Rdi), Pop(Rax)]), s)
         == Some(s.(stack := s.stack[..|s.stack| - 2], rdi := s.stack[|s.stack| - 1], rax := s.stack[|s.stack| - 2]))
  {
    var k := |s.stack|;
    var s1 := s.(stack := s.stack[..k - 1], rdi := s.stack[k - 1]);
    assert s1.stack[..k - 2] == s.stack[..k - 2];
    var s2 := s1.(stack := s.stack[..k - 2], rax := s.stack[k - 2]);
    ExecTwo(Pop(Rdi), Pop(Rax), s, s1, s2);
  }

  /** `cmp rax, rdi; setX al; movzb rax, al` leaves 1 in rax when the condition holds and 0 otherwise. */
  lemma CompareRun(c: Cond, s: State)
    ensures Exec(Plain([CmpRdi, Set(c), Movzb]), s).Some?
    ensures var t := Exec(Plain([CmpRdi, Set(c), Movzb]), s).value;
      t.rax == (if Holds(c, s.rax, s.rdi) then 1 else 0) && t.stack == s.stack && t.rbp == s.rbp && t.frame == s.frame
  {
    var s1 := s.(cmpLeft := s.rax, cmpRight := s.rdi);
    var s2 := s1.(al := if Holds(c, s.rax, s.rdi) then 1 else 0);
    var s3 := s2.(rax := s2.al);
    ExecThree(CmpRdi, Set(c), Movzb, s, s1, s2, s3);
  }

  lemma OneRun(i: Instr, s: State)
    ensures Exec(Plain([i]), s) == Step(i, s)
  {
    assert Plain([i])[1..] == [];
  }

  /** `cqo; idiv rdi` leaves the truncated quotient in rax. */
  lemma DivideRun(s: State)
    requires s.rdi != 0
    ensures Exec(Plain([Cqo, IdivRdi]), s).Some?
    ensures var t := Exec(Plain([Cqo, IdivRdi]), s).value;
      t.rax == TruncDiv(s.rax, s.rdi) && t.stack == s.stack && t.rbp == s.rbp && t.frame == s.frame
  {
    var s1 := s.(rdx := if s.rax < 0 then -1 else 0);
    var s2 := s1.(rax := TruncDiv(s.rax, s.rdi), rdx := TruncRem(s.rax, s.rdi));
    ExecTwo(Cqo, IdivRdi, s, s1, s2);
  }

  /** The operator's own instructions compute `Apply` from rax (left) and rdi (right). */
  lemma OpCodeRun(n: Node, s: State)
    requires IsBinary(n) && Apply(n, s.rax, s.rdi).Some?
    ensures Exec(Plain(OpCode(n)), s).Some?
    ensures var t := Exec(Plain(OpCode(n)), s).value;
      t.rax == Apply(n, s.rax, s.rdi).value && t.stack == s.stack && t.rbp == s.rbp && t.frame == s.frame
  {
    match n
    case Eq(_, _) => CompareRun(Equal, s);
    case Neq(_, _) => CompareRun(NotEqual, s);
    case Lt(_, _) => CompareRun(Less, s);
    case Lte(_, _) => CompareRun(LessEqual, s);
    case Add(_, _) => OneRun(AddRdi, s);
    case Sub(_, _) => OneRun(SubRdi, s);
    case Mul(_, _) => OneRun(ImulRdi, s);
    case Div(_, _) => DivideRun(s);
  }

  /** A binary operator's lines replace its two operands on the stack by nothing and leave the result in rax. */
  lemma OpRun(n: Node, s: State)
    requires IsBinary(n) && |s.stack| >= 2
    requires Apply(n, s.stack[|s.stack| - 2], s.stack[|s.stack| - 1]).Some?
    ensures Exec(Plain([Pop(Rdi), Pop(Rax)] + OpCode(n)), s).Some?
    ensures var t := Exec(Plain([Pop(Rdi), Pop(Rax)] + OpCode(n)), s).value;
      && t.stack == s.stack[..|s.stack| - 2]
      && t.rax == Apply(n, s.stack[|s.stack| - 2], s.stack[|s.stack| - 1]).value
      && t.rbp == s.rbp && t.frame == s.frame
  {
    var k := |s.stack|;
    var s2 := s.(stack := s.stack[..k - 2], rdi := s.stack[k - 1], rax := s.stack[k - 2]);
    PopsRun(s);
    OpCodeRun(n, s2);
    PlainAppend([Pop(Rdi), Pop(Rax)], OpCode(n));
    ExecThen(Plain([Pop(Rdi), Pop(Rax)]), Plain(OpCode(n)), s, s2, Exec(Plain(OpCode(n)), s2).value);
  }

  // ----- the code of a list of simple trees -----

  /** The head of a list that evaluates is a tree that evaluates, and so is the rest after it. */
  lemma EvalListHead(ns: seq<Node>, env: Env)
    requires ns != [] && AllSimple(ns) && EvalList(ns, env).Some?
    ensures Simple(ns[0]) && AllSimple(ns[1..]) && Eval(ns[0], env).Some?
    ensures EvalList(ns[1..], Eval(ns[0], env).value.env).Some?
    ensures EvalList(ns, env).value == Pushed([Eval(ns[0], env).value.value] + EvalList(ns[1..], Eval(ns[0], env).value.env).value.values,
                                              EvalList(ns[1..], Eval(ns[0], env).value.env).value.env)
  {
  }

  /** Code `a` that pushes `vs`, followed by code that runs as `e` does. */
  lemma RunsAfter(names: seq<string>, mid: seq<string>, a: seq<Line>, e: Emitted, s: State, s1: State, vs: seq<int>, p: Pushed)
    requires Exec(a, s) == Some(s1) && s1.stack == s.stack + vs && s1.rbp == s.rbp
    requires Runs(mid, e, s1, p) && names <= mid
    ensures Runs(names, Emitted(a + e.code, e.names), s, Pushed(vs + p.values, p.env))
  {
    ExecAppend(a, e.code, s);
    assert s.stack + vs + p.values == s.stack + (vs + p.values);
  }

  /**
   * The code of simple trees, binary ones only last, pushes their values in order
   * and leaves the frame holding the variables they assign.
   */
  lemma {:induction false} GenEval(ns: seq<Node>, names: seq<string>, env: Env, s: State)
    requires AllSimple(ns) && BinaryLast(ns) && NoDup(names) && Mirrors(names, env, s)
    requires EvalList(ns, env).Some?
    ensures Gen(ns, names).Ok? && Runs(names, Gen(ns, names).value, s, EvalList(ns, env).value)
    decreases SizeList(ns), 2
  {
    if ns == [] {
      assert s.stack + [] == s.stack;
    } else {
      var n := ns[0];
      RestSimple(ns);
      if n.Num? {
        NumEval(ns, names, env, s);
      } else if n.Lvar? {
        LvarEval(ns, names, env, s);
      } else if n.Assign? {
        AssignEval(ns, names, env, s);
      } else {
        BinaryEval(ns, names, env, s);
      }
    }
  }

  lemma {:induction false} NumEval(ns: seq<Node>, names: seq<string>, env: Env, s: State)
    requires ns != [] && ns[0].Num? && AllSimple(ns) && BinaryLast(ns) && NoDup(names) && Mirrors(names, env, s)
    requires EvalList(ns, env).Some?
    ensures Gen(ns, names).Ok? && Runs(names, Gen(ns, names).value, s, EvalList(ns, env).value)
    decreases SizeList(ns), 0
  {
    RestSimple(ns);
    EvalListHead(ns, env);
    var v := ns[0].value;
    var s1 := s.(stack := s.stack + [v]);
    PushImmRun(v, s);
    MirrorsSameFrame(names, env, s, s1);
    GenEval(ns[1..], names, env, s1);
    var tc := Gen(ns[1..], names).value;
    GenNumParts(ns, names, tc);
    RunsAfter(names, names, Plain([PushImm(v)]), tc, s, s1, [v], EvalList(ns[1..], env).value);
  }

  lemma {:induction false} LvarEval(ns: seq<Node>, names: seq<string>, env: Env, s: State)
    requires ns != [] && ns[0].Lvar? && AllSimple(ns) && BinaryLast(ns) && NoDup(names) && Mirrors(names, env, s)
    requires EvalList(ns, env).Some?
    ensures Gen(ns, names).Ok? && Runs(names, Gen(ns, names).value, s, EvalList(ns, env).value)
    decreases SizeList(ns), 0
  {
    RestSimple(ns);
    EvalListHead(ns, env);
    var x := ns[0].name;
    var nm := Intern(names, x);
    InternOffsets(names, x);
    MirrorsExtend(names, nm, env, s);
    var s2 := LvarLoadRun(nm, x, env, s);
    GenEval(ns[1..], nm, env, s2);
    var tc := Gen(ns[1..], nm).value;
    GenLvarParts(ns, names, tc);
    RunsAfter(names, nm, LvarCode(nm, x) + Plain([Pop(Rax), Load, Push(Rax)]), tc, s, s2, [env[x]], EvalList(ns[1..], env).value);
  }

  /** A variable read pushes the value the frame holds for it. */
  lemma LvarLoadRun(names: seq<string>, x: string, env: Env, s: State) returns (t: State)
    requires x in names && x in env && Mirrors(names, env, s)
    ensures Exec(LvarCode(names, x) + Plain([Pop(Rax), Load, Push(Rax)]), s) == Some(t)
    ensures t.stack == s.stack + [env[x]] && t.rbp == s.rbp && Mirrors(names, env, t)
  {
    var a := Slot(s.rbp, names, x);
    var s1 := s.(rax := a, stack := s.stack + [a]);
    LvarCodeRun(names, x, s);
    LoadRun(s1);
    t := Exec(Plain([Pop(Rax), Load, Push(Rax)]), s1).value;
    assert s1.stack[..|s1.stack| - 1] == s.stack;
    ExecThen(LvarCode(names, x), Plain([Pop(Rax), Load, Push(Rax)]), s, s1, t);
    MirrorsSameFrame(names, env, s, t);
  }

  lemma {:induction false} AssignEval(ns: seq<Node>, names: seq<string>, env: Env, s: State)
    requires ns != [] && ns[0].Assign? && AllSimple(ns) && BinaryLast(ns) && NoDup(names) && Mirrors(names, env, s)
    requires EvalList(ns, env).Some?
    ensures Gen(ns, names).Ok? && Runs(names, Gen(ns, names).value, s, EvalList(ns, env).value)
    decreases SizeList(ns), 1
  {
    RestSimple(ns);
    EvalListHead(ns, env);
    GenHead(ns, names);
    AssignPartsEval(ns[0], ns[1..], names, env, s);
  }

  lemma {:induction false} AssignPartsEval(n: Node, rest: seq<Node>, names: seq<string>, env: Env, s: State)
    requires n.Assign? && Simple(n) && AllSimple(rest) && BinaryLast(rest) && NoDup(names) && Mirrors(names, env, s)
    requires Eval(n, env).Some? && EvalList(rest, Eval(n, env).value.env).Some?
    ensures GenAssign(n, rest, names).Ok?
    ensures Runs(names, GenAssign(n, rest, names).value, s,
                 Pushed([Eval(n, env).value.value] + EvalList(rest, Eval(n, env).value.env).value.values,
                        EvalList(rest, Eval(n, env).value.env).value.env))
    decreases Size(n) + SizeList(rest), 0
  {
    var x := n.lvar.name;
    var nm := Intern(names, x);
    InternOffsets(names, x);
    MirrorsExtend(names, nm, env, s);
    var a := Slot(s.rbp, nm, x);
    var s1 := s.(rax := a, stack := s.stack + [a]);
    LvarCodeRun(nm, x, s);
    MirrorsSameFrame(nm, env, s, s1);
    var o := Eval(Operand(n.rhs), env).value;
    OperandEval(n.rhs, nm, env, s1);
    var rc := Gen(Flatten(n.rhs), nm).value;
    var s3 := StoreValue(nm, rc, x, o, s, s1);
    GenEval(rest, rc.names, o.env[x := o.value], s3);
    var tc := Gen(rest, rc.names).value;
    GenAssignParts(n, rest, names, rc, tc);
    RunsAfter(names, rc.names, LvarCode(nm, x) + rc.code + Plain([Pop(Rdi), Pop(Rax), Store, Push(Rdi)]), tc,
              s, s3, [o.value], EvalList(rest, o.env[x := o.value]).value);
  }

  /** After the address and the value are pushed, the store puts the value in the variable's slot. */
  lemma StoreValue(nm: seq<string>, rc: Emitted, x: string, o: Outcome, s: State, s1: State) returns (s3: State)
    requires x in nm && s1 == s.(rax := Slot(s.rbp, nm, x), stack := s.stack + [Slot(s.rbp, nm, x)])
    requires Exec(LvarCode(nm, x), s) == Some(s1)
    requires Runs(nm, rc, s1, Pushed([o.value], o.env))
    ensures Exec(LvarCode(nm, x) + rc.code + Plain([Pop(Rdi), Pop(Rax), Store, Push(Rdi)]), s) == Some(s3)
    ensures s3.stack == s.stack + [o.value] && s3.rbp == s.rbp
    ensures NoDup(rc.names) && nm <= rc.names && Mirrors(rc.names, o.env[x := o.value], s3)
  {
    var a := Slot(s.rbp, nm, x);
    var s2 := Exec(rc.code, s1).value;
    var store := Plain([Pop(Rdi), Pop(Rax), Store, Push(Rdi)]);
    assert s2.stack == s.stack + [a, o.value];
    StoreRun(s2);
    s3 := Exec(store, s2).value;
    assert s2.stack[..|s2.stack| - 2] == s.stack;
    ExecThen(LvarCode(nm, x), rc.code, s, s1, s2);
    ExecThen(LvarCode(nm, x) + rc.code, store, s, s2, s3);
    PrefixIndex(nm, rc.names, x);
    MirrorsStore(rc.names, o.env, s2, x, o.value, s3);
  }

  /** A simple operand's code pushes its value. */
  lemma {:induction false} OperandEval(x: Node, names: seq<string>, env: Env, s: State)
    requires SimpleOperand(x) && NoDup(names) && Mirrors(names, env, s) && Eval(Operand(x), env).Some?
    ensures Gen(Flatten(x), names).Ok?
    ensures Runs(names, Gen(Flatten(x), names).value, s,
                 Pushed([Eval(Operand(x), env).value.value], Eval(Operand(x), env).value.env))
    decreases Size(x), 3
  {
    OperandFlattens(x);
    SizeListSingle(Operand(x));
    var o := Eval(Operand(x), env).value;
    assert [Operand(x)][0] == Operand(x) && [Operand(x)][1..] == [];
    assert EvalList([], o.env) == Some(Pushed([], o.env));
    assert [o.value] + [] == [o.value];
    assert EvalList([Operand(x)], env) == Some(Pushed([o.value], o.env));
    GenEval([Operand(x)], names, env, s);
  }

  lemma {:induction false} BinaryEval(ns: seq<Node>, names: seq<string>, env: Env, s: State)
    requires ns != [] && IsBinary(ns[0]) && AllSimple(ns) && BinaryLast(ns) && NoDup(names) && Mirrors(names, env, s)
    requires EvalList(ns, env).Some?
    ensures Gen(ns, names).Ok? && Runs(names, Gen(ns, names).value, s, EvalList(ns, env).value)
    decreases SizeList(ns), 1
  {
    RestSimple(ns);
    EvalListHead(ns, env);
    GenHead(ns, names);
    assert ns[1..] == [];
    assert [Eval(ns[0], env).value.value] + [] == [Eval(ns[0], env).value.value];
    BinaryPartsEval(ns[0], names, env, s);
  }

  lemma {:induction false} BinaryPartsEval(n: Node, names: seq<string>, env: Env, s: State)
    requires IsBinary(n) && Simple(n) && NoDup(names) && Mirrors(names, env, s) && Eval(n, env).Some?
    ensures GenLeftAndRight(n, [], names).Ok?
    ensures Runs(names, GenLeftAndRight(n, [], names).value, s, Pushed([Eval(n, env).value.value], Eval(n, env).value.env))
    decreases Size(n), 0
  {
    BinarySize(n);
    var l := Eval(Operand(n.lhs), env).value;
    OperandEval(n.lhs, names, env, s);
    var lc := Gen(Flatten(n.lhs), names).value;
    var s1 := Exec(lc.code, s).value;
    var r := Eval(Operand(n.rhs), l.env).value;
    OperandEval(n.rhs, lc.names, l.env, s1);
    var rc := Gen(Flatten(n.rhs), lc.names).value;
    var tc := Emitted([], rc.names);
    GenLeftAndRightParts(n, [], names, lc, rc, tc);
    OperatorValue(n, names, lc, rc, s, l.value, r.value, r.env);
  }

  /** Both operands pushed, the operator's lines and `push rax` leave exactly the result. */
  lemma OperatorValue(n: Node, names: seq<string>, lc: Emitted, rc: Emitted, s: State, a: int, b: int, env: Env)
    requires IsBinary(n) && Apply(n, a, b).Some?
    requires Exec(lc.code, s).Some? && Exec(lc.code, s).value.stack == s.stack + [a] && Exec(lc.code, s).value.rbp == s.rbp
    requires names <= lc.names
    requires Runs(lc.names, rc, Exec(lc.code, s).value, Pushed([b], env))
    ensures Runs(names, Emitted(lc.code + rc.code + Plain([Pop(Rdi), Pop(Rax)] + OpCode(n)) + [] + Plain([Push(Rax)]), rc.names),
                 s, Pushed([Apply(n, a, b).value], env))
  {
    var op := Plain([Pop(Rdi), Pop(Rax)] + OpCode(n));
    var s1 := Exec(lc.code, s).value;
    var s2 := Exec(rc.code, s1).value;
    assert s2.stack == s.stack + [a, b];
    OpRun(n, s2);
    var s3 := Exec(op, s2).value;
    assert s2.stack[..|s2.stack| - 2] == s.stack;
    PushRaxRun(s3);
    var s4 := s3.(stack := s3.stack + [s3.rax]);
    ExecThen(lc.code, rc.code, s, s1, s2);
    ExecThen(lc.code + rc.code, op, s, s2, s3);
    assert lc.code + rc.code + op + [] == lc.code + rc.code + op;
    ExecThen(lc.code + rc.code + op, Plain([Push(Rax)]), s, s3, s4);
    MirrorsSameFrame(rc.names, env, s2, s4);
  }

  // ----- statements -----

  /**
   * The value of the last statement (`last` when there is none) and the final
   * environment; the value a program's `main` returns in rax.
   */
  function EvalStatements(stmts: seq<Node>, env: Env, last: int): Option<Outcome>
    requires AllOperands(stmts)
    decreases |stmts|
  {
    if stmts == [] then Some(Outcome(last, env))
    else
      match Eval(Operand(stmts[0]), env)
      case None => None
      case Some(o) => EvalStatements(stmts[1..], o.env, o.value)
  }

  /**
   * Each statement's code followed by `pop rax` leaves the stack as it found it and
   * the statement's value in rax, so the statements' code ends with the last
   * statement's value in rax and the frame mirroring the final environment.
   */
  lemma {:induction false} StatementsEval(stmts: seq<Node>, names: seq<string>, env: Env, s: State)
    requires AllOperands(stmts) && NoDup(names) && Mirrors(names, env, s)
    requires EvalStatements(stmts, env, s.rax).Some?
    ensures GenStatements(stmts, names).Ok?
    ensures var g := GenStatements(stmts, names).value;
            var o := EvalStatements(stmts, env, s.rax).value;
      && Exec(g.code, s).Some?
      && Exec(g.code, s).value.stack == s.stack
      && Exec(g.code, s).value.rax == o.value
      && Exec(g.code, s).value.rbp == s.rbp
      && names <= g.names && NoDup(g.names)
      && Mirrors(g.names, o.env, Exec(g.code, s).value)
    decreases |stmts|
  {
    if stmts != [] {
      var o := Eval(Operand(stmts[0]), env).value;
      OperandEval(stmts[0], names, env, s);
      var c := Gen(Flatten(stmts[0]), names).value;
      var s1 := Exec(c.code, s).value;
      var s2 := s1.(stack := s.stack, rax := o.value);
      assert s1.stack == s.stack + [o.value];
      assert s1.stack[..|s1.stack| - 1] == s.stack;
      assert Exec(Plain([Pop(Rax)]), s1) == Some(s2) by {
        OneRun(Pop(Rax), s1);
      }
      ExecThen(c.code, Plain([Pop(Rax)]), s, s1, s2);
      MirrorsSameFrame(c.names, o.env, s1, s2);
      StatementsEval(stmts[1..], c.names, o.env, s2);
      var t := GenStatements(stmts[1..], c.names).value;
      ExecAppend(c.code + Plain([Pop(Rax)]), t.code, s);
    }
  }

  // ----- a binary node that is not last -----

  /**
   * When a binary node is followed by more trees, its `push rax` comes after the
   * code of those trees: for `1 + 2` followed by `5` the code leaves 5 under 3,
   * the reverse of the order in which the trees stand.
   */
  lemma NumAlone(v: int, names: seq<string>)
    ensures Gen([Num(v)], names) == Ok(Emitted(Plain([PushImm(v)]), names))
  {
    assert [Num(v)][1..] == [];
    GenNumParts([Num(v)], names, Emitted([], names));
    assert Plain([PushImm(v)]) + [] == Plain([PushImm(v)]);
  }

  lemma BinaryBeforeMore(s: State)
    ensures var ns := [Add(Num(1), Num(2)), Num(5)];
      && Gen(ns, []).Ok?
      && Exec(Gen(ns, []).value.code, s).Some?
      && Exec(Gen(ns, []).value.code, s).value.stack == s.stack + [5, 3]
  {
    var ns := [Add(Num(1), Num(2)), Num(5)];
    var n := ns[0];
    assert ns[1..] == [Num(5)];
    var lc := Emitted(Plain([PushImm(1)]), []);
    var rc := Emitted(Plain([PushImm(2)]), []);
    var tc := Emitted(Plain([PushImm(5)]), []);
    NumAlone(1, []);
    NumAlone(2, []);
    NumAlone(5, []);
    GenHead(ns, []);
    GenLeftAndRightParts(n, [Num(5)], [], lc, rc, tc);
    var s1 := s.(stack := s.stack + [1]);
    var s2 := s1.(stack := s1.stack + [2]);
    PushImmRun(1, s);
    PushImmRun(2, s1);
    assert s2.stack[|s2.stack| - 2] == 1 && s2.stack[|s2.stack| - 1] == 2;
    OpRun(n, s2);
    var s3 := Exec(Plain([Pop(Rdi), Pop(Rax)] + OpCode(n)), s2).value;
    assert s3.stack == s.stack && s3.rax == 3;
    var s4 := s3.(stack := s3.stack + [5]);
    PushImmRun(5, s3);
    PushRaxRun(s4);
    var s5 := s4.(stack := s4.stack + [3]);
    ExecThen(lc.code, rc.code, s, s1, s2);
    ExecThen(lc.code + rc.code, Plain([Pop(Rdi), Pop(Rax)] + OpCode(n)), s, s2, s3);
    ExecThen(lc.code + rc.code + Plain([Pop(Rdi), Pop(Rax)] + OpCode(n)), tc.code, s, s3, s4);
    ExecThen(lc.code + rc.code + Plain([Pop(Rdi), Pop(Rax)] + OpCode(n)) + tc.code, Plain([Push(Rax)]), s, s4, s5);
  }
}
