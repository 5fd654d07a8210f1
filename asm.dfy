/**
 * The x86-64 instructions the compiler emits, how each is written as a line of
 * Intel-syntax assembly, and a small interpreter for the part of the machine
 * that the generated code touches: the evaluation stack, rax, rdi, rdx, al,
 * the flags set by `cmp`, rbp and the local-variable slots of the frame.
 */
module Asm {
  import opened Outcomes
  import opened Decimal

  datatype Reg = Rax | Rdi | Rbp | Rsp

  /** The condition of a `setX al` instruction. */
  datatype Cond = Equal | NotEqual | Less | LessEqual

  datatype Instr =
    | IntelSyntax          // .intel_syntax noprefix
    | GlobalMain           // .global main
    | MainLabel            // main:
    | Push(src: Reg)       // push reg
    | PushImm(imm: int)    // push imm
    | Pop(dst: Reg)        // pop reg
    | Mov(dst: Reg, src: Reg)
    | MovImm(dst: Reg, imm: int)
    | Load                 // mov rax, [rax]
    | Store                // mov [rax], rdi
    | AddImm(dst: Reg, imm: int)
    | SubImm(dst: Reg, imm: int)
    | AddRdi               // add rax, rdi
    | SubRdi               // sub rax, rdi
    | ImulRdi              // imul rax, rdi
    | Cqo
    | IdivRdi
    | CmpRdi               // cmp rax, rdi
    | Set(cond: Cond)      // setX al
    | Movzb                // movzb rax, al
    | Ret

  /** One emitted line: an instruction and the optional `# comment` after it. */
  datatype Line = Line(instr: Instr, comment: Option<string>)

  function RegName(r: Reg): string
  {
    match r
    case Rax => "rax"
    case Rdi => "rdi"
    case Rbp => "rbp"
    case Rsp => "rsp"
  }

  function CondName(c: Cond): string
  {
    match c
    case Equal => "e"
    case NotEqual => "ne"
    case Less => "l"
    case LessEqual => "le"
  }

  /** The text of an instruction; everything but directives and labels is indented by two spaces. */
  function Render(i: Instr): (text: string)
    ensures |text| > 0
    ensures (i.IntelSyntax? || i.GlobalMain? || i.MainLabel?) <==> text[0] != ' '
  {
    match i
    case IntelSyntax => ".intel_syntax noprefix"
    case GlobalMain => ".global main"
    case MainLabel => "main:"
    case Push(r) => "  push " + RegName(r)
    case PushImm(v) => "  push " + IntToString(v)
    case Pop(r) => "  pop " + RegName(r)
    case Mov(d, s) => "  mov " + RegName(d) + ", " + RegName(s)
    case MovImm(d, v) => "  mov " + RegName(d) + ", " + IntToString(v)
    case Load => "  mov rax, [rax]"
    case Store => "  mov [rax], rdi"
    case AddImm(d, v) => "  add " + RegName(d) + ", " + IntToString(v)
    case SubImm(d, v) => "  sub " + RegName(d) + ", " + IntToString(v)
    case AddRdi => "  add rax, rdi"
    case SubRdi => "  sub rax, rdi"
    case ImulRdi => "  imul rax, rdi"
    case Cqo => "  cqo"
    case IdivRdi => "  idiv rdi"
    case CmpRdi => "  cmp rax, rdi"
    case Set(c) => "  set" + CondName(c) + " al"
    case Movzb => "  movzb rax, al"
    case Ret => "  ret"
  }

  function RenderLine(l: Line): string
  {
    Render(l.instr) + match l.comment case None => "" case Some(c) => " # " + c
  }

  /** Lines without a comment. */
  function Plain(code: seq<Instr>): (lines: seq<Line>)
    ensures |lines| == |code|
    ensures forall k :: 0 <= k < |code| ==> lines[k] == Line(code[k], None)
  {
    seq(|code|, k requires 0 <= k < |code| => Line(code[k], None))
  }

  // ----- arithmetic of the target -----

  function Abs(x: int): nat { if x < 0 then -x else x }

  /** `idiv`'s quotient: division rounding toward zero (Dafny's own `/` is Euclidean). */
  function TruncDiv(a: int, b: int): (q: int)
    requires b != 0
    ensures Abs(a - q * b) < Abs(b)
    ensures a - q * b == 0 || (a - q * b < 0 <==> a < 0)
  {
    var m := Abs(a) / Abs(b);
    assert Abs(a) - m * Abs(b) < Abs(b);
    if (a < 0) != (b < 0) then -m else m
  }

  /** `idiv`'s remainder, which takes the sign of the dividend. */
  function TruncRem(a: int, b: int): int
    requires b != 0
  {
    a - TruncDiv(a, b) * b
  }

  // ----- the interpreter -----

  /**
   * The machine state the generated statement code observes. `stack` is the
   * evaluation stack (last element on top); `frame` maps addresses to the values
   * stored there by `mov [rax], rdi`. rsp is not modelled, so the prologue and
   * epilogue are not interpreted.
   */
  datatype State = State(
    stack: seq<int>, rax: int, rdi: int, rdx: int, al: int,
    cmpLeft: int, cmpRight: int, rbp: int, frame: map<int, int>)

  function Get(s: State, r: Reg): Option<int>
  {
    match r
    case Rax => Some(s.rax)
    case Rdi => Some(s.rdi)
    case Rbp => Some(s.rbp)
    case Rsp => None
  }

  function Put(s: State, r: Reg, v: int): Option<State>
  {
    match r
    case Rax => Some(s.(rax := v))
    case Rdi => Some(s.(rdi := v))
    case Rbp => Some(s.(rbp := v))
    case Rsp => None
  }

  function Holds(c: Cond, a: int, b: int): bool
  {
    match c
    case Equal => a == b
    case NotEqual => a != b
    case Less => a < b
    case LessEqual => a <= b
  }

  /** One instruction; None when it faults or touches what is not modelled. */
  function Step(i: Instr, s: State): Option<State>
  {
    match i
    case IntelSyntax => Some(s)
    case GlobalMain => Some(s)
    case MainLabel => Some(s)
    case Push(r) => (match Get(s, r) case None => None case Some(v) => Some(s.(stack := s.stack + [v])))
    case PushImm(v) => Some(s.(stack := s.stack + [v]))
    case Pop(r) =>
      if s.stack == [] then None
      else Put(s.(stack := s.stack[..|s.stack| - 1]), r, s.stack[|s.stack| - 1])
    case Mov(d, r) => (match Get(s, r) case None => None case Some(v) => Put(s, d, v))
    case MovImm(d, v) => Put(s, d, v)
    case Load => if s.rax in s.frame then Some(s.(rax := s.frame[s.rax])) else None
    case Store => Some(s.(frame := s.frame[s.rax := s.rdi]))
    case AddImm(d, v) => (match Get(s, d) case None => None case Some(x) => Put(s, d, x + v))
    case SubImm(d, v) => (match Get(s, d) case None => None case Some(x) => Put(s, d, x - v))
    case AddRdi => Some(s.(rax := s.rax + s.rdi))
    case SubRdi => Some(s.(rax := s.rax - s.rdi))
    case ImulRdi => Some(s.(rax := s.rax * s.rdi))
    case Cqo => Some(s.(rdx := if s.rax < 0 then -1 else 0))
    case IdivRdi =>
      if s.rdi == 0 then None
      else Some(s.(rax := TruncDiv(s.rax, s.rdi), rdx := TruncRem(s.rax, s.rdi)))
    case CmpRdi => Some(s.(cmpLeft := s.rax, cmpRight := s.rdi))
    case Set(c) => Some(s.(al := if Holds(c, s.cmpLeft, s.cmpRight) then 1 else 0))
    case Movzb => Some(s.(rax := s.al))
    case Ret => Some(s)
  }

  /** Runs the lines in order, stopping at the first fault. */
  function Exec(code: seq<Line>, s: State): Option<State>
    decreases |code|
  {
    if code == [] then Some(s)
    else match Step(code[0].instr, s)
      case None => None
      case Some(t) => Exec(code[1..], t)
  }

  /** A line that steps from `s` to `t` leaves the rest of the code to run from `t`. */
  lemma ExecFirst(code: seq<Line>, s: State, t: State)
    requires code != [] && Step(code[0].instr, s) == Some(t)
    ensures Exec(code, s) == Exec(code[1..], t)
  {
  }

  lemma ExecTwo(a: Instr, b: Instr, s: State, s1: State, s2: State)
    requires Step(a, s) == Some(s1) && Step(b, s1) == Some(s2)
    ensures Exec(Plain([a, b]), s) == Some(s2)
  {
    var code := Plain([a, b]);
    ExecFirst(code, s, s1);
    ExecFirst(code[1..], s1, s2);
    assert code[1..][1..] == [];
  }

  lemma ExecThree(a: Instr, b: Instr, c: Instr, s: State, s1: State, s2: State, s3: State)
    requires Step(a, s) == Some(s1) && Step(b, s1) == Some(s2) && Step(c, s2) == Some(s3)
    ensures Exec(Plain([a, b, c]), s) == Some(s3)
  {
    var code := Plain([a, b, c]);
    ExecFirst(code, s, s1);
    ExecFirst(code[1..], s1, s2);
    ExecFirst(code[1..][1..], s2, s3);
    assert code[1..][1..][1..] == [];
  }

  lemma ExecFour(a: Instr, b: Instr, c: Instr, d: Instr, s: State, s1: State, s2: State, s3: State, s4: State)
    requires Step(a, s) == Some(s1) && Step(b, s1) == Some(s2) && Step(c, s2) == Some(s3) && Step(d, s3) == Some(s4)
    ensures Exec(Plain([a, b, c, d]), s) == Some(s4)
  {
    var code := Plain([a, b, c, d]);
    ExecFirst(code, s, s1);
    ExecFirst(code[1..], s1, s2);
    ExecFirst(code[1..][1..], s2, s3);
    ExecFirst(code[1..][1..][1..], s3, s4);
    assert code[1..][1..][1..][1..] == [];
  }

  /** Running two pieces of code one after the other is running their concatenation. */
  lemma {:induction false} ExecAppend(a: seq<Line>, b: seq<Line>, s: State)
    ensures Exec(a + b, s) == match Exec(a, s) case None => None case Some(t) => Exec(b, t)
    decreases |a|
  {
    if a != [] {
      assert (a + b)[1..] == a[1..] + b;
      match Step(a[0].instr, s)
      case None =>
      case Some(t) => ExecAppend(a[1..], b, t);
    } else {
      assert a + b == b;
    }
  }

  // ----- stack discipline -----

  /** How an instruction changes the depth of the evaluation stack. */
  function Delta(i: Instr): int
  {
    if i.Push? || i.PushImm? then 1 else if i.Pop? then -1 else 0
  }

  /** The stack depth after the code, starting from `d`; None if some pop finds the stack empty. */
  function Depth(code: seq<Line>, d: nat): Option<nat>
    decreases |code|
  {
    if code == [] then Some(d)
    else if d + Delta(code[0].instr) < 0 then None
    else Depth(code[1..], d + Delta(code[0].instr))
  }

  lemma {:induction false} DepthAppend(a: seq<Line>, b: seq<Line>, d: nat)
    ensures Depth(a + b, d) == match Depth(a, d) case None => None case Some(e) => Depth(b, e)
    decreases |a|
  {
    if a != [] {
      assert (a + b)[1..] == a[1..] + b;
      if d + Delta(a[0].instr) >= 0 {
        DepthAppend(a[1..], b, d + Delta(a[0].instr));
      }
    } else {
      assert a + b == b;
    }
  }

  /** Depths compose: the depth after `a + b` is the depth `b` reaches from where `a` left it. */
  lemma DepthThen(a: seq<Line>, b: seq<Line>, d: nat, e: nat, f: nat)
    requires Depth(a, d) == Some(e) && Depth(b, e) == Some(f)
    ensures Depth(a + b, d) == Some(f)
  {
    DepthAppend(a, b, d);
  }

  /** The abstract depth is the real one: a run that does not fault changes the stack by Depth. */
  lemma {:induction false} ExecTracksDepth(code: seq<Line>, s: State)
    requires Exec(code, s).Some?
    ensures Depth(code, |s.stack|).Some?
    ensures |Exec(code, s).value.stack| == Depth(code, |s.stack|).value
    decreases |code|
  {
    if code != [] {
      var t := Step(code[0].instr, s).value;
      assert |t.stack| == |s.stack| + Delta(code[0].instr);
      ExecTracksDepth(code[1..], t);
    }
  }
}
