/**
 * `Program#run` of lib/9cc.rb (and its copy in 9cc.rb): the first compiler, which
 * accepts only `num (+ num | - num)*`. After the three header lines it walks the
 * token list once, emitting `mov rax, n` for the leading number and `add rax, n` /
 * `sub rax, n` for every following pair, and `ret` when only Eof is left.
 */
module SinglePass {
  import opened Outcomes
  import opened Tokens
  import opened Asm

  datatype Failure =
    | TokenizeFailed(at: nat)   // the tokenizer rejected the piece with this index
    | NotANumber                // reported at position 0: the first token is not a number
    | NoPatternMatched          // no branch of the loop's `case` matched

  function Headers(): seq<Line>
  {
    Plain([IntelSyntax, GlobalMain, MainLabel])
  }

  function Appended(done: seq<Line>, more: Result<seq<Line>, Failure>): Result<seq<Line>, Failure>
  {
    match more
    case Ok(lines) => Ok(done + lines)
    case Err(e) => Err(e)
  }

  /** What the loop emits for the tokens after the leading number. */
  function Tail(ts: seq<Token>): Result<seq<Line>, Failure>
    decreases |ts|
  {
    if |ts| >= 2 && ts[0] == Reserved("+") && ts[1].Num? then
      Appended([Line(AddImm(Rax, ts[1].value), None)], Tail(ts[2..]))
    else if |ts| >= 2 && ts[0] == Reserved("-") && ts[1].Num? then
      Appended([Line(SubImm(Rax, ts[1].value), None)], Tail(ts[2..]))
    else if ts == [Eof] then Ok([Line(Instr.Ret, None)])
    else Err(NoPatternMatched)
  }

  /** The listing for a token list, or why there is none. */
  function Listing(ts: seq<Token>): Result<seq<Line>, Failure>
  {
    if |ts| > 0 && ts[0].Num? then
      Appended(Headers() + [Line(MovImm(Rax, ts[0].value), None)], Tail(ts[1..]))
    else Err(NotANumber)
  }

  /** The whole program: tokenize, then compile. */
  function Program(input: string): Result<seq<Line>, Failure>
  {
    match Lex(Split(input))
    case Err(at) => Err(TokenizeFailed(at))
    case Ok(ts) => Listing(ts)
  }

  /** The token-walking loop of `Program#run`. */
  method Compile(tokens: seq<Token>) returns (r: Result<seq<Line>, Failure>)
    ensures r == Listing(tokens)
  {
    var outputs := Headers();
    if |tokens| == 0 || !tokens[0].Num? {
      return Err(NotANumber);
    }
    outputs := outputs + [Line(MovImm(Rax, tokens[0].value), None)];
    var rest := tokens[1..];
    while true
      invariant Listing(tokens) == Appended(outputs, Tail(rest))
      decreases |rest|
    {
      if |rest| >= 2 && rest[0] == Reserved("+") && rest[1].Num? {
        AppendedTwice(outputs, [Line(AddImm(Rax, rest[1].value), None)], Tail(rest[2..]));
        outputs := outputs + [Line(AddImm(Rax, rest[1].value), None)];
        rest := rest[2..];
      } else if |rest| >= 2 && rest[0] == Reserved("-") && rest[1].Num? {
        AppendedTwice(outputs, [Line(SubImm(Rax, rest[1].value), None)], Tail(rest[2..]));
        outputs := outputs + [Line(SubImm(Rax, rest[1].value), None)];
        rest := rest[2..];
      } else if rest == [Eof] {
        outputs := outputs + [Line(Instr.Ret, None)];
        break;
      } else {
        return Err(NoPatternMatched);
      }
    }
    return Ok(outputs);
  }

  /** `Program#run` without the printing: tokenize the input, then compile the tokens. */
  method Run(input: string) returns (r: Result<seq<Line>, Failure>)
    ensures r == Program(input)
  {
    var tokens := Tokenize(input);
    match tokens
    case Err(at) =>
      return Err(TokenizeFailed(at));
    case Ok(ts) =>
      r := Compile(ts);
  }

  lemma AppendedTwice(a: seq<Line>, b: seq<Line>, more: Result<seq<Line>, Failure>)
    ensures Appended(a, Appended(b, more)) == Appended(a + b, more)
  {
    if more.Ok? {
      assert a + (b + more.value) == a + b + more.value;
    }
  }

  // ----- which token lists compile -----

  predicate IsSign(t: Token) { t == Reserved("+") || t == Reserved("-") }

  /** `num (± num)* Eof`, described by position: numbers at even indices, signs at odd ones. */
  predicate SumShape(ts: seq<Token>)
  {
    && |ts| >= 2 && |ts| % 2 == 0 && ts[|ts| - 1] == Eof
    && (forall i :: 0 <= i < |ts| - 1 && i % 2 == 0 ==> ts[i].Num?)
    && (forall i :: 0 <= i < |ts| - 1 && i % 2 == 1 ==> IsSign(ts[i]))
  }

  /** The tail after a number compiles exactly when it is `(± num)* Eof`. */
  lemma {:induction false} TailShape(ts: seq<Token>)
    ensures Tail(ts).Ok? <==>
      && |ts| >= 1 && |ts| % 2 == 1 && ts[|ts| - 1] == Eof
      && (forall i :: 0 <= i < |ts| - 1 && i % 2 == 0 ==> IsSign(ts[i]))
      && (forall i :: 0 <= i < |ts| - 1 && i % 2 == 1 ==> ts[i].Num?)
    decreases |ts|
  {
    if |ts| >= 2 && IsSign(ts[0]) && ts[1].Num? {
      TailShape(ts[2..]);
      assert forall i :: 2 <= i < |ts| ==> ts[2..][i - 2] == ts[i];
      if |ts[2..]| >= 1 && |ts[2..]| % 2 == 1 && ts[2..][|ts[2..]| - 1] == Eof
         && (forall i :: 0 <= i < |ts[2..]| - 1 && i % 2 == 0 ==> IsSign(ts[2..][i]))
         && (forall i :: 0 <= i < |ts[2..]| - 1 && i % 2 == 1 ==> ts[2..][i].Num?) {
        forall i | 0 <= i < |ts| - 1 && i % 2 == 0 ensures IsSign(ts[i]) {
          if i >= 2 { assert ts[2..][i - 2] == ts[i]; }
        }
        forall i | 0 <= i < |ts| - 1 && i % 2 == 1 ensures ts[i].Num? {
          if i >= 2 { assert ts[2..][i - 2] == ts[i]; }
        }
      }
    } else if |ts| >= 2 {
      if !IsSign(ts[0]) {
        assert 0 < |ts| - 1 && 0 % 2 == 0;
      } else {
        assert 1 < |ts| - 1 || |ts| == 2;
      }
    }
  }

  /** A token list compiles exactly when it has the shape `num (± num)* Eof`. */
  lemma ListingShape(ts: seq<Token>)
    ensures Listing(ts).Ok? <==> SumShape(ts)
  {
    if |ts| > 0 {
      TailShape(ts[1..]);
      assert forall i :: 1 <= i < |ts| ==> ts[1..][i - 1] == ts[i];
      if Tail(ts[1..]).Ok? && ts[0].Num? {
        forall i | 0 <= i < |ts| - 1 && i % 2 == 0 ensures ts[i].Num? {
          if i >= 1 { assert ts[1..][i - 1] == ts[i]; }
        }
        forall i | 0 <= i < |ts| - 1 && i % 2 == 1 ensures IsSign(ts[i]) {
          assert ts[1..][i - 1] == ts[i];
        }
      }
      if SumShape(ts) {
        assert ts[0].Num?;
        forall i | 0 <= i < |ts[1..]| - 1 && i % 2 == 0 ensures IsSign(ts[1..][i]) {
          assert ts[1..][i] == ts[i + 1];
        }
        forall i | 0 <= i < |ts[1..]| - 1 && i % 2 == 1 ensures ts[1..][i].Num? {
          assert ts[1..][i] == ts[i + 1];
        }
      }
    }
  }

  /** A list whose first token is not a number is refused before anything is walked. */
  lemma FirstTokenMustBeNumber(ts: seq<Token>)
    requires ts == [] || !ts[0].Num?
    ensures Listing(ts) == Err(NotANumber)
  {
  }

  // ----- what the listing contains -----

  /** The line one `± n` pair becomes. */
  function PairLine(sign: Token, n: Token): Line
    requires n.Num?
  {
    if sign == Reserved("+") then Line(AddImm(Rax, n.value), None) else Line(SubImm(Rax, n.value), None)
  }

  lemma {:induction false} TailLines(ts: seq<Token>)
    requires Tail(ts).Ok?
    ensures var lines := Tail(ts).value;
      && |ts| % 2 == 1 && |lines| == (|ts| - 1) / 2 + 1
      && lines[|lines| - 1] == Line(Instr.Ret, None)
      && forall j :: 0 <= j < |lines| - 1 ==> ts[2 * j + 1].Num? && lines[j] == PairLine(ts[2 * j], ts[2 * j + 1])
    decreases |ts|
  {
    if ts != [Eof] {
      TailPair(ts);
      TailLines(ts[2..]);
      var lines, more := Tail(ts).value, Tail(ts[2..]).value;
      assert |lines| == |more| + 1;
      HalfStep(|ts| - 2);
      forall j | 1 <= j < |lines| - 1
        ensures ts[2 * j + 1].Num? && lines[j] == PairLine(ts[2 * j], ts[2 * j + 1])
      {
        assert lines[j] == more[j - 1];
        assert ts[2 * j] == ts[2..][2 * (j - 1)] && ts[2 * j + 1] == ts[2..][2 * (j - 1) + 1];
      }
    }
  }

  /** A successful tail that is not just Eof starts with a `± n` pair. */
  lemma TailPair(ts: seq<Token>)
    requires Tail(ts).Ok? && ts != [Eof]
    ensures |ts| >= 2 && ts[1].Num? && Tail(ts[2..]).Ok?
    ensures Tail(ts).value == [PairLine(ts[0], ts[1])] + Tail(ts[2..]).value
  {
  }

  lemma HalfStep(m: nat)
    requires m % 2 == 1
    ensures (m + 2) % 2 == 1 && (m + 2 - 1) / 2 == (m - 1) / 2 + 1
  {
  }

  /**
   * A compiled listing is the three header lines, `mov rax, n0`, one `add`/`sub` line per
   * pair in input order, and `ret`: 3 + 1 + k + 1 lines for k pairs.
   */
  lemma ListingLines(ts: seq<Token>)
    requires Listing(ts).Ok?
    ensures var lines := Listing(ts).value; var k := (|ts| - 2) / 2;
      && |ts| == 2 * k + 2 && |lines| == 3 + 1 + k + 1
      && lines[..3] == Headers()
      && lines[3] == Line(MovImm(Rax, ts[0].value), None)
      && (forall j :: 0 <= j < k ==> ts[2 * j + 2].Num? && lines[4 + j] == PairLine(ts[2 * j + 1], ts[2 * j + 2]))
      && lines[|lines| - 1] == Line(Instr.Ret, None)
  {
    var tail := ts[1..];
    TailLines(tail);
    var lines := Listing(ts).value;
    assert lines == Headers() + [Line(MovImm(Rax, ts[0].value), None)] + Tail(tail).value;
    forall j | 0 <= j < (|ts| - 2) / 2
      ensures ts[2 * j + 2].Num? && lines[4 + j] == PairLine(ts[2 * j + 1], ts[2 * j + 2])
    {
      assert lines[4 + j] == Tail(tail).value[j];
      assert tail[2 * j] == ts[2 * j + 1] && tail[2 * j + 1] == ts[2 * j + 2];
    }
  }

  /** The rendered header lines. */
  lemma HeaderText()
    ensures |Headers()| == 3
    ensures RenderLine(Headers()[0]) == ".intel_syntax noprefix"
    ensures RenderLine(Headers()[1]) == ".global main"
    ensures RenderLine(Headers()[2]) == "main:"
  {
  }

  // ----- what the listing computes -----

  function Signed(sign: Token, n: nat): int
  {
    if sign == Reserved("+") then n else 0 - n
  }

  /** The signed sum of the `± n` pairs of a tail, reading left to right. */
  function Terms(ts: seq<Token>): int
    decreases |ts|
  {
    if |ts| >= 2 && IsSign(ts[0]) && ts[1].Num? then
      Signed(ts[0], ts[1].value) + Terms(ts[2..])
    else 0
  }

  /** The value of `n0 ± n1 ± ...`: the left fold of the operators over the numbers. */
  function SourceValue(ts: seq<Token>): int
    requires |ts| > 0 && ts[0].Num?
  {
    ts[0].value + Terms(ts[1..])
  }

  lemma {:induction false} TailComputes(ts: seq<Token>, s: State)
    requires Tail(ts).Ok?
    ensures Exec(Tail(ts).value, s) == Some(s.(rax := s.rax + Terms(ts)))
    decreases |ts|
  {
    var lines := Tail(ts).value;
    if ts != [Eof] {
      var t := Step(lines[0].instr, s).value;
      assert t == s.(rax := s.rax + Signed(ts[0], ts[1].value));
      assert lines[1..] == Tail(ts[2..]).value;
      TailComputes(ts[2..], t);
    } else {
      assert lines == [Line(Instr.Ret, None)];
    }
  }

  lemma HeadersDoNothing(s: State)
    ensures Exec(Headers(), s) == Some(s)
  {
    var h := Headers();
    assert h[1..][1..][1..] == [];
  }

  /** Running a compiled listing from any state leaves the value of the source expression in rax. */
  lemma ListingComputes(ts: seq<Token>, s: State)
    requires Listing(ts).Ok?
    ensures Exec(Listing(ts).value, s).Some?
    ensures Exec(Listing(ts).value, s).value.rax == SourceValue(ts)
  {
    var head := Headers() + [Line(MovImm(Rax, ts[0].value), None)];
    ExecAppend(head, Tail(ts[1..]).value, s);
    var t := s.(rax := ts[0].value);
    HeadersDoNothing(s);
    ExecAppend(Headers(), [Line(MovImm(Rax, ts[0].value), None)], s);
    assert Exec(head, s) == Some(t);
    TailComputes(ts[1..], t);
  }

  /** `1 - 2 - 3` exits with -4, not 4: subtraction folds to the left. */
  lemma SubtractionFoldsLeft()
    ensures var ts := [Num(1), Reserved("-"), Num(2), Reserved("-"), Num(3), Eof];
      Listing(ts).Ok? && SourceValue(ts) == -4
  {
  }
}
