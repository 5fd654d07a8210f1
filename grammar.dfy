/**
 * The statement parser of lib/9cc/node/parser.rb, the `Node::Parser` that `Program#run`
 * uses, as functions over token lists.
 *
 * The expression productions (`primary` up to `expr`) never change the array they are
 * given: Ruby's `in [x, *tokens]` binds a fresh copy of the tail. The statement
 * productions do: `expect_next_token!` and `tokens_until` shift the caller's array, and
 * `statement`, `if_statement`, `block` and `function` hand that array on. Those
 * productions therefore return, with their result, what is left in the array they were
 * given (`After`). A production that raises aborts the whole run (nothing rescues), so
 * on an error the array's contents do not matter.
 */
module Grammar {
  import opened Outcomes
  import opened Tokens
  import opened Ast
  import opened Precedence

  datatype ParseError =
    | InvalidInput      // `primary` finds no number, name or `(`
    | MissingClose      // an unsigned call argument or a parenthesised expression is not followed by `)`
    | NotAnLvar         // the left of `=` is not a variable
    | UnexpectedToken   // `expect_next_token!` shifts some other token
    | BadParams         // a parameter list that is empty, or a non-name where a name belongs
    | MissingName       // `def` is not followed by a name
    | TrailingTokens    // `run`: `program` leaves something other than the end-of-input token
    | NoResult          // `run`: `program` returns nil

  /** The punctuation and keywords the parser looks for. */
  datatype Mark = LParen | RParen | Comma | Semicolon | LBrace | RBrace | Equals | IfWord | ElseWord | DefWord

  function Spelling(m: Mark): string
  {
    match m
    case LParen => "("
    case RParen => ")"
    case Comma => ","
    case Semicolon => ";"
    case LBrace => "{"
    case RBrace => "}"
    case Equals => "="
    case IfWord => "if"
    case ElseWord => "else"
    case DefWord => "def"
  }

  /** The mark a token is, if any (`MarkSpells`: exactly the reserved token spelling it). */
  function MarkOf(t: Token): Option<Mark>
  {
    if t == Reserved("(") then Some(LParen)
    else if t == Reserved(")") then Some(RParen)
    else if t == Reserved(",") then Some(Comma)
    else if t == Reserved(";") then Some(Semicolon)
    else if t == Reserved("{") then Some(LBrace)
    else if t == Reserved("}") then Some(RBrace)
    else if t == Reserved("=") then Some(Equals)
    else if t == Reserved("if") then Some(IfWord)
    else if t == Reserved("else") then Some(ElseWord)
    else if t == Reserved("def") then Some(DefWord)
    else None
  }

  /** The tokens `tokens_until` is asked to stop at: one mark, or `;` and the end of input. */
  datatype Stop = At(mark: Mark) | StatementEnd

  predicate Stops(s: Stop, t: Token)
  {
    match s
    case At(m) => MarkOf(t) == Some(m)
    case StatementEnd => MarkOf(t) == Some(Semicolon) || t == Eof
  }

  /** What `tokens_until` returns, and what it leaves in the array it shifted. */
  datatype Split = Split(prefix: seq<Token>, left: seq<Token>)

  /**
   * `tokens_until`: the tokens before the first stop; the stop itself is shifted away too,
   * and without a stop the whole array is taken.
   */
  function Until(ts: seq<Token>, s: Stop): (r: Split)
    ensures |r.prefix| + |r.left| <= |ts|
    ensures ts != [] ==> |r.left| < |ts|
  {
    if ts == [] then Split([], [])
    else if Stops(s, ts[0]) then Split([], ts[1..])
    else
      var r := Until(ts[1..], s);
      Split([ts[0]] + r.prefix, r.left)
  }

  /** `expect_next_token!`: the array after its first token, provided that token is `m`. */
  function ExpectNext(ts: seq<Token>, m: Mark): (r: Result<seq<Token>, ParseError>)
    ensures r.Ok? <==> ts != [] && ts[0] == Reserved(Spelling(m))
    ensures r.Ok? ==> r.value == ts[1..]
    ensures !r.Ok? ==> r == Err(UnexpectedToken)
  {
    if ts != [] && MarkOf(ts[0]) == Some(m) then Ok(ts[1..]) else Err(UnexpectedToken)
  }

  // ----- expressions: functions of the token list, which they leave alone -----

  /**
   * `primary = num | ident ("(" unary ("," unary)* ")")? | "(" expr ")"`: a name followed
   * by `()` calls with no arguments, a name followed by `(` and something else reads the
   * arguments, and a name followed by anything else is a variable.
   */
  function Primary(ts: seq<Token>): (r: Result<Parsed, ParseError>)
    ensures r.Ok? ==> |r.value.rest| < |ts|
    decreases |ts|, 0
  {
    if ts == [] then Err(InvalidInput)
    else if ts[0].Num? then Ok(Parsed(Node.Num(ts[0].value), ts[1..]))
    else if ts[0].Ident? then
      var t := ts[1..];
      if |t| >= 2 && MarkOf(t[0]) == Some(LParen) && MarkOf(t[1]) == Some(RParen) then
        Ok(Parsed(Fcall(ts[0].name, []), t[2..]))
      else if t != [] && MarkOf(t[0]) == Some(LParen) then
        CallArgs(ts[0].name, t[1..], [])
      else
        Ok(Parsed(Lvar(ts[0].name), t))
    else if MarkOf(ts[0]) == Some(LParen) then
      match Expr(ts[1..])
      case Err(e) => Err(e)
      case Ok(p) =>
        if p.rest != [] && MarkOf(p.rest[0]) == Some(RParen) then Ok(Parsed(p.node, p.rest[1..]))
        else Err(MissingClose)
    else Err(InvalidInput)
  }

  /**
   * The argument loop of `primary`, with `args` the arguments read so far: each argument
   * is a `unary`, tagged with its position, and is followed by `,` or the closing `)`.
   * When it is followed by neither, the error message reads `primary` again from the
   * argument's start: an argument that began with a sign fails there as invalid input.
   */
  function CallArgs(name: string, ts: seq<Token>, args: seq<Node>): (r: Result<Parsed, ParseError>)
    ensures r.Ok? ==> |r.value.rest| < |ts|
    decreases |ts|, 2
  {
    match Unary(ts)
    case Err(e) => Err(e)
    case Ok(p) =>
      var all := args + [Farg(p.node, |args|)];
      if p.rest != [] && MarkOf(p.rest[0]) == Some(Comma) then CallArgs(name, p.rest[1..], all)
      else if p.rest != [] && MarkOf(p.rest[0]) == Some(RParen) then Ok(Parsed(Fcall(name, all), p.rest[1..]))
      else if Signed(ts) then Err(InvalidInput)
      else Err(MissingClose)
  }

  /** The input starts with a `+` or `-` sign. */
  predicate Signed(ts: seq<Token>)
  {
    ts != [] && (OperatorOf(ts[0]) == Some(Plus) || OperatorOf(ts[0]) == Some(Minus))
  }

  /** `unary = ("+" | "-")? primary`; `-p` is `0 - p`. */
  function Unary(ts: seq<Token>): (r: Result<Parsed, ParseError>)
    ensures r.Ok? ==> |r.value.rest| < |ts|
    decreases |ts|, 1
  {
    if ts != [] && OperatorOf(ts[0]) == Some(Plus) then Primary(ts[1..])
    else if ts != [] && OperatorOf(ts[0]) == Some(Minus) then
      match Primary(ts[1..])
      case Err(e) => Err(e)
      case Ok(p) => Ok(Parsed(Sub(Node.Num(0), p.node), p.rest))
    else Primary(ts)
  }

  /** A level's first operand: `unary` for `mul`, the level below for the others. */
  function FirstOperand(level: Level, ts: seq<Token>): (r: Result<Parsed, ParseError>)
    ensures r.Ok? ==> |r.value.rest| < |ts|
    decreases |ts|, 3 * Rank(level) + 4
  {
    if level == MulLevel then Unary(ts) else Chain(Below(level), ts)
  }

  /** The operand after an operator of the level (`add` for both `relational` and `equality`). */
  function RightOperand(level: Level, ts: seq<Token>): (r: Result<Parsed, ParseError>)
    ensures r.Ok? ==> |r.value.rest| < |ts|
    decreases |ts|, 3 * Rank(level) + 4
  {
    if level == MulLevel then Unary(ts) else Chain(RightLevel(level), ts)
  }

  /** `mul`, `add`, `relational` and `equality`: an operand, then the loop folding `op operand`. */
  function Chain(level: Level, ts: seq<Token>): (r: Result<Parsed, ParseError>)
    ensures r.Ok? ==> |r.value.rest| < |ts|
    decreases |ts|, 3 * Rank(level) + 5
  {
    match FirstOperand(level, ts)
    case Err(e) => Err(e)
    case Ok(p) => ChainRest(level, p.node, p.rest)
  }

  /** The loop of a level: each operator and operand is folded onto `left`, the node so far. */
  function ChainRest(level: Level, left: Node, ts: seq<Token>): (r: Result<Parsed, ParseError>)
    ensures r.Ok? ==> |r.value.rest| <= |ts|
    decreases |ts|, 3 * Rank(level) + 4
  {
    if ts != [] && IsOperator(level, ts[0]) then
      match RightOperand(level, ts[1..])
      case Err(e) => Err(e)
      case Ok(p) => ChainRest(level, Combine(ts[0], left, p.node), p.rest)
    else Ok(Parsed(left, ts))
  }

  /**
   * `assign = equality ("=" (assign | "{" statement* "}"))?`: the right side is parsed
   * before the left is checked to be a variable. After `= {` the statements run up to the
   * first `}`, and what follows it is not looked at again.
   */
  function Assignment(ts: seq<Token>): (r: Result<Parsed, ParseError>)
    ensures r.Ok? ==> |r.value.rest| <= |ts|
    decreases |ts|, 15
  {
    match Chain(EqualityLevel, ts)
    case Err(e) => Err(e)
    case Ok(p) =>
      if p.rest != [] && MarkOf(p.rest[0]) == Some(Equals) then
        var t := p.rest[1..];
        var right :=
          if t != [] && MarkOf(t[0]) == Some(LBrace) then
            (match Statement(Until(t[1..], At(RBrace)).prefix)
             case Err(e) => Err(e)
             case Ok(s) => Ok(Parsed(Arr(s.value.nodes), s.value.rest)))
          else Assignment(t);
        match right
        case Err(e) => Err(e)
        case Ok(q) =>
          if p.node.Lvar? then Ok(Parsed(Node.Assign(p.node, q.node), q.rest)) else Err(NotAnLvar)
      else Ok(p)
  }

  /**
   * `expr = "return" primary? | assign`: a `return` reads at most one `primary`, drops
   * whatever follows it, and reports only the end-of-input token as left.
   */
  function Expr(ts: seq<Token>): (r: Result<Parsed, ParseError>)
    ensures r.Ok? ==> |r.value.rest| <= |ts|
    decreases |ts|, 16
  {
    if ts == [Token.Ret] || ts == [Token.Ret, Eof] then Ok(Parsed(Node.Ret(None), [Eof]))
    else if ts != [] && ts[0] == Token.Ret then
      match Primary(ts[1..])
      case Err(e) => Err(e)
      case Ok(p) => Ok(Parsed(Node.Ret(Some(p.node)), [Eof]))
    else Assignment(ts)
  }

  // ----- statements: they also return what is left in the array they were given -----

  /** A result, and what is left in the array the production was given. */
  datatype After<T> = After(value: T, left: seq<Token>)

  /** What `statement` returns: the statements read, and `[Eof]` or an empty array. */
  datatype Stmts = Stmts(nodes: seq<Node>, rest: seq<Token>)

  /**
   * `if_statement`: the condition is the expression before the first `)`, the then-side
   * the statements before the first `else`, and the else-side the statements of
   * everything after it, read from the caller's own array.
   */
  function IfStatement(a: seq<Token>): (r: Result<After<Parsed>, ParseError>)
    ensures r.Ok? ==> |r.value.left| < |a|
    decreases |a|, 0
  {
    match ExpectNext(a, IfWord)
    case Err(e) => Err(e)
    case Ok(a1) =>
      match ExpectNext(a1, LParen)
      case Err(e) => Err(e)
      case Ok(a2) =>
        var c := Until(a2, At(RParen));
        match Expr(c.prefix)
        case Err(e) => Err(e)
        case Ok(cond) =>
          var th := Until(c.left, At(ElseWord));
          match Statement(th.prefix)
          case Err(e) => Err(e)
          case Ok(thenSide) =>
            match Statement(th.left)
            case Err(e) => Err(e)
            case Ok(elseSide) =>
              var node := If(cond.node, Arr(thenSide.value.nodes), Arr(elseSide.value.nodes));
              Ok(After(Parsed(node, elseSide.value.rest), elseSide.left))
  }

  /** `block = "{" statement* "}"`: the statements before the first `}`; the rest is the caller's array. */
  function BlockStatement(a: seq<Token>): (r: Result<After<Parsed>, ParseError>)
    ensures r.Ok? ==> |r.value.left| < |a| && r.value.value.rest == r.value.left
    decreases |a|, 0
  {
    match ExpectNext(a, LBrace)
    case Err(e) => Err(e)
    case Ok(a1) =>
      var b := Until(a1, At(RBrace));
      match Statement(b.prefix)
      case Err(e) => Err(e)
      case Ok(s) => Ok(After(Parsed(Node.Block(s.value.nodes), b.left), b.left))
  }

  /**
   * `function = "def" ident "(" ident ("," ident)* ")" block`. Only `def` is shifted from
   * the caller's array: the name is matched with `in [Ident[name], *tokens]`, which goes on
   * with a copy.
   */
  function Definition(a: seq<Token>): (r: Result<After<Parsed>, ParseError>)
    ensures r.Ok? ==> |r.value.left| < |a|
    decreases |a|, 0
  {
    match ExpectNext(a, DefWord)
    case Err(e) => Err(e)
    case Ok(a1) =>
      if a1 != [] && a1[0].Ident? then
        match ExpectNext(a1[1..], LParen)
        case Err(e) => Err(e)
        case Ok(t) =>
          var ps := Until(t, At(RParen));
          match Params(ps.prefix, [])
          case Err(e) => Err(e)
          case Ok(names) =>
            match BlockStatement(ps.left)
            case Err(e) => Err(e)
            case Ok(b) => Ok(After(Parsed(Fdef(a1[0].name, names, b.value.node), b.value.rest), a1))
      else Err(MissingName)
  }

  /**
   * The parameter loop of `function`, with `names` those read so far: a name, then either
   * `,` and another name, or the end of the loop (anything else after a name is ignored).
   */
  function Params(ts: seq<Token>, names: seq<string>): (r: Result<seq<string>, ParseError>)
    decreases |ts|
  {
    if ts != [] && ts[0].Ident? then
      var t := ts[1..];
      if t != [] && MarkOf(t[0]) == Some(Comma) then Params(t[1..], names + [ts[0].name])
      else Ok(names + [ts[0].name])
    else Err(BadParams)
  }

  /**
   * One turn of `statement`'s loop: an `if`, a block, a definition, or the expression
   * before the next `;` or end-of-input token (which is shifted away with it).
   */
  function StatementStep(a: seq<Token>): (r: Result<After<Parsed>, ParseError>)
    requires a != []
    ensures r.Ok? ==> |r.value.left| < |a|
    decreases |a|, 17
  {
    if MarkOf(a[0]) == Some(IfWord) then IfStatement(a)
    else if MarkOf(a[0]) == Some(LBrace) then BlockStatement(a)
    else if MarkOf(a[0]) == Some(DefWord) then Definition(a)
    else
      var e := Until(a, StatementEnd);
      match Expr(e.prefix)
      case Err(err) => Err(err)
      case Ok(p) => Ok(After(p, e.left))
  }

  /**
   * `statement`'s loop, with `nodes` the statements read so far: it stops as soon as a
   * statement reports only the end-of-input token left, and otherwise when the array is
   * empty; whatever else a statement reports left is dropped.
   */
  function StatementLoop(a: seq<Token>, nodes: seq<Node>): (r: Result<After<Stmts>, ParseError>)
    ensures r.Ok? ==> |r.value.left| <= |a|
    ensures r.Ok? ==> r.value.value.rest == [] || r.value.value.rest == [Eof]
    decreases |a|, 18
  {
    if a == [] then Ok(After(Stmts(nodes, []), []))
    else
      match StatementStep(a)
      case Err(e) => Err(e)
      case Ok(s) =>
        if s.value.rest == [Eof] then Ok(After(Stmts(nodes + [s.value.node], [Eof]), s.left))
        else StatementLoop(s.left, nodes + [s.value.node])
  }

  /** `statement`: the loop, from no statements. */
  function Statement(a: seq<Token>): (r: Result<After<Stmts>, ParseError>)
    ensures r.Ok? ==> |r.value.left| <= |a|
    ensures r.Ok? ==> r.value.value.rest == [] || r.value.value.rest == [Eof]
    decreases |a|, 19
  {
    StatementLoop(a, [])
  }

  /** What `program` returns: its list of statement lists, and the tokens left. */
  datatype ProgramResult = ProgramResult(nodes: seq<Node>, rest: seq<Token>)

  /** `program`: one `statement`, then a loop that reads more until only the end-of-input token is left. */
  function Program(ts: seq<Token>): Result<Option<ProgramResult>, ParseError>
  {
    match Statement(ts)
    case Err(e) => Err(e)
    case Ok(s) =>
      var nodes := [Arr(s.value.nodes)];
      if s.value.rest == [] then Ok(Some(ProgramResult(nodes, [Eof])))
      else ProgramLoop(s.value.rest, nodes)
  }

  /** The loop of `program`; falling out of it (an empty array) makes `program` return nil. */
  function ProgramLoop(ts: seq<Token>, nodes: seq<Node>): Result<Option<ProgramResult>, ParseError>
    decreases if ts == [Eof] then 0 else |ts| + 1
  {
    if ts == [] then Ok(None)
    else if ts == [Eof] then Ok(Some(ProgramResult(nodes, [Eof])))
    else
      match Statement(ts)
      case Err(e) => Err(e)
      case Ok(s) => ProgramLoop(s.value.rest, nodes + [Arr(s.value.nodes)])
  }

  /** `Parser#run`: the nodes `program` returns, provided it leaves just the end-of-input token. */
  function Run(ts: seq<Token>): Result<seq<Node>, ParseError>
  {
    match Program(ts)
    case Err(e) => Err(e)
    case Ok(None) => Err(NoResult)
    case Ok(Some(p)) => if p.rest == [Eof] then Ok(p.nodes) else Err(TrailingTokens)
  }

  /** The result without the array's contents. */
  function Value<T>(r: Result<After<T>, ParseError>): Result<T, ParseError>
  {
    match r
    case Err(e) => Err(e)
    case Ok(a) => Ok(a.value)
  }
}
