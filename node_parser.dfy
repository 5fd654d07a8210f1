/**
 * The statement parser of lib/9cc/node/parser.rb as the Ruby code runs it: a token array
 * that `shift` changes in place, the loops that reassign `left` and `tokens`, and the
 * methods that hand one array on to each other. Each method is proved to compute what
 * the matching function of `Grammar` says, and to leave its array as that function says.
 */
module NodeParser {
  import opened Outcomes
  import opened Tokens
  import opened Ast
  import opened Precedence
  import opened Grammar
  import GrammarProps
  import StatementProps

  /** A Ruby array of tokens. */
  class TokenArray {
    var items: seq<Token>

    constructor(ts: seq<Token>)
      ensures items == ts
    {
      items := ts;
    }

    /** `Array#shift`: removes and returns the first token, or nil when the array is empty. */
    method Shift() returns (t: Option<Token>)
      modifies this
      ensures old(items) == [] ==> t == None && items == []
      ensures old(items) != [] ==> t == Some(old(items)[0]) && items == old(items)[1..]
    {
      if items == [] {
        t := None;
      } else {
        t := Some(items[0]);
        items := items[1..];
      }
    }
  }

  /** `expect_next_token!`: shifts one token, and raises unless it is `m`. */
  method ExpectNextToken(tokens: TokenArray, m: Mark) returns (r: Result<(), ParseError>)
    modifies tokens
    ensures r.Ok? <==> ExpectNext(old(tokens.items), m).Ok?
    ensures r.Ok? ==> tokens.items == ExpectNext(old(tokens.items), m).value
    ensures r.Err? ==> r.error == ExpectNext(old(tokens.items), m).error
  {
    var next := tokens.Shift();
    if next.None? || MarkOf(next.value) != Some(m) {
      return Err(UnexpectedToken);
    }
    return Ok(());
  }

  /**
   * `tokens_until`: shifts tokens into a new array until a stop (shifted too, but not
   * kept) or the end of the array.
   */
  method TokensUntil(tokens: TokenArray, s: Stop) returns (arr: seq<Token>)
    modifies tokens
    ensures arr == Until(old(tokens.items), s).prefix
    ensures tokens.items == Until(old(tokens.items), s).left
  {
    arr := [];
    while true
      invariant Until(old(tokens.items), s) == Split(arr + Until(tokens.items, s).prefix, Until(tokens.items, s).left)
      decreases |tokens.items|
    {
      ghost var before := tokens.items;
      var t := tokens.Shift();
      if t.None? || Stops(s, t.value) {
        break;
      }
      assert Until(before, s).prefix == [t.value] + Until(tokens.items, s).prefix;
      assert arr + Until(before, s).prefix == (arr + [t.value]) + Until(tokens.items, s).prefix;
      arr := arr + [t.value];
    }
  }

  /** The argument loop of `primary`: each argument's node is tagged with its position. */
  method ParseCallArgs(name: string, ts: seq<Token>) returns (r: Result<Parsed, ParseError>)
    ensures r == CallArgs(name, ts, [])
    ensures r.Ok? ==> r.value.node.Fcall? && r.value.node.callee == name && GrammarProps.Tagged(r.value.node.args)
  {
    var args: seq<Node> := [];
    var tokens := ts;
    while true
      invariant CallArgs(name, ts, []) == CallArgs(name, tokens, args)
      decreases |tokens|
    {
      var u := Unary(tokens);
      if u.Err? {
        return Err(u.error);
      }
      var arg, rest := u.value.node, u.value.rest;
      if rest != [] && MarkOf(rest[0]) == Some(Comma) {
        args := args + [Farg(arg, |args|)];
        tokens := rest[1..];
      } else if rest != [] && MarkOf(rest[0]) == Some(RParen) {
        args := args + [Farg(arg, |args|)];
        r := Ok(Parsed(Fcall(name, args), rest[1..]));
        GrammarProps.CallArgsTagged(name, ts, []);
        return;
      } else if Signed(tokens) {
        return Err(InvalidInput);
      } else {
        return Err(MissingClose);
      }
    }
  }

  /**
   * `mul`, `add`, `relational` and `equality`: the operand (from the method of the level
   * below, or `unary`), then the loop that folds each operator and operand onto `left`.
   */
  method ParseLevel(level: Level, ts: seq<Token>) returns (r: Result<Parsed, ParseError>)
    ensures r == Chain(level, ts)
    ensures r.Ok? ==> FirstOperand(level, ts).Ok?
    ensures r.Ok? ==> GrammarProps.FoldsFrom(level, r.value.node, FirstOperand(level, ts).value.node)
    decreases Rank(level)
  {
    var first;
    if level == MulLevel {
      first := Unary(ts);
    } else {
      first := ParseLevel(Below(level), ts);
    }
    if first.Err? {
      return Err(first.error);
    }
    var left, tokens := first.value.node, first.value.rest;
    while tokens != []
      invariant Chain(level, ts) == ChainRest(level, left, tokens)
      decreases |tokens|
    {
      if !IsOperator(level, tokens[0]) {
        break;
      }
      var right;
      if level == MulLevel {
        right := Unary(tokens[1..]);
      } else {
        right := ParseLevel(RightLevel(level), tokens[1..]);
      }
      if right.Err? {
        return Err(right.error);
      }
      left := Combine(tokens[0], left, right.value.node);
      tokens := right.value.rest;
    }
    r := Ok(Parsed(left, tokens));
    GrammarProps.ChainFolds(level, ts);
  }

  /** The parameter loop of `function`: names separated by `,`, at least one. */
  method ParseParams(ts: seq<Token>) returns (r: Result<seq<string>, ParseError>)
    ensures r == Params(ts, [])
    ensures r.Ok? ==> r.value != []
  {
    var args: seq<string> := [];
    var argTokens := ts;
    while true
      invariant Params(ts, []) == Params(argTokens, args)
      decreases |argTokens|
    {
      if argTokens != [] && argTokens[0].Ident? {
        var name := argTokens[0].name;
        var rest := argTokens[1..];
        args := args + [name];
        if rest != [] && MarkOf(rest[0]) == Some(Comma) {
          argTokens := rest[1..];
        } else {
          return Ok(args);
        }
      } else {
        return Err(BadParams);
      }
    }
  }

  /** `statement`: reads statements from `tokens` until a `return` ends them or the array is empty. */
  method ParseStatement(tokens: TokenArray) returns (r: Result<Stmts, ParseError>)
    modifies tokens
    ensures r == Value(Statement(old(tokens.items)))
    ensures r.Ok? ==> tokens.items == Statement(old(tokens.items)).value.left
    decreases |tokens.items|, 2
  {
    var statements: seq<Node> := [];
    while tokens.items != []
      invariant Statement(old(tokens.items)) == StatementLoop(tokens.items, statements)
      decreases |tokens.items|
    {
      ghost var before := tokens.items;
      var step: Result<Parsed, ParseError>;
      var mark := MarkOf(tokens.items[0]);
      if mark == Some(IfWord) {
        step := ParseIfStatement(tokens);
      } else if mark == Some(LBrace) {
        step := ParseBlock(tokens);
      } else if mark == Some(DefWord) {
        step := ParseFunction(tokens);
      } else {
        var expressionTokens := TokensUntil(tokens, StatementEnd);
        step := Expr(expressionTokens);
      }
      assert step == Value(StatementStep(before));
      if step.Err? {
        return Err(step.error);
      }
      assert tokens.items == StatementStep(before).value.left;
      statements := statements + [step.value.node];
      if step.value.rest == [Eof] {
        return Ok(Stmts(statements, [Eof]));
      }
    }
    return Ok(Stmts(statements, []));
  }

  /** `if_statement`: the condition, the then-side from its own array, the else-side from `tokens`. */
  method ParseIfStatement(tokens: TokenArray) returns (r: Result<Parsed, ParseError>)
    modifies tokens
    ensures r == Value(IfStatement(old(tokens.items)))
    ensures r.Ok? ==> tokens.items == IfStatement(old(tokens.items)).value.left
    decreases |tokens.items|, 1
  {
    var e := ExpectNextToken(tokens, IfWord);
    if e.Err? {
      return Err(e.error);
    }
    e := ExpectNextToken(tokens, LParen);
    if e.Err? {
      return Err(e.error);
    }
    var condTokens := TokensUntil(tokens, At(RParen));
    var cond := Expr(condTokens);
    if cond.Err? {
      return Err(cond.error);
    }
    var thenTokens := TokensUntil(tokens, At(ElseWord));
    var thenArray := new TokenArray(thenTokens);
    var thenSide := ParseStatement(thenArray);
    if thenSide.Err? {
      return Err(thenSide.error);
    }
    var elseSide := ParseStatement(tokens);
    if elseSide.Err? {
      return Err(elseSide.error);
    }
    var node := If(cond.value.node, Arr(thenSide.value.nodes), Arr(elseSide.value.nodes));
    return Ok(Parsed(node, elseSide.value.rest));
  }

  /** `block`: the statements before the first `}`, read from their own array; `tokens` goes on after it. */
  method ParseBlock(tokens: TokenArray) returns (r: Result<Parsed, ParseError>)
    modifies tokens
    ensures r == Value(BlockStatement(old(tokens.items)))
    ensures r.Ok? ==> tokens.items == BlockStatement(old(tokens.items)).value.left
    decreases |tokens.items|, 1
  {
    var e := ExpectNextToken(tokens, LBrace);
    if e.Err? {
      return Err(e.error);
    }
    var blockTokens := TokensUntil(tokens, At(RBrace));
    var blockArray := new TokenArray(blockTokens);
    var nodes := ParseStatement(blockArray);
    if nodes.Err? {
      return Err(nodes.error);
    }
    return Ok(Parsed(Node.Block(nodes.value.nodes), tokens.items));
  }

  /**
   * `function`: `def` is shifted from `tokens`; everything after the name is read from a
   * copy, which is what `in [Ident[name], *tokens]` binds.
   */
  method ParseFunction(tokens: TokenArray) returns (r: Result<Parsed, ParseError>)
    modifies tokens
    ensures r == Value(Definition(old(tokens.items)))
    ensures r.Ok? ==> tokens.items == Definition(old(tokens.items)).value.left
    decreases |tokens.items|, 1
  {
    var e := ExpectNextToken(tokens, DefWord);
    if e.Err? {
      return Err(e.error);
    }
    if !(tokens.items != [] && tokens.items[0].Ident?) {
      return Err(MissingName);
    }
    var name := tokens.items[0].name;
    var copy := new TokenArray(tokens.items[1..]);
    e := ExpectNextToken(copy, LParen);
    if e.Err? {
      return Err(e.error);
    }
    var argTokens := TokensUntil(copy, At(RParen));
    var args := ParseParams(argTokens);
    if args.Err? {
      return Err(args.error);
    }
    var body := ParseBlock(copy);
    if body.Err? {
      return Err(body.error);
    }
    return Ok(Parsed(Fdef(name, args.value, body.value.node), body.value.rest));
  }

  /**
   * `program`: one `statement`, then a loop that reads more until only the end-of-input
   * token is left; the loop never gets past its first test.
   */
  method ParseProgram(tokens: TokenArray) returns (r: Result<Option<ProgramResult>, ParseError>)
    modifies tokens
    ensures r == Program(old(tokens.items))
  {
    var first := ParseStatement(tokens);
    if first.Err? {
      return Err(first.error);
    }
    var nodes := [Arr(first.value.nodes)];
    var rest := first.value.rest;
    if rest == [] {
      return Ok(Some(ProgramResult(nodes, [Eof])));
    }
    // The loop of `program` returns on its first test: whenever `statement` leaves
    // anything in the array, it leaves just the end-of-input token.
    assert rest == [Eof];
    return Ok(Some(ProgramResult(nodes, [Eof])));
  }

  /** `Node::Parser`: the array it was built with, which `run` hands to `program`. */
  class Parser {
    var tokens: TokenArray

    constructor(tokens: TokenArray)
      ensures this.tokens == tokens
    {
      this.tokens := tokens;
    }

    /**
     * `run`: the nodes `program` returns when it leaves only the end-of-input token, which
     * is the one statement list `statement` reads from the whole array.
     */
    method Run() returns (r: Result<seq<Node>, ParseError>)
      modifies tokens
      ensures r == Grammar.Run(old(tokens.items))
      ensures r.Ok? <==> Statement(old(tokens.items)).Ok?
      ensures r.Ok? ==> r.value == [Arr(Statement(old(tokens.items)).value.value.nodes)]
    {
      ghost var input := tokens.items;
      var p := ParseProgram(tokens);
      StatementProps.RunIsStatement(input);
      match p
      case Err(e) => r := Err(e);
      case Ok(None) => r := Err(NoResult);
      case Ok(Some(result)) =>
        if result.rest == [Eof] {
          r := Ok(result.nodes);
        } else {
          r := Err(TrailingTokens);
        }
    }
  }
}
