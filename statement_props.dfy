/**
 * What the statement productions of lib/9cc/node/parser.rb do with the array they are
 * given: `return` ends a statement list, `if` and blocks cut their parts at the first
 * delimiter, a definition shifts only its `def`, a `;` right before the end-of-input
 * token is rejected, and `run` returns exactly the one statement list `statement` reads.
 */
module StatementProps {
  import opened Outcomes
  import opened Tokens
  import opened Ast
  import opened Precedence
  import opened Grammar
  import opened GrammarProps

  /** The tokens `statement` hands to `if_statement`, `block` and `function`. */
  predicate OpensStatement(t: Token)
  {
    MarkOf(t) == Some(IfWord) || MarkOf(t) == Some(LBrace) || MarkOf(t) == Some(DefWord)
  }

  // ----- the empty expression -----

  lemma {:induction false} EmptyChain(level: Level)
    ensures Chain(level, []) == Err(InvalidInput)
    decreases Rank(level)
  {
    if level != MulLevel {
      EmptyChain(Below(level));
    }
  }

  /** An empty expression is rejected: `primary` finds nothing. */
  lemma EmptyExpression()
    ensures Expr([]) == Err(InvalidInput)
  {
    EmptyChain(EqualityLevel);
  }

  // ----- return -----

  /**
   * `return` reads at most one `primary`, drops whatever follows it, and reports only the
   * end-of-input token left.
   */
  lemma ReturnReadsOnePrimary(t: seq<Token>)
    requires t != [] && t != [Eof]
    ensures Expr([Token.Ret] + t).Ok? <==> Primary(t).Ok?
    ensures Primary(t).Ok? ==> Expr([Token.Ret] + t).value == Parsed(Node.Ret(Some(Primary(t).value.node)), [Eof])
  {
    var ts := [Token.Ret] + t;
    assert ts[1..] == t;
    assert ts != [Token.Ret] by { assert |ts| >= 2; }
    assert ts != [Token.Ret, Eof] by { assert ts[1] == t[0]; if |t| == 1 { assert t == [t[0]]; } }
  }

  /** `return 1 + 2` returns 1: the `+ 2` is dropped. */
  lemma ReturnDropsTheRest(a: nat, b: nat)
    ensures Expr([Token.Ret, Token.Num(a), Reserved("+"), Token.Num(b)]) == Ok(Parsed(Node.Ret(Some(Node.Num(a))), [Eof]))
  {
    var t := [Token.Num(a), Reserved("+"), Token.Num(b)];
    ReturnReadsOnePrimary(t);
    assert [Token.Ret, Token.Num(a), Reserved("+"), Token.Num(b)] == [Token.Ret] + t;
  }

  /**
   * A statement that starts with `return` ends the statement list: it is appended, and
   * nothing after it is read.
   */
  lemma ReturnEndsStatements(a: seq<Token>, nodes: seq<Node>)
    requires a != [] && a[0] == Token.Ret
    requires StatementStep(a).Ok?
    ensures StatementStep(a).value.value.node.Ret?
    ensures StatementLoop(a, nodes)
         == Ok(After(Stmts(nodes + [StatementStep(a).value.value.node], [Eof]), StatementStep(a).value.left))
  {
    assert !OpensStatement(a[0]) && !Stops(StatementEnd, a[0]);
    var e := Until(a, StatementEnd);
    assert e.prefix != [] && e.prefix[0] == Token.Ret;
    assert Expr(e.prefix).value.rest == [Eof];
  }

  // ----- the statement loop -----

  /** The loop keeps the statements read so far, in order, in front of the ones it adds. */
  lemma {:induction false} StatementLoopKeeps(a: seq<Token>, nodes: seq<Node>)
    requires StatementLoop(a, nodes).Ok?
    ensures nodes <= StatementLoop(a, nodes).value.value.nodes
    decreases |a|
  {
    if a != [] {
      var s := StatementStep(a).value;
      if s.value.rest != [Eof] {
        StatementLoopKeeps(s.left, nodes + [s.value.node]);
      }
    }
  }

  /** An array holding only the end-of-input token is read as an empty expression, and rejected. */
  lemma EndOfInputAlone(nodes: seq<Node>)
    ensures StatementLoop([Eof], nodes) == Err(InvalidInput)
  {
    assert Stops(StatementEnd, Eof);
    assert Until([Eof], StatementEnd) == Split([], []);
    EmptyExpression();
  }

  /**
   * A `;` right before the end-of-input token makes `statement` fail: the `;` is shifted
   * away with the expression before it, and the end-of-input token left alone is then
   * read as an empty expression.
   */
  lemma SemicolonBeforeEnd(p: seq<Token>, nodes: seq<Node>)
    requires p != [] && NoStop(p, StatementEnd) && !OpensStatement(p[0])
    requires Expr(p).Ok? ==> Expr(p).value.rest != [Eof]
    ensures StatementLoop(p + [Reserved(";"), Eof], nodes).Err?
  {
    var semi := Reserved(";");
    var a := p + [semi, Eof];
    assert Stops(StatementEnd, semi);
    UntilFirst(p, semi, [Eof], StatementEnd);
    assert a == p + [semi] + [Eof];
    assert a[0] == p[0];
    if Expr(p).Ok? {
      EndOfInputAlone(nodes + [Expr(p).value.node]);
    }
  }

  /** In particular `5 ;` is rejected. */
  lemma NumberThenSemicolon(v: nat)
    ensures Statement([Token.Num(v), Reserved(";"), Eof]).Err?
  {
    var p := [Token.Num(v)];
    NumberAt(EqualityLevel, v, []);
    assert [Token.Num(v)] + [] == p;
    assert Assignment(p) == Ok(Parsed(Node.Num(v), []));
    assert Expr(p) == Ok(Parsed(Node.Num(v), []));
    SemicolonBeforeEnd(p, []);
    assert p + [Reserved(";"), Eof] == [Token.Num(v), Reserved(";"), Eof];
  }

  /** The expression `a == b < c` stops after `a == b`: a relational operator cannot follow an equality. */
  lemma EqualityLeavesRelational(a: nat, b: nat, c: nat)
    ensures Expr([Token.Num(a), Reserved("=="), Token.Num(b), Reserved("<"), Token.Num(c)])
         == Ok(Parsed(Eq(Node.Num(a), Node.Num(b)), [Reserved("<"), Token.Num(c)]))
  {
    var eq, lt := Reserved("=="), Reserved("<");
    var ts := [Token.Num(a), eq, Token.Num(b), lt, Token.Num(c)];
    assert OperatorOf(eq) == Some(Equal) && OperatorOf(lt) == Some(Less);
    assert MarkOf(eq).None? && MarkOf(lt).None?;
    EqualityThenRelational(a, eq, b, [lt, Token.Num(c)]);
    assert ts == [Token.Num(a), eq] + [Token.Num(b)] + [lt, Token.Num(c)];
    var node := Eq(Node.Num(a), Node.Num(b));
    assert Combine(eq, Node.Num(a), Node.Num(b)) == node;
    assert Chain(EqualityLevel, ts) == Ok(Parsed(node, [lt, Token.Num(c)]));
    assert Assignment(ts) == Ok(Parsed(node, [lt, Token.Num(c)]));
  }

  /** A statement with no terminator that opens no `if`, block or `def` is an expression over all its tokens. */
  lemma UnterminatedExpression(ts: seq<Token>)
    requires ts != [] && !OpensStatement(ts[0]) && NoStop(ts, StatementEnd)
    ensures Expr(ts).Ok? ==> StatementStep(ts) == Ok(After(Expr(ts).value, []))
  {
    UntilNone(ts, StatementEnd);
  }

  /**
   * What an expression statement leaves unread is dropped: `a == b < c` is the statement
   * `a == b` alone.
   */
  lemma LeftoverIsDropped(a: nat, b: nat, c: nat)
    ensures Statement([Token.Num(a), Reserved("=="), Token.Num(b), Reserved("<"), Token.Num(c)])
         == Ok(After(Stmts([Eq(Node.Num(a), Node.Num(b))], []), []))
  {
    var eq, lt := Reserved("=="), Reserved("<");
    var ts := [Token.Num(a), eq, Token.Num(b), lt, Token.Num(c)];
    var node := Eq(Node.Num(a), Node.Num(b));
    assert ts[0] == Token.Num(a) && !OpensStatement(ts[0]);
    assert !Stops(StatementEnd, eq) && !Stops(StatementEnd, lt);
    assert NoStop(ts, StatementEnd) by {
      assert forall i :: 0 <= i < |ts| ==> ts[i] in {Token.Num(a), eq, Token.Num(b), lt, Token.Num(c)};
    }
    EqualityLeavesRelational(a, b, c);
    UnterminatedExpression(ts);
    assert StatementStep(ts) == Ok(After(Parsed(node, [lt, Token.Num(c)]), []));
    var none: seq<Node> := [];
    assert none + [node] == [node] && [lt, Token.Num(c)] != [Eof];
    assert StatementLoop([], [node]) == Ok(After(Stmts([node], []), []));
  }

  // ----- blocks and if -----

  /**
   * A block is the statements before the first `}`, which need not be its partner: the
   * tokens after that `}` are what the caller goes on with.
   */
  lemma BlockSlices(b: seq<Token>, rest: seq<Token>)
    requires NoStop(b, At(RBrace))
    ensures var r := BlockStatement([Reserved("{")] + b + [Reserved("}")] + rest);
      && (r.Ok? <==> Statement(b).Ok?)
      && (r.Ok? ==> r.value == After(Parsed(Block(Statement(b).value.value.nodes), rest), rest))
  {
    var a := [Reserved("{")] + b + [Reserved("}")] + rest;
    assert Stops(At(RBrace), Reserved("}"));
    UntilFirst(b, Reserved("}"), rest, At(RBrace));
    assert a[1..] == b + [Reserved("}")] + rest;
  }

  /**
   * `if (c) t else e`: the condition is the expression before the first `)`, the
   * then-side the statements before the first `else`, and the else-side the statements of
   * all that follows, which also decide what the caller's array is left with.
   */
  lemma IfSlices(c: seq<Token>, th: seq<Token>, el: seq<Token>)
    requires NoStop(c, At(RParen)) && NoStop(th, At(ElseWord))
    ensures var r := IfStatement([Reserved("if"), Reserved("(")] + c + [Reserved(")")] + th + [Reserved("else")] + el);
      && (r.Ok? <==> Expr(c).Ok? && Statement(th).Ok? && Statement(el).Ok?)
      && (r.Ok? ==>
            var node := If(Expr(c).value.node, Arr(Statement(th).value.value.nodes), Arr(Statement(el).value.value.nodes));
            r.value == After(Parsed(node, Statement(el).value.value.rest), Statement(el).value.left))
  {
    var a := [Reserved("if"), Reserved("(")] + c + [Reserved(")")] + th + [Reserved("else")] + el;
    assert Stops(At(RParen), Reserved(")")) && Stops(At(ElseWord), Reserved("else"));
    assert a[1..][1..] == c + [Reserved(")")] + (th + [Reserved("else")] + el);
    UntilFirst(c, Reserved(")"), th + [Reserved("else")] + el, At(RParen));
    UntilFirst(th, Reserved("else"), el, At(ElseWord));
  }

  /**
   * Without an `else`, the then-side is every statement that follows, to the end of the
   * caller's array, and the else-side is empty.
   */
  lemma IfWithoutElse(c: seq<Token>, th: seq<Token>)
    requires NoStop(c, At(RParen)) && NoStop(th, At(ElseWord))
    ensures var r := IfStatement([Reserved("if"), Reserved("(")] + c + [Reserved(")")] + th);
      && (r.Ok? <==> Expr(c).Ok? && Statement(th).Ok?)
      && (r.Ok? ==> r.value == After(Parsed(If(Expr(c).value.node, Arr(Statement(th).value.value.nodes), Arr([])), []), []))
  {
    var a := [Reserved("if"), Reserved("(")] + c + [Reserved(")")] + th;
    assert Stops(At(RParen), Reserved(")"));
    assert a[1..][1..] == c + [Reserved(")")] + th;
    UntilFirst(c, Reserved(")"), th, At(RParen));
    UntilNone(th, At(ElseWord));
    assert Statement([]) == Ok(After(Stmts([], []), []));
  }

  // ----- definitions -----

  /** `n1 , n2 , ... , nk`: a parameter list of the names. */
  function Listed(names: seq<string>): (ts: seq<Token>)
    requires names != []
    ensures ts != [] && NoStop(ts, At(RParen))
  {
    if |names| == 1 then [Ident(names[0])]
    else [Ident(names[0]), Reserved(",")] + Listed(names[1..])
  }

  /** The parameter loop reads back exactly the names of such a list. */
  lemma {:induction false} ParamsListed(names: seq<string>, acc: seq<string>)
    requires names != []
    ensures Params(Listed(names), acc) == Ok(acc + names)
  {
    var ts := Listed(names);
    if |names| == 1 {
      assert ts[1..] == [];
      assert acc + [names[0]] == acc + names;
    } else {
      assert MarkOf(Reserved(",")) == Some(Comma);
      assert ts[1..][1..] == Listed(names[1..]);
      ParamsListed(names[1..], acc + [names[0]]);
      assert acc + [names[0]] + names[1..] == acc + names;
    }
  }

  /** `def f()` is rejected: a parameter list must hold a name. */
  lemma EmptyParamsRejected(name: string, rest: seq<Token>)
    ensures Definition([Reserved("def"), Ident(name), Reserved("("), Reserved(")")] + rest) == Err(BadParams)
  {
    var a := [Reserved("def"), Ident(name), Reserved("("), Reserved(")")] + rest;
    assert a[1..][1..] == [Reserved("(")] + [Reserved(")")] + rest;
    assert Stops(At(RParen), Reserved(")"));
    assert Until([Reserved(")")] + rest, At(RParen)) == Split([], rest);
  }

  /**
   * A definition shifts only `def` from the caller's array: the function's name is the
   * first thing left in it, so unless its body reported the end of input, `statement`
   * reads the name and the rest of the definition again as its next statement.
   */
  lemma DefinitionKeepsName(a: seq<Token>)
    requires Definition(a).Ok?
    ensures |a| >= 2 && a[1].Ident? && Definition(a).value.left == a[1..]
  {
  }

  /** After `def f(`, a definition reads the parameters up to `)` and then a block. */
  lemma DefinitionOpens(name: string, t: seq<Token>)
    ensures var a := [Reserved("def"), Ident(name), Reserved("(")] + t;
      var ps := Until(t, At(RParen));
      && (Params(ps.prefix, []).Err? ==> Definition(a) == Err(Params(ps.prefix, []).error))
      && (Params(ps.prefix, []).Ok? && BlockStatement(ps.left).Err? ==> Definition(a) == Err(BlockStatement(ps.left).error))
      && (Params(ps.prefix, []).Ok? && BlockStatement(ps.left).Ok? ==>
            var b := BlockStatement(ps.left).value;
            Definition(a) == Ok(After(Parsed(Fdef(name, Params(ps.prefix, []).value, b.value.node), b.value.rest), a[1..])))
  {
    var a := [Reserved("def"), Ident(name), Reserved("(")] + t;
    var a1 := [Ident(name), Reserved("(")] + t;
    assert a[0] == Reserved("def") && a[1..] == a1;
    assert MarkOf(Reserved("def")) == Some(DefWord) && MarkOf(Reserved("(")) == Some(LParen);
    assert a1[0] == Ident(name) && a1[1..][0] == Reserved("(") && a1[1..][1..] == t;
  }

  /** After `def f(params)`, a definition is whatever `block` makes of the tokens that follow. */
  lemma DefinitionHead(name: string, names: seq<string>, blockPart: seq<Token>)
    requires names != []
    ensures var a := [Reserved("def"), Ident(name), Reserved("(")] + Listed(names) + [Reserved(")")] + blockPart;
      && (BlockStatement(blockPart).Err? ==> Definition(a) == Err(BlockStatement(blockPart).error))
      && (BlockStatement(blockPart).Ok? ==>
            var b := BlockStatement(blockPart).value;
            Definition(a) == Ok(After(Parsed(Fdef(name, names, b.value.node), b.value.rest), a[1..])))
  {
    var t := Listed(names) + [Reserved(")")] + blockPart;
    assert [Reserved("def"), Ident(name), Reserved("(")] + Listed(names) + [Reserved(")")] + blockPart
        == [Reserved("def"), Ident(name), Reserved("(")] + t;
    DefinitionOpens(name, t);
    assert Stops(At(RParen), Reserved(")"));
    UntilFirst(Listed(names), Reserved(")"), blockPart, At(RParen));
    ParamsListed(names, []);
    assert [] + names == names;
  }

  /**
   * `def f(params) { body } rest` defines `f` with those parameters and the block of the
   * body's statements, and hands back `rest`, while the caller's array keeps all but `def`.
   */
  lemma DefinitionSlices(name: string, names: seq<string>, body: seq<Token>, rest: seq<Token>)
    requires names != [] && NoStop(body, At(RBrace))
    ensures var a := [Reserved("def"), Ident(name), Reserved("(")] + Listed(names) + [Reserved(")")]
                     + ([Reserved("{")] + body + [Reserved("}")] + rest);
      && (Definition(a).Ok? <==> Statement(body).Ok?)
      && (Definition(a).Ok? ==>
            Definition(a).value == After(Parsed(Fdef(name, names, Block(Statement(body).value.value.nodes)), rest), a[1..]))
  {
    DefinitionHead(name, names, [Reserved("{")] + body + [Reserved("}")] + rest);
    BlockSlices(body, rest);
  }

  // ----- run -----

  /**
   * `run` returns the one statement list `statement` reads from the whole input, wrapped
   * in a one-element list, and fails exactly when `statement` does: since `statement`
   * only ever reports an empty array or the end-of-input token as left, `program`'s loop
   * and `run`'s complaint about leftover tokens are never reached.
   */
  lemma RunIsStatement(ts: seq<Token>)
    ensures Run(ts).Ok? <==> Statement(ts).Ok?
    ensures Statement(ts).Ok? ==> Run(ts).value == [Arr(Statement(ts).value.value.nodes)]
    ensures Statement(ts).Err? ==> Run(ts) == Err(Statement(ts).error)
  {
    if Statement(ts).Ok? {
      var s := Statement(ts).value.value;
      if s.rest != [] {
        assert s.rest == [Eof];
        assert ProgramLoop([Eof], [Arr(s.nodes)]) == Ok(Some(ProgramResult([Arr(s.nodes)], [Eof])));
      }
    }
  }
}
