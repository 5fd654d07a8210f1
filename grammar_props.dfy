/**
 * What the statement parser of lib/9cc/node/parser.rb promises, proved about the
 * functions of `Grammar`: how `tokens_until` cuts the array, how calls, operators,
 * assignments, `return`, `if`, blocks and definitions are read, and what `run` returns.
 */
module GrammarProps {
  import opened Outcomes
  import opened Tokens
  import opened Ast
  import opened Precedence
  import opened Grammar

  // ----- marks and `tokens_until` -----

  /** A mark is exactly the reserved token that spells it. */
  lemma MarkSpells(t: Token, m: Mark)
    ensures MarkOf(t) == Some(m) <==> t == Reserved(Spelling(m))
  {
  }

  predicate NoStop(ts: seq<Token>, s: Stop)
  {
    forall i :: 0 <= i < |ts| ==> !Stops(s, ts[i])
  }

  /** The tokens `tokens_until` returns hold no stop. */
  lemma {:induction false} UntilPrefixClean(ts: seq<Token>, s: Stop)
    ensures NoStop(Until(ts, s).prefix, s)
  {
    if ts != [] && !Stops(s, ts[0]) {
      UntilPrefixClean(ts[1..], s);
      var q := Until(ts[1..], s);
      var r := Until(ts, s);
      assert r.prefix == [ts[0]] + q.prefix;
      forall i | 0 <= i < |r.prefix|
        ensures !Stops(s, r.prefix[i])
      {
        if i > 0 {
          assert r.prefix[i] == q.prefix[i - 1];
        }
      }
    }
  }

  /** When `tokens_until` meets a stop, the array was the prefix, that stop and what it leaves. */
  lemma {:induction false} UntilCut(ts: seq<Token>, s: Stop)
    ensures |Until(ts, s).prefix| < |ts| ==>
      var k := |Until(ts, s).prefix|;
      Stops(s, ts[k]) && ts == Until(ts, s).prefix + [ts[k]] + Until(ts, s).left
  {
    if ts != [] && !Stops(s, ts[0]) {
      var tail := ts[1..];
      UntilCut(tail, s);
      var q := Until(tail, s);
      assert Until(ts, s) == Split([ts[0]] + q.prefix, q.left);
      if |q.prefix| < |tail| {
        var stop := tail[|q.prefix|];
        assert stop == ts[|q.prefix| + 1];
        Regroup(ts[0], q.prefix, stop, q.left);
        assert ts == [ts[0]] + tail;
      }
    } else if ts != [] {
      assert ts == [] + [ts[0]] + ts[1..];
    }
  }

  lemma Regroup(a: Token, p: seq<Token>, b: Token, l: seq<Token>)
    ensures [a] + (p + [b] + l) == ([a] + p) + [b] + l
  {
  }

  /** When `tokens_until` meets no stop, it takes the whole array and leaves it empty. */
  lemma {:induction false} UntilWhole(ts: seq<Token>, s: Stop)
    ensures |Until(ts, s).prefix| == |ts| ==> Until(ts, s) == Split(ts, [])
  {
    if ts != [] && !Stops(s, ts[0]) {
      UntilWhole(ts[1..], s);
      assert ts == [ts[0]] + ts[1..];
    }
  }

  /**
   * `tokens_until` returns the tokens before the first stop, which hold no stop, and
   * leaves what follows that stop; with no stop, it takes everything and leaves nothing.
   */
  lemma UntilSplits(ts: seq<Token>, s: Stop)
    ensures NoStop(Until(ts, s).prefix, s)
    ensures |Until(ts, s).prefix| < |ts| ==>
      var k := |Until(ts, s).prefix|;
      Stops(s, ts[k]) && ts == Until(ts, s).prefix + [ts[k]] + Until(ts, s).left
    ensures |Until(ts, s).prefix| == |ts| ==> Until(ts, s) == Split(ts, [])
  {
    UntilPrefixClean(ts, s);
    UntilCut(ts, s);
    UntilWhole(ts, s);
  }

  /** Conversely, the tokens before a stop that hold none are what `tokens_until` returns. */
  lemma {:induction false} UntilFirst(p: seq<Token>, stop: Token, rest: seq<Token>, s: Stop)
    requires NoStop(p, s) && Stops(s, stop)
    ensures Until(p + [stop] + rest, s) == Split(p, rest)
  {
    if p == [] {
      assert p + [stop] + rest == [stop] + rest;
    } else {
      assert (p + [stop] + rest)[1..] == p[1..] + [stop] + rest;
      assert !Stops(s, p[0]);
      UntilFirst(p[1..], stop, rest, s);
      assert [p[0]] + p[1..] == p;
    }
  }

  /** Without any stop, `tokens_until` takes the whole array. */
  lemma {:induction false} UntilNone(p: seq<Token>, s: Stop)
    requires NoStop(p, s)
    ensures Until(p, s) == Split(p, [])
  {
    if p != [] {
      assert !Stops(s, p[0]);
      UntilNone(p[1..], s);
      assert [p[0]] + p[1..] == p;
    }
  }

  // ----- calls and variables -----

  /** The arguments carry their positions 0, 1, 2, ... */
  predicate Tagged(args: seq<Node>)
  {
    forall i :: 0 <= i < |args| ==> args[i].Farg? && args[i].index == i
  }

  /** The argument loop extends the tagged arguments read so far with further tagged ones. */
  lemma {:induction false} CallArgsTagged(name: string, ts: seq<Token>, args: seq<Node>)
    requires Tagged(args) && CallArgs(name, ts, args).Ok?
    ensures var n := CallArgs(name, ts, args).value.node;
      n.Fcall? && n.callee == name && args < n.args && Tagged(n.args)
    decreases |ts|
  {
    var p := Unary(ts).value;
    var all := args + [Farg(p.node, |args|)];
    forall i | 0 <= i < |all|
      ensures all[i].Farg? && all[i].index == i
    {
      if i < |args| {
        assert all[i] == args[i];
      }
    }
    if p.rest != [] && MarkOf(p.rest[0]) == Some(Comma) {
      CallArgsTagged(name, p.rest[1..], all);
    }
  }

  /** A name followed by `(` calls it, with arguments tagged 0, 1, 2, ... in source order. */
  lemma CallIsTagged(name: string, t: seq<Token>)
    requires t != [] && MarkOf(t[0]) == Some(LParen)
    requires Primary([Ident(name)] + t).Ok?
    ensures var n := Primary([Ident(name)] + t).value.node;
      n.Fcall? && n.callee == name && Tagged(n.args)
  {
    assert ([Ident(name)] + t)[1..] == t;
    if !(|t| >= 2 && MarkOf(t[1]) == Some(RParen)) {
      CallArgsTagged(name, t[1..], []);
    }
  }

  /** `f()` calls `f` with no arguments. */
  lemma EmptyCall(name: string, rest: seq<Token>)
    ensures Primary([Ident(name), Reserved("("), Reserved(")")] + rest) == Ok(Parsed(Fcall(name, []), rest))
  {
    var ts := [Ident(name), Reserved("("), Reserved(")")] + rest;
    assert ts[1..][2..] == rest;
  }

  /** A name not followed by `(` is a variable, and nothing after it is read. */
  lemma NameIsVariable(name: string, rest: seq<Token>)
    requires rest == [] || MarkOf(rest[0]) != Some(LParen)
    ensures Primary([Ident(name)] + rest) == Ok(Parsed(Lvar(name), rest))
  {
    assert ([Ident(name)] + rest)[1..] == rest;
  }

  /** `f(1, 2)` passes 1 as argument 0 and 2 as argument 1. */
  lemma TwoArguments(name: string, a: nat, b: nat)
    ensures Primary([Ident(name), Reserved("("), Token.Num(a), Reserved(","), Token.Num(b), Reserved(")")])
         == Ok(Parsed(Fcall(name, [Farg(Node.Num(a), 0), Farg(Node.Num(b), 1)]), []))
  {
    var ts := [Ident(name), Reserved("("), Token.Num(a), Reserved(","), Token.Num(b), Reserved(")")];
    var inner := [Token.Num(a), Reserved(","), Token.Num(b), Reserved(")")];
    assert MarkOf(Reserved("(")) == Some(LParen);
    assert ts[1..][1..] == inner && ts[1..][0] == Reserved("(") && ts[1..][1] == Token.Num(a);
    assert Primary(ts) == CallArgs(name, inner, []);
    var none: seq<Node> := [];
    ArgumentThenComma(name, a, [Token.Num(b), Reserved(")")], none);
    assert [Token.Num(a), Reserved(",")] + [Token.Num(b), Reserved(")")] == inner;
    assert none + [Farg(Node.Num(a), |none|)] == [Farg(Node.Num(a), 0)];
    LastArgument(name, b, [Farg(Node.Num(a), 0)]);
    assert [Farg(Node.Num(a), 0)] + [Farg(Node.Num(b), |[Farg(Node.Num(a), 0)]|)]
        == [Farg(Node.Num(a), 0), Farg(Node.Num(b), 1)];
  }

  /** A number followed by `,` becomes the next argument, and the loop goes on after the `,`. */
  lemma ArgumentThenComma(name: string, v: nat, rest: seq<Token>, args: seq<Node>)
    ensures CallArgs(name, [Token.Num(v), Reserved(",")] + rest, args)
         == CallArgs(name, rest, args + [Farg(Node.Num(v), |args|)])
  {
    var ts := [Token.Num(v), Reserved(",")] + rest;
    assert ts[0] == Token.Num(v) && ts[1..] == [Reserved(",")] + rest;
    assert Unary(ts) == Ok(Parsed(Node.Num(v), [Reserved(",")] + rest));
    assert MarkOf(Reserved(",")) == Some(Comma);
    assert ([Reserved(",")] + rest)[1..] == rest;
  }

  /** A number followed by the closing `)` is the last argument. */
  lemma LastArgument(name: string, v: nat, args: seq<Node>)
    ensures CallArgs(name, [Token.Num(v), Reserved(")")], args)
         == Ok(Parsed(Fcall(name, args + [Farg(Node.Num(v), |args|)]), []))
  {
    var ts := [Token.Num(v), Reserved(")")];
    assert Unary(ts) == Ok(Parsed(Node.Num(v), [Reserved(")")]));
    assert MarkOf(Reserved(")")) == Some(RParen) && MarkOf(Reserved(")")) != Some(Comma);
    assert [Reserved(")")][1..] == [];
  }

  /**
   * An argument followed by neither `,` nor `)`: `f(1 2)` is a missing `)`, but `f(-1 2)`
   * is invalid input, because the error message reads `primary` again from the `-`.
   */
  lemma UnclosedArgument(name: string, a: nat, b: nat)
    ensures Primary([Ident(name), Reserved("("), Token.Num(a), Token.Num(b), Reserved(")")]) == Err(MissingClose)
    ensures Primary([Ident(name), Reserved("("), Reserved("-"), Token.Num(a), Token.Num(b), Reserved(")")])
         == Err(InvalidInput)
  {
    UnclosedPlain(name, a, b);
    UnclosedSigned(name, a, b);
  }

  /** `f(a b)`: the argument `a` is read, and `b` is neither `,` nor `)`. */
  lemma UnclosedPlain(name: string, a: nat, b: nat)
    ensures Primary([Ident(name), Reserved("("), Token.Num(a), Token.Num(b), Reserved(")")]) == Err(MissingClose)
  {
    var plain := [Token.Num(a), Token.Num(b), Reserved(")")];
    assert MarkOf(Reserved("(")) == Some(LParen) && MarkOf(Token.Num(a)) == None;
    assert ([Ident(name), Reserved("(")] + plain)[1..][1..] == plain;
    assert [Ident(name), Reserved("(")] + plain == [Ident(name), Reserved("("), Token.Num(a), Token.Num(b), Reserved(")")];
    assert Primary([Ident(name), Reserved("(")] + plain) == CallArgs(name, plain, []);
    assert Unary(plain) == Ok(Parsed(Node.Num(a), plain[1..]));
    assert MarkOf(Token.Num(b)) == None && !Signed(plain);
  }

  /** `f(-a b)`: the argument `-a` is read, and re-reading `primary` at `-` fails. */
  lemma UnclosedSigned(name: string, a: nat, b: nat)
    ensures Primary([Ident(name), Reserved("("), Reserved("-"), Token.Num(a), Token.Num(b), Reserved(")")])
         == Err(InvalidInput)
  {
    var plain := [Token.Num(a), Token.Num(b), Reserved(")")];
    var signed := [Reserved("-")] + plain;
    assert MarkOf(Reserved("(")) == Some(LParen) && MarkOf(Reserved("-")) != Some(RParen);
    assert ([Ident(name), Reserved("(")] + signed)[1..][1..] == signed;
    assert [Ident(name), Reserved("(")] + signed == [Ident(name), Reserved("("), Reserved("-"), Token.Num(a), Token.Num(b), Reserved(")")];
    assert Primary([Ident(name), Reserved("(")] + signed) == CallArgs(name, signed, []);
    assert OperatorOf(Reserved("-")) == Some(Minus) && signed[1..] == plain;
    assert Unary(signed) == Ok(Parsed(Sub(Node.Num(0), Node.Num(a)), plain[1..]));
    assert MarkOf(Token.Num(b)) == None && Signed(signed);
  }

  // ----- signs and binary operators -----

  /** `+p` is `p` itself and `-p` is `0 - p`, with the tokens `primary` leaves. */
  lemma UnarySigns(ts: seq<Token>)
    ensures Unary([Reserved("+")] + ts) == Primary(ts)
    ensures Unary([Reserved("-")] + ts).Ok? <==> Primary(ts).Ok?
    ensures Primary(ts).Ok? ==>
      Unary([Reserved("-")] + ts).value == Parsed(Sub(Node.Num(0), Primary(ts).value.node), Primary(ts).value.rest)
  {
    assert ([Reserved("+")] + ts)[1..] == ts;
    assert ([Reserved("-")] + ts)[1..] == ts;
  }

  /**
   * `n` is `left`, or a node of the level that folds in (as its left operand, or as its
   * right one for the swapped `>` and `>=`) a node that is in turn built on `left`.
   */
  predicate FoldsFrom(level: Level, n: Node, left: Node)
    decreases n
  {
    n == left
    || (Builds(level, n) && IsBinary(n)
        && (FoldsFrom(level, n.lhs, left) || ((n.Lt? || n.Lte?) && FoldsFrom(level, n.rhs, left))))
  }

  /**
   * A level's loop folds left: each operator builds a node of the level on the result so
   * far, so the final node is built on the first operand. When no operator follows, the
   * operand comes back with the tokens untouched.
   */
  lemma {:induction false} ChainRestFolds(level: Level, first: Node, left: Node, ts: seq<Token>)
    requires FoldsFrom(level, left, first)
    requires ChainRest(level, left, ts).Ok?
    ensures FoldsFrom(level, ChainRest(level, left, ts).value.node, first)
    ensures ts != [] && IsOperator(level, ts[0]) ==> Builds(level, ChainRest(level, left, ts).value.node)
    ensures !(ts != [] && IsOperator(level, ts[0])) ==> ChainRest(level, left, ts) == Ok(Parsed(left, ts))
    decreases |ts|
  {
    if ts != [] && IsOperator(level, ts[0]) {
      var p := RightOperand(level, ts[1..]).value;
      var node := Combine(ts[0], left, p.node);
      BuildOperands(OperatorOf(ts[0]).value, left, p.node);
      assert Builds(level, node) && Extends(left, node);
      assert FoldsFrom(level, node, first);
      ChainRestFolds(level, first, node, p.rest);
    }
  }

  /** The production of a level is built on its first operand. */
  lemma ChainFolds(level: Level, ts: seq<Token>)
    requires Chain(level, ts).Ok?
    ensures FirstOperand(level, ts).Ok?
    ensures FoldsFrom(level, Chain(level, ts).value.node, FirstOperand(level, ts).value.node)
  {
    var p := FirstOperand(level, ts).value;
    ChainRestFolds(level, p.node, p.node, p.rest);
  }

  /** `rest` starts with nothing a level up to `level` folds. */
  predicate EndsAt(level: Level, rest: seq<Token>)
  {
    rest == [] || OperatorOf(rest[0]).None? || Rank(LevelOf(OperatorOf(rest[0]).value)) > Rank(level)
  }

  /** A number that nothing of the level or below follows is that number, at that level. */
  lemma {:induction false} NumberAt(level: Level, v: nat, rest: seq<Token>)
    requires EndsAt(level, rest)
    ensures Chain(level, [Token.Num(v)] + rest) == Ok(Parsed(Node.Num(v), rest))
    decreases Rank(level)
  {
    var ts := [Token.Num(v)] + rest;
    assert ts[1..] == rest;
    if level == MulLevel {
      assert Unary(ts) == Primary(ts) == Ok(Parsed(Node.Num(v), rest));
    } else {
      NumberAt(Below(level), v, rest);
    }
    assert FirstOperand(level, ts) == Ok(Parsed(Node.Num(v), rest));
    assert !(rest != [] && IsOperator(level, rest[0]));
  }

  /** The same for a variable that no `(` follows. */
  lemma {:induction false} NameAt(level: Level, name: string, rest: seq<Token>)
    requires EndsAt(level, rest) && (rest == [] || MarkOf(rest[0]) != Some(LParen))
    ensures Chain(level, [Ident(name)] + rest) == Ok(Parsed(Lvar(name), rest))
    decreases Rank(level)
  {
    var ts := [Ident(name)] + rest;
    assert ts[1..] == rest;
    if level == MulLevel {
      NameIsVariable(name, rest);
      assert Unary(ts) == Primary(ts);
    } else {
      NameAt(Below(level), name, rest);
    }
    assert FirstOperand(level, ts) == Ok(Parsed(Lvar(name), rest));
    assert !(rest != [] && IsOperator(level, rest[0]));
  }

  /** `a - b - c` is `(a - b) - c`. */
  lemma SubtractionFoldsLeft(a: nat, b: nat, c: nat)
    ensures Chain(AddLevel, [Token.Num(a), Reserved("-"), Token.Num(b), Reserved("-"), Token.Num(c)])
         == Ok(Parsed(Sub(Sub(Node.Num(a), Node.Num(b)), Node.Num(c)), []))
  {
    var minus := Reserved("-");
    assert OperatorOf(minus) == Some(Minus);
    NumberAt(MulLevel, a, [minus, Token.Num(b), minus, Token.Num(c)]);
    NumberAt(MulLevel, b, [minus, Token.Num(c)]);
    NumberAt(MulLevel, c, []);
    assert [Token.Num(a), minus, Token.Num(b), minus, Token.Num(c)] == [Token.Num(a)] + [minus, Token.Num(b), minus, Token.Num(c)];
    assert [minus, Token.Num(b), minus, Token.Num(c)][1..] == [Token.Num(b)] + [minus, Token.Num(c)];
    assert [minus, Token.Num(c)][1..] == [Token.Num(c)] + [];
    var ab := Sub(Node.Num(a), Node.Num(b));
    assert IsOperator(AddLevel, minus) && Combine(minus, Node.Num(a), Node.Num(b)) == ab;
    assert Combine(minus, ab, Node.Num(c)) == Sub(ab, Node.Num(c));
    assert ChainRest(AddLevel, Sub(ab, Node.Num(c)), []) == Ok(Parsed(Sub(ab, Node.Num(c)), []));
    assert ChainRest(AddLevel, ab, [minus, Token.Num(c)]) == Ok(Parsed(Sub(ab, Node.Num(c)), []));
    assert ChainRest(AddLevel, Node.Num(a), [minus, Token.Num(b), minus, Token.Num(c)]) == Ok(Parsed(Sub(ab, Node.Num(c)), []));
  }

  /**
   * The operand after `==` or `!=` is read by `add`: a comparison after it ends the
   * equality, and is left over.
   */
  lemma EqualityThenRelational(a: nat, op: Token, b: nat, rest: seq<Token>)
    requires IsOperator(EqualityLevel, op)
    requires rest != [] && IsOperator(RelationalLevel, rest[0])
    ensures Chain(EqualityLevel, [Token.Num(a), op] + [Token.Num(b)] + rest)
         == Ok(Parsed(Combine(op, Node.Num(a), Node.Num(b)), rest))
  {
    var ts := [Token.Num(a), op] + [Token.Num(b)] + rest;
    NumberAt(RelationalLevel, a, [op] + [Token.Num(b)] + rest);
    assert ts == [Token.Num(a)] + ([op] + [Token.Num(b)] + rest);
    assert ([op] + [Token.Num(b)] + rest)[1..] == [Token.Num(b)] + rest;
    assert ([Token.Num(b)] + rest)[1..] == rest;
    NumberAt(AddLevel, b, rest);
    var node := Combine(op, Node.Num(a), Node.Num(b));
    assert RightOperand(EqualityLevel, [Token.Num(b)] + rest) == Ok(Parsed(Node.Num(b), rest));
    BuildOperands(OperatorOf(op).value, Node.Num(a), Node.Num(b));
    assert !IsOperator(EqualityLevel, rest[0]);
    assert ChainRest(EqualityLevel, node, rest) == Ok(Parsed(node, rest));
    assert ChainRest(EqualityLevel, Node.Num(a), [op] + [Token.Num(b)] + rest) == Ok(Parsed(node, rest));
  }

  // ----- assignment -----

  /**
   * When `=` follows the `equality` part, the result is an assignment to it, which must
   * be a variable: any other left side makes `assign` raise.
   */
  lemma AssignTarget(ts: seq<Token>)
    requires Chain(EqualityLevel, ts).Ok?
    requires var p := Chain(EqualityLevel, ts).value; p.rest != [] && MarkOf(p.rest[0]) == Some(Equals)
    ensures var p := Chain(EqualityLevel, ts).value;
      Assignment(ts).Ok? ==>
        p.node.Lvar? && Assignment(ts).value.node.Assign? && Assignment(ts).value.node.lvar == p.node
    ensures !Chain(EqualityLevel, ts).value.node.Lvar? ==> Assignment(ts).Err?
  {
  }

  /** `a = b = 1` is `a = (b = 1)`. */
  lemma AssignmentIsRightAssociative(a: string, b: string, v: nat)
    ensures Assignment([Ident(a), Reserved("="), Ident(b), Reserved("="), Token.Num(v)])
         == Ok(Parsed(Node.Assign(Lvar(a), Node.Assign(Lvar(b), Node.Num(v))), []))
  {
    var eq := Reserved("=");
    assert MarkOf(eq) == Some(Equals) && OperatorOf(eq).None?;
    NameAt(EqualityLevel, a, [eq, Ident(b), eq, Token.Num(v)]);
    NameAt(EqualityLevel, b, [eq, Token.Num(v)]);
    NumberAt(EqualityLevel, v, []);
    assert [Ident(a), eq, Ident(b), eq, Token.Num(v)] == [Ident(a)] + [eq, Ident(b), eq, Token.Num(v)];
    assert [eq, Ident(b), eq, Token.Num(v)][1..] == [Ident(b)] + [eq, Token.Num(v)];
    assert [eq, Token.Num(v)][1..] == [Token.Num(v)] + [];
    assert Assignment([Token.Num(v)]) == Ok(Parsed(Node.Num(v), []));
    assert Assignment([Ident(b), eq, Token.Num(v)]) == Ok(Parsed(Node.Assign(Lvar(b), Node.Num(v)), []));
  }

  /** `1 = 2` raises: the left of `=` is not a variable. */
  lemma NumberIsNotAssignable(a: nat, b: nat)
    ensures Assignment([Token.Num(a), Reserved("="), Token.Num(b)]) == Err(NotAnLvar)
  {
    var eq := Reserved("=");
    assert MarkOf(eq) == Some(Equals) && OperatorOf(eq).None?;
    NumberAt(EqualityLevel, a, [eq, Token.Num(b)]);
    NumberAt(EqualityLevel, b, []);
    assert [Token.Num(a), eq, Token.Num(b)] == [Token.Num(a)] + [eq, Token.Num(b)];
    assert [eq, Token.Num(b)][1..] == [Token.Num(b)] + [];
  }
}
