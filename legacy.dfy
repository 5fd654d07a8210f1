/**
 * The expression parser of lib/9cc/node.rb (lines 17-193), the first of the two
 * `Node::Parser` classes.
 *
 * Every production takes a token list and returns the node it built with the tokens
 * left after it, or raises. The four binary levels (`mul`, `add`, `relational`,
 * `equality`) share one shape: an operand, then a loop that folds each further
 * `op operand` onto the left AND records every node it builds in a list. A level
 * returns that list as an array node, or a one-element array holding the operand
 * when no operator followed. `equality` alone returns early when only the
 * end-of-input token is left, handing back the first element of its left operand.
 *
 * The functions are the grammar; `ParseChain` is the `while true` loop the four Ruby
 * methods run, proved to compute what `Chain` says.
 */
module Legacy {
  import opened Outcomes
  import opened Tokens
  import opened Ast
  import opened Precedence

  datatype ParseError =
    | InvalidInput     // `primary` finds neither a number nor `(`
    | MissingClose     // `( expr` is not followed by `)`
    | TrailingTokens   // `run`: what is left is not just the end-of-input token

  /** Ruby's `Array(x).first`: the first element of an array, or a node itself. */
  function First(x: Node): Node
    requires x.Arr? ==> x.items != []
  {
    if x.Arr? then x.items[0] else x
  }

  /** `primary = num | "(" expr ")"`. */
  function Primary(ts: seq<Token>): (r: Result<Parsed, ParseError>)
    ensures r.Ok? ==> Suffix(r.value.rest, ts) && |r.value.rest| < |ts| && Arith(r.value.node)
    decreases |ts|, 0
  {
    if ts == [] then Err(InvalidInput)
    else if ts[0].Num? then Ok(Parsed(Node.Num(ts[0].value), ts[1..]))
    else if ts[0] == Reserved("(") then
      match Expr(ts[1..])
      case Err(e) => Err(e)
      case Ok(p) =>
        if p.rest != [] && p.rest[0] == Reserved(")") then
          SuffixTrans(p.rest[1..], p.rest, ts[1..]);
          SuffixTrans(p.rest[1..], ts[1..], ts);
          Ok(Parsed(p.node, p.rest[1..]))
        else Err(MissingClose)
    else Err(InvalidInput)
  }

  /** Whether what `expr` left inside parentheses starts with the closing `)`. */
  predicate Closes(rest: seq<Token>)
  {
    rest != [] && rest[0] == Reserved(")")
  }

  /**
   * A primary is accepted exactly when it starts with a number, or with `(` followed by an
   * expression and `)`. A number is read alone; a parenthesised expression yields the
   * expression's node and what follows the `)`. Any other first token, or none, is invalid
   * input; a missing `)` is reported as such; an error inside the parentheses is passed on.
   */
  lemma PrimaryOutcome(ts: seq<Token>)
    ensures Primary(ts).Ok? <==>
      ts != [] && (ts[0].Num? || (ts[0] == Reserved("(") && Expr(ts[1..]).Ok? && Closes(Expr(ts[1..]).value.rest)))
    ensures ts != [] && ts[0].Num? ==> Primary(ts) == Ok(Parsed(Node.Num(ts[0].value), ts[1..]))
    ensures ts != [] && ts[0] == Reserved("(") && Primary(ts).Ok? ==>
      Primary(ts).value == Parsed(Expr(ts[1..]).value.node, Expr(ts[1..]).value.rest[1..])
    ensures ts == [] || (!ts[0].Num? && ts[0] != Reserved("(")) ==> Primary(ts) == Err(InvalidInput)
    ensures ts != [] && ts[0] == Reserved("(") && Expr(ts[1..]).Ok? && !Closes(Expr(ts[1..]).value.rest) ==>
      Primary(ts) == Err(MissingClose)
    ensures ts != [] && ts[0] == Reserved("(") && Expr(ts[1..]).Err? ==> Primary(ts) == Err(Expr(ts[1..]).error)
  {
  }

  /** `unary = ("+" | "-")? primary`; `-p` is `0 - p`. */
  function Unary(ts: seq<Token>): (r: Result<Parsed, ParseError>)
    ensures r.Ok? ==> Suffix(r.value.rest, ts) && |r.value.rest| < |ts| && Arith(r.value.node)
    decreases |ts|, 1
  {
    if ts != [] && ts[0] == Reserved("+") then
      match Primary(ts[1..])
      case Err(e) => Err(e)
      case Ok(p) => SuffixTrans(p.rest, ts[1..], ts); Ok(p)
    else if ts != [] && ts[0] == Reserved("-") then
      match Primary(ts[1..])
      case Err(e) => Err(e)
      case Ok(p) => SuffixTrans(p.rest, ts[1..], ts); Ok(Parsed(Sub(Node.Num(0), p.node), p.rest))
    else Primary(ts)
  }

  /** A level's first operand: `unary` for `mul`, the level below for the others. */
  function FirstOperand(level: Level, ts: seq<Token>): (r: Result<Parsed, ParseError>)
    ensures r.Ok? ==> Suffix(r.value.rest, ts) && |r.value.rest| < |ts| && Arith(r.value.node)
    ensures r.Ok? && level != MulLevel ==> r.value.node.Arr? && r.value.node.items != []
    decreases |ts|, 3 * Rank(level) + 4
  {
    if level == MulLevel then Unary(ts) else Chain(Below(level), ts)
  }

  /** The operand after an operator of the level. */
  function RightOperand(level: Level, ts: seq<Token>): (r: Result<Parsed, ParseError>)
    ensures r.Ok? ==> Suffix(r.value.rest, ts) && |r.value.rest| < |ts| && Arith(r.value.node)
    decreases |ts|, 3 * Rank(level) + 4
  {
    if level == MulLevel then Unary(ts) else Chain(RightLevel(level), ts)
  }

  /**
   * A level's production, `operand (op operand)*`: for `mul`, `add` and
   * `relational` always an array of the nodes built (or of the lone operand).
   */
  function Chain(level: Level, ts: seq<Token>): (r: Result<Parsed, ParseError>)
    ensures r.Ok? ==> Suffix(r.value.rest, ts) && |r.value.rest| < |ts| && Arith(r.value.node)
    ensures r.Ok? && level != EqualityLevel ==> r.value.node.Arr? && r.value.node.items != []
    decreases |ts|, 3 * Rank(level) + 5
  {
    match FirstOperand(level, ts)
    case Err(e) => Err(e)
    case Ok(p) => var r := ChainRest(level, p.node, [], p.rest); SuffixTrans(if r.Ok? then r.value.rest else [], p.rest, ts); r
  }

  /** The loop of a level, with `left` the node so far and `nodes` the nodes built so far. */
  function ChainRest(level: Level, left: Node, nodes: seq<Node>, ts: seq<Token>): (r: Result<Parsed, ParseError>)
    requires level == EqualityLevel && left.Arr? ==> left.items != []
    requires Arith(left) && Arith(Arr(nodes))
    ensures r.Ok? ==> Suffix(r.value.rest, ts) && Arith(r.value.node)
    ensures r.Ok? && level != EqualityLevel ==> r.value.node.Arr? && r.value.node.items != []
    decreases |ts|, 3 * Rank(level) + 4
  {
    if ts != [] && IsOperator(level, ts[0]) then
      match RightOperand(level, ts[1..])
      case Err(e) => Err(e)
      case Ok(p) =>
        var node := Combine(ts[0], left, p.node);
        ArithCombine(ts[0], left, p.node, nodes);
        SuffixTrans(p.rest, ts[1..], ts);
        var r := ChainRest(level, node, nodes + [node], p.rest);
        if r.Err? then r else SuffixTrans(r.value.rest, p.rest, ts); r
    else if level == EqualityLevel && ts == [Eof] then
      Ok(Parsed(First(left), [Eof]))
    else
      Ok(Parsed(Arr(if nodes == [] then [left] else nodes), ts))
  }

  /** A node an operator builds from two arithmetic operands is arithmetic, and so is the list it joins. */
  lemma ArithCombine(op: Token, left: Node, right: Node, nodes: seq<Node>)
    requires OperatorOf(op).Some?
    requires Arith(left) && Arith(right) && Arith(Arr(nodes))
    ensures IsBinary(Combine(op, left, right))
    ensures Arith(Combine(op, left, right)) && Arith(Arr(nodes + [Combine(op, left, right)]))
  {
    var n := Combine(op, left, right);
    BuildOperands(OperatorOf(op).value, left, right);
    assert Arith(n);
    ArithAppend(nodes, n);
  }

  /** `expr = equality`. */
  function Expr(ts: seq<Token>): (r: Result<Parsed, ParseError>)
    ensures r.Ok? ==> Suffix(r.value.rest, ts) && |r.value.rest| < |ts| && Arith(r.value.node)
    decreases |ts|, 15
  {
    Chain(EqualityLevel, ts)
  }

  /** `Parser#run`: the expression, provided only the end-of-input token is left. */
  function Run(ts: seq<Token>): (r: Result<Node, ParseError>)
    ensures r.Ok? ==> Expr(ts).Ok? && Expr(ts).value.rest == [Eof] && r.value == Expr(ts).value.node
    ensures r.Ok? ==> |ts| >= 2 && ts[|ts| - 1] == Eof && Arith(r.value)
    ensures r.Err? && Expr(ts).Err? ==> r.error == Expr(ts).error
    ensures r.Err? && Expr(ts).Ok? ==> Expr(ts).value.rest != [Eof] && r.error == TrailingTokens
  {
    match Expr(ts)
    case Err(e) => Err(e)
    case Ok(p) => if p.rest == [Eof] then Ok(p.node) else Err(TrailingTokens)
  }

  /** The `while true` loop shared by `mul`, `add`, `relational` and `equality`. */
  method ParseChain(level: Level, ts: seq<Token>) returns (r: Result<Parsed, ParseError>)
    ensures r == Chain(level, ts)
    decreases Rank(level)
  {
    var first;
    if level == MulLevel {
      first := Unary(ts);
    } else {
      first := ParseChain(Below(level), ts);
    }
    assert first == FirstOperand(level, ts);
    if first.Err? {
      return Err(first.error);
    }
    var left, tokens, nodes := first.value.node, first.value.rest, [];
    assert Arith(Arr(nodes));
    while true
      invariant level == EqualityLevel && left.Arr? ==> left.items != []
      invariant Arith(left) && Arith(Arr(nodes))
      invariant ChainRest(level, left, nodes, tokens) == Chain(level, ts)
      decreases |tokens|
    {
      if tokens != [] && IsOperator(level, tokens[0]) {
        var right;
        if level == MulLevel {
          right := Unary(tokens[1..]);
        } else {
          right := ParseChain(RightLevel(level), tokens[1..]);
        }
        assert right == RightOperand(level, tokens[1..]);
        if right.Err? {
          ChainStepFails(level, left, nodes, tokens);
          return Err(right.error);
        }
        ChainStep(level, left, nodes, tokens);
        var node := Combine(tokens[0], left, right.value.node);
        nodes := nodes + [node];
        left := node;
        tokens := right.value.rest;
      } else if level == EqualityLevel && tokens == [Eof] {
        ChainEnd(level, left, nodes, tokens);
        return Ok(Parsed(First(left), [Eof]));
      } else {
        ChainEnd(level, left, nodes, tokens);
        if nodes == [] {
          nodes := [left];
        }
        return Ok(Parsed(Arr(nodes), tokens));
      }
    }
  }

  /** One turn of a level's loop: the operator and its right operand are folded onto `left`. */
  lemma ChainStep(level: Level, left: Node, nodes: seq<Node>, ts: seq<Token>)
    requires level == EqualityLevel && left.Arr? ==> left.items != []
    requires Arith(left) && Arith(Arr(nodes))
    requires ts != [] && IsOperator(level, ts[0]) && RightOperand(level, ts[1..]).Ok?
    ensures var p := RightOperand(level, ts[1..]).value;
            var node := Combine(ts[0], left, p.node);
      && IsBinary(node) && Arith(node) && Arith(Arr(nodes + [node])) && |p.rest| < |ts|
      && ChainRest(level, left, nodes, ts) == ChainRest(level, node, nodes + [node], p.rest)
  {
    ArithCombine(ts[0], left, RightOperand(level, ts[1..]).value.node, nodes);
  }

  /** An operand that fails makes the level fail the same way. */
  lemma ChainStepFails(level: Level, left: Node, nodes: seq<Node>, ts: seq<Token>)
    requires level == EqualityLevel && left.Arr? ==> left.items != []
    requires Arith(left) && Arith(Arr(nodes))
    requires ts != [] && IsOperator(level, ts[0]) && RightOperand(level, ts[1..]).Err?
    ensures ChainRest(level, left, nodes, ts) == Err(RightOperand(level, ts[1..]).error)
  {
  }

  /** The loop ends at a token that is not one of the level's operators. */
  lemma ChainEnd(level: Level, left: Node, nodes: seq<Node>, ts: seq<Token>)
    requires level == EqualityLevel && left.Arr? ==> left.items != []
    requires Arith(left) && Arith(Arr(nodes))
    requires !(ts != [] && IsOperator(level, ts[0]))
    ensures ChainRest(level, left, nodes, ts)
         == if level == EqualityLevel && ts == [Eof] then Ok(Parsed(First(left), [Eof]))
            else Ok(Parsed(Arr(if nodes == [] then [left] else nodes), ts))
  {
  }


  /** Each node of the list is one of the level's and folds in the one before it (`first` before the first). */
  predicate Folded(level: Level, first: Node, nodes: seq<Node>)
  {
    && (nodes != [] ==> Builds(level, nodes[0]) && Extends(first, nodes[0]))
    && forall i :: 0 < i < |nodes| ==> Builds(level, nodes[i]) && Extends(nodes[i - 1], nodes[i])
  }

  lemma FoldedAppend(level: Level, first: Node, nodes: seq<Node>, node: Node)
    requires Folded(level, first, nodes)
    requires Builds(level, node) && Extends(if nodes == [] then first else nodes[|nodes| - 1], node)
    ensures Folded(level, first, nodes + [node])
  {
    var all := nodes + [node];
    forall i | 0 < i < |all|
      ensures Builds(level, all[i]) && Extends(all[i - 1], all[i])
    {
      if i < |nodes| {
        assert all[i] == nodes[i] && all[i - 1] == nodes[i - 1];
      } else {
        assert all[i] == node && all[i - 1] == nodes[|nodes| - 1];
      }
    }
    if nodes != [] {
      assert all[0] == nodes[0];
    }
  }

  /** A level returns the array of its `items`, except that `equality` on `[Eof]` returns the last of them. */
  predicate Lists(level: Level, r: Parsed, items: seq<Node>)
    requires items != []
  {
    r.node == if level == EqualityLevel && r.rest == [Eof] then items[|items| - 1] else Arr(items)
  }

  /**
   * The loop of a level, from the node so far, and the list `items` of nodes it holds when
   * it stops. When an operator follows, `items` is every node built, each folding in the
   * one before, and the level returns its array, or at `equality`'s early return on
   * `[Eof]` its last node. Otherwise `items` is the list so far (or the lone operand), the
   * tokens are untouched, and the level returns its array, or at the early return the
   * first of `left`.
   */
  lemma {:induction false} ChainRestFolds(level: Level, first: Node, left: Node, nodes: seq<Node>, ts: seq<Token>)
    returns (items: seq<Node>)
    requires level == EqualityLevel && left.Arr? ==> left.items != []
    requires Arith(left) && Arith(Arr(nodes))
    requires Folded(level, first, nodes) && left == (if nodes == [] then first else nodes[|nodes| - 1])
    requires ChainRest(level, left, nodes, ts).Ok?
    ensures items != []
    ensures ts != [] && IsOperator(level, ts[0]) ==>
      Folded(level, first, items) && nodes < items && Lists(level, ChainRest(level, left, nodes, ts).value, items)
    ensures !(ts != [] && IsOperator(level, ts[0])) ==>
      && items == (if nodes == [] then [left] else nodes)
      && ChainRest(level, left, nodes, ts) == Ok(Parsed(if level == EqualityLevel && ts == [Eof] then First(left) else Arr(items), ts))
    decreases |ts|, 1
  {
    if ts != [] && IsOperator(level, ts[0]) {
      items := OperatorFolds(level, first, left, nodes, ts);
    } else {
      ChainEnd(level, left, nodes, ts);
      items := if nodes == [] then [left] else nodes;
    }
  }

  /** `ChainRestFolds` when an operator follows: one turn of the loop, then the rest of it. */
  lemma {:induction false} OperatorFolds(level: Level, first: Node, left: Node, nodes: seq<Node>, ts: seq<Token>)
    returns (items: seq<Node>)
    requires level == EqualityLevel && left.Arr? ==> left.items != []
    requires Arith(left) && Arith(Arr(nodes))
    requires Folded(level, first, nodes) && left == (if nodes == [] then first else nodes[|nodes| - 1])
    requires ChainRest(level, left, nodes, ts).Ok? && ts != [] && IsOperator(level, ts[0])
    ensures items != [] && Folded(level, first, items) && nodes < items
    ensures Lists(level, ChainRest(level, left, nodes, ts).value, items)
    ensures RightOperand(level, ts[1..]).Ok? && items[|nodes|] == Combine(ts[0], left, RightOperand(level, ts[1..]).value.node)
    decreases |ts|, 0
  {
    var node, rest := FoldStep(level, first, left, nodes, ts);
    items := ChainRestFolds(level, first, node, nodes + [node], rest);
    assert nodes < nodes + [node] <= items;
    if !(rest != [] && IsOperator(level, rest[0])) {
      assert items[|items| - 1] == node;
    }
  }

  /** One turn of the loop, as `ChainRestFolds` needs it: the node built extends the folded list. */
  lemma FoldStep(level: Level, first: Node, left: Node, nodes: seq<Node>, ts: seq<Token>) returns (node: Node, rest: seq<Token>)
    requires level == EqualityLevel && left.Arr? ==> left.items != []
    requires Arith(left) && Arith(Arr(nodes))
    requires Folded(level, first, nodes) && left == (if nodes == [] then first else nodes[|nodes| - 1])
    requires ChainRest(level, left, nodes, ts).Ok? && ts != [] && IsOperator(level, ts[0])
    ensures !node.Arr? && First(node) == node && Arith(node) && Arith(Arr(nodes + [node])) && |rest| < |ts|
    ensures Folded(level, first, nodes + [node]) && (nodes + [node])[|nodes|] == node
    ensures ChainRest(level, left, nodes, ts) == ChainRest(level, node, nodes + [node], rest)
    ensures RightOperand(level, ts[1..]).Ok? && node == Combine(ts[0], left, RightOperand(level, ts[1..]).value.node)
  {
    ChainStep(level, left, nodes, ts);
    var p := RightOperand(level, ts[1..]).value;
    node, rest := Combine(ts[0], left, p.node), p.rest;
    BuildOperands(OperatorOf(ts[0]).value, left, p.node);
    FoldedAppend(level, first, nodes, node);
  }

  /**
   * A level's result: with no operator after the first operand, a one-element array of
   * that operand; otherwise the array of every node the loop built, each folding in the one
   * before, the first folding in the operand. `equality`'s early return on `[Eof]` gives
   * instead the last node of that list, or the first of the operand when no operator follows.
   */
  lemma ChainFolds(level: Level, ts: seq<Token>) returns (items: seq<Node>)
    requires Chain(level, ts).Ok?
    ensures items != []
    ensures var p := FirstOperand(level, ts).value;
      p.rest != [] && IsOperator(level, p.rest[0]) ==> Folded(level, p.node, items) && Lists(level, Chain(level, ts).value, items)
    ensures var p := FirstOperand(level, ts).value;
      !(p.rest != [] && IsOperator(level, p.rest[0])) ==>
      && items == [p.node]
      && Chain(level, ts) == Ok(Parsed(if level == EqualityLevel && p.rest == [Eof] then First(p.node) else Arr(items), p.rest))
  {
    var p := FirstOperand(level, ts).value;
    items := ChainRestFolds(level, p.node, p.node, [], p.rest);
  }

  /** When an operator follows, the first node of the level's list applies it to the operand and the next one. */
  lemma ChainRestFirst(level: Level, left: Node, ts: seq<Token>) returns (items: seq<Node>)
    requires level == EqualityLevel && left.Arr? ==> left.items != []
    requires Arith(left)
    requires ts != [] && IsOperator(level, ts[0])
    requires ChainRest(level, left, [], ts).Ok?
    ensures RightOperand(level, ts[1..]).Ok?
    ensures items != [] && items[0] == Combine(ts[0], left, RightOperand(level, ts[1..]).value.node)
    ensures Lists(level, ChainRest(level, left, [], ts).value, items)
  {
    assert Arith(Arr([])) && Folded(level, left, []);
    items := OperatorFolds(level, left, left, [], ts);
  }

  /** The loop only ever appends to the list of nodes it built (unless `equality` returns early). */
  lemma {:induction false} ChainRestKeeps(level: Level, left: Node, nodes: seq<Node>, ts: seq<Token>)
    requires level == EqualityLevel && left.Arr? ==> left.items != []
    requires Arith(left) && Arith(Arr(nodes)) && nodes != []
    requires ChainRest(level, left, nodes, ts).Ok?
    ensures var r := ChainRest(level, left, nodes, ts).value;
      (level == EqualityLevel && r.rest == [Eof]) || (r.node.Arr? && nodes <= r.node.items)
    decreases |ts|
  {
    if ts != [] && IsOperator(level, ts[0]) {
      ChainStep(level, left, nodes, ts);
      var p := RightOperand(level, ts[1..]).value;
      ChainRestKeeps(level, Combine(ts[0], left, p.node), nodes + [Combine(ts[0], left, p.node)], p.rest);
    } else {
      ChainEnd(level, left, nodes, ts);
    }
  }

  /** `+p` is `p` itself and `-p` is `0 - p`, with the tokens `primary` leaves. */
  lemma UnarySigns(ts: seq<Token>)
    ensures Unary([Reserved("+")] + ts) == Primary(ts)
    ensures Unary([Reserved("-")] + ts).Ok? <==> Primary(ts).Ok?
    ensures Primary(ts).Ok? ==>
      Unary([Reserved("-")] + ts).value == Parsed(Sub(Node.Num(0), Primary(ts).value.node), Primary(ts).value.rest)
  {
    assert ([Reserved("+")] + ts)[1..] == ts;
    assert ([Reserved("-")] + ts)[1..] == ts;
  }

  /** A number with no `*`, `/`, `+` or `-` after it is, at the additive level, an array of an array of it. */
  lemma NumberAtAdd(v: nat, rest: seq<Token>)
    requires !(rest != [] && IsOperator(MulLevel, rest[0])) && !(rest != [] && IsOperator(AddLevel, rest[0]))
    ensures Chain(AddLevel, [Token.Num(v)] + rest) == Ok(Parsed(Arr([Arr([Node.Num(v)])]), rest))
  {
    var ts := [Token.Num(v)] + rest;
    assert ts[1..] == rest;
    assert Unary(ts) == Ok(Parsed(Node.Num(v), rest));
    ChainEnd(MulLevel, Node.Num(v), [], rest);
    assert Chain(MulLevel, ts) == Ok(Parsed(Arr([Node.Num(v)]), rest));
    ChainEnd(AddLevel, Arr([Node.Num(v)]), [], rest);
  }

  /** The same number, one level up, when no comparison follows either. */
  lemma NumberAtRelational(v: nat, rest: seq<Token>)
    requires !(rest != [] && IsOperator(MulLevel, rest[0])) && !(rest != [] && IsOperator(AddLevel, rest[0]))
    requires !(rest != [] && IsOperator(RelationalLevel, rest[0]))
    ensures Chain(RelationalLevel, [Token.Num(v)] + rest) == Ok(Parsed(Arr([Arr([Arr([Node.Num(v)])])]), rest))
  {
    NumberAtAdd(v, rest);
    ChainEnd(RelationalLevel, Arr([Arr([Node.Num(v)])]), [], rest);
  }

  /**
   * The operand after `==` or `!=` is parsed at the additive level, so a comparison after
   * it is left over: `a == b < c` (and `a != b <= c`, ...) is rejected.
   */
  lemma EqualityThenRelational(a: nat, op: Token, b: nat, rest: seq<Token>)
    requires IsOperator(EqualityLevel, op)
    requires rest != [] && IsOperator(RelationalLevel, rest[0])
    ensures var one := Arr([Arr([Arr([Node.Num(a)])])]);
      Expr([Token.Num(a), op, Token.Num(b)] + rest)
        == Ok(Parsed(Arr([Combine(op, one, Arr([Arr([Node.Num(b)])]))]), rest))
    ensures Run([Token.Num(a), op, Token.Num(b)] + rest) == Err(TrailingTokens)
  {
    var t1 := [op, Token.Num(b)] + rest;
    var ts := [Token.Num(a)] + t1;
    assert ts == [Token.Num(a), op, Token.Num(b)] + rest;
    assert t1[0] == op && t1[1..] == [Token.Num(b)] + rest;
    NumberAtRelational(a, t1);
    var one := Arr([Arr([Arr([Node.Num(a)])])]);
    NumberAtAdd(b, rest);
    var two := Arr([Arr([Node.Num(b)])]);
    assert RightOperand(EqualityLevel, t1[1..]) == Ok(Parsed(two, rest));
    assert Arith(Arr([]));
    ChainStep(EqualityLevel, one, [], t1);
    var node := Combine(op, one, two);
    assert [] + [node] == [node];
    assert rest != [Eof];
    ChainEnd(EqualityLevel, node, [node], rest);
    assert FirstOperand(EqualityLevel, ts) == Ok(Parsed(one, t1));
    assert Expr(ts) == ChainRest(EqualityLevel, one, [], t1);
  }

  /** In particular `1 == 2 < 3` is rejected. */
  lemma OneEqualsTwoLessThanThree()
    ensures Run([Token.Num(1), Reserved("=="), Token.Num(2), Reserved("<"), Token.Num(3), Eof]) == Err(TrailingTokens)
  {
    var rest := [Reserved("<"), Token.Num(3), Eof];
    assert OperatorOf(Reserved("==")) == Some(Equal) && OperatorOf(rest[0]) == Some(Less);
    EqualityThenRelational(1, Reserved("=="), 2, rest);
    assert [Token.Num(1), Reserved("=="), Token.Num(2)] + rest
        == [Token.Num(1), Reserved("=="), Token.Num(2), Reserved("<"), Token.Num(3), Eof];
  }
}
