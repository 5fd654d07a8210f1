/**
 * What the two expression parsers of the compiler share: the four binary precedence
 * levels of lib/9cc/node.rb and lib/9cc/node/parser.rb, the ten operator tokens those
 * levels fold, and the node each operator builds.
 */
module Precedence {
  import opened Outcomes
  import opened Tokens
  import opened Ast

  /** What every production returns: the node it built and the tokens left after it. */
  datatype Parsed = Parsed(node: Node, rest: seq<Token>)

  /** The four binary precedence levels, tightest first. */
  datatype Level = MulLevel | AddLevel | RelationalLevel | EqualityLevel

  function Rank(level: Level): nat
  {
    match level
    case MulLevel => 0
    case AddLevel => 1
    case RelationalLevel => 2
    case EqualityLevel => 3
  }

  /** The level that parses a level's first operand (`mul`'s is `unary`). */
  function Below(level: Level): (b: Level)
    requires level != MulLevel
    ensures Rank(b) == Rank(level) - 1
  {
    match level
    case AddLevel => MulLevel
    case RelationalLevel => AddLevel
    case EqualityLevel => RelationalLevel
  }

  /** The level that parses the operand after an operator: `equality` uses `add`, not `relational`. */
  function RightLevel(level: Level): (b: Level)
    requires level != MulLevel
    ensures Rank(b) < Rank(level)
  {
    if level == EqualityLevel then AddLevel else Below(level)
  }

  /** The ten binary operators of the four levels. */
  datatype Operator = Times | Divide | Plus | Minus | Less | LessEq | Greater | GreaterEq | Equal | NotEqual

  /** The operator a token spells, if any: `*` `/` `+` `-` `<` `<=` `>` `>=` `==` `!=`. */
  function OperatorOf(t: Token): Option<Operator>
  {
    if !t.Reserved? then None
    else if |t.symbol| == 1 then
      match t.symbol[0]
      case '*' => Some(Times)
      case '/' => Some(Divide)
      case '+' => Some(Plus)
      case '-' => Some(Minus)
      case '<' => Some(Less)
      case '>' => Some(Greater)
      case _ => None
    else if |t.symbol| == 2 && t.symbol[1] == '=' then
      match t.symbol[0]
      case '<' => Some(LessEq)
      case '>' => Some(GreaterEq)
      case '=' => Some(Equal)
      case '!' => Some(NotEqual)
      case _ => None
    else None
  }

  function LevelOf(o: Operator): Level
  {
    match o
    case Times | Divide => MulLevel
    case Plus | Minus => AddLevel
    case Less | LessEq | Greater | GreaterEq => RelationalLevel
    case Equal | NotEqual => EqualityLevel
  }

  /** The tokens a level's loop folds: `*` `/`, `+` `-`, `<` `<=` `>` `>=`, `==` `!=`. */
  predicate IsOperator(level: Level, t: Token)
  {
    OperatorOf(t).Some? && LevelOf(OperatorOf(t).value) == level
  }

  /** The node an operator builds; `>` and `>=` become `Lt` and `Lte` with the operands swapped. */
  function Build(o: Operator, left: Node, right: Node): Node
  {
    match o
    case Times => Node.Mul(left, right)
    case Divide => Div(left, right)
    case Plus => Node.Add(left, right)
    case Minus => Sub(left, right)
    case Less => Lt(left, right)
    case LessEq => Lte(left, right)
    case Greater => Lt(right, left)
    case GreaterEq => Lte(right, left)
    case Equal => Eq(left, right)
    case NotEqual => Neq(left, right)
  }

  function Combine(op: Token, left: Node, right: Node): Node
    requires OperatorOf(op).Some?
  {
    Build(OperatorOf(op).value, left, right)
  }

  /**
   * An operator builds a binary node of its own level over its two operands, in one order
   * or the other, folding the left one in.
   */
  lemma BuildOperands(o: Operator, left: Node, right: Node)
    ensures var n := Build(o, left, right);
      && IsBinary(n) && ((n.lhs == left && n.rhs == right) || (n.lhs == right && n.rhs == left))
      && Builds(LevelOf(o), n) && Extends(left, n)
  {
    match o
    case Greater =>
    case GreaterEq =>
    case _ =>
  }

  // ----- what a level's node list holds -----

  /** The node kinds a level's operators build. */
  predicate Builds(level: Level, n: Node)
  {
    match level
    case MulLevel => n.Mul? || n.Div?
    case AddLevel => n.Add? || n.Sub?
    case RelationalLevel => n.Lt? || n.Lte?
    case EqualityLevel => n.Eq? || n.Neq?
  }

  /** `n` folds `prev` in: as its left operand, or as its right one for the swapped `>` and `>=`. */
  predicate Extends(prev: Node, n: Node)
  {
    IsBinary(n) && (n.lhs == prev || ((n.Lt? || n.Lte?) && n.rhs == prev))
  }
  /**
   * `a > b` and `a >= b` are built as `b < a` and `b <= a`, while `<`, `<=`, `==` and `!=`
   * keep their operands in order (with `ChainRestFirst`, this is the first node of a
   * `relational` list).
   */
  lemma GreaterSwaps(left: Node, right: Node)
    ensures Combine(Reserved(">"), left, right) == Lt(right, left)
    ensures Combine(Reserved(">="), left, right) == Lte(right, left)
    ensures Combine(Reserved("<"), left, right) == Lt(left, right)
    ensures Combine(Reserved("<="), left, right) == Lte(left, right)
    ensures Combine(Reserved("=="), left, right) == Eq(left, right)
    ensures Combine(Reserved("!="), left, right) == Neq(left, right)
  {
  }

}
