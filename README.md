# 9cc-ruby in Dafny

A model of the small Ruby compiler 9cc-ruby, which turns source text into x86-64
Intel-syntax assembly lines. It covers five parts, and for each the model proves what the
code does:

- **Tokenizer** (`Token.tokenize`, lib/9cc/token.rb and its copy in 9cc.rb). The input is
  split on whitespace. `+` and `-` become `Reserved` tokens, digit runs become `Num`, any
  other piece is an error reported at its piece index, and `Eof` is appended.
  Modules `Decimal` and `Tokens`.
- **Single-pass compiler** (`Program#run`, lib/9cc.rb and 9cc.rb). It accepts only
  `num (+ num | - num)*` and emits `mov`/`add`/`sub`/`ret` after three header lines.
  Module `SinglePass`.
- **Legacy expression parser** (lib/9cc/node.rb). The node variants and a precedence
  parser whose levels return lists of every node built.
  Modules `Ast`, `Precedence` and `Legacy`.
- **Full parser** (lib/9cc/node/parser.rb). Variables, assignment, `return`, `if`, blocks,
  `def` and calls with indexed arguments. The productions hand one token array to each
  other, and `shift` changes it in place.
  - Module `Grammar` states each production as a function. The function returns the node,
    the tokens the Ruby method returns, and what is left in the array it was handed.
  - Module `NodeParser` is the imperative form: a `TokenArray` class, the loops, and a
    `Parser` class. Every method is proved to compute what its `Grammar` function says.
  - Modules `GrammarProps` and `StatementProps` prove what the grammar does.
- **Code generator** (`Generator`, lib/9cc/generator.rb). A stack machine: one push per
  value, `pop rax` after each statement, a name-to-offset table filled on first use, and
  headers, prologue and epilogue around the body.
  - `Asm` holds the instruction datatype, its rendering, and a small interpreter over a
    stack of integers, `rax`/`rdi`/`rbp` and frame memory.
  - `Generator` holds the emission functions and the `Generator` class with its methods.
  - `GeneratorProps` proves stack depths for every tree the generator accepts, arrays
    included. A count of the values each tree leaves (`GeneratorProps.Leaves`) gives the depth.
  - `GeneratorEval` proves that the emitted code computes the values of the trees. This holds
    for statements that each flatten to one tree, with binary nodes only last in a list.
  - `LegacyCodegen` proves that every tree the legacy parser accepts compiles.

## How the source is read

- **Tokens.** A token is a value: `Reserved(symbol)`, `Num(value)`, `Ident(name)`, `Ret`
  or `Eof`. Two tokens with the same fields are equal.
  - The parsers compare tokens with `==`, match on `[Token::Eof]` and build
    `Token::Reserved.new(')')` to compare against, so structural equality is what they
    rely on.
  - `Token::Eof` in their return values is read as the end-of-input token.
- **Arrays in the legacy parser.** Its levels return Ruby arrays of nodes and nest them in
  further arrays. These are the extra node constructor `Arr(items)`. `Array(node)` of a
  single node is `[node]`.
  - `Arr` also stands for the statement lists of the full parser. `if` puts these directly
    into an `If` node, and `statement` returns them as the program's items.
- **Operators and marks.** `Precedence.OperatorOf` decodes operator tokens. `Grammar.MarkOf`
  decodes the punctuation and keywords the full parser matches on. `GrammarProps.MarkSpells`
  proves that `MarkOf` accepts exactly the spelled token.
- **Errors.** Each Ruby `raise`, and each `case` that matches no branch, becomes an `Err`
  value. Nothing rescues an exception, so every error ends the run.
  - The tokenizer reports the index of the offending piece.
  - The parsers report a `ParseError` kind.
  - The generator reports `NoPatternMatched` or `NotAVariable`.
  - The single-pass compiler reports `NotANumber` or `NoPatternMatched`.
- **`shift` in the full parser.** `expect_next_token!` and `tokens_until` shift the array
  they are handed, but `in [X, *tokens]` binds a fresh array. The `Grammar` functions
  therefore return, besides the Ruby result, the contents of the array the caller passed
  (`After.left`).
  - One consequence: `function` removes only `def` from its caller's array. Everything
    after the name is read from a copy.

Where the documented language and the code disagree, the model follows the code. Each of
these behaviours is proved as written:

- **A `;` right before the end.** `a = 5; a + 1;` is rejected. `statement` goes on after
  the last `;` and hands `expr` an empty token list, which `primary` rejects
  (`StatementProps.SemicolonBeforeEnd`, `StatementProps.NumberThenSemicolon`).
- **Function definitions.** `function` removes only `def` from the caller's array. The name
  and everything after it stay there, and `statement` reads those tokens again as the next
  statement (`StatementProps.DefinitionKeepsName`). So after `def f ( a ) { a }` the next
  statement is read from `f ( a ) { a } …`, which starts like a call of `f`.
- **Leftover tokens.** An expression statement drops whatever `expr` leaves over: `1 == 2 < 3`
  parses as `Eq(1, 2)` (`StatementProps.LeftoverIsDropped`).
- **`if` without `else`.** Every statement after it becomes part of its then-side
  (`StatementProps.IfWithoutElse`).
- **`return`.** It reads one `primary` and drops the rest of the statement
  (`StatementProps.ReturnDropsTheRest`).
- **`run` and `program`.** `statement` always leaves `[]` or `[Eof]`. So `program`'s loop
  returns on its first test, and `run` returns the one statement list `statement` reads
  from the whole input (`StatementProps.RunIsStatement`).
- **Code generation.**
  - For a binary node followed by more nodes in one list, the code of the rest runs before
    the final `push rax`. The value pushed is then whatever `rax` the rest left
    (`GeneratorEval.BinaryBeforeMore`).
  - The evaluation lemmas are stated for the lists on which this does not matter: binary
    nodes only last.
  - An array operand leaves all its items' values: `Add(Arr([1, 2]), 3)` leaves two values,
    not one (`GeneratorProps.ArrayOperandLeaves`).
  - The parser hands over its statements as one item, `[Arr(stmts)]`. One `pop rax` follows
    all of them, so k single-tree statements leave k - 1 values on the stack
    (`GeneratorProps.ParserOutputLeaves`, `GeneratorProps.TwoStatementsLeaveOne`).

## Model

| member | source | states |
|---|---|---|
| Tokens.Split | lib/9cc/token.rb:7 | every piece of `split(' ')` is non-empty and holds no whitespace |
| Tokens.SplitJoin | lib/9cc/token.rb:7 | splitting pieces joined by single spaces gives back the same pieces in the same order |
| Tokens.SplitIgnoresLeadingSpace | lib/9cc/token.rb:7-10 | whitespace never yields a piece, so the `' '` branch is never taken |
| Tokens.ClassifyPiece | lib/9cc/token.rb:8-17 | no piece is skipped; a piece is rejected exactly when it is neither `+`, `-` nor a digit run |
| Tokens.ClassifyReserved | lib/9cc/token.rb:11-12 | a piece becomes `Reserved` exactly when it is `+` or `-`, and the token carries that piece |
| Tokens.NumberPatternIsDigits | lib/9cc/token.rb:13 | `/\A[1-9]*[0-9]+\z/` matches exactly the non-empty digit strings, leading zeros included |
| Tokens.ClassifyNumber | lib/9cc/token.rb:13-14 | a piece becomes `Num` exactly when it is a digit run, carrying its decimal value |
| Decimal.LeadingZeroIgnored | lib/9cc/token.rb:14 | `to_i` ignores a leading zero |
| Tokens.LexPieces | lib/9cc/token.rb:7-20 | success exactly when no piece is rejected; then one token per piece in order plus one final `Eof`; on failure the index is the first rejected piece |
| Tokens.Tokenize | lib/9cc/token.rb:5-21 | the loop over the pieces computes the token list (or failing index) that `Lex` of the split input describes; the copy at 9cc.rb:7-23 is the same procedure |
| Tokens.TokenizeEndsWithSingleEof | lib/9cc/token.rb:19-20 | on success there is one token per piece plus one, the last is `Eof` and no other is |
| Decimal.DecimalRoundTrip | lib/9cc.rb:23 | the decimal text emitted for a number reads back as that number |
| SinglePass.Compile | lib/9cc.rb:20-40 | the token-walking loop computes the listing `Listing` describes, or its error |
| SinglePass.Run | lib/9cc.rb:10-43 | tokenizing then compiling gives `Program(input)`: a tokenizer failure at its piece index, or the listing; the copy at 9cc.rb:57-90 is the same procedure |
| SinglePass.ListingShape | lib/9cc.rb:20-37 | a listing exists exactly for `num (± num)* Eof`: numbers at even positions, `+`/`-` at odd ones, `Eof` last |
| SinglePass.TailShape | lib/9cc.rb:25-37 | the loop succeeds exactly on `(± num)* Eof`; a trailing sign, two numbers in a row or two signs match no branch |
| SinglePass.FirstTokenMustBeNumber | lib/9cc.rb:38-39 | when the first token is not a number the result is the "not a number" error |
| SinglePass.HeaderText | lib/9cc.rb:16-18 | the listing starts with `.intel_syntax noprefix`, `.global main`, `main:` |
| SinglePass.TailLines | lib/9cc.rb:25-36 | the loop emits one `add`/`sub` per pair in input order, then `ret` |
| SinglePass.ListingLines | lib/9cc.rb:16-35 | for k pairs the listing has 3 + 1 + k + 1 lines: headers, `mov rax, n0`, the pairs in order, `ret` |
| SinglePass.TailComputes | lib/9cc.rb:27-35 | running the loop's lines adds the signed terms to `rax` |
| SinglePass.ListingComputes | lib/9cc.rb:20-35 | running the listing leaves in `rax` the left-to-right fold n0 ± n1 ± … of the source |
| SinglePass.SubtractionFoldsLeft | lib/9cc.rb:30-32 | `1 - 2 - 3` computes -4 |
| Legacy.Primary | lib/9cc/node.rb:41-55 | a primary consumes at least one token and returns a suffix of its input; it builds only numbers and operator nodes |
| Legacy.PrimaryOutcome | lib/9cc/node.rb:41-54 | accepted exactly when the input starts with a number, or with `(`, an expression and `)`; a number is read alone, parentheses yield the inner node and what follows `)`; any other first token (or none) is invalid input, a missing `)` is its own error, an inner error is passed on |
| Legacy.Unary | lib/9cc/node.rb:58-68 | the same bounds for a unary |
| Legacy.UnarySigns | lib/9cc/node.rb:58-67 | `+p` parses as `p`, and `-p` as `Sub(Num(0), p)` with the same remaining tokens |
| Legacy.ParseChain | lib/9cc/node.rb:71-187 | the loops of `mul`, `add`, `relational` and `equality` compute `Chain`, the node lists and remaining tokens of each level |
| Legacy.Chain | lib/9cc/node.rb:71-187 | every level below `equality` returns a non-empty node list and a shorter suffix of its input |
| Legacy.ChainEnd | lib/9cc/node.rb:86-90 | with no operator next, a level returns its nodes, or its operand as the single element of the list; `equality` at `[Eof]` returns the first of its operand |
| Legacy.ChainRestFolds | lib/9cc/node.rb:71-187 | the loop of every level ends on a list of nodes: after an operator each node built folds in the previous one and the list only grows; with no operator the list so far (or the lone operand) and the tokens untouched; the level returns that list's array, except `equality`'s early return on `[Eof]`, which returns the last node built or, with no operator, the first of its operand |
| Legacy.OperatorFolds | lib/9cc/node.rb:71-187 | when an operator follows, the node it builds from the current node and the next operand is appended at the end of the list, the list ends folded, and the level returns its array or, at `equality`'s early return, its last node |
| Legacy.ChainFolds | lib/9cc/node.rb:71-187 | a level's result is its operand alone or a left fold started from that operand, as an array; `equality` on `[Eof]` returns the fold's last node, or the first of the operand when no operator follows |
| Legacy.ChainRestFirst | lib/9cc/node.rb:74-85 | the first node of a fold combines the operand with the right operand after the first operator, whether the level returns the list or `equality` returns its last node early |
| Legacy.ChainRestKeeps | lib/9cc/node.rb:73-93 | nodes already in the list stay in it, in place |
| Legacy.NumberAtAdd | lib/9cc/node.rb:113-117 | a lone number at `add` is a one-element list of the one-element list from `mul` |
| Legacy.NumberAtRelational | lib/9cc/node.rb:151-153 | a lone number at `relational` is nested one list deeper |
| Legacy.EqualityThenRelational | lib/9cc/node.rb:167-175 | the right operand of `==`/`!=` is read at `add`, so a following `<` is left over and `run` raises |
| Legacy.OneEqualsTwoLessThanThree | lib/9cc/node.rb:24-35 | `1 == 2 < 3` is rejected because tokens remain after `expr` |
| Legacy.Run | lib/9cc/node.rb:24-36 | on success the input ends with `Eof` after at least one other token, and the result is `expr`'s arithmetic tree; otherwise the error is `expr`'s own, or "trailing tokens" when `expr` left more than `[Eof]` |
| Precedence.GreaterSwaps | lib/9cc/node.rb:130-149 | `>` builds `Lt(right, left)`, `>=` builds `Lte(right, left)`; `<`, `<=`, `==`, `!=` keep operand order; the full parser (lib/9cc/node/parser.rb:134-145) rewrites them the same way |
| Precedence.BuildOperands | lib/9cc/node/parser.rb:97-163 | each operator builds a binary node of its own level over the two operands, with the previous result as an operand |
| LegacyCodegen.GenArith | lib/9cc/generator.rb:32-109 | code generation succeeds on every flat list of number and operator trees and interns no name |
| LegacyCodegen.LegacyOutputCompiles | lib/9cc/node.rb:24-36 | every tree the legacy `run` returns compiles to a full listing |
| Grammar.ExpectNext | lib/9cc/node/parser.rb:25-30 | succeeds exactly when the input is non-empty and its first token is `Reserved` of the expected mark's spelling, leaving the rest of the array; otherwise the error is "unexpected token" |
| NodeParser.TokenArray.Shift | lib/9cc/node/parser.rb:26 | `shift` removes and returns the first token, or returns nil on an empty array and changes nothing |
| NodeParser.ExpectNextToken | lib/9cc/node/parser.rb:25-30 | shifts one token and raises unless it is the expected one; on success the array is `ExpectNext`'s rest |
| NodeParser.TokensUntil | lib/9cc/node/parser.rb:32-40 | returns `Until`'s prefix and leaves `Until`'s rest in the array |
| GrammarProps.UntilSplits | lib/9cc/node/parser.rb:32-40 | the prefix holds no delimiter; either the input is prefix + the first delimiter + the rest, or there is no delimiter and everything is taken |
| GrammarProps.UntilFirst | lib/9cc/node/parser.rb:34-37 | the first delimiter ends the prefix and is removed; nesting is not tracked |
| GrammarProps.UntilNone | lib/9cc/node/parser.rb:34-36 | without a delimiter all tokens are taken and the array is left empty |
| GrammarProps.EmptyCall | lib/9cc/node/parser.rb:50-51 | `f()` parses as a call with no arguments |
| GrammarProps.NameIsVariable | lib/9cc/node/parser.rb:64-65 | a name not followed by `(` is an `Lvar` |
| GrammarProps.CallArgsTagged | lib/9cc/node/parser.rb:53-63 | the argument loop keeps the arguments read so far and tags the i-th `Farg` with index i |
| GrammarProps.CallIsTagged | lib/9cc/node/parser.rb:52-63 | a call with arguments yields `Fcall` of that name whose `Farg`s carry 0, 1, 2, … in source order |
| NodeParser.ParseCallArgs | lib/9cc/node/parser.rb:53-63 | the argument loop computes `CallArgs`; its call node is named and its arguments are tagged in order; an argument followed by neither `,` nor `)` is invalid input when it began with a sign (the error message reads `primary` again there) and a missing `)` otherwise |
| GrammarProps.TwoArguments | lib/9cc/node/parser.rb:52-59 | `f(a, b)` gives `Fcall(f, [Farg(a, 0), Farg(b, 1)])` |
| GrammarProps.UnclosedArgument | lib/9cc/node/parser.rb:53-75 | `f(1 2)` is a missing `)`, while `f(-1 2)` is invalid input, because the error message's `primary` fails on the `-` |
| GrammarProps.UnarySigns | lib/9cc/node/parser.rb:80-90 | `+p` parses as `p`, and `-p` as `Sub(Num(0), p)` |
| GrammarProps.ChainRestFolds | lib/9cc/node/parser.rb:95-106 | each operator wraps the result so far as its left operand; with no operator the operand is returned with the tokens untouched |
| GrammarProps.ChainFolds | lib/9cc/node/parser.rb:93-169 | every level's result is a left fold of the level's operators over its first operand |
| NodeParser.ParseLevel | lib/9cc/node/parser.rb:93-169 | the loops of `mul`, `add`, `relational` and `equality` compute `Chain`, and the result folds left from the first operand |
| GrammarProps.NumberAt | lib/9cc/node/parser.rb:93-169 | a number followed by no operator of its level or below parses as itself at every level |
| GrammarProps.NameAt | lib/9cc/node/parser.rb:93-169 | a name followed by no operator of its level or below, and not by `(`, parses as a variable at every level |
| GrammarProps.SubtractionFoldsLeft | lib/9cc/node/parser.rb:111-125 | `a - b - c` parses as `Sub(Sub(a, b), c)` |
| GrammarProps.EqualityThenRelational | lib/9cc/node/parser.rb:154-168 | the right side of `==`/`!=` is read by `add`, so `a == b < c` stops before `<` |
| GrammarProps.AssignTarget | lib/9cc/node/parser.rb:183-189 | an assignment succeeds only with an `Lvar` on the left, which becomes the `Assign` target; any other left side raises |
| GrammarProps.AssignmentIsRightAssociative | lib/9cc/node/parser.rb:172-186 | `a = b = 1` parses as `Assign(a, Assign(b, 1))` |
| GrammarProps.NumberIsNotAssignable | lib/9cc/node/parser.rb:187-189 | `1 = 2` raises because the left side is not a variable |
| StatementProps.EmptyChain | lib/9cc/node/parser.rb:74-75 | an empty token list is invalid input at every level |
| StatementProps.EmptyExpression | lib/9cc/node/parser.rb:196-205 | `expr` of no tokens raises |
| StatementProps.ReturnReadsOnePrimary | lib/9cc/node/parser.rb:200-202 | `return` followed by tokens parses one primary and reports `[Eof]` as the remaining tokens |
| StatementProps.ReturnDropsTheRest | lib/9cc/node/parser.rb:200-202 | `return a + b` gives `Ret(a)` |
| StatementProps.ReturnEndsStatements | lib/9cc/node/parser.rb:281-284 | a `return` statement ends `statement` with the statements collected so far |
| Grammar.StatementLoop | lib/9cc/node/parser.rb:263-290 | `statement` always reports `[]` or `[Eof]` as its remaining tokens |
| StatementProps.StatementLoopKeeps | lib/9cc/node/parser.rb:264-289 | the statement list only grows |
| StatementProps.EndOfInputAlone | lib/9cc/node/parser.rb:274-276 | the end-of-input token alone is handed to `expr` as an empty list and raises |
| StatementProps.SemicolonBeforeEnd | lib/9cc/node/parser.rb:274-276 | a statement closed by `;` right before the end of input makes `statement` raise |
| StatementProps.NumberThenSemicolon | lib/9cc/node/parser.rb:274-276 | `5;` followed by the end of input is rejected |
| StatementProps.LeftoverIsDropped | lib/9cc/node/parser.rb:274-288 | the tokens an expression statement leaves over are dropped: `a == b < c` gives `[Eq(a, b)]` |
| Grammar.BlockStatement | lib/9cc/node/parser.rb:222-228 | `block` returns the very array it was handed, which goes on after the `}` |
| StatementProps.BlockSlices | lib/9cc/node/parser.rb:222-228 | `{ b } rest` gives `Block` of the statements of `b`, and leaves `rest` |
| StatementProps.IfSlices | lib/9cc/node/parser.rb:209-219 | the condition is the tokens before the first `)`, the then-side those before the first `else`, the else-side all that remain |
| StatementProps.IfWithoutElse | lib/9cc/node/parser.rb:214-216 | without `else` all remaining tokens form the then-side and the else-side is empty |
| StatementProps.ParamsListed | lib/9cc/node/parser.rb:238-251 | identifiers separated by `,` give back the names in order |
| NodeParser.ParseParams | lib/9cc/node/parser.rb:237-251 | the parameter loop computes `Params` and returns at least one name |
| StatementProps.EmptyParamsRejected | lib/9cc/node/parser.rb:236-250 | `def f()` raises: the parameter list must start with an identifier |
| StatementProps.DefinitionKeepsName | lib/9cc/node/parser.rb:232-234 | `function` shifts only `def` from its caller's array, leaving the name and everything after it |
| StatementProps.DefinitionSlices | lib/9cc/node/parser.rb:231-257 | `def f(a, …) { body } rest` gives `Fdef(f, [a, …], Block(body's statements))` and reports `rest` |
| NodeParser.ParseStatement | lib/9cc/node/parser.rb:263-290 | the statement loop returns `Statement`'s result and leaves `Statement`'s rest in the array |
| NodeParser.ParseIfStatement | lib/9cc/node/parser.rb:209-219 | returns `IfStatement`'s node and leaves its rest in the array |
| NodeParser.ParseBlock | lib/9cc/node/parser.rb:222-228 | returns `BlockStatement`'s node and leaves its rest in the array |
| NodeParser.ParseFunction | lib/9cc/node/parser.rb:231-257 | returns `Definition`'s node and leaves its rest in the array |
| NodeParser.ParseProgram | lib/9cc/node/parser.rb:293-306 | computes `Program` |
| NodeParser.Parser.Run | lib/9cc/node/parser.rb:9-21 | `run` succeeds exactly when `statement` accepts the whole input, and returns its statements as a single item |
| StatementProps.RunIsStatement | lib/9cc/node/parser.rb:9-21 | `run` is `statement` over the whole input: the same errors, and on success the one statement list |
| Asm.Render | lib/9cc/generator.rb:111-131 | every rendered line is non-empty; only the three header lines start in column 0 |
| Asm.TruncDiv | lib/9cc/generator.rb:102-103 | `idiv`'s quotient rounds toward zero: the remainder is smaller than the divisor and has the dividend's sign |
| Asm.ExecTracksDepth | lib/9cc/generator.rb:36-108 | running code that does not fault leaves the stack as deep as its push/pop count says |
| Generator.FlattenSize | lib/9cc/generator.rb:33 | `Array(nodes).flatten` yields a flat list no larger than the tree |
| Generator.FlattenFlat | lib/9cc/generator.rb:33 | flattening a flat list changes nothing |
| Generator.InternOffsets | lib/9cc/generator.rb:135-142 | the k-th distinct name gets offset 8·k; names already known keep their offsets; no name is listed twice |
| Generator.StatementDone | lib/9cc/generator.rb:19-22 | each statement's code is followed by one `pop rax` |
| Generator.StatementFailed | lib/9cc/generator.rb:19-20 | a statement that cannot be compiled fails the whole run |
| Generator.Generator.constructor | lib/9cc/generator.rb:13-16 | a new generator holds the given outputs and no variable |
| Generator.Generator.GenerateLvar | lib/9cc/generator.rb:135-146 | interns the name and appends the three lines computing its address |
| Generator.Generator.RunStatement | lib/9cc/generator.rb:32-109 | appends exactly the code `Gen` gives for the flattened nodes and updates the table likewise, or fails as `Gen` does |
| Generator.Generator.RunNum | lib/9cc/generator.rb:36-38 | the number branch appends `Gen`'s code |
| Generator.Generator.RunLvar | lib/9cc/generator.rb:39-44 | the variable branch appends `Gen`'s code and interns the name |
| Generator.Generator.RunAssign | lib/9cc/generator.rb:45-52 | the assignment branch appends `GenAssign`'s code |
| Generator.Generator.RunLeftAndRight | lib/9cc/generator.rb:53-108 | the binary-operator branch appends `GenLeftAndRight`'s code |
| Generator.Generator.Run | lib/9cc/generator.rb:18-28 | the result is headers + prologue sized by the variable count + the given outputs + the statements' code + epilogue |
| GeneratorProps.ListingShape | lib/9cc/generator.rb:24-27 | a listing is 3 header lines, 3 prologue lines, the outputs, the body and 3 epilogue lines, in that order |
| GeneratorProps.FrameFits | lib/9cc/generator.rb:119-124 | the prologue reserves 8 bytes per distinct variable, and every variable's offset lies inside that space |
| GeneratorProps.LvarCodeDepth | lib/9cc/generator.rb:143-145 | the address code of a variable pushes exactly one value |
| GeneratorProps.OperandDepth | lib/9cc/generator.rb:53-62 | the code of an operand that flattens to one simple tree has net stack effect +1 and never pops an empty stack |
| GeneratorProps.GenDepth | lib/9cc/generator.rb:32-109 | the code of a flat list of k simple trees (no array operands) has net stack effect +k and never pops an empty stack |
| GeneratorProps.StatementsDepth | lib/9cc/generator.rb:19-22 | when every statement flattens to one simple tree, one `pop rax` after each leaves the stack as it found it |
| GeneratorProps.Leaves | lib/9cc/generator.rb:32-109 | the count of values a tree's code leaves is never below minus the tree's size |
| GeneratorProps.SimpleLeaves | lib/9cc/generator.rb:32-109 | a list of simple trees leaves one value per tree |
| GeneratorProps.FlattenLeaves | lib/9cc/generator.rb:33 | flattening a tree does not change what its code leaves |
| GeneratorProps.GenLeaves | lib/9cc/generator.rb:32-109 | every flat list of accepted trees (variables, numbers, assignments to variables, operators, arrays as operands) compiles; started deep enough, its code never pops an empty stack and leaves `LeavesAll` more values |
| GeneratorProps.ArrayOperandLeaves | lib/9cc/generator.rb:32-62 | `Add(Arr([1, 2]), 3)` compiles to code that leaves two values, the stale 1 under the sum |
| GeneratorProps.StatementsLeaves | lib/9cc/generator.rb:18-22 | every list of accepted statements compiles; started deep enough, the body never pops an empty stack and leaves what each statement's trees leave, less one per `pop rax` |
| GeneratorProps.ParserOutputLeaves | lib/9cc/generator.rb:18-22 | the parser's one-item output `[Arr(stmts)]` of k single-tree statements compiles to a body that leaves k - 1 values |
| GeneratorProps.TwoStatementsLeaveOne | lib/9cc/generator.rb:18-22 | `1; 2` as the parser hands it over leaves the 1 on the stack |
| GeneratorProps.UnsupportedHead | lib/9cc/generator.rb:63-105 | `If`, `Ret`, `Block`, `Fcall`, `Farg` and `Fdef` match no branch and fail |
| GeneratorProps.NonVariableTarget | lib/9cc/generator.rb:45-46 | an assignment whose target is not a variable fails |
| GeneratorEval.OffsetsDistinct | lib/9cc/generator.rb:135-142 | distinct names get distinct slots |
| GeneratorEval.OpRun | lib/9cc/generator.rb:54-59 | `pop rdi`, `pop rax` take the right then the left operand, and the operator computes left-op-right |
| GeneratorEval.CompareRun | lib/9cc/generator.rb:64-87 | `cmp`, `setcc`, `movzb` leave 1 in `rax` when the comparison holds and 0 otherwise |
| GeneratorEval.DivideRun | lib/9cc/generator.rb:100-104 | `cqo`, `idiv rdi` leave the quotient rounded toward zero |
| GeneratorEval.LvarLoadRun | lib/9cc/generator.rb:39-44 | reading a variable pushes its current value |
| GeneratorEval.StoreValue | lib/9cc/generator.rb:45-52 | an assignment stores the value in the variable's slot and pushes that value |
| GeneratorEval.OperandEval | lib/9cc/generator.rb:53-62 | the code of an operand that flattens to one simple tree pushes the tree's value |
| GeneratorEval.GenEval | lib/9cc/generator.rb:32-109 | the code of a flat list of simple trees (binary nodes only last) pushes their values in order and keeps every slot equal to its variable's value |
| GeneratorEval.StatementsEval | lib/9cc/generator.rb:18-22 | when every statement flattens to one simple tree, running the body leaves the stack as it was and the last statement's value in `rax` |
| GeneratorEval.NumAlone | lib/9cc/generator.rb:36-38 | a lone number compiles to `push n` |
| GeneratorEval.BinaryBeforeMore | lib/9cc/generator.rb:54-108 | for `Add(1, 2)` followed by `5` in one list, 5 is pushed before the sum |

## Left out

- Printing and plumbing are not modelled: `pp`, `puts`, `ARGV`, `require 'byebug'`.
- The message text and caret layout of `error_at` are not modelled. Only the failing piece's
  index is kept.
- lib/9cc/rstruct.rb is not part of this model. Its metaprogramming reads a source file and
  generates classes.
- The `TokenKind` class factory, `inspect`, `to_s` and `deconstruct` are replaced by the
  token datatype, whose equality is structural.
- The tokenizer is not connected to the full parser. The shown tokenizer never yields
  `Ident`, `Ret` or punctuation other than `+`/`-`, so the parsers take a token list.
- Asm.Step: a `mov rax, [rax]` whose address is not a slot of the frame is a fault, so the
  run yields no state. The real instruction reads whatever memory holds there. So a variable
  read before any assignment has no value in the model (`GeneratorEval.Eval` gives None),
  where the program would read the unset slot.
- Integer width is not modelled: 64-bit wrap-around of `add`, `sub` and `imul` is ignored,
  and values are unbounded integers. Division by zero is a fault of the interpreter: the run
  yields no state.
- The interpreter does not run the prologue and epilogue: `rsp` and the return address are
  not modelled. `rbp` is a parameter of the initial state.
- Code generation for `If`, `Ret`, `Block`, `Fcall`, `Farg` and `Fdef` does not exist in the
  generator. These nodes are proved to fail.
- `Generator.run` (lib/9cc/generator.rb:8-11), the class method, is the constructor followed
  by `Generator.Generator.Run`.
- Which of the two `Node::Parser` classes is loaded last is a question of require order. Both
  are modelled, in `Legacy` and in `Grammar`/`NodeParser`.
- GeneratorEval.GenEval: stated only for lists of simple trees whose binary nodes come last.
  On other lists the value pushed by a binary node is whatever `rax` the following code left,
  which `GeneratorEval.BinaryBeforeMore` exhibits. Array operands, which leave several
  values, are not covered; `GeneratorProps.GenLeaves` gives their stack depth.
- GeneratorEval.OperandEval: stated only for operands that flatten to one simple tree. An
  array operand with several items leaves them all (`GeneratorProps.ArrayOperandLeaves`).
- GeneratorEval.StatementsEval: stated only for statements that each flatten to one simple
  tree. The parser's own output `[Arr(stmts)]` is a single statement of several trees;
  `GeneratorProps.ParserOutputLeaves` gives its depth but no value is proved for it.
- GeneratorProps.OperandDepth, GeneratorProps.GenDepth, GeneratorProps.StatementsDepth: stated
  for single simple trees. `GeneratorProps.GenLeaves` and `GeneratorProps.StatementsLeaves`
  give the depth for every accepted tree, arrays included.
- Generator.Generator.constructor: `outputs` is taken as a value. In the source `run` appends
  each `pop rax` to the very array the caller passed (lib/9cc/generator.rb:13-21), before
  `@outputs = @outputs + epilogue` switches to a fresh array. That aliasing is not modelled.
  No caller among the modelled files passes `outputs:`, and the default is a fresh `[]`.
- NodeParser.ParseProgram: the loop of `program` (lib/9cc/node/parser.rb:296-305) is not
  written as a loop. `statement` always leaves `[]` or `[Eof]`, so the loop returns on its
  first test. `Grammar.ProgramLoop` still states the whole loop.
