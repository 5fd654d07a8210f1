/**
 * The whitespace-splitting tokenizer of lib/9cc/token.rb (copied verbatim into 9cc.rb).
 * The input is cut into whitespace-separated pieces; `+` and `-` become reserved
 * symbols, digit runs become numbers, anything else is an error at the piece's index,
 * and an end-of-input token is always appended.
 */
module Tokens {
  import opened Outcomes
  import opened Decimal

  /** A token; two tokens with equal fields are equal. */
  datatype Token = Reserved(symbol: string) | Num(value: nat) | Ident(name: string) | Ret | Eof

  /** `rest` is what is left of `ts` after some tokens were taken from its front. */
  predicate Suffix(rest: seq<Token>, ts: seq<Token>)
  {
    |rest| <= |ts| && ts[|ts| - |rest|..] == rest
  }

  lemma SuffixTrans(a: seq<Token>, b: seq<Token>, c: seq<Token>)
    requires Suffix(a, b) && Suffix(b, c)
    ensures Suffix(a, c)
  {
    assert c[|c| - |a|..] == c[|c| - |b|..][|b| - |a|..];
  }

  /** The characters Ruby's `split(' ')` separates on: space, and tab up to carriage return. */
  predicate IsSpace(c: char) { c == ' ' || '\t' <= c <= '\r' }

  predicate NoSpace(s: string) { forall i :: 0 <= i < |s| ==> !IsSpace(s[i]) }

  /** What `split(' ')` can yield: a non-empty run without whitespace. */
  predicate IsPiece(s: string) { |s| > 0 && NoSpace(s) }

  /** The longest whitespace-free prefix of `s`. */
  function Word(s: string): (w: string)
    ensures |w| <= |s| && w == s[..|w|] && NoSpace(w)
    ensures |w| < |s| ==> IsSpace(s[|w|])
  {
    if s == [] || IsSpace(s[0]) then [] else [s[0]] + Word(s[1..])
  }

  /** Ruby's `s.split(' ')`: the maximal whitespace-free runs of `s`, in order. */
  function Split(s: string): (pieces: seq<string>)
    ensures forall i :: 0 <= i < |pieces| ==> IsPiece(pieces[i])
    decreases |s|
  {
    if s == [] then []
    else if IsSpace(s[0]) then Split(s[1..])
    else var w := Word(s); [w] + Split(s[|w|..])
  }

  /** The pieces written out again, one space between neighbours. */
  function Join(pieces: seq<string>): string
  {
    if |pieces| == 0 then ""
    else if |pieces| == 1 then pieces[0]
    else pieces[0] + " " + Join(pieces[1..])
  }

  /** The regular expression `\A[1-9]*[0-9]+\z` that decides whether a piece is a number. */
  predicate MatchesNumberPattern(s: string)
  {
    exists k :: 0 <= k < |s| && NonZeroDigits(s[..k]) && IsDigits(s[k..])
  }

  predicate NonZeroDigits(s: string) { forall i :: 0 <= i < |s| ==> '1' <= s[i] <= '9' }

  /** How one piece is handled by the `case` of `tokenize`. */
  datatype Lexeme = Skip | Emit(token: Token) | Reject

  function Classify(piece: string): Lexeme
  {
    if piece == " " then Skip
    else if piece == "+" || piece == "-" then Emit(Reserved(piece))
    else if MatchesNumberPattern(piece) then
      NumberPatternIsDigits(piece);
      Emit(Num(DecimalValue(piece)))
    else Reject
  }

  /** The tokens of a list of pieces, ending with Eof, or the index of the first rejected piece. */
  function Lex(pieces: seq<string>): Result<seq<Token>, nat>
  {
    if pieces == [] then Ok([Eof])
    else
      match Lex(pieces[1..])
      case Err(at) => if Classify(pieces[0]).Reject? then Err(0) else Err(at + 1)
      case Ok(rest) =>
        match Classify(pieces[0])
        case Skip => Ok(rest)
        case Emit(t) => Ok([t] + rest)
        case Reject => Err(0)
  }

  /** `Token.tokenize`: the loop over the split pieces, then the trailing Eof. */
  method Tokenize(input: string) returns (r: Result<seq<Token>, nat>)
    ensures r == Lex(Split(input))
  {
    var pieces := Split(input);
    var tokens: seq<Token> := [];
    assert pieces[0..] == pieces;
    assert Lex(pieces).Ok? ==> [] + Lex(pieces).value == Lex(pieces).value;
    for i := 0 to |pieces|
      invariant forall j :: 0 <= j < i ==> !Classify(pieces[j]).Reject?
      invariant Lex(pieces) == Prefixed(tokens, Lex(pieces[i..]), i)
    {
      assert pieces[i..][1..] == pieces[i + 1..];
      if !Classify(pieces[i]).Reject? { LexStep(pieces[i..], tokens, i); }
      match Classify(pieces[i])
      case Skip =>
      case Emit(t) =>
        tokens := tokens + [t];
      case Reject =>
        return Err(i);
    }
    tokens := tokens + [Eof];
    assert pieces[|pieces|..] == [];
    return Ok(tokens);
  }

  /** `Lex(pieces)` seen after `shift` pieces whose tokens `done` are already out. */
  function Prefixed(done: seq<Token>, tail: Result<seq<Token>, nat>, shift: nat): Result<seq<Token>, nat>
  {
    match tail
    case Ok(ts) => Ok(done + ts)
    case Err(at) => Err(at + shift)
  }

  lemma LexStep(pieces: seq<string>, done: seq<Token>, shift: nat)
    requires pieces != [] && !Classify(pieces[0]).Reject?
    ensures Prefixed(done, Lex(pieces), shift) ==
      Prefixed(done + (if Classify(pieces[0]).Emit? then [Classify(pieces[0]).token] else []),
               Lex(pieces[1..]), shift + 1)
  {
    var head := if Classify(pieces[0]).Emit? then [Classify(pieces[0]).token] else [];
    LexHead(pieces);
    PrefixedTwice(done, head, Lex(pieces[1..]), shift);
  }

  lemma PrefixedTwice(done: seq<Token>, head: seq<Token>, tail: Result<seq<Token>, nat>, shift: nat)
    ensures Prefixed(done, Prefixed(head, tail, 1), shift) == Prefixed(done + head, tail, shift + 1)
  {
    if tail.Ok? {
      assert done + (head + tail.value) == done + head + tail.value;
    }
  }

  /** An accepted first piece contributes its token (if any) in front of the rest's. */
  lemma LexHead(pieces: seq<string>)
    requires pieces != [] && !Classify(pieces[0]).Reject?
    ensures Lex(pieces) == Prefixed(if Classify(pieces[0]).Emit? then [Classify(pieces[0]).token] else [],
                                    Lex(pieces[1..]), 1)
  {
    if Lex(pieces[1..]).Ok? && Classify(pieces[0]).Skip? {
      assert [] + Lex(pieces[1..]).value == Lex(pieces[1..]).value;
    }
  }

  // ----- properties of the splitting -----

  /** A whitespace-free piece followed by whitespace or nothing is exactly one Word. */
  lemma {:induction false} WordOfPiece(p: string, rest: string)
    requires NoSpace(p)
    requires rest == [] || IsSpace(rest[0])
    ensures Word(p + rest) == p
    decreases |p|
  {
    if p != [] {
      assert (p + rest)[1..] == p[1..] + rest;
      WordOfPiece(p[1..], rest);
    }
  }

  /** Splitting the pieces joined by single spaces gives the same pieces back. */
  lemma {:induction false} SplitJoin(pieces: seq<string>)
    requires forall i :: 0 <= i < |pieces| ==> IsPiece(pieces[i])
    ensures Split(Join(pieces)) == pieces
    decreases |pieces|
  {
    if |pieces| == 1 {
      WordOfPiece(pieces[0], "");
      assert pieces[0] + "" == pieces[0];
      assert pieces[0][|pieces[0]|..] == [];
    } else if |pieces| > 1 {
      var p, rest := pieces[0], Join(pieces[1..]);
      var s := p + " " + rest;
      WordOfPiece(p, " " + rest);
      assert s == p + (" " + rest);
      assert s[|p|..] == " " + rest;
      assert (" " + rest)[1..] == rest;
      SplitJoin(pieces[1..]);
      assert Split(s) == [p] + Split(rest);
    }
  }

  /** Whitespace between or around pieces never becomes a piece of its own. */
  lemma {:induction false} SplitIgnoresLeadingSpace(c: char, s: string)
    requires IsSpace(c)
    ensures Split([c] + s) == Split(s)
  {
    assert ([c] + s)[1..] == s;
  }

  // ----- properties of number recognition -----

  /** `[1-9]*[0-9]+` accepts exactly the non-empty digit strings, leading zeros included. */
  lemma NumberPatternIsDigits(s: string)
    ensures MatchesNumberPattern(s) <==> IsDigits(s)
  {
    if IsDigits(s) {
      assert s[..0] == [] && s[0..] == s;
      assert NonZeroDigits(s[..0]);
    }
    if MatchesNumberPattern(s) {
      var k :| 0 <= k < |s| && NonZeroDigits(s[..k]) && IsDigits(s[k..]);
      forall i | 0 <= i < |s| ensures IsDigit(s[i]) {
        if i < k { assert s[..k][i] == s[i]; } else { assert s[k..][i - k] == s[i]; }
      }
    }
  }

  /** A piece becomes Reserved exactly when it is `+` or `-`, and carries that symbol. */
  lemma ClassifyReserved(piece: string)
    ensures Classify(piece).Emit? && Classify(piece).token.Reserved? <==> piece == "+" || piece == "-"
    ensures Classify(piece).Emit? && Classify(piece).token.Reserved? ==> Classify(piece).token.symbol == piece
  {
  }

  /** A piece becomes a number exactly when it is a digit run, and carries its decimal value. */
  lemma ClassifyNumber(piece: string)
    ensures Classify(piece).Emit? && Classify(piece).token.Num? <==> IsDigits(piece)
    ensures IsDigits(piece) ==> Classify(piece) == Emit(Num(DecimalValue(piece)))
  {
    NumberPatternIsDigits(piece);
  }

  /** Every other piece is rejected; in particular no piece of a split is ever skipped. */
  lemma ClassifyPiece(piece: string)
    requires IsPiece(piece)
    ensures !Classify(piece).Skip?
    ensures Classify(piece).Reject? <==> piece != "+" && piece != "-" && !IsDigits(piece)
  {
    NumberPatternIsDigits(piece);
    assert piece != " " by { assert !IsSpace(piece[0]); }
  }

  // ----- properties of tokenize -----

  /** Lex succeeds exactly when no piece is rejected. */
  lemma {:induction false} LexAccepts(pieces: seq<string>)
    ensures Lex(pieces).Ok? <==> forall i :: 0 <= i < |pieces| ==> !Classify(pieces[i]).Reject?
    decreases |pieces|
  {
    if pieces != [] {
      LexAccepts(pieces[1..]);
      assert forall i :: 1 <= i < |pieces| ==> pieces[1..][i - 1] == pieces[i];
    }
  }

  /** On split pieces, a successful Lex yields one token per piece, in piece order, then Eof. */
  lemma {:induction false} LexTokens(pieces: seq<string>)
    requires forall i :: 0 <= i < |pieces| ==> IsPiece(pieces[i])
    requires Lex(pieces).Ok?
    ensures var ts := Lex(pieces).value;
      && |ts| == |pieces| + 1 && ts[|pieces|] == Eof
      && (forall i :: 0 <= i < |pieces| ==> Classify(pieces[i]) == Emit(ts[i]) && ts[i] != Eof)
    decreases |pieces|
  {
    if pieces != [] {
      var tail := pieces[1..];
      ClassifyPiece(pieces[0]);
      assert forall i :: 0 <= i < |tail| ==> tail[i] == pieces[i + 1];
      LexTokens(tail);
      var rest := Lex(tail).value;
      var ts := Lex(pieces).value;
      assert ts == [Classify(pieces[0]).token] + rest;
      forall i | 0 <= i < |pieces|
        ensures Classify(pieces[i]) == Emit(ts[i]) && ts[i] != Eof
      {
        if i > 0 {
          assert ts[i] == rest[i - 1] && pieces[i] == tail[i - 1];
        }
      }
    }
  }

  /** A failing Lex reports the index of the first rejected piece. */
  lemma {:induction false} LexFailure(pieces: seq<string>)
    requires Lex(pieces).Err?
    ensures var at := Lex(pieces).error;
      && at < |pieces| && Classify(pieces[at]).Reject?
      && forall i :: 0 <= i < at ==> !Classify(pieces[i]).Reject?
    decreases |pieces|
  {
    if !Classify(pieces[0]).Reject? {
      var tail := pieces[1..];
      LexFailure(tail);
      assert forall i :: 0 <= i < |tail| ==> tail[i] == pieces[i + 1];
    }
  }

  /**
   * On split pieces, a successful Lex yields one token per piece, in piece order, followed by
   * exactly one Eof; a failure reports the index of the first rejected piece.
   */
  lemma LexPieces(pieces: seq<string>)
    requires forall i :: 0 <= i < |pieces| ==> IsPiece(pieces[i])
    ensures Lex(pieces).Ok? <==> forall i :: 0 <= i < |pieces| ==> !Classify(pieces[i]).Reject?
    ensures Lex(pieces).Ok? ==>
      var ts := Lex(pieces).value;
      && |ts| == |pieces| + 1 && ts[|pieces|] == Eof
      && (forall i :: 0 <= i < |pieces| ==> Classify(pieces[i]) == Emit(ts[i]) && ts[i] != Eof)
    ensures Lex(pieces).Err? ==>
      var at := Lex(pieces).error;
      && at < |pieces| && Classify(pieces[at]).Reject?
      && forall i :: 0 <= i < at ==> !Classify(pieces[i]).Reject?
  {
    LexAccepts(pieces);
    if Lex(pieces).Ok? {
      LexTokens(pieces);
    } else {
      LexFailure(pieces);
    }
  }

  /** The two tokenizers never produce Eof except as the final token. */
  lemma TokenizeEndsWithSingleEof(input: string)
    ensures Lex(Split(input)).Ok? ==>
      var ts := Lex(Split(input)).value;
      |ts| == |Split(input)| + 1 && ts[|ts| - 1] == Eof && Eof !in ts[..|ts| - 1]
  {
    LexPieces(Split(input));
  }
}
