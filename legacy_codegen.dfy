/**
 * The legacy expression parser of lib/9cc/node.rb against the code generator of
 * lib/9cc/generator.rb: whatever `Parser#run` accepts, the generator turns into code.
 * The parser only builds numbers, the eight binary operators and arrays of those, and
 * the generator has a branch for each of them once the arrays are flattened; no
 * variable is ever interned, so the frame stays empty.
 */
module LegacyCodegen {
  import opened Outcomes
  import opened Tokens
  import opened Ast
  import opened Generator
  import Legacy

  predicate AllArith(ns: seq<Node>)
  {
    forall i :: 0 <= i < |ns| ==> Arith(ns[i])
  }

  /** Flattening an arithmetic tree gives arithmetic trees. */
  lemma {:induction false} FlattenArith(x: Node)
    requires Arith(x)
    ensures AllArith(Flatten(x))
    decreases x, 1
  {
    if x.Arr? {
      FlattenAllArith(x.items);
    }
  }

  lemma {:induction false} FlattenAllArith(xs: seq<Node>)
    requires AllArith(xs)
    ensures AllArith(FlattenAll(xs))
    decreases xs, 0
  {
    if xs != [] {
      FlattenArith(xs[0]);
      FlattenAllArith(xs[1..]);
      var a, b := Flatten(xs[0]), FlattenAll(xs[1..]);
      assert forall i :: 0 <= i < |a + b| ==> (a + b)[i] == (if i < |a| then a[i] else b[i - |a|]);
    }
  }

  /**
   * The generator succeeds on every flat list of arithmetic trees, and the frame's names
   * do not change (there is no variable to intern).
   */
  lemma {:induction false} GenArith(ns: seq<Node>, names: seq<string>)
    requires AllArith(ns) && IsFlat(ns)
    ensures Gen(ns, names).Ok? && Gen(ns, names).value.names == names
    decreases SizeList(ns)
  {
    if ns != [] {
      var n, rest := ns[0], ns[1..];
      assert SizeList(ns) == Size(n) + SizeList(rest);
      assert Arith(n) && !n.Arr?;
      assert AllArith(rest) && IsFlat(rest) by {
        assert forall i :: 0 <= i < |rest| ==> rest[i] == ns[i + 1];
      }
      GenArith(rest, names);
      if !n.Num? {
        assert IsBinary(n);
        BinarySize(n);
        FlattenSize(n.lhs);
        FlattenSize(n.rhs);
        FlattenArith(n.lhs);
        FlattenArith(n.rhs);
        GenArith(Flatten(n.lhs), names);
        GenArith(Flatten(n.rhs), names);
        GenHead(ns, names);
        GenLeftAndRightParts(n, rest, names,
          Gen(Flatten(n.lhs), names).value, Gen(Flatten(n.rhs), names).value, Gen(rest, names).value);
      }
    }
  }

  /** Every expression `Parser#run` accepts compiles: the generator's listing for it exists. */
  lemma LegacyOutputCompiles(ts: seq<Token>, outputs: seq<Asm.Line>)
    requires Legacy.Run(ts).Ok?
    ensures GenStatements([Legacy.Run(ts).value], []).Ok?
    ensures GenStatements([Legacy.Run(ts).value], []).value.names == []
    ensures Listing([Legacy.Run(ts).value], outputs).Ok?
  {
    var x := Legacy.Run(ts).value;
    FlattenSize(x);
    FlattenArith(x);
    GenArith(Flatten(x), []);
    assert [x][1..] == [];
  }
}
