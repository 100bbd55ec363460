/**
 * Concrete cases: the four `cleanup_tests` cases, with labels a, b, c and
 * one monomial per Symbol, the length mismatch, the substring reading of the
 * self-label test, and one small report. The zero test of the algebra is a
 * parameter; each sieve case only asks that the Symbols it expects to
 * survive are not zero.
 */
module Scenarios {
  import opened Text
  import opened Paths
  import opened Formatter

  const Labels: seq<string> := ["a", "b", "c"]

  /** A one-term Symbol keeps its term exactly when the term is `Kept`. */
  lemma SieveSingleton(start: string, m: string)
    ensures SieveTerms(start, [m]) == if Kept(start, m) then [m] else []
  {
    SieveTermsStable(start, [m]);
    var r := SieveTerms(start, [m]);
    if |r| == 1 {
      assert r[0] in r;
    }
  }

  /** What the sieve leaves of a one-term Symbol rooted at `start`. */
  function Survivor(start: string, m: string, isZero: Symbol -> bool): seq<Symbol> {
    if Kept(start, m) && !isZero(Symbol([m])) then [Symbol([m])] else []
  }

  /** The Symbol filter over three Symbols, unfolded. */
  lemma DropThree(x0: Symbol, x1: Symbol, x2: Symbol, isZero: Symbol -> bool)
    ensures DropVanished([x0, x1, x2], isZero)
         == (if Survives(x0, isZero) then [x0] else [])
          + (if Survives(x1, isZero) then [x1] else [])
          + (if Survives(x2, isZero) then [x2] else [])
  {
    DropVanishedCons(x2, [], isZero);
    assert [x2] + [] == [x2];
    DropVanishedCons(x1, [x2], isZero);
    assert [x1] + [x2] == [x1, x2];
    DropVanishedCons(x0, [x1, x2], isZero);
    assert [x0] + [x1, x2] == [x0, x1, x2];
  }

  /** The sieve over three one-term Symbols, one per label a, b, c. */
  lemma CleanUpThree(m0: string, m1: string, m2: string, isZero: Symbol -> bool)
    ensures CleanUpData([Symbol([m0]), Symbol([m1]), Symbol([m2])], Labels, isZero)
         == Ok(Survivor("a", m0, isZero) + Survivor("b", m1, isZero) + Survivor("c", m2, isZero))
  {
    var data := [Symbol([m0]), Symbol([m1]), Symbol([m2])];
    SieveSingleton("a", m0);
    SieveSingleton("b", m1);
    SieveSingleton("c", m2);
    var x0 := Symbol(SieveTerms("a", [m0]));
    var x1 := Symbol(SieveTerms("b", [m1]));
    var x2 := Symbol(SieveTerms("c", [m2]));
    assert RebuildAll(data, Labels) == [x0, x1, x2];
    DropThree(x0, x1, x2, isZero);
  }

  /** A two-token monomial splits into its two tokens. */
  lemma TwoTokens(x: string, y: string)
    requires ' ' !in x && ' ' !in y
    ensures Split(x + [' '] + y, ' ') == [x, y]
  {
    SplitCons(x, y, ' ');
    SplitNoSeparator(y, ' ');
  }

  /** A three-token monomial splits into its three tokens. */
  lemma ThreeTokens(x: string, y: string, z: string)
    requires ' ' !in x && ' ' !in y && ' ' !in z
    ensures Split(x + [' '] + y + [' '] + z, ' ') == [x, y, z]
  {
    assert x + [' '] + y + [' '] + z == x + [' '] + (y + [' '] + z);
    SplitCons(x, y + [' '] + z, ' ');
    TwoTokens(y, z);
  }

  /** `test_remove_nothing`: no monomial mentions its own start label or
      repeats a token, so all three Symbols come back unchanged. */
  lemma RemoveNothing(isZero: Symbol -> bool)
    requires !isZero(Symbol(["b c"])) && !isZero(Symbol(["c a"])) && !isZero(Symbol(["a b"]))
    ensures CleanUpData([Symbol(["b c"]), Symbol(["c a"]), Symbol(["a b"])], Labels, isZero)
         == Ok([Symbol(["b c"]), Symbol(["c a"]), Symbol(["a b"])])
  {
    CleanUpThree("b c", "c a", "a b", isZero);
    KeptPair('a', 'b', 'c');
    KeptPair('b', 'c', 'a');
    KeptPair('c', 'a', 'b');
    assert Survivor("a", "b c", isZero) == [Symbol(["b c"])];
    assert Survivor("b", "c a", isZero) == [Symbol(["c a"])];
    assert Survivor("c", "a b", isZero) == [Symbol(["a b"])];
    assert [Symbol(["b c"])] + [Symbol(["c a"])] + [Symbol(["a b"])] == [Symbol(["b c"]), Symbol(["c a"]), Symbol(["a b"])];
  }

  /** `test_remove_matching_label`: the first and third monomials contain their
      own start label, so their Symbols vanish. */
  lemma RemoveMatchingLabel(isZero: Symbol -> bool)
    requires !isZero(Symbol(["c a"]))
    ensures CleanUpData([Symbol(["a b c"]), Symbol(["c a"]), Symbol(["a b c"])], Labels, isZero)
         == Ok([Symbol(["c a"])])
  {
    CleanUpThree("a b c", "c a", "a b c", isZero);
    MentionsAAndC();
    KeptPair('b', 'c', 'a');
    assert Survivor("a", "a b c", isZero) == [];
    assert Survivor("b", "c a", isZero) == [Symbol(["c a"])];
    assert Survivor("c", "a b c", isZero) == [];
    assert [] + [Symbol(["c a"])] + [] == [Symbol(["c a"])];
  }

  /** `test_remove_duplicates`: the first two monomials repeat a token. */
  lemma RemoveDuplicates(isZero: Symbol -> bool)
    requires !isZero(Symbol(["a b"]))
    ensures CleanUpData([Symbol(["c b c"]), Symbol(["c a c"]), Symbol(["a b"])], Labels, isZero)
         == Ok([Symbol(["a b"])])
  {
    CleanUpThree("c b c", "c a c", "a b", isZero);
    RepeatsC();
    KeptPair('c', 'a', 'b');
    assert Survivor("a", "c b c", isZero) == [];
    assert Survivor("b", "c a c", isZero) == [];
    assert Survivor("c", "a b", isZero) == [Symbol(["a b"])];
    assert [] + [] + [Symbol(["a b"])] == [Symbol(["a b"])];
  }

  /** `test_complex`: only the first Symbol survives. */
  lemma Complex(isZero: Symbol -> bool)
    requires !isZero(Symbol(["b c"]))
    ensures CleanUpData([Symbol(["b c"]), Symbol(["c a c"]), Symbol(["a b c"])], Labels, isZero)
         == Ok([Symbol(["b c"])])
  {
    CleanUpThree("b c", "c a c", "a b c", isZero);
    KeptPair('a', 'b', 'c');
    RepeatsC();
    MentionsAAndC();
    assert Survivor("a", "b c", isZero) == [Symbol(["b c"])];
    assert Survivor("b", "c a c", isZero) == [];
    assert Survivor("c", "a b c", isZero) == [];
    assert [Symbol(["b c"])] + [] + [] == [Symbol(["b c"])];
  }

  /** `"a b c"` contains both `a` and `c`. */
  lemma MentionsAAndC()
    ensures !Kept("a", "a b c") && !Kept("c", "a b c")
  {
    assert IsPrefix("a", "a b c");
    assert Contains("a b c", "c") by {
      assert IsPrefix("c", "c");
      assert "a b c"[1..][1..][1..][1..] == "c";
    }
  }

  /** `"c b c"` and `"c a c"` repeat the token `c`. */
  lemma RepeatsC()
    ensures !Kept("a", "c b c") && !Kept("b", "c a c")
  {
    ThreeTokens("c", "b", "c");
    assert "c b c" == "c" + [' '] + "b" + [' '] + "c";
    assert Split("c b c", ' ')[0] == Split("c b c", ' ')[2];
    ThreeTokens("c", "a", "c");
    assert "c a c" == "c" + [' '] + "a" + [' '] + "c";
    assert Split("c a c", ' ')[0] == Split("c a c", ' ')[2];
  }

  /** A two-token monomial `x y` of one-character labels, neither of them
      the start label, is kept. */
  lemma KeptPair(start: char, x: char, y: char)
    requires x != y && start != x && start != y
    requires start != ' ' && x != ' ' && y != ' '
    ensures Kept([start], [x, ' ', y])
  {
    TwoTokens([x], [y]);
    assert [x, ' ', y] == [x] + [' '] + [y];
    var s: string := [x, ' ', y];
    assert s[1..][1..] == [y] && s[1..][1..][1..] == [];
    assert !IsPrefix([start], [y]) by {
      assert [y][..1] == [y];
    }
    assert !Contains(s[1..][1..], [start]);
    assert !Contains(s[1..], [start]);
    assert !Contains(s, [start]);
  }

  /** The self-label test is by substring, not by token: label `a` rejects
      `"ba c"` although no token of it equals `a`. */
  lemma SubstringNotToken()
    ensures !Kept("a", "ba c")
    ensures "a" !in Split("ba c", ' ')
  {
    assert Contains("ba c", "a") by {
      assert Contains("a c", "a");
    }
    SplitCons("ba", "c", ' ');
    SplitNoSeparator("c", ' ');
  }

  /** The empty label occurs in every monomial, so it rejects them all. */
  lemma EmptyLabelRejects(m: string)
    ensures !Kept("", m)
  {
    assert IsPrefix("", m);
  }

  /** Hence a Symbol rooted at the empty label loses all of its terms. */
  lemma EmptyLabelKeepsNothing(terms: seq<string>)
    ensures SieveTerms("", terms) == []
  {
    var r := SieveTerms("", terms);
    if |r| > 0 {
      EmptyLabelRejects(r[0]);
      assert false;
    }
  }

  /** Two Symbols against three labels: the sieve reports both lengths. */
  lemma SieveLengthMismatch(isZero: Symbol -> bool)
    ensures CleanUpData([Symbol(["b c"]), Symbol(["c a"])], Labels, isZero) == Err(LengthMismatch(2, 3))
  {
  }

  /** Two Symbols against three labels: the report is not produced either. */
  method ReportLengthMismatch() returns (r: Result<string>)
    ensures r == Err(LengthMismatch(2, 3))
  {
    r := PrettyPrintHamiltonianPaths([Symbol(["b c"]), Symbol(["c a"])], Labels);
  }

  /** One Symbol with two monomials: header, two bracketed path lines, blank line. */
  lemma ReportExample()
    ensures Report([Symbol(["b c", "c b"])], ["a"])
         == "Starting at a:\n\ta b c a\n\ta c b a\n\n"
  {
    var terms := ["b c", "c b"];
    assert terms[..1][..0] == [];
    assert TermText("a", terms[..1]) == "\ta b c a\n";
    assert terms[..2] == terms;
    assert TermText("a", terms) == "\ta b c a\n\ta c b a\n";
    assert [Symbol(terms)][..0] == [] && ["a"][..0] == [];
  }
}
