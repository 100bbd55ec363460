/**
 * The value types shared by the sieve and the report, and the sieve itself
 * (`clean_up_data`): per start label, drop the monomials that mention the
 * label or repeat a token, then drop the Symbols that vanished.
 */
module Paths {
  import opened Text
  import opened Seqs

  /** A formal sum of monomials; each monomial is a space-separated string of
      vertex labels. The term list is the Rust struct's `data` field. */
  datatype Symbol = Symbol(terms: seq<string>)

  /** The one failure both entry points report: the two arrays differ in length. */
  datatype Error = LengthMismatch(dataLen: nat, labelsLen: nat)

  datatype Result<T> = Ok(value: T) | Err(error: Error)

  /** The condition a monomial must meet to stay in the Symbol rooted at
      `start`: that label does not occur in it as a substring, and its
      single-space-separated tokens are pairwise distinct. */
  predicate Kept(start: string, term: string) {
    !Contains(term, start) && Distinct(Split(term, ' '))
  }

  /** The duplicate-token check as the source runs it: a fold over the tokens
      that threads a set of seen tokens and a boolean, never stopping early. */
  method SeenLabelsFold(tokens: seq<string>) returns (acc: bool)
    ensures acc <==> Distinct(tokens)
  {
    var seen: set<string> := {};
    acc := true;
    for k := 0 to |tokens|
      invariant seen == set j | 0 <= j < k :: tokens[j]
      invariant acc <==> Distinct(tokens[..k])
    {
      var el := tokens[k];
      if el in seen {
        acc := acc && false;
      } else {
        seen := seen + {el};
        acc := acc && true;
      }
      assert tokens[..k + 1] == tokens[..k] + [el];
    }
    assert tokens[..|tokens|] == tokens;
  }

  /** The monomial filter of one Symbol: the terms of `terms` that are `Kept`
      for `start`, in their original order. */
  function SieveTerms(start: string, terms: seq<string>): (r: seq<string>)
    ensures forall m :: m in r ==> Kept(start, m)
    ensures |r| <= |terms|
  {
    Filter(terms, m => Kept(start, m))
  }

  /** The monomial filter is exact and stable: a term is kept exactly when it
      is `Kept`, as often as the input has it, and in the input's order. */
  lemma SieveTermsStable(start: string, terms: seq<string>)
    ensures forall m :: m in SieveTerms(start, terms) <==> m in terms && Kept(start, m)
    ensures Subsequence(SieveTerms(start, terms), terms)
    ensures forall m :: multiset(SieveTerms(start, terms))[m] == if Kept(start, m) then multiset(terms)[m] else 0
  {
    FilterSubsequence(terms, m => Kept(start, m));
    FilterCounts(terms, m => Kept(start, m));
    FilterMembers(terms, m => Kept(start, m));
  }

  /** The `map` stage: every Symbol rebuilt from the terms kept for the label at
      the same position. */
  function RebuildAll(data: seq<Symbol>, labels: seq<string>): seq<Symbol>
    requires |data| == |labels|
  {
    seq(|data|, i requires 0 <= i < |data| => Symbol(SieveTerms(labels[i], data[i].terms)))
  }

  /** The `map` stage keeps one Symbol per position, and position `i` holds
      exactly the monomials of `data[i]` that are `Kept` for `labels[i]`, as
      often as `data[i]` has them and in `data[i]`'s order. */
  lemma RebuildAllStable(data: seq<Symbol>, labels: seq<string>)
    requires |data| == |labels|
    ensures |RebuildAll(data, labels)| == |data|
    ensures forall i :: 0 <= i < |data| ==> Subsequence(RebuildAll(data, labels)[i].terms, data[i].terms)
    ensures forall i, m :: 0 <= i < |data| ==>
              (m in RebuildAll(data, labels)[i].terms <==> m in data[i].terms && Kept(labels[i], m))
    ensures forall i, m :: 0 <= i < |data| ==>
              multiset(RebuildAll(data, labels)[i].terms)[m]
              == if Kept(labels[i], m) then multiset(data[i].terms)[m] else 0
  {
    forall i | 0 <= i < |data|
      ensures Subsequence(RebuildAll(data, labels)[i].terms, data[i].terms)
      ensures forall m :: m in RebuildAll(data, labels)[i].terms <==> m in data[i].terms && Kept(labels[i], m)
      ensures forall m :: multiset(RebuildAll(data, labels)[i].terms)[m]
                          == if Kept(labels[i], m) then multiset(data[i].terms)[m] else 0
    {
      SieveTermsStable(labels[i], data[i].terms);
    }
  }

  /** A rebuilt Symbol survives when it still has terms and is not zero in the
      producing algebra. */
  predicate Survives(s: Symbol, isZero: Symbol -> bool) {
    |s.terms| > 0 && !isZero(s)
  }

  /** The final `filter` stage over the rebuilt Symbols. */
  function DropVanished(syms: seq<Symbol>, isZero: Symbol -> bool): (r: seq<Symbol>)
    ensures forall s :: s in r ==> Survives(s, isZero)
    ensures |r| <= |syms|
  {
    Filter(syms, s => Survives(s, isZero))
  }

  /** `clean_up_data`. `isZero` is the zero test of the algebra that produced
      the Symbols. */
  function CleanUpData(data: seq<Symbol>, labels: seq<string>, isZero: Symbol -> bool): (r: Result<seq<Symbol>>)
    ensures r.Err? <==> |data| != |labels|
    ensures r.Err? ==> r.error == LengthMismatch(|data|, |labels|)
    ensures r.Ok? ==> |r.value| <= |data|
    ensures r.Ok? ==> forall s :: s in r.value ==> |s.terms| > 0 && !isZero(s)
  {
    if |data| != |labels| then
      Err(LengthMismatch(|data|, |labels|))
    else
      Ok(DropVanished(RebuildAll(data, labels), isZero))
  }

  /** The monomial filter is exact: the only order-preserving selection from
      `terms` that holds every `Kept` term, as often as `terms` does, and
      nothing else, is `SieveTerms(start, terms)`. */
  lemma SieveTermsUnique(start: string, terms: seq<string>, r: seq<string>)
    requires Subsequence(r, terms)
    requires forall m :: multiset(r)[m] == if Kept(start, m) then multiset(terms)[m] else 0
    ensures r == SieveTerms(start, terms)
  {
    FilterUnique(r, terms, m => Kept(start, m));
  }

  /** Unfolds the Symbol filter by one element. */
  lemma DropVanishedCons(x: Symbol, rest: seq<Symbol>, isZero: Symbol -> bool)
    ensures DropVanished([x] + rest, isZero)
         == (if Survives(x, isZero) then [x] else []) + DropVanished(rest, isZero)
  {
    assert ([x] + rest)[1..] == rest;
  }

  /** The labels of the Symbols that pass the drop stage, filtered in
      lockstep with `syms`. */
  function LockstepLabels(labels: seq<string>, syms: seq<Symbol>, isZero: Symbol -> bool): (ls: seq<string>)
    requires |labels| == |syms|
    ensures Subsequence(ls, labels)
    decreases |syms|
  {
    if |syms| == 0 then []
    else
      var rest := LockstepLabels(labels[1..], syms[1..], isZero);
      if Survives(syms[0], isZero) then [labels[0]] + rest else rest
  }

  /** Dropping Symbols in lockstep with their labels keeps every surviving
      Symbol paired with its own label. */
  lemma {:induction false} LockstepKept(labels: seq<string>, syms: seq<Symbol>, isZero: Symbol -> bool)
    requires |labels| == |syms|
    requires forall i, m :: 0 <= i < |syms| && m in syms[i].terms ==> Kept(labels[i], m)
    ensures var r := DropVanished(syms, isZero);
            var ls := LockstepLabels(labels, syms, isZero);
            |ls| == |r| && forall k, m :: 0 <= k < |r| && m in r[k].terms ==> Kept(ls[k], m)
    decreases |syms|
  {
    if |syms| > 0 {
      forall i, m | 0 <= i < |syms| - 1 && m in syms[1..][i].terms
        ensures Kept(labels[1..][i], m)
      {
        assert syms[1..][i] == syms[i + 1];
      }
      LockstepKept(labels[1..], syms[1..], isZero);
      assert syms == [syms[0]] + syms[1..];
      DropVanishedCons(syms[0], syms[1..], isZero);
    }
  }

  /** The start labels of the Symbols that survive the sieve, in order. */
  function SurvivingLabels(data: seq<Symbol>, labels: seq<string>, isZero: Symbol -> bool): (ls: seq<string>)
    requires |data| == |labels|
    ensures Subsequence(ls, labels)
  {
    LockstepLabels(labels, RebuildAll(data, labels), isZero)
  }

  /** The sieve's output stays aligned with the surviving labels, and every
      term kept in the k-th survivor is `Kept` for the k-th surviving label:
      it does not contain that label and repeats no token. */
  lemma CleanUpDataLabels(data: seq<Symbol>, labels: seq<string>, isZero: Symbol -> bool)
    requires |data| == |labels|
    ensures CleanUpData(data, labels, isZero).Ok?
    ensures var r := CleanUpData(data, labels, isZero).value;
            var ls := SurvivingLabels(data, labels, isZero);
            |ls| == |r| && forall k, m :: 0 <= k < |r| && m in r[k].terms ==> Kept(ls[k], m)
  {
    var syms := RebuildAll(data, labels);
    forall i, m | 0 <= i < |syms| && m in syms[i].terms
      ensures Kept(labels[i], m)
    {
      assert syms[i].terms == SieveTerms(labels[i], data[i].terms);
    }
    LockstepKept(labels, syms, isZero);
  }

  /** The sieve is a stable filter of the rebuilt Symbols: survivors keep
      their relative order, and a rebuilt Symbol that still has terms and is
      not zero is never dropped. */
  lemma CleanUpDataStable(data: seq<Symbol>, labels: seq<string>, isZero: Symbol -> bool)
    requires |data| == |labels|
    ensures var r := CleanUpData(data, labels, isZero).value;
            Subsequence(r, RebuildAll(data, labels))
            && forall s :: multiset(r)[s] == if Survives(s, isZero) then multiset(RebuildAll(data, labels))[s] else 0
  {
    FilterSubsequence(RebuildAll(data, labels), s => Survives(s, isZero));
    FilterCounts(RebuildAll(data, labels), s => Survives(s, isZero));
  }
}
