# Hamiltonian path sieve and report, in Dafny

A model of the core of `hamiltonian_cycles` (`src/lib.rs`). An upstream
algebra produces one `Symbol` per start vertex: a formal sum of monomials,
each monomial a space-separated string of vertex labels describing a walk.
This core does two things with the Symbols and their start labels:

- `clean_up_data` sieves them. For position `i` it keeps only the monomials of
  `data[i]` that do not contain `labels[i]` as a substring and whose tokens
  (split on a single space) are pairwise distinct. It then drops every rebuilt
  Symbol whose term list is empty or which the algebra calls zero.
- `pretty_print_hamiltonian_paths` renders them. Each position gets a block:
  `Starting at L:`, then one line `\tL m L` per monomial `m`, then a blank line.

Both first check that the two arrays have the same length and otherwise fail
with an error naming both lengths.

Files and modules:

- `text.dfy`, module `Text`: `Split` (Rust's `split(" ")`, with its inverse
  `Join`), `Contains` (`str::contains`), `Distinct`.
- `seqs.dfy`, module `Seqs`: the stable `Filter` behind `.filter(..).collect()`,
  and the `Subsequence` relation.
- `sieve.dfy`, module `Paths`: the `Symbol`, `Error` and `Result` types and the
  sieve (`CleanUpData`). The duplicate-token fold over a `HashSet` is the loop
  method `SeenLabelsFold`, proved equal to `Distinct`.
- `report.dfy`, module `Formatter`: the report as the string-building method
  `PrettyPrintHamiltonianPaths`, proved equal to the function `Report`, and
  lemmas about the report's lines.
- `scenarios.dfy`, module `Scenarios`: the `cleanup_tests` cases and a few more
  concrete cases.

`is_zero` is defined in the `symbolic_alg` module, which is not part of this
model. Every member that needs it takes it as a parameter `isZero: Symbol -> bool`.
Nothing is assumed about it. In particular it is not tied to emptiness.

Two details of the code that a reader may not expect:

- The self-label test (src/lib.rs:49) is substring containment, not token membership. Label
  `a` rejects `"ba c"` (`Scenarios.SubstringNotToken`), and the empty label
  rejects every monomial (`Scenarios.EmptyLabelKeepsNothing`).
- Monomials are split on one space character, not on whitespace (src/lib.rs:50). Adjacent
  spaces give empty tokens, and the empty monomial splits into one empty
  token, not into no tokens.

## Model

| member | source | states |
|---|---|---|
| `Text.Split` | src/lib.rs:50 | `split(" ")` gives at least one token, and no token contains the separator |
| `Text.JoinSplit` | src/lib.rs:50 | splitting loses nothing: joining the tokens with the separator gives back the monomial |
| `Text.SplitJoin` | src/lib.rs:50 | tokens without the separator, once joined, split back into exactly those tokens |
| `Text.ContainsIff` | src/lib.rs:49 | `contains` holds exactly when the label occurs at some offset of the monomial as a contiguous substring |
| `Seqs.Filter` | src/lib.rs:47-60 | the filtered list is no longer than the input and everything in it passes the test |
| `Seqs.FilterCounts` | src/lib.rs:47-60 | every accepted element is kept as often as the input has it; no rejected element is kept |
| `Seqs.FilterMembers` | src/lib.rs:47-60 | an element is in the result exactly when it is in the input and passes the test |
| `Seqs.FilterSubsequence` | src/lib.rs:47-60 | filtering never reorders: the result is a subsequence of the input |
| `Seqs.FilterUnique` | src/lib.rs:47-60 | any order-preserving selection with exactly the accepted elements and their multiplicities equals the filter |
| `Paths.SeenLabelsFold` | src/lib.rs:48-57 | the non-short-circuiting fold over a set of seen tokens returns true exactly when no token repeats |
| `Paths.SieveTerms` | src/lib.rs:44-60 | every monomial kept for a label avoids the label as a substring and has pairwise-distinct tokens |
| `Paths.SieveTermsStable` | src/lib.rs:44-60 | a monomial is kept exactly when it is in the input and passes both checks, as often as the input has it, in the input's order |
| `Paths.SieveTermsUnique` | src/lib.rs:44-60 | the rebuilt term list is the only order-preserving selection of all passing monomials |
| `Paths.RebuildAllStable` | src/lib.rs:38-62 | the map stage keeps one Symbol per position; position `i` holds exactly the monomials of `data[i]` that avoid `labels[i]` and repeat no token, as often as `data[i]` has them and in its order |
| `Paths.DropVanished` | src/lib.rs:63 | every Symbol that is kept has terms and is not zero; at most as many Symbols as the input |
| `Paths.CleanUpData` | src/lib.rs:29-66 | `Err` with both lengths exactly when the lengths differ; otherwise at most `data.len()` Symbols, each non-empty and not zero |
| `Paths.SurvivingLabels` | src/lib.rs:38-64 | the labels of the surviving Symbols, filtered in lockstep with them, are a subsequence of the labels |
| `Paths.LockstepKept` | src/lib.rs:61-64 | dropping Symbols in lockstep with their labels keeps every survivor paired with its own label |
| `Paths.CleanUpDataLabels` | src/lib.rs:38-64 | the k-th surviving Symbol pairs with the k-th surviving label, and each of its monomials avoids that label and repeats no token |
| `Paths.CleanUpDataStable` | src/lib.rs:61-64 | the result is a stable subsequence of the rebuilt Symbols that holds every surviving one, as often as it occurs |
| `Formatter.PrettyPrintHamiltonianPaths` | src/lib.rs:7-27 | `Err` with both lengths when the lengths differ; otherwise the string built by the nested loops is exactly `Report(data, labels)` |
| `Formatter.TermTextTerminated` | src/lib.rs:20-22 | the text the inner loop pushes for a block is the block's monomial lines, in order, each ended by a line break |
| `Formatter.ReportTerminated` | src/lib.rs:16-24 | the report is its header, monomial and blank lines, each ended by a line break |
| `Formatter.ReportSplitsIntoLines` | src/lib.rs:16-24 | when labels and monomials hold no line break, splitting the report at line breaks gives back exactly those lines |
| `Formatter.ReportAppend` | src/lib.rs:17-24 | the report of two concatenated inputs is the concatenation of their reports |
| `Formatter.ReportBlockAt` | src/lib.rs:17-24 | the block of position `i` sits between the report of the earlier positions and that of the later ones |
| `Formatter.BlockTermLines` | src/lib.rs:19-23 | the monomial lines of a block are exactly its monomials' lines, in order |
| `Formatter.ReportTermLineCount` | src/lib.rs:17-22 | the number of monomial lines equals the total number of monomials: the formatter drops none and adds none |
| `Formatter.ReportShowsEveryTerm` | src/lib.rs:20-22 | every monomial `m` of position `i` appears as its own line `\tL m L` with `L = labels[i]` |
| `Scenarios.RemoveNothing` | src/lib.rs:73-91 | `[["b c"],["c a"],["a b"]]` comes back unchanged |
| `Scenarios.RemoveMatchingLabel` | src/lib.rs:93-104 | `[["a b c"],["c a"],["a b c"]]` becomes `[["c a"]]` |
| `Scenarios.RemoveDuplicates` | src/lib.rs:106-117 | `[["c b c"],["c a c"],["a b"]]` becomes `[["a b"]]` |
| `Scenarios.Complex` | src/lib.rs:119-130 | `[["b c"],["c a c"],["a b c"]]` becomes `[["b c"]]` |
| `Scenarios.SubstringNotToken` | src/lib.rs:49 | label `a` rejects `"ba c"` although no token of it is `a` |
| `Scenarios.EmptyLabelKeepsNothing` | src/lib.rs:49 | the empty label rejects every monomial |
| `Scenarios.SieveLengthMismatch` | src/lib.rs:30-36 | two Symbols against three labels give the error `(2, 3)` |
| `Scenarios.ReportLengthMismatch` | src/lib.rs:8-14 | two Symbols against three labels give the error `(2, 3)` |
| `Scenarios.ReportExample` | src/lib.rs:16-24 | one Symbol with two monomials renders as its header, two path lines and a blank line |

## Left out

- `graphviz_io` (src/lib.rs:1): an export module outside this core; it is not part of this model.
- `symbolic_alg` (src/lib.rs:2, 5): `Symbol::new`, the algebra and the cancellation rule behind `is_zero` are not part of this model. A Symbol is modelled as its term list only, and `is_zero` is a parameter.
- The error message text (src/lib.rs:9-13, 31-35): the error carries the two lengths, not the formatted sentence.
- `HashSet` hashing and `clone`: modelled by a Dafny `set<string>` and value sequences.
- Machine integers: lengths are unbounded naturals; `usize` limits play no part in this code.
- Bytes versus characters: `str::contains` and `split` work on UTF-8 bytes, the model on characters. For valid strings the two agree.
