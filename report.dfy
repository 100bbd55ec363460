/**
 * The path report (`pretty_print_hamiltonian_paths`): one block per start
 * label, made of a header line, one tab-indented line per monomial and a
 * blank line.
 */
module Formatter {
  import opened Text
  import opened Seqs
  import opened Paths

  /** The header of the block for `start`, without its line break. */
  function HeaderLine(start: string): string {
    "Starting at " + start + ":"
  }

  /** The line for monomial `m` of the block for `start`, without its line
      break: the path leaves `start`, walks `m` and returns to `start`. */
  function TermLine(start: string, m: string): string {
    "\t" + start + " " + m + " " + start
  }

  /** The lines of the block for `start`, one per monomial, in order. */
  function TermLineSeq(start: string, terms: seq<string>): seq<string> {
    seq(|terms|, k requires 0 <= k < |terms| => TermLine(start, terms[k]))
  }

  /** Every line followed by a line break. */
  function Terminated(lines: seq<string>): string {
    if |lines| == 0 then "" else lines[0] + "\n" + Terminated(lines[1..])
  }

  /** The text pushed for the monomials of one block. */
  function TermText(start: string, terms: seq<string>): string {
    if |terms| == 0 then ""
    else TermText(start, terms[..|terms| - 1]) + TermLine(start, terms[|terms| - 1]) + "\n"
  }

  /** The text pushed for one start label. */
  function Block(start: string, terms: seq<string>): string {
    HeaderLine(start) + "\n" + TermText(start, terms) + "\n"
  }

  /** The whole report: the blocks in input order. */
  function Report(data: seq<Symbol>, labels: seq<string>): string
    requires |data| == |labels|
  {
    if |data| == 0 then ""
    else
      var n := |data| - 1;
      Report(data[..n], labels[..n]) + Block(labels[n], data[n].terms)
  }

  /** `pretty_print_hamiltonian_paths`: the length check, then a string built
      by appending, block after block and line after line. */
  method PrettyPrintHamiltonianPaths(data: seq<Symbol>, labels: seq<string>) returns (r: Result<string>)
    ensures |data| != |labels| ==> r == Err(LengthMismatch(|data|, |labels|))
    ensures |data| == |labels| ==> r == Ok(Report(data, labels))
  {
    if |data| != |labels| {
      return Err(LengthMismatch(|data|, |labels|));
    }
    var output := "";
    for i := 0 to |data|
      invariant output == Report(data[..i], labels[..i])
    {
      var start := labels[i];
      var terms := data[i].terms;
      ghost var before := output;
      output := output + ("Starting at " + start + ":\n");
      assert output == before + HeaderLine(start) + "\n";
      for j := 0 to |terms|
        invariant output == before + HeaderLine(start) + "\n" + TermText(start, terms[..j])
      {
        output := output + ("\t" + start + " " + terms[j] + " " + start + "\n");
        TermTextSnoc(start, terms, j);
      }
      output := output + "\n";
      assert terms[..|terms|] == terms;
      ReportSnoc(data[..i], labels[..i], data[i], labels[i], data[..i + 1], labels[..i + 1]);
    }
    assert data[..|data|] == data && labels[..|labels|] == labels;
    return Ok(output);
  }

  /** One more monomial appends its line. */
  lemma TermTextSnoc(start: string, terms: seq<string>, j: nat)
    requires j < |terms|
    ensures TermText(start, terms[..j + 1]) == TermText(start, terms[..j]) + TermLine(start, terms[j]) + "\n"
  {
    assert terms[..j + 1][..j] == terms[..j];
  }

  /** The report's lines, block after block. */
  function ReportLines(data: seq<Symbol>, labels: seq<string>): seq<string>
    requires |data| == |labels|
  {
    if |data| == 0 then []
    else
      var n := |data| - 1;
      ReportLines(data[..n], labels[..n]) + BlockLines(labels[n], data[n].terms)
  }

  /** The lines of one block: header, one line per monomial, blank line. */
  function BlockLines(start: string, terms: seq<string>): seq<string> {
    [HeaderLine(start)] + TermLineSeq(start, terms) + [""]
  }

  lemma {:induction false} TerminatedAppend(a: seq<string>, b: seq<string>)
    ensures Terminated(a + b) == Terminated(a) + Terminated(b)
    decreases |a|
  {
    if |a| == 0 {
      assert a + b == b;
    } else {
      assert (a + b)[1..] == a[1..] + b;
      TerminatedAppend(a[1..], b);
    }
  }

  /** The text the inner loop pushes for a block is that block's monomial
      lines, in order, each ended by a line break. */
  lemma {:induction false} TermTextTerminated(start: string, terms: seq<string>)
    ensures TermText(start, terms) == Terminated(TermLineSeq(start, terms))
    decreases |terms|
  {
    if |terms| > 0 {
      var n := |terms| - 1;
      TermTextTerminated(start, terms[..n]);
      assert TermLineSeq(start, terms) == TermLineSeq(start, terms[..n]) + [TermLine(start, terms[n])];
      TerminatedAppend(TermLineSeq(start, terms[..n]), [TermLine(start, terms[n])]);
    }
  }

  /** The report is exactly its lines, each ended by a line break. */
  lemma {:induction false} ReportTerminated(data: seq<Symbol>, labels: seq<string>)
    requires |data| == |labels|
    ensures Report(data, labels) == Terminated(ReportLines(data, labels))
    decreases |data|
  {
    if |data| > 0 {
      var n := |data| - 1;
      ReportTerminated(data[..n], labels[..n]);
      var start, terms := labels[n], data[n].terms;
      TermTextTerminated(start, terms);
      TerminatedAppend([HeaderLine(start)], TermLineSeq(start, terms));
      TerminatedAppend([HeaderLine(start)] + TermLineSeq(start, terms), [""]);
      TerminatedAppend(ReportLines(data[..n], labels[..n]), BlockLines(start, terms));
    }
  }

  /** Splitting newline-free lines, each ended by a line break, at the line
      breaks gives the lines back, followed by the empty text after the last
      break. */
  lemma {:induction false} SplitTerminated(lines: seq<string>)
    requires forall l :: l in lines ==> '\n' !in l
    ensures Split(Terminated(lines), '\n') == lines + [""]
    decreases |lines|
  {
    if |lines| > 0 {
      assert forall l :: l in lines[1..] ==> l in lines;
      SplitTerminated(lines[1..]);
      SplitCons(lines[0], Terminated(lines[1..]), '\n');
      assert lines == [lines[0]] + lines[1..];
    }
  }

  /** No label and no monomial holds a line break. */
  predicate SingleLine(data: seq<Symbol>, labels: seq<string>) {
    (forall l :: l in labels ==> '\n' !in l)
    && forall s, m :: s in data && m in s.terms ==> '\n' !in m
  }

  lemma {:induction false} ReportLinesSingle(data: seq<Symbol>, labels: seq<string>)
    requires |data| == |labels| && SingleLine(data, labels)
    ensures forall l :: l in ReportLines(data, labels) ==> '\n' !in l
    decreases |data|
  {
    if |data| > 0 {
      var n := |data| - 1;
      assert forall l :: l in labels[..n] ==> l in labels;
      assert forall s :: s in data[..n] ==> s in data;
      ReportLinesSingle(data[..n], labels[..n]);
      assert labels[n] in labels && data[n] in data;
      var start, terms := labels[n], data[n].terms;
      forall l | l in BlockLines(start, terms) ensures '\n' !in l {
        if l in TermLineSeq(start, terms) {
          var k :| 0 <= k < |terms| && l == TermLine(start, terms[k]);
          assert terms[k] in terms;
        }
      }
    }
  }

  /** Read back line by line, the report is its header lines, monomial lines
      and blank lines, in order, when no label or monomial holds a line break. */
  lemma ReportSplitsIntoLines(data: seq<Symbol>, labels: seq<string>)
    requires |data| == |labels| && SingleLine(data, labels)
    ensures Split(Report(data, labels), '\n') == ReportLines(data, labels) + [""]
  {
    ReportTerminated(data, labels);
    ReportLinesSingle(data, labels);
    SplitTerminated(ReportLines(data, labels));
  }

  /** Appending one position appends its block. */
  lemma ReportSnoc(p: seq<Symbol>, q: seq<string>, s: Symbol, start: string, d: seq<Symbol>, l: seq<string>)
    requires |p| == |q| && d == p + [s] && l == q + [start]
    ensures Report(d, l) == Report(p, q) + Block(start, s.terms)
  {
    assert d[..|p|] == p && l[..|q|] == q;
  }

  /** Peels the last element off the second part of a concatenation. */
  lemma AppendLast<T>(a: seq<T>, b: seq<T>)
    requires |b| > 0
    ensures a + b == (a + b[..|b| - 1]) + [b[|b| - 1]]
    ensures b == b[..|b| - 1] + [b[|b| - 1]]
  {
  }

  /** The report of a concatenation is the concatenation of the reports. */
  lemma {:induction false} ReportAppend(d1: seq<Symbol>, l1: seq<string>, d2: seq<Symbol>, l2: seq<string>)
    requires |d1| == |l1| && |d2| == |l2|
    ensures Report(d1 + d2, l1 + l2) == Report(d1, l1) + Report(d2, l2)
    decreases |d2|
  {
    if |d2| == 0 {
      assert d1 + d2 == d1 && l1 + l2 == l1;
    } else {
      var n := |d2| - 1;
      ReportAppend(d1, l1, d2[..n], l2[..n]);
      AppendLast(d1, d2);
      AppendLast(l1, l2);
      ReportSnoc(d1 + d2[..n], l1 + l2[..n], d2[n], l2[n], d1 + d2, l1 + l2);
      ReportSnoc(d2[..n], l2[..n], d2[n], l2[n], d2, l2);
      var x, y, b := Report(d1, l1), Report(d2[..n], l2[..n]), Block(l2[n], d2[n].terms);
      assert (x + y) + b == x + (y + b);
    }
  }

  /** Blocks come in input order: the block of position `i` sits between the
      report of the positions before it and the report of those after it. */
  lemma ReportBlockAt(data: seq<Symbol>, labels: seq<string>, i: nat)
    requires |data| == |labels| && i < |data|
    ensures Report(data, labels)
         == Report(data[..i], labels[..i]) + Block(labels[i], data[i].terms)
          + Report(data[i + 1..], labels[i + 1..])
  {
    ReportAppend(data[..i + 1], labels[..i + 1], data[i + 1..], labels[i + 1..]);
    assert data[..i + 1] + data[i + 1..] == data;
    assert labels[..i + 1] + labels[i + 1..] == labels;
    assert data[..i + 1][..i] == data[..i] && labels[..i + 1][..i] == labels[..i];
  }

  /** A monomial line, as opposed to a header or a blank line. */
  predicate IsTermLine(line: string) {
    |line| > 0 && line[0] == '\t'
  }

  /** The number of monomials over all Symbols. */
  function TotalTerms(data: seq<Symbol>): nat {
    if |data| == 0 then 0 else TotalTerms(data[..|data| - 1]) + |data[|data| - 1].terms|
  }

  /** The monomial lines of a block are its monomials' lines, in order. */
  lemma BlockTermLines(start: string, terms: seq<string>)
    ensures Filter(BlockLines(start, terms), IsTermLine) == TermLineSeq(start, terms)
  {
    FilterAppend([HeaderLine(start)] + TermLineSeq(start, terms), [""], IsTermLine);
    FilterAppend([HeaderLine(start)], TermLineSeq(start, terms), IsTermLine);
    assert HeaderLine(start)[0] == 'S';
    FilterKeepsAll(TermLineSeq(start, terms), IsTermLine);
  }

  /** The report holds exactly one monomial line per monomial: nothing is
      filtered out and nothing added. */
  lemma {:induction false} ReportTermLineCount(data: seq<Symbol>, labels: seq<string>)
    requires |data| == |labels|
    ensures |Filter(ReportLines(data, labels), IsTermLine)| == TotalTerms(data)
    decreases |data|
  {
    if |data| > 0 {
      var n := |data| - 1;
      ReportTermLineCount(data[..n], labels[..n]);
      FilterAppend(ReportLines(data[..n], labels[..n]), BlockLines(labels[n], data[n].terms), IsTermLine);
      BlockTermLines(labels[n], data[n].terms);
    }
  }

  /** Every monomial of every Symbol appears as its own line, bracketed by its
      start label. */
  lemma {:induction false} ReportShowsEveryTerm(data: seq<Symbol>, labels: seq<string>, i: nat, k: nat)
    requires |data| == |labels| && i < |data| && k < |data[i].terms|
    ensures TermLine(labels[i], data[i].terms[k]) in ReportLines(data, labels)
    decreases |data|
  {
    var n := |data| - 1;
    if i == n {
      assert TermLineSeq(labels[n], data[n].terms)[k] == TermLine(labels[i], data[i].terms[k]);
      assert BlockLines(labels[n], data[n].terms)[1 + k] == TermLine(labels[i], data[i].terms[k]);
    } else {
      ReportShowsEveryTerm(data[..n], labels[..n], i, k);
    }
  }
}
