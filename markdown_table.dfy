/**
 * `parseMarkdownTable` of components/markdown-table.tsx: the header cells of
 * the first line and the cells of every line after the separator.
 */
module MarkdownTable {
  import opened Strings

  datatype Table = Table(headers: seq<string>, rows: seq<seq<string>>)

  /** `line.split("|").map(trim).filter(nonEmpty)`. */
  function Cells(line: string): seq<string> {
    Pieces(line, {'|'})
  }

  /** The cells of each line, in order. */
  function CellsOfLines(lines: seq<string>): (r: seq<seq<string>>)
    ensures |r| == |lines|
  {
    if lines == [] then [] else [Cells(lines[0])] + CellsOfLines(lines[1..])
  }

  /** The table of a list of lines: too few lines give an empty table; line 1 is skipped. */
  function ParseLines(lines: seq<string>): Table {
    if |lines| < 3 then Table([], [])
    else Table(Cells(lines[0]), CellsOfLines(lines[2..]))
  }

  /**
   * `parseMarkdownTable`: the trimmed text cut at every `\n`. Every header
   * and every row cell is non-empty, trimmed and free of `|` and `\n`.
   */
  function ParseMarkdownTable(markdown: string): (r: Table)
    ensures AllClean(r.headers, {'|', '\n'})
    ensures forall k :: 0 <= k < |r.rows| ==> AllClean(r.rows[k], {'|', '\n'})
  {
    var lines := Split(Trim(markdown), {'\n'});
    if |lines| >= 3 then
      LineCellsClean(lines[0]);
      RowsClean(lines[2..]);
      ParseLines(lines)
    else ParseLines(lines)
  }

  // Properties.

  /** A text with fewer than two line breaks inside its trimmed form gives the empty table, and only such a text has no rows section. */
  lemma {:induction false} TooShortIsEmpty(markdown: string)
    ensures CountIn(Trim(markdown), {'\n'}) < 2 ==> ParseMarkdownTable(markdown) == Table([], [])
    ensures CountIn(Trim(markdown), {'\n'}) >= 2 ==>
      |ParseMarkdownTable(markdown).rows| == CountIn(Trim(markdown), {'\n'}) - 1
  {
    SplitCounts(Trim(markdown), {'\n'});
  }

  /** Every line after the separator is one row. */
  lemma {:induction false} RowCount(lines: seq<string>)
    requires |lines| >= 3
    ensures |ParseLines(lines).rows| == |lines| - 2
    ensures forall k :: 0 <= k < |lines| - 2 ==> ParseLines(lines).rows[k] == Cells(lines[k + 2])
  {
    RowsAre(lines[2..]);
  }

  lemma {:induction false} RowsAre(lines: seq<string>)
    ensures forall k :: 0 <= k < |lines| ==> CellsOfLines(lines)[k] == Cells(lines[k])
  {
    if lines != [] {
      RowsAre(lines[1..]);
    }
  }

  /** The separator line is never read: any text in its place gives the same table. */
  lemma {:induction false} SeparatorIgnored(lines: seq<string>, other: string)
    requires |lines| >= 2
    ensures ParseLines(lines[1 := other]) == ParseLines(lines)
  {
    assert lines[1 := other][2..] == lines[2..];
  }

  /** Cells keep their left-to-right order: the cells of two parts of a line, one after the other. */
  lemma {:induction false} CellsInOrder(left: string, right: string)
    ensures Cells(left + "|" + right) == Cells(left) + Cells(right)
  {
    SplitAround(left, '|', right);
    assert left + "|" + right == left + ['|'] + right;
    TrimAllAppend(Split(left, {'|'}), Split(right, {'|'}));
    NonEmptyAppend(TrimAll(Split(left, {'|'})), TrimAll(Split(right, {'|'})));
  }

  lemma {:induction false} RowsClean(lines: seq<string>)
    requires forall k :: 0 <= k < |lines| ==> NoneIn(lines[k], {'\n'})
    ensures forall k :: 0 <= k < |lines| ==> AllClean(CellsOfLines(lines)[k], {'|', '\n'})
  {
    if lines != [] {
      RowsClean(lines[1..]);
      LineCellsClean(lines[0]);
    }
  }

  /** The cells of a line without line breaks are non-empty, trimmed and free of `|` and `\n`. */
  lemma {:induction false} LineCellsClean(line: string)
    requires NoneIn(line, {'\n'})
    ensures AllClean(Cells(line), {'|', '\n'})
  {
    var ps := Split(line, {'|'});
    forall k | 0 <= k < |ps| ensures NoneIn(ps[k], {'|', '\n'}) {
      SplitChars(line, {'|'}, k);
    }
    TrimAllNonEmptyClean(ps, {'|', '\n'});
  }
}
