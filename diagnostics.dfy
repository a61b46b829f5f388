/**
 * The text-processing check of the diagnostics page
 * (app/diagnostics/page.tsx, the `process-text` click handler): lines split
 * on `\r?\n`, each line split on `,` or `;`, blanks dropped.
 */
module Diagnostics {
  import opened Strings

  datatype Outcome = Prompt(message: string) | Listed(products: seq<string>)

  const PROMPT := "Por favor, insira algum texto para processar."

  /** A line cut at a `\r\n` loses its `\r`. */
  function DropCr(p: string): (r: string)
    ensures r == p || (r + ['\r'] == p)
    ensures r + ['\r'] == p <==> |p| > 0 && p[|p| - 1] == '\r'
  {
    if |p| > 0 && p[|p| - 1] == '\r' then p[..|p| - 1] else p
  }

  function DropCrAll(ps: seq<string>): seq<string> {
    if |ps| <= 1 then ps else [DropCr(ps[0])] + DropCrAll(ps[1..])
  }

  /** `text.split(/\r?\n/)`: every piece but the last ended at a line break. */
  function Lines(text: string): seq<string> {
    DropCrAll(Split(text, {'\n'}))
  }

  /** No line holds a line break. */
  predicate WithoutBreaks(lines: seq<string>) {
    forall k :: 0 <= k < |lines| ==> NoneIn(lines[k], {'\n'})
  }

  /** The products of one line. */
  function LineItems(line: string): seq<string> {
    Pieces(line, {',', ';'})
  }

  /**
   * The products of the lines, line after line. When no line holds a line
   * break, every item is trimmed and non-empty and holds no `,`, `;` or
   * line break.
   */
  function ItemsOf(lines: seq<string>): (r: seq<string>)
    ensures WithoutBreaks(lines) ==> AllClean(r, {',', ';', '\n'})
  {
    if lines == [] then []
    else
      assert WithoutBreaks(lines) ==> WithoutBreaks(lines[1..]) by {
        assert forall k :: 0 <= k < |lines| - 1 ==> lines[1..][k] == lines[k + 1];
      }
      LineItemsClean(lines[0]);
      LineItems(lines[0]) + ItemsOf(lines[1..])
  }

  /** The items of a line without line breaks are trimmed, non-empty and free of `,`, `;` and `\n`. */
  lemma {:induction false} LineItemsClean(line: string)
    ensures NoneIn(line, {'\n'}) ==> AllClean(LineItems(line), {',', ';', '\n'})
  {
    if NoneIn(line, {'\n'}) {
      var ps := Split(line, {',', ';'});
      assert forall k :: 0 <= k < |ps| ==> NoneIn(ps[k], {',', ';', '\n'}) by {
        forall k | 0 <= k < |ps| ensures NoneIn(ps[k], {',', ';', '\n'}) {
          SplitChars(line, {',', ';'}, k);
        }
      }
      TrimAllNonEmptyClean(ps, {',', ';', '\n'});
    }
  }

  /** What the handler shows for a given text. */
  function Expected(text: string): Outcome {
    if Trim(text) == [] then Prompt(PROMPT) else Listed(ItemsOf(Lines(text)))
  }

  /** The click handler: a `for` loop over the lines, each adding the items of its line. */
  method ProcessText(textInput: string) returns (r: Outcome)
    ensures r == Expected(textInput)
  {
    if Trim(textInput) == [] {
      return Prompt(PROMPT);
    }
    var products := ItemsOfLines(Lines(textInput));
    return Listed(products);
  }

  /** The outer `for` loop, over the lines of the text. */
  method ItemsOfLines(lines: seq<string>) returns (products: seq<string>)
    ensures products == ItemsOf(lines)
  {
    products := [];
    var i := 0;
    while i < |lines|
      invariant 0 <= i <= |lines|
      invariant products + ItemsOf(lines[i..]) == ItemsOf(lines)
    {
      ItemsOfStep(lines, i);
      var found := LineItems(lines[i]);
      assert products + found + ItemsOf(lines[i + 1..]) == products + (found + ItemsOf(lines[i + 1..]));
      products := PushItems(products, lines[i]);
      i := i + 1;
    }
    assert lines[i..] == [];
  }

  /** Dropping the first remaining line splits off that line's products. */
  lemma {:induction false} ItemsOfStep(lines: seq<string>, i: nat)
    requires i < |lines|
    ensures ItemsOf(lines[i..]) == LineItems(lines[i]) + ItemsOf(lines[i + 1..])
  {
    assert lines[i..][1..] == lines[i + 1..];
  }

  /** The inner `for` loop: each item of the line, trimmed, is pushed unless it is blank. */
  method PushItems(products: seq<string>, line: string) returns (out: seq<string>)
    ensures out == products + LineItems(line)
  {
    out := products;
    var items := Split(line, {',', ';'});
    var j := 0;
    while j < |items|
      invariant 0 <= j <= |items|
      invariant out + NonEmpty(TrimAll(items[j..])) == products + LineItems(line)
    {
      var item := items[j];
      assert items[j..][1..] == items[j + 1..];
      ghost var rest := NonEmpty(TrimAll(items[j + 1..]));
      if Trim(item) != [] {
        assert NonEmpty(TrimAll(items[j..])) == [Trim(item)] + rest;
        out := out + [Trim(item)];
      } else {
        assert NonEmpty(TrimAll(items[j..])) == rest;
      }
      j := j + 1;
    }
    assert items[j..] == [];
  }

  // Properties.

  /** Blank input shows the prompt and lists nothing. */
  lemma {:induction false} BlankShowsPrompt(text: string)
    ensures Expected(text).Prompt? <==> AllSpace(text)
  {
    TrimBlank(text);
  }

  lemma {:induction false} DropCrAllFacts(ps: seq<string>, cs: set<char>)
    requires forall k :: 0 <= k < |ps| ==> NoneIn(ps[k], cs)
    ensures |DropCrAll(ps)| == |ps|
    ensures forall k :: 0 <= k < |ps| ==> NoneIn(DropCrAll(ps)[k], cs)
  {
    if |ps| > 1 {
      DropCrAllFacts(ps[1..], cs);
    }
  }

  /** No line holds a line break. */
  lemma {:induction false} LinesHaveNoBreak(text: string)
    ensures forall k :: 0 <= k < |Lines(text)| ==> NoneIn(Lines(text)[k], {'\n'})
  {
    DropCrAllFacts(Split(text, {'\n'}), {'\n'});
  }

  /** Without `\r` the lines are exactly the pieces between line breaks. */
  lemma {:induction false} LinesWithoutCr(ps: seq<string>)
    requires forall k :: 0 <= k < |ps| ==> NoneIn(ps[k], {'\r'})
    ensures DropCrAll(ps) == ps
  {
    if |ps| > 1 {
      LinesWithoutCr(ps[1..]);
    }
  }

  /** A line ended by `\r\n` is cut before the `\r`, as one ended by `\n` is cut before the `\n`. */
  lemma {:induction false} CrLfLine(a: string, t: string)
    requires NoneIn(a, {'\n'})
    ensures Lines(a + "\r\n" + t) == [a] + Lines(t)
  {
    var ar := a + ['\r'];
    assert a + "\r\n" + t == ar + ['\n'] + t;
    assert NoneIn(ar, {'\n'}) by {
      assert forall i :: 0 <= i < |a| ==> ar[i] == a[i];
    }
    SplitPrefix(ar, '\n', t);
    var rest := Split(t, {'\n'});
    assert |[ar] + rest| > 1 && ([ar] + rest)[0] == ar && ([ar] + rest)[1..] == rest;
    assert DropCr(ar) == a by {
      assert ar[..|ar| - 1] == a;
    }
  }

  /** Items of consecutive lines come line after line. */
  lemma {:induction false} ItemsOfAppend(a: seq<string>, b: seq<string>)
    ensures ItemsOf(a + b) == ItemsOf(a) + ItemsOf(b)
  {
    if a == [] {
      assert a + b == b;
    } else {
      var c := a + b;
      assert c[0] == a[0];
      assert c[1..] == a[1..] + b;
      ItemsOfAppend(a[1..], b);
      calc {
        ItemsOf(c);
        LineItems(a[0]) + ItemsOf(a[1..] + b);
        LineItems(a[0]) + (ItemsOf(a[1..]) + ItemsOf(b));
      }
    }
  }


  /** For any text that is not blank, every listed item is clean. */
  lemma {:induction false} ListedClean(text: string)
    requires Expected(text).Listed?
    ensures AllClean(Expected(text).products, {',', ';', '\n'})
  {
    LinesHaveNoBreak(text);
  }
}
