/**
 * String helpers shared by the modules: JavaScript's white space and `trim`,
 * `split` on single characters, `join`, and the recurring
 * `split(...).map(trim).filter(nonEmpty)` chain.
 */
module Strings {

  /** The characters JavaScript's `trim` removes and the regular expression `\s` matches. */
  predicate IsSpace(c: char) {
    c == ' ' || c == '\t' || c == '\n' || c == '\r' || c == '\U{000B}' || c == '\U{000C}'
    || c == '\U{00A0}' || c == '\U{1680}' || ('\U{2000}' <= c <= '\U{200A}')
    || c == '\U{2028}' || c == '\U{2029}' || c == '\U{202F}' || c == '\U{205F}'
    || c == '\U{3000}' || c == '\U{FEFF}'
  }

  predicate AllSpace(s: string) {
    forall i :: 0 <= i < |s| ==> IsSpace(s[i])
  }

  /** No white space at either end. */
  predicate IsTrimmed(s: string) {
    s == [] || (!IsSpace(s[0]) && !IsSpace(s[|s| - 1]))
  }

  /** No character of `s` is in `cs`. */
  predicate NoneIn(s: string, cs: set<char>) {
    forall i :: 0 <= i < |s| ==> s[i] !in cs
  }

  /** `trimStart`: the text after its leading white space. */
  function TrimStart(s: string): (r: string)
    ensures |r| <= |s|
  {
    if |s| > 0 && IsSpace(s[0]) then TrimStart(s[1..]) else s
  }

  lemma {:induction false} TrimStartFacts(s: string)
    ensures TrimStart(s) == s[|s| - |TrimStart(s)|..]
    ensures TrimStart(s) == [] || !IsSpace(TrimStart(s)[0])
    ensures AllSpace(s[..|s| - |TrimStart(s)|])
  {
    if |s| > 0 && IsSpace(s[0]) {
      TrimStartFacts(s[1..]);
    }
  }

  /** `trimEnd`: the text before its trailing white space. */
  function TrimEnd(s: string): (r: string)
    ensures |r| <= |s|
  {
    if |s| > 0 && IsSpace(s[|s| - 1]) then TrimEnd(s[..|s| - 1]) else s
  }

  lemma {:induction false} TrimEndFacts(s: string)
    ensures TrimEnd(s) == s[..|TrimEnd(s)|]
    ensures TrimEnd(s) == [] || !IsSpace(TrimEnd(s)[|TrimEnd(s)| - 1])
    ensures AllSpace(s[|TrimEnd(s)|..])
  {
    if |s| > 0 && IsSpace(s[|s| - 1]) {
      var r := TrimEnd(s[..|s| - 1]);
      TrimEndFacts(s[..|s| - 1]);
      assert s[|r|..] == s[..|s| - 1][|r|..] + [s[|s| - 1]];
    }
  }

  /** JavaScript's `String.prototype.trim`. */
  function Trim(s: string): (r: string)
    ensures IsTrimmed(r)
    ensures |r| <= |s|
  {
    var t := TrimStart(s);
    var r := TrimEnd(t);
    assert IsTrimmed(r) by {
      TrimStartFacts(s);
      TrimEndFacts(t);
      if r != [] {
        assert r[0] == t[0];
      }
    }
    r
  }

  /** Trimming leaves nothing exactly when the text is all white space. */
  lemma {:induction false} TrimBlank(s: string)
    ensures Trim(s) == [] <==> AllSpace(s)
  {
    var t := TrimStart(s);
    TrimStartFacts(s);
    TrimEndFacts(t);
    if TrimEnd(t) == [] {
      assert AllSpace(t);
      assert s == s[..|s| - |t|] + t;
    }
  }

  /** Trimming a trimmed text changes nothing. */
  lemma {:induction false} TrimTrimmed(s: string)
    requires IsTrimmed(s)
    ensures Trim(s) == s
  {
    if s != [] {
      assert TrimStart(s) == s;
    }
  }

  lemma {:induction false} TrimStartSkips(a: string, t: string)
    requires AllSpace(a) && (t == [] || !IsSpace(t[0]))
    ensures TrimStart(a + t) == t
  {
    if a == [] {
      assert a + t == t;
      if t != [] { assert !IsSpace(t[0]); }
    } else {
      assert (a + t)[1..] == a[1..] + t;
      TrimStartSkips(a[1..], t);
    }
  }

  lemma {:induction false} TrimEndSkips(t: string, b: string)
    requires AllSpace(b) && (t == [] || !IsSpace(t[|t| - 1]))
    ensures TrimEnd(t + b) == t
  {
    if b == [] {
      assert t + b == t;
    } else {
      assert (t + b)[..|t + b| - 1] == t + b[..|b| - 1];
      TrimEndSkips(t, b[..|b| - 1]);
    }
  }

  /** Trimming a trimmed non-empty text surrounded by white space gives the text. */
  lemma {:induction false} TrimSurrounded(a: string, x: string, b: string)
    requires AllSpace(a) && AllSpace(b) && x != [] && IsTrimmed(x)
    ensures Trim(a + x + b) == x
  {
    assert a + x + b == a + (x + b);
    TrimStartSkips(a, x + b);
    TrimEndSkips(x, b);
  }

  /** Trimming keeps every character class a string avoids. */
  lemma {:induction false} TrimNoneIn(s: string, cs: set<char>)
    requires NoneIn(s, cs)
    ensures NoneIn(Trim(s), cs)
  {
    var t := TrimStart(s);
    var r := TrimEnd(t);
    TrimStartFacts(s);
    TrimEndFacts(t);
    assert forall k :: 0 <= k < |r| ==> r[k] == s[|s| - |t| + k];
  }

  /** The number of characters of `s` that are in `cs`. */
  function CountIn(s: string, cs: set<char>): nat {
    if s == [] then 0 else (if s[0] in cs then 1 else 0) + CountIn(s[1..], cs)
  }

  /** `s` with every character of `cs` removed. */
  function Without(s: string, cs: set<char>): string {
    if s == [] then [] else (if s[0] in cs then [] else [s[0]]) + Without(s[1..], cs)
  }

  /**
   * JavaScript's `split` where every character of `seps` is a separator
   * (`split(",")`, `split(/[,\n]/)`): the maximal runs between separators,
   * empty ones included, so there is always at least one piece.
   */
  function Split(s: string, seps: set<char>): (r: seq<string>)
    ensures |r| >= 1
    ensures forall i :: 0 <= i < |r| ==> NoneIn(r[i], seps)
  {
    if s == [] then [[]]
    else
      var rest := Split(s[1..], seps);
      if s[0] in seps then [[]] + rest
      else [[s[0]] + rest[0]] + rest[1..]
  }

  function Concat(ps: seq<string>): string {
    if ps == [] then [] else ps[0] + Concat(ps[1..])
  }

  /** `split` cuts exactly at the separators: one more piece than separators, and nothing else lost. */
  lemma {:induction false} SplitCounts(s: string, seps: set<char>)
    ensures |Split(s, seps)| == CountIn(s, seps) + 1
    ensures Concat(Split(s, seps)) == Without(s, seps)
  {
    if s != [] {
      SplitCounts(s[1..], seps);
      var rest := Split(s[1..], seps);
      if s[0] !in seps {
        calc {
          Concat(Split(s, seps));
          ([s[0]] + rest[0]) + Concat(rest[1..]);
          [s[0]] + (rest[0] + Concat(rest[1..]));
          [s[0]] + Concat(rest);
        }
      }
    }
  }

  /** JavaScript's `Array.prototype.join`. */
  function Join(ps: seq<string>, d: string): string {
    if ps == [] then []
    else if |ps| == 1 then ps[0]
    else ps[0] + d + Join(ps[1..], d)
  }

  /** Joining the pieces of a one-character split with that character gives back the text. */
  lemma {:induction false} JoinSplit(s: string, c: char)
    ensures Join(Split(s, {c}), [c]) == s
  {
    if s != [] {
      JoinSplit(s[1..], c);
      var rest := Split(s[1..], {c});
      if s[0] == c {
        assert Split(s, {c}) == [[]] + rest;
        assert s == [] + [c] + s[1..];
      } else {
        if |rest| == 1 {
          assert Join(Split(s, {c}), [c]) == [s[0]] + rest[0];
        } else {
          assert Join(rest, [c]) == rest[0] + [c] + Join(rest[1..], [c]);
          assert Join(Split(s, {c}), [c]) == ([s[0]] + rest[0]) + [c] + Join(rest[1..], [c]);
        }
      }
    }
  }

  lemma {:induction false} SplitPrefix(a: string, c: char, t: string)
    requires NoneIn(a, {c})
    ensures Split(a + [c] + t, {c}) == [a] + Split(t, {c})
  {
    if a == [] {
      assert a + [c] + t == [c] + t;
      assert ([c] + t)[1..] == t;
    } else {
      assert (a + [c] + t)[1..] == a[1..] + [c] + t;
      SplitPrefix(a[1..], c, t);
      assert [a[0]] + a[1..] == a;
    }
  }

  lemma {:induction false} SplitSingle(a: string, c: char)
    requires NoneIn(a, {c})
    ensures Split(a, {c}) == [a]
  {
    if a != [] {
      SplitSingle(a[1..], c);
      assert [a[0]] + a[1..] == a;
    }
  }

  /** Splitting a join of pieces free of the separator gives back the pieces. */
  lemma {:induction false} SplitJoin(ps: seq<string>, c: char)
    requires |ps| >= 1
    requires forall i :: 0 <= i < |ps| ==> NoneIn(ps[i], {c})
    ensures Split(Join(ps, [c]), {c}) == ps
  {
    if |ps| == 1 {
      SplitSingle(ps[0], c);
    } else {
      SplitJoin(ps[1..], c);
      SplitPrefix(ps[0], c, Join(ps[1..], [c]));
    }
  }

  /** A split at one separator is the split of the text before it followed by the split of the text after it. */
  lemma {:induction false} SplitAround(a: string, c: char, t: string)
    ensures Split(a + [c] + t, {c}) == Split(a, {c}) + Split(t, {c})
  {
    if a == [] {
      assert a + [c] + t == [c] + t;
      assert ([c] + t)[1..] == t;
    } else {
      assert (a + [c] + t)[1..] == a[1..] + [c] + t;
      SplitAround(a[1..], c, t);
    }
  }

  /** Each piece of a split holds only characters of the text. */
  lemma {:induction false} SplitChars(s: string, seps: set<char>, k: nat)
    requires k < |Split(s, seps)|
    ensures forall i :: 0 <= i < |Split(s, seps)[k]| ==> Split(s, seps)[k][i] in s
  {
    if s != [] {
      SplitChars(s[1..], seps, if s[0] in seps && k > 0 then k - 1 else k);
    }
  }

  /** Every string trimmed, in order. */
  function TrimAll(ps: seq<string>): seq<string> {
    if ps == [] then [] else [Trim(ps[0])] + TrimAll(ps[1..])
  }

  /** The non-empty strings, in order. */
  function NonEmpty(ps: seq<string>): seq<string> {
    if ps == [] then [] else (if ps[0] == [] then [] else [ps[0]]) + NonEmpty(ps[1..])
  }

  /** The chain `split(seps).map(s => s.trim()).filter(s => s.length > 0)`. */
  function Pieces(s: string, seps: set<char>): seq<string> {
    NonEmpty(TrimAll(Split(s, seps)))
  }

  /** Every string of a list is non-empty, trimmed and free of `cs`. */
  predicate AllClean(ps: seq<string>, cs: set<char>) {
    forall i :: 0 <= i < |ps| ==> ps[i] != [] && IsTrimmed(ps[i]) && NoneIn(ps[i], cs)
  }

  lemma {:induction false} TrimAllNonEmptyClean(ps: seq<string>, cs: set<char>)
    requires forall i :: 0 <= i < |ps| ==> NoneIn(ps[i], cs)
    ensures AllClean(NonEmpty(TrimAll(ps)), cs)
  {
    if ps != [] {
      TrimNoneIn(ps[0], cs);
      TrimAllNonEmptyClean(ps[1..], cs);
    }
  }

  /** What the split-trim-filter chain yields is non-empty, trimmed and free of separators. */
  lemma {:induction false} PiecesClean(s: string, seps: set<char>)
    ensures AllClean(Pieces(s, seps), seps)
  {
    TrimAllNonEmptyClean(Split(s, seps), seps);
  }

  lemma {:induction false} NonEmptyAppend(a: seq<string>, b: seq<string>)
    ensures NonEmpty(a + b) == NonEmpty(a) + NonEmpty(b)
  {
    if a != [] {
      NonEmptyAppend(a[1..], b);
      assert (a + b)[0] == a[0];
      assert (a + b)[1..] == a[1..] + b;
      var h := if a[0] == [] then [] else [a[0]];
      calc {
        NonEmpty(a + b);
        { assert a + b != []; }
        h + NonEmpty(a[1..] + b);
        h + (NonEmpty(a[1..]) + NonEmpty(b));
        (h + NonEmpty(a[1..])) + NonEmpty(b);
      }
    } else {
      assert a + b == b;
    }
  }

  lemma {:induction false} TrimAllAppend(a: seq<string>, b: seq<string>)
    ensures TrimAll(a + b) == TrimAll(a) + TrimAll(b)
  {
    if a == [] {
      assert a + b == b;
    } else {
      var c := a + b;
      assert c[0] == a[0];
      assert c[1..] == a[1..] + b;
      TrimAllAppend(a[1..], b);
      calc {
        TrimAll(c);
        [Trim(a[0])] + TrimAll(a[1..] + b);
        [Trim(a[0])] + (TrimAll(a[1..]) + TrimAll(b));
      }
    }
  }


  /** Nothing is dropped from a list that is already clean. */
  lemma {:induction false} NonEmptyOfClean(ps: seq<string>)
    requires forall i :: 0 <= i < |ps| ==> ps[i] != []
    ensures NonEmpty(ps) == ps
  {
    if ps != [] {
      NonEmptyOfClean(ps[1..]);
    }
  }

  // ASCII case folding: the only folding a JavaScript regular expression
  // with the `i` flag (and no `u` flag) applies between ASCII letters.

  function LowerAscii(c: char): (r: char)
    ensures 'A' <= c <= 'Z' ==> r as int == c as int + 32
    ensures !('A' <= c <= 'Z') ==> r == c
  {
    if 'A' <= c <= 'Z' then (c as int + 32) as char else c
  }

  function LowerAsciiAll(s: string): (r: string)
    ensures |r| == |s|
    ensures forall i :: 0 <= i < |s| ==> r[i] == LowerAscii(s[i])
  {
    if s == [] then [] else [LowerAscii(s[0])] + LowerAsciiAll(s[1..])
  }

  predicate StartsWith(s: string, p: string) {
    |p| <= |s| && s[..|p|] == p
  }

  predicate OccursAt(s: string, needle: string, i: int) {
    0 <= i <= |s| - |needle| && s[i..i + |needle|] == needle
  }

  /** `needle` occurs in `s`: JavaScript's `includes`. */
  predicate Contains(s: string, needle: string) {
    exists i | 0 <= i <= |s| - |needle| :: OccursAt(s, needle, i)
  }

  /** A case-insensitive search for an all-lower-case pattern: `/pattern/i.test(s)`. */
  predicate ContainsCI(s: string, lowerPattern: string) {
    Contains(LowerAsciiAll(s), lowerPattern)
  }

  // Runs of white space: `split(/\s+/)` and `replace(/\s+/g, " ")`.

  predicate NoSpace(s: string) {
    forall i :: 0 <= i < |s| ==> !IsSpace(s[i])
  }

  /** The index of the first white-space character, or `|s|` when there is none. */
  function FirstSpace(s: string): (i: nat)
    ensures i <= |s| && NoSpace(s[..i])
    ensures i < |s| ==> IsSpace(s[i])
  {
    if s == [] || IsSpace(s[0]) then 0
    else
      var j := FirstSpace(s[1..]);
      assert s[..1 + j] == [s[0]] + s[1..][..j];
      1 + j
  }

  /** Dropping the leading white space of a text that starts with white space shortens it. */
  lemma {:induction false} TrimStartShortens(s: string)
    requires s != [] && IsSpace(s[0])
    ensures |TrimStart(s)| < |s|
  {
    TrimStartFacts(s);
  }

  /** `s.split(/\s+/)`: the text between maximal runs of white space. */
  function SplitRuns(s: string): (r: seq<string>)
    ensures |r| >= 1
    ensures forall k :: 0 <= k < |r| ==> NoSpace(r[k])
    decreases |s|
  {
    var i := FirstSpace(s);
    if i == |s| then [s]
    else
      TrimStartShortens(s[i..]);
      [s[..i]] + SplitRuns(TrimStart(s[i..]))
  }

  /** `s.replace(/\s+/g, " ")`: every maximal run of white space becomes one space. */
  function CollapseRuns(s: string): (r: string)
    decreases |s|
  {
    var i := FirstSpace(s);
    if i == |s| then s
    else
      TrimStartShortens(s[i..]);
      s[..i] + " " + CollapseRuns(TrimStart(s[i..]))
  }

  lemma {:induction false} JoinCons(p: string, ps: seq<string>, d: string)
    requires ps != []
    ensures Join([p] + ps, d) == p + d + Join(ps, d)
  {
    assert ([p] + ps)[1..] == ps;
  }

  /** Joining the words of a text with single spaces is collapsing its white-space runs. */
  lemma {:induction false} JoinSplitRuns(s: string)
    ensures Join(SplitRuns(s), " ") == CollapseRuns(s)
    decreases |s|
  {
    var i := FirstSpace(s);
    if i < |s| {
      TrimStartShortens(s[i..]);
      var t := TrimStart(s[i..]);
      JoinSplitRuns(t);
      JoinCons(s[..i], SplitRuns(t), " ");
    }
  }

  lemma {:induction false} TrimStartOfTrimmedEnd(s: string)
    requires s != [] && !IsSpace(s[|s| - 1])
    ensures TrimStart(s) != [] && IsTrimmed(TrimStart(s))
  {
    TrimStartFacts(s);
  }

  /** The words of a trimmed, non-blank text are non-empty and free of white space. */
  lemma {:induction false} SplitRunsOfTrimmed(s: string)
    requires s != [] && IsTrimmed(s)
    ensures forall k :: 0 <= k < |SplitRuns(s)| ==> SplitRuns(s)[k] != [] && NoSpace(SplitRuns(s)[k])
    decreases |s|
  {
    var i := FirstSpace(s);
    if i < |s| {
      TrimStartShortens(s[i..]);
      var t := TrimStart(s[i..]);
      assert s[i..][|s[i..]| - 1] == s[|s| - 1];
      TrimStartOfTrimmedEnd(s[i..]);
      SplitRunsOfTrimmed(t);
    }
  }
}
