/**
 * The list-splitting endpoint of app/api/test-process/route.ts: it turns the
 * `productList` of a request body into a list of product names.
 */
module TestProcess {
  import opened Strings

  /** The `productList` field of the request body. */
  datatype ProductListField =
    | Falsy                         // missing, null, "", 0, false: replaced by ""
    | Text(text: string)
    | Items(elements: seq<string>)  // an array, each element in its `String(p)` form
    | OtherTruthy                   // any other truthy value

  datatype Response = Response(processed: seq<string>, count: nat)

  function Min(a: int, b: int): int { if a < b then a else b }

  /** The group the loop builds at word `i`: up to three words joined by one space. */
  function GroupAt(ws: seq<string>, i: nat): string
    requires i < |ws|
  {
    Join(ws[i..Min(i + 3, |ws|)], " ")
  }

  /** A group is pushed only when it is not blank. */
  function Kept(g: string): seq<string> {
    if Trim(g) != [] then [g] else []
  }

  /** The groups from word `i` on, three words at a time. */
  function GroupsFrom(ws: seq<string>, i: nat): seq<string>
    decreases |ws| - i
  {
    if i >= |ws| then [] else Kept(GroupAt(ws, i)) + GroupsFrom(ws, i + 3)
  }

  function Groups(ws: seq<string>): seq<string> {
    GroupsFrom(ws, 0)
  }

  /** The answer for a text list: by lines, else by commas, else by words. */
  function TextProcessed(s: string): seq<string> {
    var texto := Trim(s);
    if '\n' in texto then Pieces(texto, {'\n'})
    else if ',' in texto then Pieces(texto, {','})
    else
      var palavras := SplitRuns(texto);
      if |palavras| > 5 then Groups(palavras) else [texto]
  }

  /**
   * What the endpoint answers in `processed` for a given `productList`: a
   * missing list answers `[""]`, an array its trimmed non-blank elements in
   * order, and any other value nothing.
   */
  function Processed(input: ProductListField): (r: seq<string>)
    ensures input.Falsy? ==> r == [""]
    ensures input.OtherTruthy? ==> r == []
    ensures input.Items? ==> forall k :: 0 <= k < |r| ==> r[k] != [] && IsTrimmed(r[k])
  {
    match input
    case Falsy =>
      TrimBlank("");
      assert SplitRuns("") == [""];
      TextProcessed("")
    case Text(s) => TextProcessed(s)
    case Items(elements) =>
      TrimAllNonEmptyClean(elements, {});
      NonEmpty(TrimAll(elements))
    case OtherTruthy => []
  }

  /** The handler: reassigns `listaProdutos` per branch and groups words in a `for (i += 3)` loop. */
  method Post(input: ProductListField) returns (r: Response)
    ensures r.processed == Processed(input)
    ensures r.count == |r.processed|
  {
    var produtosInput := if input.Falsy? then Text("") else input;
    var listaProdutos: seq<string> := [];
    if produtosInput.Text? {
      var texto := Trim(produtosInput.text);
      if '\n' in texto {
        listaProdutos := Pieces(texto, {'\n'});
      } else if ',' in texto {
        listaProdutos := Pieces(texto, {','});
      } else {
        var palavras := SplitRuns(texto);
        if |palavras| > 5 {
          listaProdutos := GroupWords(palavras);
        } else {
          listaProdutos := [texto];
        }
      }
    } else if produtosInput.Items? {
      listaProdutos := NonEmpty(TrimAll(produtosInput.elements));
    }
    r := Response(listaProdutos, |listaProdutos|);
  }

  /** The `for (let i = 0; i < palavras.length; i += 3)` loop pushing the non-blank groups. */
  method GroupWords(palavras: seq<string>) returns (lista: seq<string>)
    ensures lista == Groups(palavras)
  {
    var n := |palavras|;
    lista := [];
    var i := 0;
    while i < n
      invariant lista + GroupsFrom(palavras, i) == Groups(palavras)
    {
      var grupo := Join(palavras[i..Min(i + 3, n)], " ");
      PushStep(lista, palavras, i);
      if Trim(grupo) != [] {
        lista := lista + [grupo];
      }
      i := i + 3;
    }
    assert GroupsFrom(palavras, i) == [];
    assert lista + [] == lista;
  }

  /** One pass of the loop: pushing the group at word `i` when it is not blank keeps the invariant. */
  lemma {:induction false} PushStep(lista: seq<string>, ws: seq<string>, i: nat)
    requires i < |ws|
    ensures var g := Join(ws[i..Min(i + 3, |ws|)], " ");
      (if Trim(g) != [] then lista + [g] else lista) + GroupsFrom(ws, i + 3) == lista + GroupsFrom(ws, i)
  {
    var g := GroupAt(ws, i);
    var rest := GroupsFrom(ws, i + 3);
    assert GroupsFrom(ws, i) == Kept(g) + rest;
    assert lista + [g] + rest == lista + ([g] + rest);
  }

  // Properties of the answer.

  /** With a line break in the trimmed text, the answer is its trimmed non-empty lines, commas or not. */
  lemma {:induction false} NewlineBranch(s: string)
    requires '\n' in Trim(s)
    ensures Processed(Text(s)) == Pieces(Trim(s), {'\n'})
    ensures AllClean(Processed(Text(s)), {'\n'})
  {
    PiecesClean(Trim(s), {'\n'});
  }

  /** Otherwise a comma splits the text into trimmed non-empty pieces. */
  lemma {:induction false} CommaBranch(s: string)
    requires '\n' !in Trim(s) && ',' in Trim(s)
    ensures Processed(Text(s)) == Pieces(Trim(s), {','})
    ensures AllClean(Processed(Text(s)), {',', '\n'})
  {
    var t := Trim(s);
    var ps := Split(t, {','});
    forall k | 0 <= k < |ps| ensures NoneIn(ps[k], {',', '\n'}) {
      SplitChars(t, {','}, k);
    }
    TrimAllNonEmptyClean(ps, {',', '\n'});
  }

  /** A text of at most five words, with no line break or comma, is one product. */
  lemma {:induction false} FewWordsBranch(s: string)
    requires '\n' !in Trim(s) && ',' !in Trim(s) && |SplitRuns(Trim(s))| <= 5
    ensures Processed(Text(s)) == [Trim(s)]
  {
  }

  /** Blank text answers `[""]`, with count 1, as a missing list does. */
  lemma {:induction false} BlankInput(s: string)
    requires AllSpace(s)
    ensures Processed(Text(s)) == [""]
  {
    TrimBlank(s);
    assert SplitRuns("") == [""];
  }

  // The word branch.

  /** The words of a trimmed text are all non-empty and free of white space. */
  predicate Words(ws: seq<string>) {
    forall k :: 0 <= k < |ws| ==> ws[k] != [] && NoSpace(ws[k])
  }

  lemma {:induction false} JoinStart(ws: seq<string>, d: string)
    requires ws != [] && ws[0] != []
    ensures Join(ws, d) != [] && Join(ws, d)[0] == ws[0][0]
  {
  }

  lemma {:induction false} GroupNotBlank(ws: seq<string>, i: nat)
    requires i < |ws| && Words(ws)
    ensures Kept(GroupAt(ws, i)) == [GroupAt(ws, i)]
  {
    JoinStart(ws[i..Min(i + 3, |ws|)], " ");
    TrimBlank(GroupAt(ws, i));
  }

  /** Of n words, the groups from word i number ceil((n - i) / 3). */
  lemma {:induction false} GroupsCount(ws: seq<string>, i: nat)
    requires Words(ws) && i <= |ws|
    ensures |GroupsFrom(ws, i)| == (|ws| - i + 2) / 3
    decreases |ws| - i
  {
    if i < |ws| {
      GroupNotBlank(ws, i);
      if i + 3 <= |ws| {
        GroupsCount(ws, i + 3);
      }
    }
  }

  /** The k-th group from word i is the group at word i + 3k. */
  lemma {:induction false} GroupsShape(ws: seq<string>, i: nat, k: nat)
    requires Words(ws) && k < |GroupsFrom(ws, i)|
    ensures i + 3 * k < |ws|
    ensures GroupsFrom(ws, i)[k] == GroupAt(ws, i + 3 * k)
    decreases |ws| - i
  {
    GroupNotBlank(ws, i);
    if k > 0 {
      GroupsShape(ws, i + 3, k - 1);
    }
  }

  lemma {:induction false} JoinAppend(a: seq<string>, b: seq<string>, d: string)
    requires a != [] && b != []
    ensures Join(a + b, d) == Join(a, d) + d + Join(b, d)
  {
    if |a| == 1 {
      JoinCons(a[0], b, d);
      assert [a[0]] + b == a + b;
    } else {
      JoinAppend(a[1..], b, d);
      assert (a + b)[0] == a[0] && (a + b)[1..] == a[1..] + b;
      assert Join(a + b, d) == a[0] + d + Join(a[1..] + b, d);
      assert Join(a, d) == a[0] + d + Join(a[1..], d);
    }
  }

  /** Joining the groups with single spaces gives back the words joined with single spaces. */
  lemma {:induction false} GroupsJoin(ws: seq<string>, i: nat)
    requires Words(ws) && i < |ws|
    ensures Join(GroupsFrom(ws, i), " ") == Join(ws[i..], " ")
    decreases |ws| - i
  {
    GroupNotBlank(ws, i);
    var m := Min(i + 3, |ws|);
    if m == |ws| {
      assert GroupsFrom(ws, i) == [GroupAt(ws, i)];
      assert ws[i..m] == ws[i..];
    } else {
      GroupsJoin(ws, m);
      GroupsCount(ws, m);
      JoinCons(GroupAt(ws, i), GroupsFrom(ws, m), " ");
      JoinAppend(ws[i..m], ws[m..], " ");
      assert ws[i..m] + ws[m..] == ws[i..];
    }
  }

  /** With more than five words (and no line break or comma) the answer is ceil(n/3) groups of the words, in order. */
  lemma {:induction false} WordBranch(s: string)
    requires '\n' !in Trim(s) && ',' !in Trim(s) && |SplitRuns(Trim(s))| > 5
    ensures var ws := SplitRuns(Trim(s));
      && Processed(Text(s)) == Groups(ws)
      && |Processed(Text(s))| == (|ws| + 2) / 3
      && Join(Processed(Text(s)), " ") == Join(ws, " ")
      && forall k :: 0 <= k < |Processed(Text(s))| ==>
           3 * k < |ws| && Processed(Text(s))[k] == GroupAt(ws, 3 * k)
  {
    var ws := SplitRuns(Trim(s));
    assert Trim(s) != [];
    SplitRunsOfTrimmed(Trim(s));
    GroupsCount(ws, 0);
    GroupsJoin(ws, 0);
    assert ws[0..] == ws;
    forall k | 0 <= k < |Groups(ws)| ensures 3 * k < |ws| && Groups(ws)[k] == GroupAt(ws, 3 * k) {
      GroupsShape(ws, 0, k);
    }
  }
}
