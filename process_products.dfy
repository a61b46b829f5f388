/**
 * The product-lookup endpoint of app/api/process-products/route.ts: it splits
 * the `input` form field into product names and looks each one up in the
 * `produtos` table. The database is a parameter: a function from a query to
 * either an error or the rows it returned.
 */
module ProcessProducts {
  import opened Wrappers
  import opened Strings
  import opened Numerals
  import opened Catalog

  /** The filter of a lookup: EAN code equality or description search, or the description search alone. */
  datatype Filter =
    | CodeOrDescription(code: string)   // codauxiliar.eq.<name>, descricao.ilike.%<name>%
    | DescriptionContains(text: string) // descricao ilike %<name>%

  datatype Query = Query(table: string, filter: Filter, limit: nat)

  /** What the database client answers: an error, or `data` (which may be null). */
  datatype LookupOutcome = LookupError | Rows(data: Option<seq<Product>>)

  /** The HTTP answer: status 400 with a message, or the per-name results. */
  datatype Response = BadRequest(error: string) | Ok(resultados: seq<ProductResult>)

  const NO_INPUT := "No input provided"
  const NO_NAMES := "No valid product names found"
  const MAX_ROWS := 10

  /** `/^\d+$/`: one or more ASCII digits and nothing else. */
  predicate IsNumeric(name: string) {
    |name| > 0 && AllDigits(name)
  }

  /**
   * `input.split(/[,\n]/).map(trim).filter(nonEmpty)`: every name is
   * non-empty, trimmed, and free of commas and line breaks.
   */
  function ProductNames(input: string): (r: seq<string>)
    ensures AllClean(r, {',', '\n'})
  {
    PiecesClean(input, {',', '\n'});
    Pieces(input, {',', '\n'})
  }

  /** The query issued for one name: numeric names also match the EAN code; at most 10 rows. */
  function QueryFor(name: string): (q: Query)
    ensures q.table == "produtos" && q.limit == MAX_ROWS
    ensures q.filter.CodeOrDescription? <==> IsNumeric(name)
  {
    var filter := if IsNumeric(name) then CodeOrDescription(name) else DescriptionContains(name);
    Query("produtos", filter, MAX_ROWS)
  }

  /**
   * The results for a list of names: one per name whose lookup succeeded,
   * in order; there are never more results than names.
   */
  function Found(names: seq<string>, lookup: Query -> LookupOutcome): (r: seq<ProductResult>)
    ensures |r| <= |names|
  {
    if names == [] then []
    else
      var here := match lookup(QueryFor(names[0]))
        case LookupError => []
        case Rows(data) => [ProductResult(names[0], data.GetOr([]))];
      here + Found(names[1..], lookup)
  }

  /** The handler: validation, the split, then one lookup per name. */
  method Post(input: Option<string>, lookup: Query -> LookupOutcome) returns (r: Response)
    ensures input.None? || input.value == [] ==> r == BadRequest(NO_INPUT)
    ensures input.Some? && input.value != [] && ProductNames(input.value) == [] ==> r == BadRequest(NO_NAMES)
    ensures input.Some? && input.value != [] && ProductNames(input.value) != [] ==>
      r == Ok(Found(ProductNames(input.value), lookup))
  {
    if input.None? || input.value == [] {
      return BadRequest(NO_INPUT);
    }
    var productNames := ProductNames(input.value);
    if |productNames| == 0 {
      return BadRequest(NO_NAMES);
    }
    var results := LookUpAll(productNames, lookup);
    return Ok(results);
  }

  /** Looking up the remaining names: the first one's result, then the rest. */
  lemma {:induction false} FoundStep(names: seq<string>, i: nat, lookup: Query -> LookupOutcome)
    requires i < |names|
    ensures lookup(QueryFor(names[i])).LookupError? ==> Found(names[i..], lookup) == Found(names[i + 1..], lookup)
    ensures lookup(QueryFor(names[i])).Rows? ==>
      Found(names[i..], lookup) == [ProductResult(names[i], lookup(QueryFor(names[i])).data.GetOr([]))] + Found(names[i + 1..], lookup)
  {
    assert names[i..][1..] == names[i + 1..];
  }

  /** The `for` loop of the handler: a failed lookup is skipped with `continue`. */
  method LookUpAll(productNames: seq<string>, lookup: Query -> LookupOutcome) returns (results: seq<ProductResult>)
    ensures results == Found(productNames, lookup)
  {
    results := [];
    var i := 0;
    while i < |productNames|
      invariant 0 <= i <= |productNames|
      invariant results + Found(productNames[i..], lookup) == Found(productNames, lookup)
    {
      var productName := productNames[i];
      FoundStep(productNames, i, lookup);
      var query := QueryFor(productName);
      var outcome := lookup(query);
      if outcome.LookupError? {
        i := i + 1;
        continue;
      }
      var found := [ProductResult(productName, outcome.data.GetOr([]))];
      assert results + found + Found(productNames[i + 1..], lookup) == results + (found + Found(productNames[i + 1..], lookup));
      results := results + found;
      i := i + 1;
    }
    assert productNames[i..] == [];
  }

  // Properties.

  /** Digit strings, such as EAN codes, are numeric; a sign or a blank is not a digit. */
  lemma {:induction false} NumericNames(n: nat, s: string)
    ensures IsNumeric(DecimalString(n))
    ensures QueryFor(DecimalString(n)).filter == CodeOrDescription(DecimalString(n))
    ensures IsNumeric(s) ==> '-' !in s && ' ' !in s && '.' !in s
  {
  }

  /** Results for two parts of the list are the results for each part: a failure affects only its own name. */
  lemma {:induction false} FoundAppend(a: seq<string>, b: seq<string>, lookup: Query -> LookupOutcome)
    ensures Found(a + b, lookup) == Found(a, lookup) + Found(b, lookup)
  {
    if a != [] {
      FoundAppend(a[1..], b, lookup);
      assert (a + b)[0] == a[0] && (a + b)[1..] == a[1..] + b;
      var here := match lookup(QueryFor(a[0]))
        case LookupError => []
        case Rows(data) => [ProductResult(a[0], data.GetOr([]))];
      assert Found(a + b, lookup) == here + (Found(a[1..], lookup) + Found(b, lookup));
      assert Found(a, lookup) == here + Found(a[1..], lookup);
    } else {
      assert a + b == b;
    }
  }

  /** A failed lookup is skipped and the remaining names are still looked up. */
  lemma {:induction false} FoundSkipsError(name: string, rest: seq<string>, lookup: Query -> LookupOutcome)
    requires lookup(QueryFor(name)).LookupError?
    ensures Found([name] + rest, lookup) == Found(rest, lookup)
  {
    assert ([name] + rest)[1..] == rest;
  }

  /** When every lookup succeeds there is one result per name, in input order, holding its rows (or none). */
  lemma {:induction false} FoundAllSucceed(names: seq<string>, lookup: Query -> LookupOutcome)
    requires forall k :: 0 <= k < |names| ==> lookup(QueryFor(names[k])).Rows?
    ensures |Found(names, lookup)| == |names|
    ensures forall k :: 0 <= k < |names| ==>
      Found(names, lookup)[k] == ProductResult(names[k], lookup(QueryFor(names[k])).data.GetOr([]))
  {
    if names != [] {
      FoundAllSucceed(names[1..], lookup);
    }
  }

  /** Each result is for one of the names. */
  lemma {:induction false} FoundFromNames(names: seq<string>, lookup: Query -> LookupOutcome)
    ensures forall k :: 0 <= k < |Found(names, lookup)| ==> Found(names, lookup)[k].nomeOriginal in names
  {
    if names != [] {
      FoundFromNames(names[1..], lookup);
    }
  }
}
