/**
 * The quotation chat of components/chat-interface.tsx: the product total,
 * the conversion of quotation rows into products, the chat-or-list test and
 * line cleanup of a sent message, the canned fallback replies, the Markdown
 * export of the rows, and the product list the chat keeps as its state.
 */
module ChatInterface {
  import opened Wrappers
  import opened Strings
  import opened Numerals
  import opened Catalog
  import MarkdownTable
  import Utils

  /** A value that may or may not be an array. */
  datatype Raw<T> = NotArray | Array(items: seq<T>)

  // The total.

  function LineTotal(p: QuotedProduct): int {
    p.price * p.quantity
  }

  /** `calculateTotal`: `reduce` from the left, starting at 0; never negative for non-negative prices and quantities. */
  function CalculateTotal(products: seq<QuotedProduct>): (r: int)
    ensures (forall k :: 0 <= k < |products| ==> products[k].price >= 0 && products[k].quantity >= 0) ==> r >= 0
  {
    if products == [] then 0
    else
      var last := products[|products| - 1];
      assert last.price >= 0 && last.quantity >= 0 ==> LineTotal(last) >= 0;
      CalculateTotal(products[..|products| - 1]) + LineTotal(last)
  }

  /** The total of two lists one after the other is the sum of their totals. */
  lemma {:induction false} TotalAppend(a: seq<QuotedProduct>, b: seq<QuotedProduct>)
    ensures CalculateTotal(a + b) == CalculateTotal(a) + CalculateTotal(b)
    decreases |b|
  {
    if b == [] {
      assert a + b == a;
    } else {
      var c := a + b;
      assert c[..|c| - 1] == a + b[..|b| - 1];
      TotalAppend(a, b[..|b| - 1]);
    }
  }

  /** Replacing one product changes the total by the difference of its line totals. */
  lemma {:induction false} TotalReplace(products: seq<QuotedProduct>, i: nat, p: QuotedProduct)
    requires i < |products|
    ensures CalculateTotal(products[i := p]) == CalculateTotal(products) - LineTotal(products[i]) + LineTotal(p)
  {
    var before, after := products[..i], products[i + 1..];
    assert products == before + [products[i]] + after;
    assert products[i := p] == before + [p] + after;
    TotalAppend(before + [products[i]], after);
    TotalAppend(before, [products[i]]);
    TotalAppend(before + [p], after);
    TotalAppend(before, [p]);
    assert CalculateTotal([p]) == LineTotal(p) by { assert [p][..0] == []; }
    assert CalculateTotal([products[i]]) == LineTotal(products[i]) by { assert [products[i]][..0] == []; }
  }

  // Converting the rows of an answer.

  /**
   * The price of a converted row: a number is kept, anything else goes
   * through `parseFloat(String(preco)) || 0`. `parsePrice` stands for
   * `parseFloat` (in cents, `None` for NaN); `String(undefined)` is
   * "undefined", which `parseFloat` reads as NaN, so a missing price is 0.
   */
  function ProductPrice(preco: Price, parsePrice: string -> Option<int>): int {
    match preco
    case PriceNumber(cents) => cents
    case PriceString(text) => OrElse(parsePrice(text), 0)
    case NoPrice => 0
  }

  /** `id` `prod-<index>`, defaults for missing fields, quantity 1. */
  function ToProduct(item: QuoteRow, index: nat, parsePrice: string -> Option<int>): (r: QuotedProduct)
    ensures ConvertedRow(item, index, parsePrice, r)
  {
    QuotedProduct(
      "prod-" + DecimalString(index),
      TextOr(item.produto, "Produto sem nome"),
      ProductPrice(item.preco, parsePrice),
      TextOr(item.fornecedor, "-"),
      TextOr(item.marca, "-"),
      1,
      Some(TextOr(item.codigo, "-")),
      Some(TextOr(item.marca, "-")),
      Some(TextOr(item.original, "-")),
      item.sugeridoPorIA)
  }

  /** No entry of the array is null. */
  predicate NoNull(items: seq<Option<QuoteRow>>) {
    forall k :: 0 <= k < |items| ==> items[k].Some?
  }

  /**
   * `convertRawResultsToProducts`: a non-array gives no products; otherwise
   * `map` gives one product per row, and reading `item.produto` of a null
   * entry throws a `TypeError` (here `None`).
   */
  function ConvertRawResults(rawResults: Raw<Option<QuoteRow>>, parsePrice: string -> Option<int>): (r: Option<seq<QuotedProduct>>)
    ensures rawResults.NotArray? ==> r == Some([])
    ensures rawResults.Array? ==> (r.None? <==> exists k :: 0 <= k < |rawResults.items| && rawResults.items[k].None?)
    ensures rawResults.Array? && r.Some? ==> |r.value| == |rawResults.items|
  {
    if rawResults.NotArray? then Some([])
    else if !NoNull(rawResults.items) then None
    else
      var items := rawResults.items;
      Some(seq(|items|, i requires 0 <= i < |items| && items[i].Some? => ToProduct(items[i].value, i, parsePrice)))
  }

  /**
   * An array without null entries converts to one product per row, in
   * order: the i-th is `prod-i` with quantity 1, a number price as it is and
   * a text price parsed (0 when that fails or the price is missing), and `-`
   * (or "Produto sem nome" for the name) in place of every missing or empty
   * text field.
   */
  lemma {:induction false} ConvertShape(rawResults: Raw<Option<QuoteRow>>, parsePrice: string -> Option<int>)
    ensures rawResults.Array? && NoNull(rawResults.items) ==>
      var items := rawResults.items;
      var ps := ConvertRawResults(rawResults, parsePrice).value;
      |ps| == |items| && forall i :: 0 <= i < |items| ==> ConvertedRow(items[i].value, i, parsePrice, ps[i])
  {
  }

  /** What the i-th product converted from `row` holds, field by field. */
  predicate ConvertedRow(row: QuoteRow, i: nat, parsePrice: string -> Option<int>, p: QuotedProduct) {
    p.id == "prod-" + DecimalString(i) && p.quantity == 1 && p.suggestedByAI == row.sugeridoPorIA
    && (row.preco.PriceNumber? ==> p.price == row.preco.cents)
    && (row.preco.PriceString? ==> p.price == (var v := parsePrice(row.preco.text); if v.Some? then v.value else 0))
    && (row.preco.NoPrice? ==> p.price == 0)
    && p.name == (if Filled(row.produto) then row.produto.value else "Produto sem nome")
    && p.supplier == (if Filled(row.fornecedor) then row.fornecedor.value else "-")
    && p.category == (if Filled(row.marca) then row.marca.value else "-")
    && p.brand == Some(if Filled(row.marca) then row.marca.value else "-")
    && p.code == Some(if Filled(row.codigo) then row.codigo.value else "-")
    && p.originalName == Some(if Filled(row.original) then row.original.value else "-")
  }

  /** No two converted products share an id. */
  lemma {:induction false} ConvertIdsDistinct(rawResults: Raw<Option<QuoteRow>>, parsePrice: string -> Option<int>)
    ensures ConvertRawResults(rawResults, parsePrice).Some? ==> UniqueIds(ConvertRawResults(rawResults, parsePrice).value)
  {
    if ConvertRawResults(rawResults, parsePrice).Some? {
      var ps := ConvertRawResults(rawResults, parsePrice).value;
      forall i, j | 0 <= i < j < |ps| ensures ps[i].id != ps[j].id {
        if ps[i].id == ps[j].id {
          assert ps[i].id[5..] == DecimalString(i);
          assert ps[j].id[5..] == DecimalString(j);
          DecimalInjective(i, j);
        }
      }
    }
  }

  predicate UniqueIds(products: seq<QuotedProduct>) {
    forall i, j :: 0 <= i < j < |products| ==> products[i].id != products[j].id
  }

  /** The sum of the prices the rows convert to; a null entry adds nothing. */
  function PriceSum(items: seq<Option<QuoteRow>>, parsePrice: string -> Option<int>): int {
    if items == [] then 0
    else
      var last := items[|items| - 1];
      PriceSum(items[..|items| - 1], parsePrice) + (if last.Some? then ProductPrice(last.value.preco, parsePrice) else 0)
  }

  /** With every quantity 1, the total of the converted products is the sum of the prices. */
  lemma {:induction false} ConvertTotal(items: seq<Option<QuoteRow>>, parsePrice: string -> Option<int>)
    requires NoNull(items)
    ensures CalculateTotal(ConvertRawResults(Array(items), parsePrice).value) == PriceSum(items, parsePrice)
    decreases |items|
  {
    if items != [] {
      var n := |items| - 1;
      var ps := ConvertRawResults(Array(items), parsePrice).value;
      assert NoNull(items[..n]);
      ConvertPrefix(items, n, parsePrice);
      ConvertTotal(items[..n], parsePrice);
      var last := ToProduct(items[n].value, n, parsePrice);
      assert ps[n] == last && ps[..n] == ps[..|ps| - 1];
      assert last.price == ProductPrice(items[n].value.preco, parsePrice) && last.quantity == 1;
      assert CalculateTotal(ps) == CalculateTotal(ps[..n]) + LineTotal(last);
    }
  }

  /** Converting the first `n` rows gives the first `n` products. */
  lemma {:induction false} ConvertPrefix(items: seq<Option<QuoteRow>>, n: nat, parsePrice: string -> Option<int>)
    requires NoNull(items) && n <= |items|
    ensures NoNull(items[..n])
    ensures ConvertRawResults(Array(items[..n]), parsePrice).value == ConvertRawResults(Array(items), parsePrice).value[..n]
  {
    var a := ConvertRawResults(Array(items[..n]), parsePrice).value;
    var b := ConvertRawResults(Array(items), parsePrice).value[..n];
    forall j | 0 <= j < n ensures a[j] == b[j] {
      assert items[..n][j] == items[j];
    }
  }

  // The message the user sends.

  /**
   * `message.split("\n").length <= 1 && !message.includes(",") &&
   * message.split(" ").length <= 5`: a message is chat exactly when it has
   * no line break, no comma and at most four spaces.
   */
  function IsChatMessage(message: string): (r: bool)
    ensures r <==> '\n' !in message && ',' !in message && CountIn(message, {' '}) <= 4
  {
    SplitCounts(message, {'\n'});
    SplitCounts(message, {' '});
    CountInZero(message, '\n');
    |Split(message, {'\n'})| <= 1 && ',' !in message && |Split(message, {' '})| <= 5
  }

  lemma {:induction false} CountInZero(s: string, c: char)
    ensures CountIn(s, {c}) == 0 <==> c !in s
  {
    if s != [] {
      CountInZero(s[1..], c);
      assert s == [s[0]] + s[1..];
    }
  }

  /**
   * The list the chat posts: trimmed non-empty lines joined by `\n`.
   * Splitting it again at `\n` and keeping the trimmed non-empty pieces gives
   * back exactly the message's own trimmed non-empty lines.
   */
  function CleanList(message: string): (r: string)
    ensures Pieces(message, {'\n'}) == [] ==> r == ""
    ensures Pieces(message, {'\n'}) != [] ==> Split(r, {'\n'}) == Pieces(message, {'\n'})
    ensures Pieces(r, {'\n'}) == Pieces(message, {'\n'})
  {
    var ps := Pieces(message, {'\n'});
    PiecesClean(message, {'\n'});
    if ps == [] then Join(ps, "\n")
    else
      SplitJoin(ps, '\n');
      TrimAllOfTrimmed(ps);
      NonEmptyOfClean(ps);
      Join(ps, "\n")
  }

  lemma {:induction false} TrimAllOfTrimmed(ps: seq<string>)
    requires forall k :: 0 <= k < |ps| ==> IsTrimmed(ps[k])
    ensures TrimAll(ps) == ps
  {
    if ps != [] {
      TrimTrimmed(ps[0]);
      TrimAllOfTrimmed(ps[1..]);
    }
  }

  /** Cleaning a cleaned list changes nothing. */
  lemma {:induction false} CleanListIdempotent(message: string)
    ensures CleanList(CleanList(message)) == CleanList(message)
  {
  }

  // Fallback replies.

  /** `toLowerCase` on ASCII and Latin-1 letters. */
  function LowerChar(c: char): char {
    if 'A' <= c <= 'Z' || ('\U{00C0}' <= c <= '\U{00DE}' && c != '\U{00D7}') then (c as int + 32) as char else c
  }

  function Lower(s: string): string {
    if s == [] then [] else [LowerChar(s[0])] + Lower(s[1..])
  }

  datatype ReplyKind = Greeting | Help | Default

  predicate GreetingTest(m: string) {
    Contains(m, "ol\U{00E1}") || Contains(m, "oi") || Contains(m, "bom dia") || Contains(m, "boa tarde")
    || Contains(m, "boa noite") || m == "oi" || m == "ol\U{00E1}"
  }

  predicate HelpTest(m: string) {
    Contains(m, "ajuda") || Contains(m, "como funciona") || Contains(m, "como usar")
    || Contains(m, "o que voc\U{00EA} faz") || Contains(m, "pode me ajudar")
  }

  /** The branch `getFallbackResponse` takes: greeting before help before the default. */
  function FallbackKind(message: string): ReplyKind {
    var normalized := Trim(Lower(message));
    if GreetingTest(normalized) then Greeting
    else if HelpTest(normalized) then Help
    else Default
  }

  const GREETINGS: seq<string> := [
    "Ol\U{00E1}! Como posso ajudar com sua "
      + "cota\U{00E7}\U{00E3}o hoje?",
    "Oi! Estou aqui para ajudar com suas "
      + "cota\U{00E7}\U{00F5}es. Basta enviar sua "
      + "lista de produtos.",
    "Bom dia! Precisa de uma "
      + "cota\U{00E7}\U{00E3}o? Envie sua lista de "
      + "produtos, um por linha.",
    "Ol\U{00E1}! Sou seu assistente de "
      + "cota\U{00E7}\U{00F5}es. Como posso ajudar "
      + "hoje?"]

  const HELP_RESPONSES: seq<string> := [
    "Para obter uma cota\U{00E7}\U{00E3}o, basta "
      + "digitar ou colar sua lista de produtos, um "
      + "por linha. Por exemplo:\nParacetamol "
      + "500mg\nDipirona 1g\nIbuprofeno 600mg",
    "Posso ajudar com cota\U{00E7}\U{00F5}es de "
      + "produtos. Digite sua lista de produtos, um "
      + "por linha, e eu buscarei os melhores "
      + "pre\U{00E7}os para voc\U{00EA}.",
    "Para usar o sistema, envie sua lista de "
      + "produtos (um por linha). Voc\U{00EA} pode "
      + "incluir detalhes como dosagem, quantidade e "
      + "forma farmac\U{00EA}utica para resultados "
      + "mais precisos."]

  const FALLBACK_RESPONSES: seq<string> := [
    "Estou aqui para ajudar com "
      + "cota\U{00E7}\U{00F5}es de produtos. Envie "
      + "sua lista de produtos, um por linha, para "
      + "que eu possa buscar os melhores "
      + "pre\U{00E7}os.",
    "Como assistente de cota\U{00E7}\U{00F5}es, "
      + "posso ajudar a encontrar os melhores "
      + "pre\U{00E7}os para seus produtos. Basta "
      + "enviar sua lista, um produto por linha.",
    "Para que eu possa ajudar, envie sua lista "
      + "de produtos para cota\U{00E7}\U{00E3}o, um "
      + "por linha. Estou \U{00E0} "
      + "disposi\U{00E7}\U{00E3}o para buscar os "
      + "melhores pre\U{00E7}os para voc\U{00EA}."]

  function Responses(kind: ReplyKind): seq<string> {
    match kind
    case Greeting => GREETINGS
    case Help => HELP_RESPONSES
    case Default => FALLBACK_RESPONSES
  }

  /** `Math.floor(draw * n)` for a draw of `Math.random`, which lies in [0, 1). */
  function RandomIndex(n: nat, draw: real): (i: int)
    requires 0.0 <= draw < 1.0
    ensures n > 0 ==> 0 <= i < n
  {
    var x := draw * n as real;
    assert 0.0 <= x;
    assert n > 0 ==> x < n as real;
    x.Floor
  }

  /** `getRandomResponse`: `responses[index]`, undefined (here `None`) when the index is out of range. */
  function GetRandomResponse(responses: seq<string>, draw: real): (r: Option<string>)
    requires 0.0 <= draw < 1.0
    ensures |responses| > 0 ==> r.Some? && r.value in responses
  {
    var i := RandomIndex(|responses|, draw);
    if 0 <= i < |responses| then Some(responses[i]) else None
  }

  /** `getFallbackResponse`: always one of the replies of the branch the message falls in. */
  function GetFallbackResponse(message: string, draw: real): (r: string)
    requires 0.0 <= draw < 1.0
    ensures r in Responses(FallbackKind(message))
  {
    GetRandomResponse(Responses(FallbackKind(message)), draw).value
  }

  /** The exact comparisons with "oi" and "olá" never decide: the substring tests already cover them. */
  lemma {:induction false} ExactGreetingsRedundant(m: string)
    ensures GreetingTest(m) <==>
      Contains(m, "ol\U{00E1}") || Contains(m, "oi") || Contains(m, "bom dia") || Contains(m, "boa tarde") || Contains(m, "boa noite")
  {
    if m == "oi" || m == "ol\U{00E1}" {
      assert OccursAt(m, m, 0);
    }
  }

  /** Any message whose lower-cased trimmed text contains "oi" is a greeting, even when it asks for help. */
  lemma {:induction false} OiIsGreeting(message: string)
    requires Contains(Trim(Lower(message)), "oi")
    ensures FallbackKind(message) == Greeting
  {
  }

  /** "pode me ajudar" is caught by the "ajuda" test before its own. */
  lemma {:induction false} AjudaCoversPodeMeAjudar(m: string)
    requires Contains(m, "pode me ajudar")
    ensures Contains(m, "ajuda")
  {
    var i :| 0 <= i <= |m| - 14 && OccursAt(m, "pode me ajudar", i);
    var hit := m[i..i + 14];
    assert hit == "pode me ajudar";
    forall k | 0 <= k < 5
      ensures m[i + 8..i + 13][k] == "ajuda"[k]
    {
      assert m[i + 8 + k] == hit[8 + k];
    }
    assert OccursAt(m, "ajuda", i + 8);
  }

  // The Markdown export.

  const NO_RESULTS := "Nenhum resultado encontrado."

  const HEADER_CELLS: seq<string> :=
    ["Nome digitado", "Produto", "Fornecedor", "Marca", "Pre\U{00E7}o", "Quantidade", "Subtotal", "C\U{00F3}digo"]

  const SEPARATOR_CELLS: seq<string> := ["---", "---", "---", "---", "---", "---", "---", "---"]

  /** ` cell |` for each cell: the template after the leading `|`. */
  function CellsText(cells: seq<string>): string {
    if cells == [] then [] else " " + cells[0] + " |" + CellsText(cells[1..])
  }

  /** One table line without its `\n`: `| a | b | … |`. */
  function RowText(cells: seq<string>): string {
    "|" + CellsText(cells)
  }

  /** The price cell: `preco_original`, else `R$ <preco>` with the first `.` made `,`. */
  function PriceText(r: QuoteRow): string {
    var printed := match r.preco
      case PriceNumber(cents) => "R$ " + NumberText(cents)
      case PriceString(text) => "R$ " + text
      case NoPrice => "R$ undefined";
    TextOr(r.preco_original, ReplaceFirst(printed, '.', ','))
  }

  /** `r.quantidade || 1`. */
  function Quantidade(r: QuoteRow): int {
    OrElse(r.quantidade, 1)
  }

  /**
   * The price as `preco * quantidade` sees it: a number as it is, a text
   * through JavaScript's `Number` coercion (`toNumber`, in cents, `None` for
   * NaN), and NaN when the price is missing.
   */
  function PriceAmount(preco: Price, toNumber: string -> Option<int>): Option<int> {
    match preco
    case PriceNumber(cents) => Some(cents)
    case PriceString(text) => toNumber(text)
    case NoPrice => None
  }

  /** The subtotal cell: `R$ ` and `(preco * quantidade).toFixed(2)` with a decimal comma; `R$ NaN` without a price. */
  function SubtotalText(r: QuoteRow, toNumber: string -> Option<int>): string {
    var amount := PriceAmount(r.preco, toNumber);
    if amount.Some? then "R$ " + ReplaceFirst(Fixed2(amount.value * Quantidade(r)), '.', ',') else "R$ NaN"
  }

  /** The eight cells of a row, missing text fields printed as `-`. */
  function RowCells(r: QuoteRow, toNumber: string -> Option<int>): seq<string> {
    [TextOr(r.original, "-"), TextOr(r.produto, "-"), TextOr(r.fornecedor, "-"), TextOr(r.marca, "-"),
     PriceText(r), IntText(Quantidade(r)), SubtotalText(r, toNumber), TextOr(r.codigo, "-")]
  }

  /** The lines of the rows, null rows skipped. */
  function RowsText(rows: seq<Option<QuoteRow>>, toNumber: string -> Option<int>): string {
    if rows == [] then []
    else (if rows[0].None? then [] else RowText(RowCells(rows[0].value, toNumber)) + "\n") + RowsText(rows[1..], toNumber)
  }

  /** What `formatarTabelaMarkdown` returns: the no-results text exactly when there is no row to lay out. */
  function TableText(resultados: Raw<Option<QuoteRow>>, toNumber: string -> Option<int>): (r: string)
    ensures r == NO_RESULTS <==> resultados.NotArray? || |resultados.items| == 0
  {
    if resultados.NotArray? || |resultados.items| == 0 then NO_RESULTS
    else
      var t := Layout(HEADER_CELLS, SEPARATOR_CELLS, resultados.items, toNumber);
      assert t[0] == '|' != NO_RESULTS[0];
      t
  }

  /** A header line, a separator line, then the lines of the rows. */
  function Layout(header: seq<string>, separator: seq<string>, rows: seq<Option<QuoteRow>>, toNumber: string -> Option<int>): string {
    RowText(header) + "\n" + RowText(separator) + "\n" + RowsText(rows, toNumber)
  }

  /** `formatarTabelaMarkdown`: header, separator, then `tabela +=` one line per row that is not null. */
  method FormatarTabelaMarkdown(resultados: Raw<Option<QuoteRow>>, toNumber: string -> Option<int>) returns (tabela: string)
    ensures tabela == TableText(resultados, toNumber)
  {
    if resultados.NotArray? || |resultados.items| == 0 {
      return NO_RESULTS;
    }
    tabela := RowText(HEADER_CELLS) + "\n";
    tabela := tabela + RowText(SEPARATOR_CELLS) + "\n";
    tabela := AppendRows(tabela, resultados.items, toNumber);
  }

  /** The `for` loop of `formatarTabelaMarkdown`: a null row is skipped with `continue`. */
  method AppendRows(start: string, resultados: seq<Option<QuoteRow>>, toNumber: string -> Option<int>) returns (tabela: string)
    ensures tabela == start + RowsText(resultados, toNumber)
  {
    tabela := start;
    var i := 0;
    while i < |resultados|
      invariant 0 <= i <= |resultados|
      invariant tabela + RowsText(resultados[i..], toNumber) == start + RowsText(resultados, toNumber)
    {
      assert resultados[i..][1..] == resultados[i + 1..];
      ghost var rest := RowsText(resultados[i + 1..], toNumber);
      if resultados[i].None? {
        assert RowsText(resultados[i..], toNumber) == rest;
        i := i + 1;
        continue;
      }
      var r := resultados[i].value;
      var preco := PriceText(r);
      var quantidade := Quantidade(r);
      var subtotal := SubtotalText(r, toNumber);
      var original := TextOr(r.original, "-");
      var produto := TextOr(r.produto, "-");
      var fornecedor := TextOr(r.fornecedor, "-");
      var marca := TextOr(r.marca, "-");
      var codigo := TextOr(r.codigo, "-");
      var cells := [original, produto, fornecedor, marca, preco, IntText(quantidade), subtotal, codigo];
      assert cells == RowCells(r, toNumber);
      var line := RowText(cells);
      assert RowsText(resultados[i..], toNumber) == line + "\n" + rest;
      tabela := tabela + line + "\n";
      i := i + 1;
    }
    assert resultados[i..] == [];
  }

  /**
   * A subtotal loses nothing: after its `R$ ` prefix, with the comma put back
   * to a point, it reads as the price times `quantidade || 1`; without a
   * price it is NaN. The quantity is at least 1 unless a negative one was
   * given.
   */
  lemma {:induction false} SubtotalReadsBack(r: QuoteRow, toNumber: string -> Option<int>)
    ensures PriceAmount(r.preco, toNumber).None? ==> SubtotalText(r, toNumber) == "R$ NaN"
    ensures PriceAmount(r.preco, toNumber).Some? ==>
      |SubtotalText(r, toNumber)| >= 3 && SubtotalText(r, toNumber)[..3] == "R$ "
      && ReadFixed2(ReplaceFirst(SubtotalText(r, toNumber)[3..], ',', '.'))
         == Some(PriceAmount(r.preco, toNumber).value * Quantidade(r))
    ensures Quantidade(r) >= 1 || (r.quantidade.Some? && r.quantidade.value < 0)
  {
    var amount := PriceAmount(r.preco, toNumber);
    if amount.Some? {
      var x := amount.value * Quantidade(r);
      assert SubtotalText(r, toNumber) == Utils.FormatCurrency(x, None);
      Utils.FallbackRoundTrip(x);
    }
  }

  /** The cells of the rows that are not null, in order. */
  function PresentRows(rows: seq<Option<QuoteRow>>, toNumber: string -> Option<int>): seq<seq<string>> {
    if rows == [] then []
    else (if rows[0].None? then [] else [RowCells(rows[0].value, toNumber)]) + PresentRows(rows[1..], toNumber)
  }

  function PadAll(cells: seq<string>): seq<string> {
    if cells == [] then [] else [" " + cells[0] + " "] + PadAll(cells[1..])
  }

  lemma {:induction false} SplitCellsText(cells: seq<string>)
    requires forall k :: 0 <= k < |cells| ==> NoneIn(cells[k], {'|'})
    ensures Split(CellsText(cells), {'|'}) == PadAll(cells) + [""]
  {
    if cells != [] {
      SplitCellsText(cells[1..]);
      var p := " " + cells[0] + " ";
      assert CellsText(cells) == p + ['|'] + CellsText(cells[1..]);
      SplitPrefix(p, '|', CellsText(cells[1..]));
    }
  }

  lemma {:induction false} TrimAllPadAll(cells: seq<string>)
    requires forall k :: 0 <= k < |cells| ==> cells[k] != [] && IsTrimmed(cells[k])
    ensures TrimAll(PadAll(cells)) == cells
  {
    if cells != [] {
      TrimAllPadAll(cells[1..]);
      TrimSurrounded(" ", cells[0], " ");
    }
  }

  /** The Markdown table reads back the cells of a line this formatter writes. */
  lemma {:induction false} RowRoundTrip(cells: seq<string>)
    requires AllClean(cells, {'|'})
    ensures MarkdownTable.Cells(RowText(cells)) == cells
  {
    SplitCellsText(cells);
    SplitPrefix("", '|', CellsText(cells));
    assert RowText(cells) == "" + ['|'] + CellsText(cells);
    var pieces := [""] + PadAll(cells) + [""];
    assert Split(RowText(cells), {'|'}) == pieces;
    TrimAllAppend([""] + PadAll(cells), [""]);
    TrimAllAppend([""], PadAll(cells));
    TrimAllPadAll(cells);
    assert TrimAll(pieces) == [""] + cells + [""];
    NonEmptyAppend([""] + cells, [""]);
    NonEmptyAppend([""], cells);
    NonEmptyOfClean(cells);
  }

  lemma {:induction false} CellsTextNoBreak(cells: seq<string>)
    requires forall k :: 0 <= k < |cells| ==> NoneIn(cells[k], {'\n'})
    ensures NoneIn(CellsText(cells), {'\n'})
  {
    if cells != [] {
      CellsTextNoBreak(cells[1..]);
    }
  }

  /** The lines of the rows that are not null. */
  function RowLines(rows: seq<Option<QuoteRow>>, toNumber: string -> Option<int>): seq<string> {
    if rows == [] then []
    else (if rows[0].None? then [] else [RowText(RowCells(rows[0].value, toNumber))]) + RowLines(rows[1..], toNumber)
  }

  /** Each line followed by `\n`. */
  function Terminated(lines: seq<string>): string {
    if lines == [] then [] else lines[0] + "\n" + Terminated(lines[1..])
  }

  lemma {:induction false} RowsTextLines(rows: seq<Option<QuoteRow>>, toNumber: string -> Option<int>)
    ensures RowsText(rows, toNumber) == Terminated(RowLines(rows, toNumber))
  {
    if rows != [] {
      RowsTextLines(rows[1..], toNumber);
      if rows[0].Some? {
        var l := RowText(RowCells(rows[0].value, toNumber));
        assert ([l] + RowLines(rows[1..], toNumber))[1..] == RowLines(rows[1..], toNumber);
      } else {
        assert RowLines(rows, toNumber) == RowLines(rows[1..], toNumber);
      }
    }
  }

  lemma {:induction false} TerminatedJoin(lines: seq<string>)
    requires lines != []
    ensures Terminated(lines) == Join(lines, "\n") + "\n"
  {
    if |lines| > 1 {
      TerminatedJoin(lines[1..]);
    }
  }

  lemma {:induction false} JoinEndsWithBar(lines: seq<string>)
    requires lines != []
    requires BarLines(lines)
    ensures var j := Join(lines, "\n"); j != [] && j[|j| - 1] == '|'
  {
    if |lines| > 1 {
      JoinEndsWithBar(lines[1..]);
    }
  }

  lemma {:induction false} RowTextEndsWithBar(cells: seq<string>)
    ensures var t := RowText(cells); t[|t| - 1] == '|'
  {
    if cells != [] {
      RowTextEndsWithBar(cells[1..]);
      var t := RowText(cells[1..]);
      assert RowText(cells) == "| " + cells[0] + " " + t;
    }
  }

  /** A formatted line has no line break, ends with `|`, and reads back as its cells. */
  lemma {:induction false} RowLineFacts(cells: seq<string>)
    requires AllClean(cells, {'|', '\n'})
    ensures BarLine(RowText(cells))
    ensures MarkdownTable.Cells(RowText(cells)) == cells
  {
    CellsTextNoBreak(cells);
    RowTextEndsWithBar(cells);
    RowRoundTrip(cells);
  }

  /** A line without a line break that ends with `|`. */
  predicate BarLine(l: string) {
    NoneIn(l, {'\n'}) && l != [] && l[|l| - 1] == '|'
  }

  predicate BarLines(lines: seq<string>) {
    forall k :: 0 <= k < |lines| ==> BarLine(lines[k])
  }

  lemma {:induction false} CleanRowsTail(rows: seq<Option<QuoteRow>>, toNumber: string -> Option<int>)
    requires rows != [] && CleanRows(rows, toNumber)
    ensures CleanRows(rows[1..], toNumber)
  {
    var rest := rows[1..];
    forall k | 0 <= k < |rest| && rest[k].Some? ensures AllClean(RowCells(rest[k].value, toNumber), {'|', '\n'}) {
      assert rest[k] == rows[k + 1];
    }
  }

  lemma {:induction false} RowLinesBar(rows: seq<Option<QuoteRow>>, toNumber: string -> Option<int>)
    requires CleanRows(rows, toNumber)
    ensures BarLines(RowLines(rows, toNumber))
  {
    if rows != [] {
      CleanRowsTail(rows, toNumber);
      RowLinesBar(rows[1..], toNumber);
      var tail := RowLines(rows[1..], toNumber);
      if rows[0].Some? {
        var line := RowText(RowCells(rows[0].value, toNumber));
        RowLineFacts(RowCells(rows[0].value, toNumber));
        assert RowLines(rows, toNumber) == [line] + tail;
        forall k | 1 <= k < |RowLines(rows, toNumber)| ensures RowLines(rows, toNumber)[k] == tail[k - 1] {
        }
      } else {
        assert RowLines(rows, toNumber) == tail;
      }
    }
  }

  lemma {:induction false} RowLinesCells(rows: seq<Option<QuoteRow>>, toNumber: string -> Option<int>)
    requires CleanRows(rows, toNumber)
    ensures MarkdownTable.CellsOfLines(RowLines(rows, toNumber)) == PresentRows(rows, toNumber)
  {
    if rows != [] {
      CleanRowsTail(rows, toNumber);
      RowLinesCells(rows[1..], toNumber);
      if rows[0].Some? {
        var cells := RowCells(rows[0].value, toNumber);
        RowLineFacts(cells);
        var ls := [RowText(cells)] + RowLines(rows[1..], toNumber);
        assert RowLines(rows, toNumber) == ls;
        assert ls[1..] == RowLines(rows[1..], toNumber);
        assert PresentRows(rows, toNumber) == [cells] + PresentRows(rows[1..], toNumber);
      } else {
        assert RowLines(rows, toNumber) == RowLines(rows[1..], toNumber);
        assert PresentRows(rows, toNumber) == PresentRows(rows[1..], toNumber);
      }
    }
  }

  lemma {:induction false} HeaderCellsClean()
    ensures AllClean(HEADER_CELLS, {'|', '\n'}) && AllClean(SEPARATOR_CELLS, {'|', '\n'})
  {
    FirstHeadersClean();
    LastHeadersClean();
    forall k | 0 <= k < |HEADER_CELLS| ensures CleanCell(HEADER_CELLS[k]) {
      if k == 0 {} else if k == 1 {} else if k == 2 {} else if k == 3 {}
      else if k == 4 {} else if k == 5 {} else if k == 6 {} else {}
    }
    assert CleanCell("---");
    assert forall k :: 0 <= k < |SEPARATOR_CELLS| ==> SEPARATOR_CELLS[k] == "---";
  }

  lemma {:induction false} FirstHeadersClean()
    ensures CleanCell("Nome digitado") && CleanCell("Produto") && CleanCell("Fornecedor") && CleanCell("Marca")
  {
  }

  lemma {:induction false} LastHeadersClean()
    ensures CleanCell("Pre\U{00E7}o") && CleanCell("Quantidade") && CleanCell("Subtotal") && CleanCell("C\U{00F3}digo")
  {
  }

  predicate CleanCell(cell: string) {
    cell != [] && IsTrimmed(cell) && NoneIn(cell, {'|', '\n'})
  }

  /** The lines of a layout: header, separator, then the rows that are not null. */
  function LayoutLines(header: seq<string>, separator: seq<string>, items: seq<Option<QuoteRow>>, toNumber: string -> Option<int>): seq<string> {
    [RowText(header), RowText(separator)] + RowLines(items, toNumber)
  }

  lemma {:induction false} LayoutJoin(header: seq<string>, separator: seq<string>, items: seq<Option<QuoteRow>>, toNumber: string -> Option<int>)
    ensures Layout(header, separator, items, toNumber) == Join(LayoutLines(header, separator, items, toNumber), "\n") + "\n"
  {
    LayoutTerminated(header, separator, items, toNumber);
    TerminatedJoin(LayoutLines(header, separator, items, toNumber));
  }

  /** The layout is its lines, each followed by `\n`. */
  lemma {:induction false} LayoutTerminated(header: seq<string>, separator: seq<string>, items: seq<Option<QuoteRow>>, toNumber: string -> Option<int>)
    ensures Layout(header, separator, items, toNumber) == Terminated(LayoutLines(header, separator, items, toNumber))
  {
    RowsTextLines(items, toNumber);
    TerminatedTwo(RowText(header), RowText(separator), RowLines(items, toNumber));
  }

  /** Two lines in front of `rest`, each with its `\n`. */
  lemma {:induction false} TerminatedTwo(h: string, sep: string, rest: seq<string>)
    ensures Terminated([h, sep] + rest) == h + "\n" + sep + "\n" + Terminated(rest)
  {
    var lines := [h, sep] + rest;
    assert lines[0] == h && lines[1..] == [sep] + rest;
    assert lines[1..][0] == sep && lines[1..][1..] == rest;
    var tail := sep + "\n" + Terminated(rest);
    assert Terminated(lines[1..]) == tail;
    assert Terminated(lines) == h + "\n" + tail;
  }


  predicate CleanRows(items: seq<Option<QuoteRow>>, toNumber: string -> Option<int>) {
    forall k :: 0 <= k < |items| && items[k].Some? ==> AllClean(RowCells(items[k].value, toNumber), {'|', '\n'})
  }

  lemma {:induction false} LayoutLinesShape(header: seq<string>, separator: seq<string>, items: seq<Option<QuoteRow>>, toNumber: string -> Option<int>)
    requires AllClean(header, {'|', '\n'}) && AllClean(separator, {'|', '\n'}) && CleanRows(items, toNumber)
    ensures LayoutLines(header, separator, items, toNumber)[0][0] == '|'
    ensures BarLines(LayoutLines(header, separator, items, toNumber))
  {
    var rows := RowLines(items, toNumber);
    var lines := [RowText(header), RowText(separator)] + rows;
    RowLineFacts(header);
    RowLineFacts(separator);
    RowLinesBar(items, toNumber);
    forall k | 2 <= k < |lines| ensures lines[k] == rows[k - 2] {
    }
  }

  /** A text made of `|`-terminated lines, each followed by `\n`, parses as those lines. */
  lemma {:induction false} ParseJoined(lines: seq<string>, md: string)
    requires lines != [] && lines[0] != [] && lines[0][0] == '|'
    requires BarLines(lines)
    requires md == Join(lines, "\n") + "\n"
    ensures MarkdownTable.ParseMarkdownTable(md) == MarkdownTable.ParseLines(lines)
  {
    var body := Join(lines, "\n");
    JoinEndsWithBar(lines);
    assert body[0] == '|' by {
      if |lines| > 1 { assert body == lines[0] + "\n" + Join(lines[1..], "\n"); }
    }
    TrimSurrounded("", body, "\n");
    assert "" + body + "\n" == md;
    SplitJoin(lines, '\n');
  }

  /** Parsing a layout with clean cells gives back the header and the cells of the rows that are not null. */
  lemma {:induction false} LayoutRoundTrip(header: seq<string>, separator: seq<string>, items: seq<Option<QuoteRow>>, toNumber: string -> Option<int>)
    requires AllClean(header, {'|', '\n'}) && AllClean(separator, {'|', '\n'}) && CleanRows(items, toNumber)
    requires PresentRows(items, toNumber) != []
    ensures MarkdownTable.ParseMarkdownTable(Layout(header, separator, items, toNumber)) == MarkdownTable.Table(header, PresentRows(items, toNumber))
  {
    var lines := LayoutLines(header, separator, items, toNumber);
    LayoutJoin(header, separator, items, toNumber);
    LayoutLinesShape(header, separator, items, toNumber);
    ParseJoined(lines, Layout(header, separator, items, toNumber));
    RowLineFacts(header);
    RowLinesCells(items, toNumber);
    assert lines[2..] == RowLines(items, toNumber);
  }

  /** Without a row that is not null, the export has only its two heading lines and parses as the empty table. */
  lemma {:induction false} LayoutWithoutRows(header: seq<string>, separator: seq<string>, items: seq<Option<QuoteRow>>, toNumber: string -> Option<int>)
    requires AllClean(header, {'|', '\n'}) && AllClean(separator, {'|', '\n'}) && CleanRows(items, toNumber)
    requires PresentRows(items, toNumber) == []
    ensures MarkdownTable.ParseMarkdownTable(Layout(header, separator, items, toNumber)) == MarkdownTable.Table([], [])
  {
    var lines := LayoutLines(header, separator, items, toNumber);
    LayoutJoin(header, separator, items, toNumber);
    LayoutLinesShape(header, separator, items, toNumber);
    ParseJoined(lines, Layout(header, separator, items, toNumber));
    RowLinesCells(items, toNumber);
  }

  /**
   * Parsing the exported table gives back its header and, in order, the cells
   * of every row that is not null, provided no cell is blank or holds `|` or a
   * line break.
   */
  lemma {:induction false} TableRoundTrip(items: seq<Option<QuoteRow>>, toNumber: string -> Option<int>)
    requires |items| > 0 && CleanRows(items, toNumber) && PresentRows(items, toNumber) != []
    ensures MarkdownTable.ParseMarkdownTable(TableText(Array(items), toNumber)) == MarkdownTable.Table(HEADER_CELLS, PresentRows(items, toNumber))
  {
    TableIsLayout(items, toNumber);
    HeaderRoundTrip(items, toNumber);
  }

  lemma {:induction false} TableIsLayout(items: seq<Option<QuoteRow>>, toNumber: string -> Option<int>)
    requires |items| > 0
    ensures TableText(Array(items), toNumber) == Layout(HEADER_CELLS, SEPARATOR_CELLS, items, toNumber)
  {
  }

  lemma {:induction false} HeaderRoundTrip(items: seq<Option<QuoteRow>>, toNumber: string -> Option<int>)
    requires CleanRows(items, toNumber) && PresentRows(items, toNumber) != []
    ensures MarkdownTable.ParseMarkdownTable(Layout(HEADER_CELLS, SEPARATOR_CELLS, items, toNumber)) == MarkdownTable.Table(HEADER_CELLS, PresentRows(items, toNumber))
  {
    HeaderCellsClean();
    LayoutRoundTrip(HEADER_CELLS, SEPARATOR_CELLS, items, toNumber);
  }

  lemma {:induction false} AllNull(items: seq<Option<QuoteRow>>, toNumber: string -> Option<int>)
    requires PresentRows(items, toNumber) == []
    ensures forall k :: 0 <= k < |items| ==> items[k].None?
  {
    if items != [] {
      AllNull(items[1..], toNumber);
      assert forall k :: 1 <= k < |items| ==> items[k] == items[1..][k - 1];
    }
  }

  /** An export whose rows are all null parses as the empty table: its header is lost. */
  lemma {:induction false} TableOfNullRows(items: seq<Option<QuoteRow>>, toNumber: string -> Option<int>)
    requires |items| > 0 && PresentRows(items, toNumber) == []
    ensures MarkdownTable.ParseMarkdownTable(TableText(Array(items), toNumber)) == MarkdownTable.Table([], [])
  {
    AllNull(items, toNumber);
    TableIsLayout(items, toNumber);
    HeaderWithoutRows(items, toNumber);
  }

  lemma {:induction false} HeaderWithoutRows(items: seq<Option<QuoteRow>>, toNumber: string -> Option<int>)
    requires CleanRows(items, toNumber) && PresentRows(items, toNumber) == []
    ensures MarkdownTable.ParseMarkdownTable(Layout(HEADER_CELLS, SEPARATOR_CELLS, items, toNumber)) == MarkdownTable.Table([], [])
  {
    HeaderCellsClean();
    LayoutWithoutRows(HEADER_CELLS, SEPARATOR_CELLS, items, toNumber);
  }
}
