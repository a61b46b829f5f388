/**
 * The simulated quotation: one row per requested name, with a random price
 * between 5 and 100 reais, a random `P`-code and a supplier and a brand drawn
 * from fixed lists. The four `Math.random()` draws of each row are parameters.
 */
module MockData {
  import opened Wrappers
  import opened Numerals
  import opened Catalog
  import opened ChatInterface

  const SUPPLIERS: seq<string> :=
    ["Distribuidora ABC", "Farm\U{00E1}cia XYZ", "Drogaria Central", "Fornecedor M\U{00E9}dico"]

  const BRANDS: seq<string> := ["Gen\U{00E9}rico", "MedPharma", "FarmaPlus", "BioSa\U{00FA}de", "NaturaMed"]

  /** The four draws one row takes, in the order the row takes them. */
  datatype Draws = Draws(price: real, code: real, supplier: real, brand: real)

  predicate IsDraw(r: real) {
    0.0 <= r < 1.0
  }

  predicate ValidDraws(d: Draws) {
    IsDraw(d.price) && IsDraw(d.code) && IsDraw(d.supplier) && IsDraw(d.brand)
  }

  /**
   * `Number((draw * 95 + 5).toFixed(2))` in cents: the draw scaled to
   * [500, 10000) cents and rounded half up to a whole cent.
   */
  function MockPrice(draw: real): (cents: int)
    requires IsDraw(draw)
    ensures 500 <= cents <= 10000
    ensures cents as real - 0.5 <= draw * 9500.0 + 500.0 < cents as real + 0.5
  {
    var x := draw * 9500.0 + 500.5;
    assert 500.5 <= x < 10000.5;
    x.Floor
  }

  /**
   * `"P" + String(Math.floor(draw * 10000)).padStart(4, "0")`: `P` and four
   * decimal digits, which read back as the drawn number.
   */
  function MockCode(draw: real): (r: string)
    requires IsDraw(draw)
    ensures |r| == 5 && r[0] == 'P'
    ensures AllDigits(r[1..])
    ensures DigitsValue(r[1..]) == RandomIndex(10000, draw)
  {
    var n := RandomIndex(10000, draw);
    FourDigits(n);
    var r := "P" + PadZeros(DecimalString(n), 4);
    assert r[1..] == PadZeros(DecimalString(n), 4);
    r
  }

  /**
   * The row built for `productName` from its draws: it names the product as
   * both typed and found, carries a price between 5 and 100 reais shown as
   * that price in reais, a supplier and a brand from the fixed lists, a code
   * of the generated shape, and no quantity or AI flag.
   */
  function MockRow(productName: string, d: Draws): (row: QuoteRow)
    requires ValidDraws(d)
    ensures row.original == row.produto == Some(productName)
    ensures row.preco.PriceNumber? && 500 <= row.preco.cents <= 10000
    ensures row.preco_original == Some(BrlText(row.preco.cents))
    ensures row.fornecedor.Some? && row.fornecedor.value in SUPPLIERS
    ensures row.marca.Some? && row.marca.value in BRANDS
    ensures row.codigo == Some(MockCode(d.code))
    ensures row.quantidade.None? && !row.sugeridoPorIA
  {
    var price := MockPrice(d.price);
    QuoteRow(
      Some(productName), Some(productName),
      Some(SUPPLIERS[RandomIndex(|SUPPLIERS|, d.supplier)]),
      Some(BRANDS[RandomIndex(|BRANDS|, d.brand)]),
      PriceNumber(price), Some(BrlText(price)), None, Some(MockCode(d.code)), false)
  }

  /** `generateMockProducts`: the rows for the names, in order, each from its own draws. */
  function GenerateMockProducts(productList: seq<string>, draws: seq<Draws>): (rows: seq<QuoteRow>)
    requires |draws| == |productList|
    requires forall k :: 0 <= k < |draws| ==> ValidDraws(draws[k])
    ensures |rows| == |productList|
  {
    seq(|productList|, k requires 0 <= k < |productList| => MockRow(productList[k], draws[k]))
  }

  /**
   * Every generated row names its product as both typed and found, carries
   * a price between 5 and 100 reais shown as that price in reais, a supplier
   * and a brand from the fixed lists, and no quantity or AI flag.
   */
  lemma {:induction false} MockRows(productList: seq<string>, draws: seq<Draws>)
    requires |draws| == |productList|
    requires forall k :: 0 <= k < |draws| ==> ValidDraws(draws[k])
    ensures forall k :: 0 <= k < |productList| ==>
      var row := GenerateMockProducts(productList, draws)[k];
      row.original == row.produto == Some(productList[k])
      && row.preco.PriceNumber? && 500 <= row.preco.cents <= 10000
      && row.preco_original == Some(BrlText(row.preco.cents))
      && row.fornecedor.Some? && row.fornecedor.value in SUPPLIERS
      && row.marca.Some? && row.marca.value in BRANDS
      && row.quantidade.None? && !row.sugeridoPorIA
  {
  }

  /** Printing the rounded price with two decimals again and reading it back loses nothing. */
  lemma {:induction false} MockPriceText(draw: real)
    requires IsDraw(draw)
    ensures ReadFixed2(Fixed2(MockPrice(draw))) == Some(MockPrice(draw))
  {
    Fixed2RoundTrip(MockPrice(draw));
  }
}
