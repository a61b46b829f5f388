/**
 * The table of catalogue rows found for one requested name: every row with
 * an editable quantity and its line total, the grand total, the rows handed
 * to the spreadsheet export and the export's file name.
 */
module ChatResultTable {
  import opened Wrappers
  import opened Strings
  import opened Numerals
  import opened Catalog

  /**
   * The initialisation's `map`: one row per product, in order, each with
   * quantity 1 and a line total equal to quantity times unit price.
   */
  function Initial(products: seq<Product>): (r: seq<ProductWithQuantity>)
    ensures |r| == |products|
    ensures forall k :: 0 <= k < |r| ==> r[k].product == products[k] && r[k].quantidade == 1 && Consistent(r[k])
  {
    seq(|products|, i requires 0 <= i < |products| => ProductWithQuantity(products[i], 1, products[i].pvenda))
  }

  /** The `reduce` over the line totals, from the left. */
  function TotalOf(rows: seq<ProductWithQuantity>): int {
    if rows == [] then 0 else TotalOf(rows[..|rows| - 1]) + rows[|rows| - 1].total
  }

  /** The sum of the unit prices. */
  function PriceSum(products: seq<Product>): int {
    if products == [] then 0 else PriceSum(products[..|products| - 1]) + products[|products| - 1].pvenda
  }

  /** Right after initialisation, the grand total is the sum of the unit prices. */
  lemma {:induction false} InitialTotal(products: seq<Product>)
    ensures TotalOf(Initial(products)) == PriceSum(products)
    decreases |products|
  {
    if products != [] {
      var n := |products| - 1;
      assert Initial(products)[..n] == Initial(products[..n]);
      InitialTotal(products[..n]);
    }
  }

  /** The row an edit stores: the quantity and the line total it implies. */
  function Edited(row: ProductWithQuantity, quantity: int): ProductWithQuantity {
    row.(quantidade := quantity, total := quantity * row.product.pvenda)
  }

  /** A row whose line total is its quantity times its unit price. */
  predicate Consistent(row: ProductWithQuantity) {
    row.total == row.quantidade * row.product.pvenda
  }

  /** What is exported for one row and for the grand total. */
  datatype Cell = TextCell(text: string) | NumberCell(number: int) | CodeCell(code: Code)

  datatype ExportRow = ExportRow(
    requested: Cell, description: Cell, code: Cell, kind: Cell, brand: Cell,
    supplier: Cell, price: Cell, quantity: Cell, total: Cell)

  function OrEmpty(field: Option<string>): string {
    TextOr(field, "")
  }

  function ExportOf(nomeOriginal: string, row: ProductWithQuantity): ExportRow {
    ExportRow(
      TextCell(nomeOriginal), TextCell(row.product.descricao), CodeCell(row.product.codauxiliar),
      TextCell(OrEmpty(row.product.descricao1)), TextCell(OrEmpty(row.product.marca)),
      TextCell(OrEmpty(row.product.fornecedor)), NumberCell(row.product.pvenda),
      NumberCell(row.quantidade), NumberCell(row.total))
  }

  function GrandTotalRow(totalValue: int): ExportRow {
    ExportRow(
      TextCell(""), TextCell(""), TextCell(""), TextCell(""), TextCell(""), TextCell(""), TextCell(""),
      TextCell("Grand Total:"), NumberCell(totalValue))
  }

  /**
   * `dataToExport`: one row per product, in order, then the grand-total row.
   * The export has exactly one row more than the table; that last row alone
   * carries "Grand Total:", and every other row carries its product's
   * quantity and line total.
   */
  function ExportData(nomeOriginal: string, rows: seq<ProductWithQuantity>, totalValue: int): (r: seq<ExportRow>)
    ensures |r| == |rows| + 1
    ensures r[|rows|].total == NumberCell(totalValue)
    ensures forall k :: 0 <= k <= |rows| ==> (r[k].quantity == TextCell("Grand Total:") <==> k == |rows|)
    ensures forall k :: 0 <= k < |rows| ==>
      r[k].requested == TextCell(nomeOriginal) && r[k].quantity == NumberCell(rows[k].quantidade)
      && r[k].total == NumberCell(rows[k].total)
  {
    seq(|rows|, i requires 0 <= i < |rows| => ExportOf(nomeOriginal, rows[i])) + [GrandTotalRow(totalValue)]
  }

  /** A character `[a-z0-9]` matches with the `i` flag: an ASCII letter or digit. */
  predicate IsAlnum(c: char) {
    'a' <= c <= 'z' || 'A' <= c <= 'Z' || '0' <= c <= '9'
  }

  /** `name.replace(/[^a-z0-9]/gi, "_")`. */
  function ReplaceNonAlnum(name: string): (r: string)
    ensures |r| == |name|
  {
    if name == [] then []
    else [if IsAlnum(name[0]) then name[0] else '_'] + ReplaceNonAlnum(name[1..])
  }

  /**
   * The sanitised name: the replacement followed by `toLowerCase()`, which on
   * a text of ASCII letters, digits and `_` only lowers the ASCII capitals.
   * Each character is its lower-cased original when that is an ASCII letter
   * or digit and `_` otherwise; so the name holds only `[a-z0-9_]`.
   */
  function Sanitize(name: string): (r: string)
    ensures |r| == |name|
    ensures forall k :: 0 <= k < |name| ==> r[k] == (if IsAlnum(name[k]) then LowerAscii(name[k]) else '_')
    ensures forall k :: 0 <= k < |name| ==> SafeChar(r[k])
  {
    ReplaceNonAlnumChars(name);
    LowerAsciiAll(ReplaceNonAlnum(name))
  }

  predicate SafeChar(c: char) {
    'a' <= c <= 'z' || '0' <= c <= '9' || c == '_'
  }

  /** The replacement keeps the ASCII letters and digits in place and puts `_` everywhere else. */
  lemma {:induction false} ReplaceNonAlnumChars(name: string)
    ensures forall k :: 0 <= k < |name| ==>
      ReplaceNonAlnum(name)[k] == (if IsAlnum(name[k]) then name[k] else '_')
  {
    if name != [] {
      ReplaceNonAlnumChars(name[1..]);
      forall k | 0 < k < |name| ensures ReplaceNonAlnum(name)[k] == ReplaceNonAlnum(name[1..])[k - 1] {
      }
    }
  }

  /** Sanitising a sanitised name changes nothing. */
  lemma {:induction false} SanitizeIdempotent(name: string)
    ensures Sanitize(Sanitize(name)) == Sanitize(name)
  {
    var s := Sanitize(name);
  }

  /**
   * `quotation_<name>_<date>.xlsx`, the date being the part of the ISO
   * timestamp before `T`: whatever the requested name, the part it fills
   * holds only `[a-z0-9_]`, and the name ends in `.xlsx`.
   */
  function FileName(nomeOriginal: string, isoTimestamp: string): (r: string)
    ensures |r| >= 16 + |nomeOriginal| && r[..10] == "quotation_" && r[10 + |nomeOriginal|] == '_'
    ensures forall k :: 10 <= k < 10 + |nomeOriginal| ==> SafeChar(r[k])
    ensures r[|r| - 5..] == ".xlsx"
  {
    var name := Sanitize(nomeOriginal);
    var date := Split(isoTimestamp, {'T'})[0];
    var r := "quotation_" + name + "_" + date + ".xlsx";
    assert forall k :: 10 <= k < 10 + |name| ==> r[k] == name[k - 10];
    r
  }

  /** The file name is the fixed prefix, the sanitised name and the date, in that order. */
  lemma {:induction false} FileNameShape(nomeOriginal: string, date: string, time: string)
    requires NoneIn(date, {'T'})
    ensures FileName(nomeOriginal, date + "T" + time) == "quotation_" + Sanitize(nomeOriginal) + "_" + date + ".xlsx"
  {
    SplitAround(date, 'T', time);
    SplitSingle(date, 'T');
  }

  class ResultTable {
    const nomeOriginal: string
    var products: array<ProductWithQuantity>
    var totalValue: int

    /** The grand total is the sum of the line totals shown. */
    predicate Synced()
      reads this, products
    {
      totalValue == TotalOf(products[..])
    }

    /** The initialisation effect: quantity 1 per row, line total the unit price, grand total their sum. */
    constructor (result: ProductResult)
      ensures nomeOriginal == result.nomeOriginal && fresh(products)
      ensures products[..] == Initial(result.correspondencias)
      ensures totalValue == PriceSum(result.correspondencias)
      ensures Synced()
    {
      nomeOriginal := result.nomeOriginal;
      var initial := Initial(result.correspondencias);
      products := new ProductWithQuantity[|initial|](i requires 0 <= i < |initial| => initial[i]);
      InitialTotal(result.correspondencias);
      totalValue := TotalOf(initial);
    }

    /** `[...prev]` with the row at `index` replaced by its edit. */
    method EditedCopy(index: int, value: string) returns (updated: array<ProductWithQuantity>)
      requires 0 <= index < products.Length
      ensures fresh(updated)
      ensures updated[..] == products[..][index := Edited(products[index], TypedQuantity(value))]
    {
      var rows := products[..];
      var row := Edited(rows[index], TypedQuantity(value));
      updated := new ProductWithQuantity[|rows|](k requires 0 <= k < |rows| => rows[k]);
      updated[index] := row;
    }

    /**
     * `handleQuantityChange` as written: the row at `index` takes the typed
     * quantity and the matching line total; the deferred recompute then sums
     * the rows captured before that update, so the grand total is the sum of
     * the previous rows.
     */
    method HandleQuantityChange(index: int, value: string)
      requires 0 <= index < products.Length
      modifies this
      ensures fresh(products)
      ensures products[..] == old(products[..])[index := Edited(old(products[index]), TypedQuantity(value))]
      ensures totalValue == TotalOf(old(products[..]))
    {
      var captured := products[..];
      products := EditedCopy(index, value);
      totalValue := TotalOf(captured);
    }

    /**
     * The same edit with the recompute over the updated rows, which keeps the
     * grand total equal to the sum of the line totals shown.
     */
    method HandleQuantityChangeSynced(index: int, value: string)
      requires 0 <= index < products.Length
      modifies this
      ensures fresh(products)
      ensures products[..] == old(products[..])[index := Edited(old(products[index]), TypedQuantity(value))]
      ensures Synced()
    {
      products := EditedCopy(index, value);
      totalValue := TotalOf(products[..]);
    }

    /** The export rows of the current table. */
    function Export(): seq<ExportRow>
      reads this, products
    {
      ExportData(nomeOriginal, products[..], totalValue)
    }
  }

  /**
   * The lag of the as-written recompute: from a table whose grand total is
   * the sum of its rows, any edit that changes the edited row's line total
   * leaves a grand total that is no longer that sum.
   */
  lemma {:induction false} StaleTotalAfterEdit(rows: seq<ProductWithQuantity>, index: nat, value: string)
    requires index < |rows|
    requires Edited(rows[index], TypedQuantity(value)).total != rows[index].total
    ensures TotalOf(rows) != TotalOf(rows[index := Edited(rows[index], TypedQuantity(value))])
  {
    EditTotal(rows, index, Edited(rows[index], TypedQuantity(value)));
  }

  /** One product at 10.00 whose quantity is typed as "2": the rows sum to 20.00, the grand total stays 10.00. */
  lemma {:induction false} StaleTotalExample(p: Product)
    requires p.pvenda == 1000
    ensures var rows := Initial([p]);
      var edited := rows[0 := Edited(rows[0], TypedQuantity(IntText(2)))];
      TotalOf(rows) == 1000 && TotalOf(edited) == 2000
  {
    IntTextRoundTrip(2);
    var rows := Initial([p]);
    assert rows[0 := Edited(rows[0], 2)][..0] == [];
    assert rows[..0] == [];
  }

  /** An edit keeps every row consistent and at least 1, and changes no other row. */
  lemma {:induction false} EditKeepsRows(rows: seq<ProductWithQuantity>, index: nat, value: string)
    requires index < |rows|
    requires forall k :: 0 <= k < |rows| ==> Consistent(rows[k]) && rows[k].quantidade >= 1
    ensures var r := rows[index := Edited(rows[index], TypedQuantity(value))];
      (forall k :: 0 <= k < |r| ==> Consistent(r[k]) && r[k].quantidade >= 1)
      && r[index].product == rows[index].product
      && (forall k :: 0 <= k < |r| && k != index ==> r[k] == rows[k])
  {
  }

  /** After an edit the rows add up to the old sum moved by the edited row's change. */
  lemma {:induction false} EditTotal(rows: seq<ProductWithQuantity>, index: nat, row: ProductWithQuantity)
    requires index < |rows|
    ensures TotalOf(rows[index := row]) == TotalOf(rows) - rows[index].total + row.total
    decreases |rows|
  {
    var n := |rows| - 1;
    if index == n {
      assert rows[index := row][..n] == rows[..n];
    } else {
      assert rows[index := row][..n] == rows[..n][index := row];
      EditTotal(rows[..n], index, row);
    }
  }
}
