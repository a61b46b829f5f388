/**
 * The records the components exchange: catalogue rows and their
 * per-query grouping (types/product.ts), and the quotation row the
 * quotation endpoints answer with (the shape lib/mock-data.ts builds and
 * components/chat-interface.tsx consumes). Money is in whole cents.
 */
module Catalog {
  import opened Wrappers

  /** `codauxiliar` is a string or a number. */
  datatype Code = CodeText(text: string) | CodeNumber(number: int)

  /** A catalogue row: description, EAN code, type, supplier, brand, unit price. */
  datatype Product = Product(
    descricao: string,
    codauxiliar: Code,
    descricao1: Option<string>,
    fornecedor: Option<string>,
    marca: Option<string>,
    pvenda: int)

  /** The rows found for one requested name. */
  datatype ProductResult = ProductResult(nomeOriginal: string, correspondencias: seq<Product>)

  /** A catalogue row with the quantity the user chose and its line total. */
  datatype ProductWithQuantity = ProductWithQuantity(product: Product, quantidade: int, total: int)

  /** `preco` as a quotation row carries it: a number (in cents), a string, or missing. */
  datatype Price = PriceNumber(cents: int) | PriceString(text: string) | NoPrice

  /**
   * A quotation row as the endpoints return it; every field may be missing.
   * An empty string counts as missing wherever the code uses `||`.
   */
  datatype QuoteRow = QuoteRow(
    original: Option<string>,
    produto: Option<string>,
    fornecedor: Option<string>,
    marca: Option<string>,
    preco: Price,
    preco_original: Option<string>,
    quantidade: Option<int>,
    codigo: Option<string>,
    sugeridoPorIA: bool)

  /**
   * The quoted product the chat, the results table and the correction form
   * each declare as `Product`: price in cents, the chosen quantity, and the
   * optional code, brand, typed name and AI flag (a missing flag is false).
   */
  datatype QuotedProduct = QuotedProduct(
    id: string,
    name: string,
    price: int,
    supplier: string,
    category: string,
    quantity: int,
    code: Option<string>,
    brand: Option<string>,
    originalName: Option<string>,
    suggestedByAI: bool)

  /** A text field that is present and not "", hence truthy. */
  predicate Filled(field: Option<string>) {
    field.Some? && field.value != []
  }

  /** `field || fallback` for a text field: missing and "" are falsy. */
  function TextOr(field: Option<string>, fallback: string): (r: string)
    ensures field.Some? && field.value != [] ==> r == field.value
    ensures field.None? || field.value == [] ==> r == fallback
  {
    if field.Some? && field.value != [] then field.value else fallback
  }
}
