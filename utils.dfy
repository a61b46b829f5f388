/**
 * The shared formatting helpers, which `lib/utils.ts` and `app/lib/utils.ts`
 * both define the same way: the currency text and the numbered product list.
 */
module Utils {
  import opened Wrappers
  import opened Strings
  import opened Numerals

  /**
   * `formatCurrency`: the text `Intl.NumberFormat("pt-BR", BRL)` produces
   * (`intl`, or `None` when the formatter throws), else the fallback
   * `R$ <value.toFixed(2) with a decimal comma>`.
   */
  function FormatCurrency(cents: int, intl: Option<string>): (r: string)
    ensures intl.Some? ==> r == intl.value
  {
    if intl.Some? then intl.value else BrlText(cents)
  }

  /**
   * The fallback text loses nothing: after its `R$ ` prefix, with the comma
   * put back to a point, it reads as the amount it shows.
   */
  lemma {:induction false} FallbackRoundTrip(cents: int)
    ensures |FormatCurrency(cents, None)| >= 3 && FormatCurrency(cents, None)[..3] == "R$ "
    ensures ReadFixed2(ReplaceFirst(FormatCurrency(cents, None)[3..], ',', '.')) == Some(cents)
  {
    var a := Abs(cents);
    var p := (if cents < 0 then "-" else "") + DecimalString(a / 100);
    var two := [DigitChar(a % 100 / 10), DigitChar(a % 10)];
    assert FormatCurrency(cents, None)[3..] == p + [','] + two;
    assert NoneIn(p, {','});
    ReplaceFirstAt(p, ',', '.', two);
    assert Fixed2(cents) == p + ['.'] + two;
    Fixed2RoundTrip(cents);
  }

  /** The two fields of a listed product the list reads. */
  datatype Item = Item(name: string, price: int)

  const NO_PRODUCTS := "Nenhum produto encontrado"

  /** `${index + 1}. ${name} - ${formatCurrency(price)}`, with `format` standing for `formatCurrency`. */
  function ListLine(index: nat, item: Item, format: int -> string): string {
    IntText(index + 1) + ". " + item.name + " - " + format(item.price)
  }

  /**
   * The numbered lines: line k is number k + 1, `. `, the k-th name, ` - `
   * and its formatted price; no line holds a line break when no name and no
   * formatted price does.
   */
  function ListLines(items: seq<Item>, format: int -> string): (r: seq<string>)
    ensures |r| == |items|
    ensures forall k :: 0 <= k < |items| ==> r[k] == IntText(k + 1) + ". " + items[k].name + " - " + format(items[k].price)
    ensures forall k :: 0 <= k < |items| ==> StartsWith(r[k], IntText(k + 1) + ". ")
    ensures (forall k :: 0 <= k < |items| ==> NoneIn(items[k].name, {'\n'}) && NoneIn(format(items[k].price), {'\n'}))
      ==> forall k :: 0 <= k < |r| ==> NoneIn(r[k], {'\n'})
  {
    ListLineFacts(items, format);
    seq(|items|, k requires 0 <= k < |items| => ListLine(k, items[k], format))
  }

  lemma {:induction false} ListLineFacts(items: seq<Item>, format: int -> string)
    ensures forall k :: 0 <= k < |items| ==> StartsWith(ListLine(k, items[k], format), IntText(k + 1) + ". ")
    ensures (forall k :: 0 <= k < |items| ==> NoneIn(items[k].name, {'\n'}) && NoneIn(format(items[k].price), {'\n'}))
      ==> forall k :: 0 <= k < |items| ==> NoneIn(ListLine(k, items[k], format), {'\n'})
  {
    forall k | 0 <= k < |items| ensures StartsWith(ListLine(k, items[k], format), IntText(k + 1) + ". ") {
      var head := IntText(k + 1) + ". ";
      assert ListLine(k, items[k], format) == head + (items[k].name + " - " + format(items[k].price));
    }
    forall k | 0 <= k < |items| && NoneIn(items[k].name, {'\n'}) && NoneIn(format(items[k].price), {'\n'})
      ensures NoneIn(ListLine(k, items[k], format), {'\n'})
    {
      IntTextNoNewline(k + 1);
      NoneInConcat(IntText(k + 1), ". ", {'\n'});
      NoneInConcat(IntText(k + 1) + ". ", items[k].name, {'\n'});
      NoneInConcat(IntText(k + 1) + ". " + items[k].name, " - ", {'\n'});
      NoneInConcat(IntText(k + 1) + ". " + items[k].name + " - ", format(items[k].price), {'\n'});
    }
  }

  /** `formatProductList`: the fixed text for a missing or empty list, else the numbered lines joined by newlines. */
  function FormatProductList(products: Option<seq<Item>>, format: int -> string): (r: string)
    ensures products.None? || products.value == [] ==> r == NO_PRODUCTS
  {
    if products.None? || products.value == [] then NO_PRODUCTS
    else Join(ListLines(products.value, format), "\n")
  }

  lemma {:induction false} NoneInConcat(a: string, b: string, cs: set<char>)
    requires NoneIn(a, cs) && NoneIn(b, cs)
    ensures NoneIn(a + b, cs)
  {
    assert forall i :: 0 <= i < |a + b| ==> (a + b)[i] == if i < |a| then a[i] else b[i - |a|];
  }

  lemma {:induction false} IntTextNoNewline(n: int)
    ensures NoneIn(IntText(n), {'\n'})
  {
    var d := DecimalString(if n < 0 then -n else n);
    assert NoneIn(d, {'\n'});
    if n < 0 {
      NoneInConcat("-", d, {'\n'});
    }
  }

  /**
   * When no product name and no formatted price holds a newline, the list
   * splits back at its newlines into exactly one line per product, in order,
   * the k-th starting with its number `k + 1`.
   */
  lemma {:induction false} ListSplitsIntoLines(items: seq<Item>, format: int -> string)
    requires items != []
    requires forall k :: 0 <= k < |items| ==> NoneIn(items[k].name, {'\n'}) && NoneIn(format(items[k].price), {'\n'})
    ensures Split(FormatProductList(Some(items), format), {'\n'}) == ListLines(items, format)
  {
    SplitJoin(ListLines(items, format), '\n');
  }
}
