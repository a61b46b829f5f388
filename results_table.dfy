/**
 * The results table: its sort state (field and direction), the comparator
 * and the stable sort of a copy of the products, the quantity clamp it
 * applies before forwarding an edit, and the subtotal it shows per row.
 */
module ResultsTable {
  import opened Wrappers
  import opened Numerals
  import opened Catalog
  import opened ChatInterface
  import opened ChatSession

  /** The keys of a quoted product. */
  datatype Field = Id | Name | Price | Supplier | Category | Quantity | Code | Brand | OriginalName | SuggestedByAI

  datatype Direction = Asc | Desc

  /** What `a[sortField]` holds: a string, a number, a boolean or `undefined`. */
  datatype Value = Text(text: string) | Number(number: int) | Flag(flag: bool) | Undefined

  function FieldValue(p: QuotedProduct, f: Field): Value {
    match f
    case Id => Text(p.id)
    case Name => Text(p.name)
    case Price => Number(p.price)
    case Supplier => Text(p.supplier)
    case Category => Text(p.category)
    case Quantity => Number(p.quantity)
    case Code => if p.code.Some? then Text(p.code.value) else Undefined
    case Brand => if p.brand.Some? then Text(p.brand.value) else Undefined
    case OriginalName => if p.originalName.Some? then Text(p.originalName.value) else Undefined
    case SuggestedByAI => Flag(p.suggestedByAI)
  }

  function Flip(d: Direction): Direction {
    if d == Asc then Desc else Asc
  }

  /** The sort state as a value. */
  datatype SortKey = SortKey(field: Field, direction: Direction)

  /** The state `handleSort(field)` moves to. */
  function Next(s: SortKey, field: Field): (r: SortKey)
    ensures r.field == field
  {
    if s.field == field then SortKey(field, Flip(s.direction)) else SortKey(field, Asc)
  }

  /** Clicking a header twice: on the sorted field it restores the direction; on another it ends descending. */
  lemma {:induction false} ClickTwice(s: SortKey, field: Field)
    ensures Next(Next(s, field), field) == if s.field == field then s else SortKey(field, Desc)
  {
  }

  /** A click on a new field always starts ascending; on the sorted field it always changes the direction. */
  lemma {:induction false} ClickChanges(s: SortKey, field: Field)
    ensures s.field != field ==> Next(s, field).direction == Asc
    ensures s.field == field ==> Next(s, field).direction != s.direction
  {
  }

  class SortState {
    var sortField: Field
    var sortDirection: Direction

    constructor ()
      ensures sortField == Name && sortDirection == Asc
    {
      sortField := Name;
      sortDirection := Asc;
    }

    /** `handleSort`: the same field flips the direction; another field is taken ascending. */
    method HandleSort(field: Field)
      modifies this
      ensures SortKey(sortField, sortDirection) == Next(SortKey(old(sortField), old(sortDirection)), field)
    {
      if sortField == field {
        sortDirection := if sortDirection == Asc then Desc else Asc;
      } else {
        sortField := field;
        sortDirection := Asc;
      }
    }
  }

  /** `Math.max(1, q)`. */
  function Clamp(q: int): (r: int)
    ensures r >= 1
    ensures q >= 1 ==> r == q
    ensures q < 1 ==> r == 1
  {
    if q >= 1 then q else 1
  }

  /** The quantity typed in a row's field: `Number.parseInt(value) || 1`, then clamped. */
  function TypedRowQuantity(value: string): int {
    Clamp(OrElse(ParseInt(value), 1))
  }

  /** The typed quantity is the one the other quantity fields use; text that does not parse, or parses to 0, gives 1. */
  lemma {:induction false} TypedRowQuantityFacts(value: string)
    ensures TypedRowQuantity(value) == TypedQuantity(value)
    ensures ParseInt(value).None? || ParseInt(value) == Some(0) ==> TypedRowQuantity(value) == 1
  {
  }

  /** The "-" button at quantity 1 keeps 1; the "+" button always adds one to a valid quantity. */
  lemma {:induction false} Buttons(q: int)
    requires q >= 1
    ensures Clamp(q - 1) == if q == 1 then 1 else q - 1
    ensures Clamp(q + 1) == q + 1
  {
  }

  /**
   * `handleQuantityChange` of the table, wired to the chat's handler: the
   * clamped quantity goes to the products with that id.
   */
  method ForwardQuantity(session: QuoteSession, productId: string, newQuantity: int)
    requires session.Valid()
    modifies session
    ensures session.Valid()
    ensures session.products == SetQuantity(old(session.products), productId, Clamp(newQuantity))
    ensures forall k :: 0 <= k < |session.products| ==> old(session.products)[k].id == productId ==> session.products[k].quantity >= 1
  {
    session.HandleQuantityChange(productId, Clamp(newQuantity));
  }

  /**
   * The comparator: two strings by `localeCompare`, two numbers by their
   * difference, the operands swapped when descending; any other pair is 0.
   * Two numbers compare below zero exactly when the first comes first in
   * the chosen direction, and at zero exactly when they are equal; values
   * of different kinds, booleans and `undefined` never order two products.
   */
  function Compare(a: QuotedProduct, b: QuotedProduct, s: SortKey, localeCompare: (string, string) -> int): (r: int)
    ensures FieldValue(a, s.field).Number? && FieldValue(b, s.field).Number? ==>
      var x, y := FieldValue(a, s.field).number, FieldValue(b, s.field).number;
      (r < 0 <==> if s.direction == Asc then x < y else y < x) && (r == 0 <==> x == y)
    ensures (!(FieldValue(a, s.field).Text? && FieldValue(b, s.field).Text?)
             && !(FieldValue(a, s.field).Number? && FieldValue(b, s.field).Number?)) ==> r == 0
  {
    var x, y := FieldValue(a, s.field), FieldValue(b, s.field);
    if x.Text? && y.Text? then
      (if s.direction == Asc then localeCompare(x.text, y.text) else localeCompare(y.text, x.text))
    else if x.Number? && y.Number? then
      (if s.direction == Asc then x.number - y.number else y.number - x.number)
    else 0
  }

  /** Insert `x` after every element that does not sort after it. */
  function Insert(x: QuotedProduct, sorted: seq<QuotedProduct>, s: SortKey, localeCompare: (string, string) -> int): (r: seq<QuotedProduct>)
    ensures multiset(r) == multiset(sorted) + multiset{x}
  {
    if sorted == [] then [x]
    else if Compare(x, sorted[0], s, localeCompare) < 0 then [x] + sorted
    else
      assert sorted == [sorted[0]] + sorted[1..];
      [sorted[0]] + Insert(x, sorted[1..], s, localeCompare)
  }

  /** `[...products].sort(compare)`: a stable sort of a copy, here an insertion sort from the left. */
  function SortedProducts(products: seq<QuotedProduct>, s: SortKey, localeCompare: (string, string) -> int): (r: seq<QuotedProduct>)
    ensures multiset(r) == multiset(products)
  {
    if products == [] then []
    else
      var n := |products| - 1;
      assert products == products[..n] + [products[n]];
      Insert(products[n], SortedProducts(products[..n], s, localeCompare), s, localeCompare)
  }

  /** The number a numeric sort field holds. */
  function NumberOf(p: QuotedProduct, f: Field): int
    requires f == Price || f == Quantity
  {
    if f == Price then p.price else p.quantity
  }

  /** In order for the direction: non-decreasing ascending, non-increasing descending. */
  predicate InOrder(x: int, y: int, d: Direction) {
    if d == Asc then x <= y else x >= y
  }

  predicate SortedBy(ps: seq<QuotedProduct>, s: SortKey)
    requires s.field == Price || s.field == Quantity
  {
    forall i, j :: 0 <= i < j < |ps| ==> InOrder(NumberOf(ps[i], s.field), NumberOf(ps[j], s.field), s.direction)
  }

  lemma {:induction false} SortedTail(ps: seq<QuotedProduct>, s: SortKey)
    requires s.field == Price || s.field == Quantity
    requires ps != [] && SortedBy(ps, s)
    ensures SortedBy(ps[1..], s)
  {
    forall i, j | 0 <= i < j < |ps| - 1
      ensures InOrder(NumberOf(ps[1..][i], s.field), NumberOf(ps[1..][j], s.field), s.direction)
    {
      assert ps[1..][i] == ps[i + 1] && ps[1..][j] == ps[j + 1];
    }
  }

  lemma {:induction false} SortedCons(y: QuotedProduct, rest: seq<QuotedProduct>, s: SortKey)
    requires s.field == Price || s.field == Quantity
    requires SortedBy(rest, s)
    requires forall k :: 0 <= k < |rest| ==> InOrder(NumberOf(y, s.field), NumberOf(rest[k], s.field), s.direction)
    ensures SortedBy([y] + rest, s)
  {
    var r := [y] + rest;
    forall i, j | 0 <= i < j < |r| ensures InOrder(NumberOf(r[i], s.field), NumberOf(r[j], s.field), s.direction) {
      assert r[j] == rest[j - 1];
      if i > 0 {
        assert r[i] == rest[i - 1];
      }
    }
  }

  lemma {:induction false} InsertSorted(x: QuotedProduct, sorted: seq<QuotedProduct>, s: SortKey, localeCompare: (string, string) -> int)
    requires s.field == Price || s.field == Quantity
    requires SortedBy(sorted, s)
    ensures SortedBy(Insert(x, sorted, s, localeCompare), s)
  {
    var f := s.field;
    if sorted != [] && Compare(x, sorted[0], s, localeCompare) >= 0 {
      var tail := sorted[1..];
      var rest := Insert(x, tail, s, localeCompare);
      SortedTail(sorted, s);
      InsertSorted(x, tail, s, localeCompare);
      forall k | 0 <= k < |rest| ensures InOrder(NumberOf(sorted[0], f), NumberOf(rest[k], f), s.direction) {
        assert rest[k] in multiset(rest);
        if rest[k] != x {
          assert rest[k] in multiset(tail);
          var m :| 0 <= m < |tail| && tail[m] == rest[k];
          assert tail[m] == sorted[m + 1];
        }
      }
      SortedCons(sorted[0], rest, s);
    } else if sorted != [] {
      forall k | 0 <= k < |sorted| ensures InOrder(NumberOf(x, f), NumberOf(sorted[k], f), s.direction) {
        if k > 0 {
          assert InOrder(NumberOf(sorted[0], f), NumberOf(sorted[k], f), s.direction);
        }
      }
      SortedCons(x, sorted, s);
    }
  }

  /** Sorting by price or quantity orders the rows by that number in the chosen direction. */
  lemma {:induction false} SortedByNumber(products: seq<QuotedProduct>, s: SortKey, localeCompare: (string, string) -> int)
    requires s.field == Price || s.field == Quantity
    ensures SortedBy(SortedProducts(products, s, localeCompare), s)
  {
    if products != [] {
      var n := |products| - 1;
      SortedByNumber(products[..n], s, localeCompare);
      InsertSorted(products[n], SortedProducts(products[..n], s, localeCompare), s, localeCompare);
    }
  }

  /** The subtotal a row shows: price times quantity. */
  function Subtotal(p: QuotedProduct): int {
    p.price * p.quantity
  }

  /** The total of a list does not depend on its order. */
  lemma {:induction false} TotalOfPermutation(a: seq<QuotedProduct>, b: seq<QuotedProduct>)
    requires multiset(a) == multiset(b)
    ensures CalculateTotal(a) == CalculateTotal(b)
    decreases |a|
  {
    if a != [] {
      var n := |a| - 1;
      var x := a[n];
      assert a == a[..n] + [x];
      assert multiset(a) == multiset(a[..n]) + multiset{x};
      assert x in multiset(b);
      var i :| 0 <= i < |b| && b[i] == x;
      var rest := b[..i] + b[i + 1..];
      assert b == b[..i] + [x] + b[i + 1..];
      assert multiset(b) == multiset(b[..i]) + multiset{x} + multiset(b[i + 1..]);
      assert multiset(rest) == multiset(b[..i]) + multiset(b[i + 1..]);
      assert multiset(a[..n]) == multiset(a) - multiset{x};
      assert multiset(rest) == multiset(b) - multiset{x};
      TotalOfPermutation(a[..n], rest);
      TotalRemoveAt(b, i);
    }
  }

  lemma {:induction false} TotalRemoveAt(b: seq<QuotedProduct>, i: nat)
    requires i < |b|
    ensures CalculateTotal(b) == CalculateTotal(b[..i] + b[i + 1..]) + LineTotal(b[i])
  {
    var x, before, after := b[i], b[..i], b[i + 1..];
    assert b == before + [x] + after;
    TotalAppend(before + [x], after);
    TotalAppend(before, [x]);
    TotalAppend(before, after);
    assert CalculateTotal([x]) == LineTotal(x) by { assert [x][..0] == []; }
  }

  /** Whatever the sort, the sorted rows hold the same products and add up to the chat's total. */
  lemma {:induction false} SortKeepsTotal(products: seq<QuotedProduct>, s: SortKey, localeCompare: (string, string) -> int)
    ensures |SortedProducts(products, s, localeCompare)| == |products|
    ensures CalculateTotal(SortedProducts(products, s, localeCompare)) == CalculateTotal(products)
  {
    var r := SortedProducts(products, s, localeCompare);
    assert |r| == |multiset(r)| == |multiset(products)| == |products|;
    TotalOfPermutation(r, products);
  }

  /** The row subtotal is the line total the chat's total adds up. */
  lemma {:induction false} SubtotalIsLineTotal(p: QuotedProduct)
    ensures Subtotal(p) == LineTotal(p)
    ensures p.quantity == 1 ==> Subtotal(p) == p.price
  {
  }
}
