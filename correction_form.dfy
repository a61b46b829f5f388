/**
 * The correction form: a copy of one quoted product whose fields are edited
 * one input at a time and handed back on submit.
 */
module CorrectionForm {
  import opened Wrappers
  import opened Numerals
  import opened Catalog

  /** The inputs of the form, by their `name` attribute. */
  datatype Field = Name | Price | Quantity | Supplier | Brand | Category | Code | OriginalName

  /** What a field holds: a text, a number, or nothing for an absent optional text. */
  datatype Value = Text(text: string) | Number(number: int) | Missing

  function Optional(field: Option<string>): Value {
    if field.Some? then Text(field.value) else Missing
  }

  /** The value of `field` in `p`. */
  function Get(p: QuotedProduct, field: Field): Value {
    match field
    case Name => Text(p.name)
    case Price => Number(p.price)
    case Quantity => Number(p.quantity)
    case Supplier => Text(p.supplier)
    case Brand => Optional(p.brand)
    case Category => Text(p.category)
    case Code => Optional(p.code)
    case OriginalName => Optional(p.originalName)
  }

  /**
   * What an input stores for the typed `value`: `Number.parseFloat(value) || 0`
   * for the price (`parsePrice` stands for `parseFloat`, in cents, `None` for
   * NaN), `Math.max(1, Number.parseInt(value) || 1)` for the quantity, and the
   * text itself for every other input. An unreadable price is 0, and a
   * quantity is always at least 1.
   */
  function Stored(field: Field, value: string, parsePrice: string -> Option<int>): (r: Value)
    ensures field == Price ==> r.Number? && (parsePrice(value).None? ==> r.number == 0)
    ensures field == Price && parsePrice(value).Some? ==> r == Number(parsePrice(value).value)
    ensures field == Quantity ==> r.Number? && r.number >= 1
    ensures field == Quantity ==> r == Number(TypedQuantity(value))
    ensures field != Price && field != Quantity ==> r == Text(value)
  {
    match field
    case Price => Number(OrElse(parsePrice(value), 0))
    case Quantity => Number(TypedQuantity(value))
    case _ => Text(value)
  }

  /**
   * `handleChange`'s update: `{ ...prev, [name]: <stored value> }`. The
   * edited field holds the stored value, and every other field, the id and
   * the AI flag are as they were.
   */
  function Changed(p: QuotedProduct, field: Field, value: string, parsePrice: string -> Option<int>): (r: QuotedProduct)
    ensures Get(r, field) == Stored(field, value, parsePrice)
    ensures forall other: Field :: other != field ==> Get(r, other) == Get(p, other)
    ensures r.id == p.id && r.suggestedByAI == p.suggestedByAI
  {
    match field
    case Name => p.(name := value)
    case Price => p.(price := OrElse(parsePrice(value), 0))
    case Quantity => p.(quantity := TypedQuantity(value))
    case Supplier => p.(supplier := value)
    case Brand => p.(brand := Some(value))
    case Category => p.(category := value)
    case Code => p.(code := Some(value))
    case OriginalName => p.(originalName := Some(value))
  }

  /** Two products that agree on every field, the id and the AI flag are the same product. */
  lemma {:induction false} GetDetermines(p: QuotedProduct, q: QuotedProduct)
    requires forall field: Field :: Get(p, field) == Get(q, field)
    requires p.id == q.id && p.suggestedByAI == q.suggestedByAI
    ensures p == q
  {
    assert Get(p, Name) == Get(q, Name) && Get(p, Price) == Get(q, Price);
    assert Get(p, Quantity) == Get(q, Quantity) && Get(p, Supplier) == Get(q, Supplier);
    assert Get(p, Brand) == Get(q, Brand) && Get(p, Category) == Get(q, Category);
    assert Get(p, Code) == Get(q, Code) && Get(p, OriginalName) == Get(q, OriginalName);
  }

  /** A later edit of the same input overrides an earlier one. */
  lemma {:induction false} LastEditWins(p: QuotedProduct, field: Field, first: string, second: string, parsePrice: string -> Option<int>)
    ensures Changed(Changed(p, field, first, parsePrice), field, second, parsePrice) == Changed(p, field, second, parsePrice)
  {
  }

  /** Edits of two different inputs do not interfere, in either order. */
  lemma {:induction false} EditsCommute(p: QuotedProduct, f: Field, a: string, g: Field, b: string, parsePrice: string -> Option<int>)
    requires f != g
    ensures Changed(Changed(p, f, a, parsePrice), g, b, parsePrice) == Changed(Changed(p, g, b, parsePrice), f, a, parsePrice)
  {
    var left := Changed(Changed(p, f, a, parsePrice), g, b, parsePrice);
    var right := Changed(Changed(p, g, b, parsePrice), f, a, parsePrice);
    GetDetermines(left, right);
  }

  /** Every quantity the form holds after an edit of a form holding a positive one is positive. */
  lemma {:induction false} ChangedQuantityPositive(p: QuotedProduct, field: Field, value: string, parsePrice: string -> Option<int>)
    requires p.quantity >= 1
    ensures Changed(p, field, value, parsePrice).quantity >= 1
  {
  }

  /**
   * Saving a correction replaces the quantity with the selected product's,
   * so an edit of the quantity input is lost on save: after that replacement
   * the edited form and the unedited one are the same product.
   */
  lemma {:induction false} QuantityEditDiscarded(p: QuotedProduct, value: string, parsePrice: string -> Option<int>, kept: int)
    ensures Changed(p, Quantity, value, parsePrice).(quantity := kept) == p.(quantity := kept)
  {
  }

  class CorrectionForm {
    var formData: QuotedProduct
    var isSubmitting: bool

    /** The form starts as a copy of the product, not submitting. */
    constructor (product: QuotedProduct)
      ensures formData == product && !isSubmitting
    {
      formData := product;
      isSubmitting := false;
    }

    /** `handleChange` for the input `field` now reading `value`. */
    method HandleChange(field: Field, value: string, parsePrice: string -> Option<int>)
      modifies this
      ensures formData == Changed(old(formData), field, value, parsePrice)
      ensures isSubmitting == old(isSubmitting)
    {
      formData := Changed(formData, field, value, parsePrice);
    }

    /**
     * `handleSubmit`: the form data is what `onSave` receives, and the form
     * is no longer submitting once it returns.
     */
    method HandleSubmit() returns (saved: QuotedProduct)
      modifies this
      ensures saved == formData == old(formData)
      ensures !isSubmitting
    {
      isSubmitting := true;
      saved := formData;
      isSubmitting := false;
    }
  }
}
