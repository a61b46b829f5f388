/**
 * The state of the chat component: its messages, the quoted products, the
 * total and the correction form, with the handlers that update them.
 */
module ChatSession {
  import opened Wrappers
  import opened Strings
  import opened Numerals
  import opened Catalog
  import opened ChatInterface

  datatype Role = User | Assistant

  datatype Message = Message(role: Role, content: string, isProcessing: bool, isError: bool)

  const WELCOME := Message(Assistant, "Ol\U{00E1}! Envie uma lista de produtos para obter cota\U{00E7}\U{00F5}es.", false, false)

  const PROCESSING := Message(Assistant, "Processando sua lista de produtos...", true, false)

  /**
   * What the POST to the product route comes back with: a thrown error (the
   * request or the JSON decoding failed), a body that is not JSON, a status
   * that is not ok with the body's optional `error`, or an ok body with its
   * results (`results`, else `raw_results`, else `[]`), whose entries may be
   * null, and its `fromAI` flag.
   */
  datatype Answer =
    | Thrown(reason: string)
    | NotJson
    | NotOk(status: nat, error: Option<string>)
    | Answered(results: Raw<Option<QuoteRow>>, fromAI: bool)

  predicate NoneProcessing(messages: seq<Message>) {
    forall k :: 0 <= k < |messages| ==> !messages[k].isProcessing
  }

  /** `prev.filter((msg) => !msg.isProcessing)`. */
  function DropProcessing(messages: seq<Message>): (r: seq<Message>)
    ensures NoneProcessing(r)
    ensures |r| <= |messages|
  {
    if messages == [] then []
    else
      var last := messages[|messages| - 1];
      DropProcessing(messages[..|messages| - 1]) + (if last.isProcessing then [] else [last])
  }

  /** Removing the processing message appended to a history without one gives the history back. */
  lemma {:induction false} DropAppended(messages: seq<Message>, extra: seq<Message>)
    requires NoneProcessing(messages)
    requires forall k :: 0 <= k < |extra| ==> extra[k].isProcessing
    ensures DropProcessing(messages + extra) == messages
    decreases |extra|, |messages|
  {
    var c := messages + extra;
    if extra != [] {
      assert c[..|c| - 1] == messages + extra[..|extra| - 1];
      DropAppended(messages, extra[..|extra| - 1]);
    } else if messages != [] {
      assert c == messages;
      var n := |messages| - 1;
      assert NoneProcessing(messages[..n]);
      DropAppended(messages[..n], []);
      assert messages[..n] + [] == messages[..n];
    }
  }

  const NOT_JSON := "Resposta da API n\U{00E3}o \U{00E9} JSON v\U{00E1}lido"

  const API_ERROR := "Erro na API: "

  const NO_RESULTS_FOUND := "Formato de resposta inv\U{00E1}lido ou nenhum resultado encontrado"

  /**
   * The detail of the error a failed answer raises; `None` when the answer
   * yields products. `typeError` is the message of the `TypeError` the
   * conversion raises on a null entry, whose wording depends on the engine.
   * Exactly an ok answer holding a non-empty array without null entries
   * yields products.
   */
  function FailureOf(answer: Answer, typeError: string): (r: Option<string>)
    ensures r.None? <==>
      answer.Answered? && answer.results.Array? && |answer.results.items| > 0 && NoNull(answer.results.items)
    ensures answer.Answered? && answer.results.Array? && |answer.results.items| > 0 && !NoNull(answer.results.items) ==>
      r == Some(typeError)
  {
    match answer
    case Thrown(reason) => Some(reason)
    case NotJson => Some(NOT_JSON)
    case NotOk(status, error) =>
      if error.Some? && error.value != "" then Some(error.value)
      else Some(API_ERROR + IntText(status))
    case Answered(results, _) =>
      if results.NotArray? || |results.items| == 0 then Some(NO_RESULTS_FOUND)
      else if !NoNull(results.items) then Some(typeError)
      else None
  }

  /**
   * An answer that yields products converts to one product per row; one
   * with a null entry makes the conversion throw, and its `TypeError` is
   * what is reported.
   */
  lemma {:induction false} FailureIff(answer: Answer, typeError: string, parsePrice: string -> Option<int>)
    ensures FailureOf(answer, typeError).None? ==>
      ConvertRawResults(answer.results, parsePrice).Some?
      && |ConvertRawResults(answer.results, parsePrice).value| == |answer.results.items| > 0
    ensures answer.Answered? && answer.results.Array? && |answer.results.items| > 0 && !NoNull(answer.results.items) ==>
      ConvertRawResults(answer.results, parsePrice).None? && FailureOf(answer, typeError) == Some(typeError)
  {
  }

  const ERROR_LEAD := "Ocorreu um erro ao processar sua lista: "

  const ERROR_TAIL := ". \n          \nPor favor, tente novamente "
    + "com uma lista mais simples ou entre em "
    + "contato com o suporte se o problema persistir."

  /** The error reply: an assistant message marked as an error, carrying the detail between the fixed lead and tail. */
  function ErrorMessage(detail: string): (r: Message)
    ensures r.role == Assistant && r.isError && !r.isProcessing
    ensures |r.content| == |ERROR_LEAD| + |detail| + |ERROR_TAIL|
    ensures r.content[..|ERROR_LEAD|] == ERROR_LEAD && r.content[|ERROR_LEAD|..|ERROR_LEAD| + |detail|] == detail
    ensures r.content[|ERROR_LEAD| + |detail|..] == ERROR_TAIL
  {
    ThreeParts(ERROR_LEAD, detail, ERROR_TAIL);
    Message(Assistant, ERROR_LEAD + detail + ERROR_TAIL, false, true)
  }

  const DONE_LEAD := "Cota\U{00E7}\U{00E3}o conclu\U{00ED}da com sucesso! "

  const DONE_COUNT := " produtos encontrados.\n"

  const AI_NOTE := "\n**Alguns produtos foram sugeridos pela IA "
    + "com base na sua pesquisa.**"

  const TOTAL_LEAD := "\n\n**Total: "

  /**
   * The confirmation: the number of products, which reads back as the
   * count, the note on suggestions when some came from the AI, and the
   * total in the given currency format, in bold at the end.
   */
  function Confirmation(count: nat, fromAI: bool, total: string): (r: Message)
    ensures r.role == Assistant && !r.isError && !r.isProcessing
    ensures var n := |DONE_LEAD| + |IntText(count)|;
      n <= |r.content| && r.content[..|DONE_LEAD|] == DONE_LEAD
      && AllDigits(r.content[|DONE_LEAD|..n]) && DigitsValue(r.content[|DONE_LEAD|..n]) == count
    ensures fromAI ==> Contains(r.content, AI_NOTE)
    ensures |total| + 2 <= |r.content| && r.content[|r.content| - |total| - 2..] == total + "**"
  {
    var note := if fromAI then AI_NOTE else "";
    ConfirmationCount(DONE_LEAD, count, DONE_COUNT, note, TOTAL_LEAD, total);
    ConfirmationNote(DONE_LEAD, count, DONE_COUNT, note, TOTAL_LEAD, total);
    ConfirmationTotal(DONE_LEAD, count, DONE_COUNT, note, TOTAL_LEAD, total);
    Message(Assistant, ConfirmationText(DONE_LEAD, count, DONE_COUNT, note, TOTAL_LEAD, total), false, false)
  }

  /** The confirmation's text from its parts: the lead, the count, the note, the total in bold. */
  function ConfirmationText(lead: string, count: nat, countTail: string, note: string, totalLead: string, total: string): string {
    lead + IntText(count) + countTail + note + totalLead + total + "**"
  }

  lemma {:induction false} ConfirmationCount(lead: string, count: nat, countTail: string, note: string, totalLead: string, total: string)
    ensures var c := ConfirmationText(lead, count, countTail, note, totalLead, total);
      var n := |lead| + |IntText(count)|;
      n <= |c| && c[..|lead|] == lead && AllDigits(c[|lead|..n]) && DigitsValue(c[|lead|..n]) == count
  {
    var rest := countTail + note + totalLead + total + "**";
    assert ConfirmationText(lead, count, countTail, note, totalLead, total) == lead + IntText(count) + rest;
    CountReadsBack(lead, count, rest);
  }

  lemma {:induction false} ConfirmationNote(lead: string, count: nat, countTail: string, note: string, totalLead: string, total: string)
    ensures Contains(ConfirmationText(lead, count, countTail, note, totalLead, total), note)
  {
    var c := ConfirmationText(lead, count, countTail, note, totalLead, total);
    var before := lead + IntText(count) + countTail;
    assert c == before + note + (totalLead + total + "**");
    ThreeParts(before, note, totalLead + total + "**");
    assert OccursAt(c, note, |before|);
  }

  lemma {:induction false} ConfirmationTotal(lead: string, count: nat, countTail: string, note: string, totalLead: string, total: string)
    ensures var c := ConfirmationText(lead, count, countTail, note, totalLead, total);
      |total| + 2 <= |c| && c[|c| - |total| - 2..] == total + "**"
  {
    ThreeParts(lead + IntText(count) + countTail + note + totalLead, total, "**");
  }

  /** A count printed between two texts reads back as the count. */
  lemma {:induction false} CountReadsBack(lead: string, count: nat, rest: string)
    ensures var c := lead + IntText(count) + rest;
      var n := |lead| + |IntText(count)|;
      n <= |c| && c[..|lead|] == lead && AllDigits(c[|lead|..n]) && DigitsValue(c[|lead|..n]) == count
  {
    ThreeParts(lead, IntText(count), rest);
    DecimalRoundTrip(count);
  }

  /** Where each of three joined texts lies in the whole. */
  lemma {:induction false} ThreeParts(a: string, b: string, c: string)
    ensures (a + b + c)[..|a|] == a
    ensures (a + b + c)[|a|..|a| + |b|] == b
    ensures (a + b + c)[|a| + |b|..] == c
  {
  }

  /** `products.map((p) => p.id === id ? { ...p, quantity } : p)`. */
  function SetQuantity(products: seq<QuotedProduct>, id: string, quantity: int): (r: seq<QuotedProduct>)
    ensures |r| == |products|
    ensures forall i :: 0 <= i < |r| ==> r[i] == products[i].(quantity := r[i].quantity)
    ensures forall i :: 0 <= i < |r| ==> r[i].quantity == if products[i].id == id then quantity else products[i].quantity
    ensures UniqueIds(products) ==> UniqueIds(r)
  {
    seq(|products|, i requires 0 <= i < |products| =>
      if products[i].id == id then products[i].(quantity := quantity) else products[i])
  }

  /** `products.map((p) => p.id === updated.id ? updated : p)`. */
  function ReplaceById(products: seq<QuotedProduct>, updated: QuotedProduct): (r: seq<QuotedProduct>)
    ensures |r| == |products|
    ensures forall i :: 0 <= i < |r| ==> r[i].id == products[i].id
    ensures forall i :: 0 <= i < |r| ==> r[i] == if products[i].id == updated.id then updated else products[i]
    ensures UniqueIds(products) ==> UniqueIds(r)
  {
    seq(|products|, i requires 0 <= i < |products| => if products[i].id == updated.id then updated else products[i])
  }

  /** With unique ids, changing the quantity of the product at `i` touches that product alone. */
  lemma {:induction false} SetQuantityAt(products: seq<QuotedProduct>, i: nat, quantity: int)
    requires UniqueIds(products) && i < |products|
    ensures SetQuantity(products, products[i].id, quantity) == products[i := products[i].(quantity := quantity)]
  {
    var r := SetQuantity(products, products[i].id, quantity);
    forall j | 0 <= j < |products| && j != i ensures r[j] == products[j] {
      assert products[j].id != products[i].id by {
        if j < i {} else {}
      }
    }
  }

  /** ... and moves the total by the product's price times the change in quantity. */
  lemma {:induction false} SetQuantityTotal(products: seq<QuotedProduct>, i: nat, quantity: int)
    requires UniqueIds(products) && i < |products|
    ensures CalculateTotal(SetQuantity(products, products[i].id, quantity))
      == CalculateTotal(products) + products[i].price * (quantity - products[i].quantity)
  {
    var p := products[i].(quantity := quantity);
    SetQuantityAt(products, i, quantity);
    TotalReplace(products, i, p);
    var price := products[i].price;
    assert price * quantity - price * products[i].quantity == price * (quantity - products[i].quantity);
  }

  /** An id that no product carries leaves the list as it is. */
  lemma {:induction false} SetQuantityUnknown(products: seq<QuotedProduct>, id: string, quantity: int)
    requires forall k :: 0 <= k < |products| ==> products[k].id != id
    ensures SetQuantity(products, id, quantity) == products
  {
  }

  /** With unique ids, a correction replaces the product with its id and nothing else. */
  lemma {:induction false} ReplaceAt(products: seq<QuotedProduct>, i: nat, updated: QuotedProduct)
    requires UniqueIds(products) && i < |products| && updated.id == products[i].id
    ensures ReplaceById(products, updated) == products[i := updated]
    ensures CalculateTotal(ReplaceById(products, updated)) == CalculateTotal(products) - LineTotal(products[i]) + LineTotal(updated)
  {
    var r := ReplaceById(products, updated);
    forall j | 0 <= j < |products| && j != i ensures r[j] == products[j] {
      assert products[j].id != products[i].id by {
        if j < i {} else {}
      }
    }
    assert r == products[i := updated];
    TotalReplace(products, i, updated);
  }

  /** A correction for an id no product carries changes nothing. */
  lemma {:induction false} ReplaceIds(products: seq<QuotedProduct>, updated: QuotedProduct)
    ensures (forall k :: 0 <= k < |products| ==> products[k].id != updated.id) ==> ReplaceById(products, updated) == products
  {
  }

  /** `selectedProduct?.quantity || 1`. */
  function KeptQuantity(selected: Option<QuotedProduct>): (q: int)
    ensures q != 0
    ensures selected.Some? && selected.value.quantity != 0 ==> q == selected.value.quantity
  {
    if selected.Some? && selected.value.quantity != 0 then selected.value.quantity else 1
  }

  class QuoteSession {
    var messages: seq<Message>
    var isProcessing: bool
    var products: seq<QuotedProduct>
    var totalValue: Option<int>
    var showCorrection: bool
    var selectedProduct: Option<QuotedProduct>

    /**
     * Between two handlers: nothing is processing, no processing message is
     * left, ids are unique, a total that is set is the total of the products
     * (it is unset only before the first products), and the correction form
     * is open exactly when a product is selected.
     */
    predicate Valid()
      reads this
    {
      !isProcessing && NoneProcessing(messages) && UniqueIds(products)
      && (totalValue.Some? ==> totalValue.value == CalculateTotal(products))
      && (totalValue.None? ==> products == [])
      && (showCorrection <==> selectedProduct.Some?)
    }

    constructor ()
      ensures Valid()
      ensures messages == [WELCOME] && products == [] && totalValue == None && selectedProduct == None
    {
      messages := [WELCOME];
      isProcessing := false;
      products := [];
      totalValue := None;
      showCorrection := false;
      selectedProduct := None;
    }

    /**
     * `handleSendMessage`. A blank message does nothing. A short message
     * without line break or comma gets a fallback reply chosen by `draw`.
     * Anything else is sent, cleaned, to the product route (`request`); an
     * answer with products replaces the products and the total and is
     * confirmed with the total written by `formatCurrency`, any other answer
     * is reported as an error and keeps the products.
     */
    method SendMessage(message: string, draw: real, answer: Answer, formatCurrency: int -> string,
                       parsePrice: string -> Option<int>, typeError: string)
      returns (request: Option<string>)
      requires Valid() && 0.0 <= draw < 1.0
      modifies this
      ensures Valid()
      ensures showCorrection == old(showCorrection) && selectedProduct == old(selectedProduct)
      ensures AllSpace(message) ==> request == None && messages == old(messages)
      ensures !AllSpace(message) && IsChatMessage(message) ==>
        request == None && messages == old(messages)
          + [Message(User, message, false, false)] + [Message(Assistant, GetFallbackResponse(message, draw), false, false)]
      ensures !AllSpace(message) && !IsChatMessage(message) ==> request == Some(CleanList(message))
      ensures !(request.Some? && FailureOf(answer, typeError).None?) ==> products == old(products) && totalValue == old(totalValue)
      ensures request.Some? && FailureOf(answer, typeError).Some? ==>
        messages == old(messages) + [Message(User, message, false, false)] + [ErrorMessage(FailureOf(answer, typeError).value)]
      ensures request.Some? && FailureOf(answer, typeError).None? ==>
        products == ConvertRawResults(answer.results, parsePrice).value
        && totalValue == Some(PriceSum(answer.results.items, parsePrice))
        && messages == old(messages) + [Message(User, message, false, false)]
             + [Confirmation(|products|, answer.fromAI, formatCurrency(PriceSum(answer.results.items, parsePrice)))]
    {
      request := None;
      TrimBlank(message);
      if Trim(message) == [] {
        return;
      }
      ghost var history := messages + [Message(User, message, false, false)];
      Begin(message);
      if IsChatMessage(message) {
        Reply(history, Message(Assistant, GetFallbackResponse(message, draw), false, false));
        return;
      }
      request := Some(CleanList(message));
      Conclude(history, answer, formatCurrency, parsePrice, typeError);
    }

    /** Show the user's message and the processing message. */
    method Begin(message: string)
      modifies this
      ensures messages == old(messages) + [Message(User, message, false, false)] + [PROCESSING] && isProcessing
      ensures products == old(products) && totalValue == old(totalValue)
      ensures showCorrection == old(showCorrection) && selectedProduct == old(selectedProduct)
    {
      messages := messages + [Message(User, message, false, false)];
      isProcessing := true;
      messages := messages + [PROCESSING];
    }

    /** Drop the processing message, append the reply and stop processing. */
    method Reply(ghost history: seq<Message>, reply: Message)
      requires messages == history + [PROCESSING] && NoneProcessing(history) && !reply.isProcessing
      modifies this
      ensures messages == history + [reply] && NoneProcessing(messages) && !isProcessing
      ensures products == old(products) && totalValue == old(totalValue)
      ensures showCorrection == old(showCorrection) && selectedProduct == old(selectedProduct)
    {
      DropAppended(history, [PROCESSING]);
      messages := DropProcessing(messages);
      messages := messages + [reply];
      isProcessing := false;
    }

    /** Handle the product route's answer: take its products and confirm, or report the error. */
    method Conclude(ghost history: seq<Message>, answer: Answer, formatCurrency: int -> string,
                    parsePrice: string -> Option<int>, typeError: string)
      requires messages == history + [PROCESSING] && NoneProcessing(history)
      modifies this
      ensures NoneProcessing(messages) && !isProcessing
      ensures showCorrection == old(showCorrection) && selectedProduct == old(selectedProduct)
      ensures FailureOf(answer, typeError).Some? ==>
        messages == history + [ErrorMessage(FailureOf(answer, typeError).value)]
        && products == old(products) && totalValue == old(totalValue)
      ensures FailureOf(answer, typeError).None? ==>
        products == ConvertRawResults(answer.results, parsePrice).value && UniqueIds(products)
        && totalValue == Some(CalculateTotal(products)) && CalculateTotal(products) == PriceSum(answer.results.items, parsePrice)
        && messages == history + [Confirmation(|products|, answer.fromAI, formatCurrency(PriceSum(answer.results.items, parsePrice)))]
    {
      var failure := FailureOf(answer, typeError);
      if failure.Some? {
        Reply(history, ErrorMessage(failure.value));
      } else {
        FailureIff(answer, typeError, parsePrice);
        var total := Accept(answer.results.items, parsePrice);
        Reply(history, Confirmation(|products|, answer.fromAI, formatCurrency(total)));
      }
    }

    /** Take the products converted from the rows, none of them null, and their total. */
    method Accept(items: seq<Option<QuoteRow>>, parsePrice: string -> Option<int>) returns (total: int)
      requires NoNull(items)
      modifies this
      ensures products == ConvertRawResults(Array(items), parsePrice).value && UniqueIds(products)
      ensures total == CalculateTotal(products) == PriceSum(items, parsePrice) && totalValue == Some(total)
      ensures |products| == |items|
      ensures messages == old(messages) && isProcessing == old(isProcessing)
      ensures showCorrection == old(showCorrection) && selectedProduct == old(selectedProduct)
    {
      products := ConvertRawResults(Array(items), parsePrice).value;
      ConvertIdsDistinct(Array(items), parsePrice);
      ConvertTotal(items, parsePrice);
      ConvertShape(Array(items), parsePrice);
      total := CalculateTotal(products);
      totalValue := Some(total);
    }

    /** `handleCorrection`: select the product and open the form. */
    method HandleCorrection(product: QuotedProduct)
      requires Valid()
      modifies this
      ensures Valid()
      ensures selectedProduct == Some(product) && showCorrection
      ensures messages == old(messages) && products == old(products) && totalValue == old(totalValue)
    {
      selectedProduct := Some(product);
      showCorrection := true;
    }

    /**
     * `handleSaveCorrection`: the product with the corrected one's id is
     * replaced by it, keeping the selected product's quantity (1 when that is
     * 0 or nothing is selected); the total is recomputed, the form closed and
     * the update confirmed.
     */
    method HandleSaveCorrection(updated: QuotedProduct)
      requires Valid()
      modifies this
      ensures Valid()
      ensures products == ReplaceById(old(products), updated.(quantity := KeptQuantity(old(selectedProduct))))
      ensures totalValue == Some(CalculateTotal(products))
      ensures !showCorrection && selectedProduct == None
      ensures messages == old(messages)
        + [Message(Assistant, "Produto \"" + updated.name + "\" atualizado com sucesso.", false, false)]
    {
      var quantity := KeptQuantity(selectedProduct);
      var withQuantity := updated.(quantity := quantity);
      products := ReplaceById(products, withQuantity);
      totalValue := Some(CalculateTotal(products));
      showCorrection := false;
      selectedProduct := None;
      messages := messages + [Message(Assistant, "Produto \"" + updated.name + "\" atualizado com sucesso.", false, false)];
    }

    /** `handleCancelCorrection`: close the form and drop the selection. */
    method HandleCancelCorrection()
      requires Valid()
      modifies this
      ensures Valid()
      ensures !showCorrection && selectedProduct == None
      ensures messages == old(messages) && products == old(products) && totalValue == old(totalValue)
    {
      showCorrection := false;
      selectedProduct := None;
    }

    /** `handleQuantityChange`: the products with that id take the quantity; the total is recomputed. */
    method HandleQuantityChange(productId: string, quantity: int)
      requires Valid()
      modifies this
      ensures Valid()
      ensures products == SetQuantity(old(products), productId, quantity)
      ensures totalValue == Some(CalculateTotal(products))
      ensures messages == old(messages) && showCorrection == old(showCorrection) && selectedProduct == old(selectedProduct)
    {
      products := SetQuantity(products, productId, quantity);
      totalValue := Some(CalculateTotal(products));
    }
  }
}
