/**
 * The create handler: validate the body, append it to the shared list only
 * when it passes, and answer with an envelope. A failed validation is
 * answered through the `success` factory, so its envelope still says
 * `isSuccess == true`; the model keeps that behaviour.
 */
module CreateItemHandler {
  import opened Wrappers
  import opened Items
  import opened CustomResponse

  const CreatedMessage := "Item created successfully"
  const FallbackMessage := "Something went wrong"

  /** The first piece of `s` split at commas: everything before its first comma, or all of `s`. */
  function BeforeFirstComma(s: string): (r: string)
    ensures r <= s
    ensures ',' !in r
    ensures |r| < |s| ==> s[|r|] == ','
  {
    if s == [] || s[0] == ',' then [] else [s[0]] + BeforeFirstComma(s[1..])
  }

  /** The three properties of `BeforeFirstComma` leave no other choice of result. */
  lemma {:induction false} BeforeFirstCommaUnique(s: string, t: string)
    requires t <= s && ',' !in t
    requires |t| < |s| ==> s[|t|] == ','
    ensures t == BeforeFirstComma(s)
  {
  }

  /**
   * The reply text for a rejected body, from the validation messages:
   * the first message cut at its first comma, or a fixed text when there
   * are none.
   */
  function FailureText(errors: seq<string>): (t: string)
    ensures errors == [] ==> t == FallbackMessage
    ensures errors != [] ==> t <= errors[0] && ',' !in t
    ensures errors != [] && |t| < |errors[0]| ==> errors[0][|t|] == ','
  {
    if |errors| > 0 then BeforeFirstComma(errors[0]) else FallbackMessage
  }

  /** A first message that starts with a comma leaves an empty reply text. */
  lemma EmptyFailureText(errors: seq<string>)
    requires errors != [] && |errors[0]| > 0 && errors[0][0] == ','
    ensures FailureText(errors) == ""
  {
  }

  /**
   * Handles one create request. `errors` stands for the messages the
   * validation library reports when it rejects `body`; they are read only
   * on that path.
   */
  method CreateItem(store: ItemList, body: Item, errors: seq<string>) returns (reply: Envelope<Item>)
    modifies store
    ensures ValidItem(body) ==> store.items == old(store.items) + [body]
    ensures ValidItem(body) ==> reply == Envelope(CreatedMessage, true, Some(body))
    ensures !ValidItem(body) ==> store.items == old(store.items)
    ensures !ValidItem(body) ==> reply == Envelope(FailureText(errors), true, None)
    ensures old(store.AllValid()) ==> store.AllValid()
  {
    if ValidItem(body) {
      store.Append(body);
      reply := Success(data := Some(body), msg := CreatedMessage);
    } else {
      reply := Success(msg := FailureText(errors));
    }
  }
}
