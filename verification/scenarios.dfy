/**
 * Create scenarios on an empty list, after the acceptance test in
 * tests/acceptance/test_create_item.py, plus listing facts about any list.
 */
module Scenarios {
  import opened Wrappers
  import opened Items
  import opened CustomResponse
  import opened CreateItemHandler
  import opened GetAllHandler

  /** The create acceptance test: a well-formed body is stored and echoed back. */
  method CreateValidExample() returns (reply: Envelope<Item>, stored: seq<Item>)
    ensures reply.message == "Item created successfully" && reply.isSuccess
    ensures reply.data == Some(Item("aca49925-9ac5-4109-8125-5ff9caa37552", "This is a valid message"))
    ensures stored == [Item("aca49925-9ac5-4109-8125-5ff9caa37552", "This is a valid message")]
  {
    var store := new ItemList();
    var body := Item("aca49925-9ac5-4109-8125-5ff9caa37552", "This is a valid message");
    assert IsUuid4(body.uuid);
    reply := CreateItem(store, body, []);
    stored := store.items;
  }

  /**
   * A body with a malformed uuid and a short message: nothing is stored, and
   * the reply still claims success, with the cut validation message and no data.
   */
  method CreateInvalidExample(errors: seq<string>) returns (reply: Envelope<Item>, stored: seq<Item>)
    ensures reply.isSuccess && reply.data == None
    ensures reply.message == FailureText(errors)
    ensures stored == []
  {
    var store := new ItemList();
    var body := Item("not-a-uuid", "short");
    reply := CreateItem(store, body, errors);
    stored := store.items;
  }

  /** Creating A and then B, then listing, gives [A, B]. */
  method CreateThenList(a: Item, b: Item, errors: seq<string>) returns (listed: Envelope<seq<Item>>)
    requires ValidItem(a) && ValidItem(b)
    ensures listed.data == Some([a, b])
  {
    var store := new ItemList();
    var _ := CreateItem(store, a, errors);
    var _ := CreateItem(store, b, errors);
    assert store.items == [a, b];
    listed := GetAll(store);
  }

  /** Two list requests with no create between them answer the same. */
  method ListTwice(store: ItemList) returns (first: Envelope<seq<Item>>, second: Envelope<seq<Item>>)
    ensures first == second
  {
    first := GetAll(store);
    second := GetAll(store);
  }

  /**
   * An item that reached the list without passing the schema, wherever it
   * sits, is left out of every later listing and hides nothing around it.
   */
  lemma InvalidItemIsHidden(a: seq<Item>, bad: Item, b: seq<Item>)
    requires !ValidItem(bad)
    ensures Filter(a + [bad] + b) == Filter(a + b)
  {
    FilterAppend(a + [bad], b);
    FilterAppend(a, [bad]);
    FilterAppend(a, b);
    assert Filter([bad]) == Filter([]) + [];
  }
}
