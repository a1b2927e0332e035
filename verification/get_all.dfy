/**
 * The list handler: walk the shared list in order, keep the items that
 * pass the read schema, drop the others without a trace, and answer with
 * the kept items. `Filter` is the pure definition of what the loop builds.
 */
module GetAllHandler {
  import opened Wrappers
  import opened Items
  import opened CustomResponse

  const RetrievedMessage := "Items retrieved successfully"

  /** The items of `s` that pass the schema, in the order of `s`. */
  function Filter(s: seq<Item>): (r: seq<Item>)
    ensures |r| <= |s|
    ensures forall x :: x in r <==> x in s && ValidItem(x)
  {
    if s == [] then []
    else
      var init, last := s[..|s| - 1], s[|s| - 1];
      assert s == init + [last];
      Filter(init) + (if ValidItem(last) then [last] else [])
  }

  /** `idx` lists, in increasing order, the positions in `b` at which the elements of `a` occur. */
  ghost predicate Embeds(a: seq<Item>, b: seq<Item>, idx: seq<int>) {
    |idx| == |a| &&
    (forall k :: 0 <= k < |idx| ==> 0 <= idx[k] < |b| && a[k] == b[idx[k]]) &&
    (forall k, l :: 0 <= k < l < |idx| ==> idx[k] < idx[l])
  }

  /** `a` is `b` with some elements removed and the rest left in order. */
  ghost predicate IsSubsequence(a: seq<Item>, b: seq<Item>) {
    exists idx :: Embeds(a, b, idx)
  }

  /** Filtering splits over concatenation: appending to the list appends to the listing. */
  lemma {:induction false} FilterAppend(a: seq<Item>, b: seq<Item>)
    ensures Filter(a + b) == Filter(a) + Filter(b)
  {
    if b == [] {
      assert a + b == a;
    } else {
      var init, last := b[..|b| - 1], b[|b| - 1];
      var tail := if ValidItem(last) then [last] else [];
      assert (a + b)[..|a + b| - 1] == a + init;
      assert (a + b)[|a + b| - 1] == last;
      calc {
        Filter(a + b);
        Filter(a + init) + tail;
        { FilterAppend(a, init); }
        (Filter(a) + Filter(init)) + tail;
        Filter(a) + (Filter(init) + tail);
        Filter(a) + Filter(b);
      }
    }
  }

  /** The listing keeps store order: it is a subsequence of the store. */
  lemma {:induction false} FilterIsSubsequence(s: seq<Item>)
    ensures IsSubsequence(Filter(s), s)
  {
    if s == [] {
      assert Embeds([], s, []);
    } else {
      var init, last := s[..|s| - 1], s[|s| - 1];
      FilterIsSubsequence(init);
      var idx :| Embeds(Filter(init), init, idx);
      if ValidItem(last) {
        assert Embeds(Filter(s), s, idx + [|s| - 1]);
      } else {
        assert Embeds(Filter(s), s, idx);
      }
    }
  }

  /** Each valid item appears in the listing as often as in the store; an invalid one never does. */
  lemma {:induction false} FilterCount(s: seq<Item>, x: Item)
    ensures multiset(Filter(s))[x] == if ValidItem(x) then multiset(s)[x] else 0
  {
    if s != [] {
      var init, last := s[..|s| - 1], s[|s| - 1];
      FilterCount(init, x);
      assert s == init + [last];
    }
  }

  /** When every stored item is valid, the listing is the whole store. */
  lemma {:induction false} FilterOfValid(s: seq<Item>)
    requires forall i :: 0 <= i < |s| ==> ValidItem(s[i])
    ensures Filter(s) == s
  {
    if s != [] {
      var init := s[..|s| - 1];
      FilterOfValid(init);
      assert s == init + [s[|s| - 1]];
    }
  }

  /** Re-validating a listing drops nothing more. */
  lemma {:induction false} FilterIdempotent(s: seq<Item>)
    ensures Filter(Filter(s)) == Filter(s)
  {
    var r := Filter(s);
    assert forall i :: 0 <= i < |r| ==> r[i] in r;
    FilterOfValid(r);
  }

  /** Handles one list request; reads the shared list and changes nothing. */
  method GetAll(store: ItemList) returns (reply: Envelope<seq<Item>>)
    ensures reply.message == RetrievedMessage && reply.isSuccess
    ensures reply.data == Some(Filter(store.items))
    ensures store.AllValid() ==> reply.data == Some(store.items)
  {
    var itemsFound: seq<Item> := [];
    var i := 0;
    while i < |store.items|
      invariant 0 <= i <= |store.items|
      invariant itemsFound == Filter(store.items[..i])
    {
      var item := store.items[i];
      assert store.items[..i + 1] == store.items[..i] + [item];
      if ValidItem(item) {
        itemsFound := itemsFound + [item];
      }
      i := i + 1;
    }
    assert store.items[..i] == store.items;
    if store.AllValid() {
      FilterOfValid(store.items);
    }
    reply := Success(data := Some(itemsFound), msg := RetrievedMessage);
  }
}
