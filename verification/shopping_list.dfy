/**
  The shopping list kept beside the Tesco basket: a list of items held by the
  entity and replaced or updated in place by its operations.  Adding an item
  searches the shop and puts the first match in the basket; updating changes
  the first item with a given id; removing and clearing filter the list.
*/
module ShoppingList {
  import opened Common
  import opened ApiExtract
  import opened ApiSession

  /** One list entry: the text the user typed, the shop's product id when one was found, and whether it is ticked off. */
  datatype ListItem = ListItem(name: string, id: Option<string>, complete: bool)

  /**
    The keys an update may set, each present or absent: `id` may be set to a
    product id or to None.
  */
  datatype ItemUpdate = ItemUpdate(name: Option<string>, id: Option<Option<string>>, complete: Option<bool>)

  // ---------------------------------------------------------------------------
  // Filtering, as a list comprehension with a condition does it
  // ---------------------------------------------------------------------------

  /** `[x for x in s if keep(x)]`. */
  function Filter<T>(s: seq<T>, keep: T -> bool): (r: seq<T>)
    ensures |r| <= |s|
  {
    if s == [] then [] else (if keep(s[0]) then [s[0]] else []) + Filter(s[1..], keep)
  }

  /** Exactly the elements that satisfy the condition survive. */
  lemma {:induction false} FilterMembers<T>(s: seq<T>, keep: T -> bool, x: T)
    ensures x in Filter(s, keep) <==> x in s && keep(x)
  {
    if s != [] {
      FilterMembers(s[1..], keep, x);
      assert s == [s[0]] + s[1..];
    }
  }

  /** Filtering a concatenation filters each part, keeping their order. */
  lemma {:induction false} FilterConcat<T>(a: seq<T>, b: seq<T>, keep: T -> bool)
    ensures Filter(a + b, keep) == Filter(a, keep) + Filter(b, keep)
  {
    if a == [] {
      assert a + b == b;
    } else {
      var head := if keep(a[0]) then [a[0]] else [];
      assert (a + b)[0] == a[0] && (a + b)[1..] == a[1..] + b;
      assert Filter(a + b, keep) == head + Filter(a[1..] + b, keep);
      FilterConcat(a[1..], b, keep);
      assert head + (Filter(a[1..], keep) + Filter(b, keep)) == (head + Filter(a[1..], keep)) + Filter(b, keep);
    }
  }

  /** Filtering twice with the same condition is filtering once. */
  lemma {:induction false} FilterIdempotent<T>(s: seq<T>, keep: T -> bool)
    ensures Filter(Filter(s, keep), keep) == Filter(s, keep)
  {
    if s != [] {
      FilterIdempotent(s[1..], keep);
      if keep(s[0]) {
        var t := [s[0]] + Filter(s[1..], keep);
        assert t[0] == s[0] && t[1..] == Filter(s[1..], keep);
        assert Filter(t, keep) == [s[0]] + Filter(Filter(s[1..], keep), keep);
      } else {
        assert Filter(s, keep) == [] + Filter(s[1..], keep) == Filter(s[1..], keep);
      }
    }
  }

  /** The list is left as it was exactly when every element satisfies the condition. */
  lemma {:induction false} FilterKeepsAll<T>(s: seq<T>, keep: T -> bool)
    ensures Filter(s, keep) == s <==> forall i :: 0 <= i < |s| ==> keep(s[i])
  {
    if s != [] {
      FilterKeepsAll(s[1..], keep);
      if keep(s[0]) {
        assert ([s[0]] + Filter(s[1..], keep))[1..] == Filter(s[1..], keep);
        assert s == [s[0]] + s[1..];
        assert (forall i :: 0 <= i < |s| ==> keep(s[i])) <==> (forall i :: 0 <= i < |s[1..]| ==> keep(s[1..][i]));
      }
    }
  }

  /** The condition of removal: the item's id is not the one removed (an item without id always stays). */
  function OtherId(itemId: string): ListItem -> bool {
    (item: ListItem) => item.id != Some(itemId)
  }

  /** The condition of clearing: the item is not ticked off. */
  function Open(): ListItem -> bool {
    (item: ListItem) => !item.complete
  }

  /** The list after removing every item with the given id. */
  function WithoutId(items: seq<ListItem>, itemId: string): seq<ListItem> {
    Filter(items, OtherId(itemId))
  }

  /** The list after clearing every completed item. */
  function Incomplete(items: seq<ListItem>): seq<ListItem> {
    Filter(items, Open())
  }

  /**
    Removal drops every item carrying the id and nothing else, keeps the
    rest in order, is idempotent, and changes nothing when no item carries
    the id.
  */
  lemma RemovalEffect(items: seq<ListItem>, itemId: string, more: seq<ListItem>)
    ensures forall x :: x in WithoutId(items, itemId) <==> x in items && x.id != Some(itemId)
    ensures WithoutId(items + more, itemId) == WithoutId(items, itemId) + WithoutId(more, itemId)
    ensures WithoutId(WithoutId(items, itemId), itemId) == WithoutId(items, itemId)
    ensures WithoutId(items, itemId) == items <==> forall i :: 0 <= i < |items| ==> items[i].id != Some(itemId)
  {
    forall x {
      FilterMembers(items, OtherId(itemId), x);
    }
    FilterConcat(items, more, OtherId(itemId));
    FilterIdempotent(items, OtherId(itemId));
    FilterKeepsAll(items, OtherId(itemId));
  }

  /**
    Clearing drops every completed item and nothing else, keeps the rest in
    order, is idempotent, and changes nothing when no item is complete.
  */
  lemma ClearingEffect(items: seq<ListItem>, more: seq<ListItem>)
    ensures forall x :: x in Incomplete(items) <==> x in items && !x.complete
    ensures Incomplete(items + more) == Incomplete(items) + Incomplete(more)
    ensures Incomplete(Incomplete(items)) == Incomplete(items)
    ensures Incomplete(items) == items <==> forall i :: 0 <= i < |items| ==> !items[i].complete
  {
    forall x {
      FilterMembers(items, Open(), x);
    }
    FilterConcat(items, more, Open());
    FilterIdempotent(items, Open());
    FilterKeepsAll(items, Open());
  }

  // ---------------------------------------------------------------------------
  // Updating the first item with an id
  // ---------------------------------------------------------------------------

  /** `item.update(updates)` for the keys an update may carry. */
  function Applied(item: ListItem, u: ItemUpdate): ListItem {
    ListItem(u.name.GetOr(item.name), u.id.GetOr(item.id), u.complete.GetOr(item.complete))
  }

  /** The index of the first item with the id, or the length of the list when there is none. */
  function FirstMatch(items: seq<ListItem>, itemId: string): (i: nat)
    ensures i <= |items|
    ensures forall j :: 0 <= j < i ==> items[j].id != Some(itemId)
    ensures i < |items| ==> items[i].id == Some(itemId)
  {
    if items == [] then 0
    else if items[0].id == Some(itemId) then 0
    else 1 + FirstMatch(items[1..], itemId)
  }

  /** Reference definition of an update: walk the list and change the first item with the id. */
  function UpdateFirst(items: seq<ListItem>, itemId: string, u: ItemUpdate): seq<ListItem> {
    if items == [] then []
    else if items[0].id == Some(itemId) then [Applied(items[0], u)] + items[1..]
    else [items[0]] + UpdateFirst(items[1..], itemId, u)
  }

  /**
    An update changes exactly one item, the first with the id, and leaves
    every other item, including later ones with the same id, as it was; a
    list with no such item is unchanged.
  */
  lemma {:induction false} UpdateFirstAt(items: seq<ListItem>, itemId: string, u: ItemUpdate)
    ensures var i := FirstMatch(items, itemId);
      UpdateFirst(items, itemId, u) == if i < |items| then items[i := Applied(items[i], u)] else items
  {
    if items != [] && items[0].id != Some(itemId) {
      UpdateFirstAt(items[1..], itemId, u);
      assert items == [items[0]] + items[1..];
    }
  }

  /** An item that is ticked off does not survive clearing. */
  lemma TickedOffCleared(x: ListItem)
    requires x.complete
    ensures Incomplete([x]) == []
  {
    assert [x][1..] == [];
  }

  /** Replacing the element at i splits a sequence around it. */
  lemma SplitAround(items: seq<ListItem>, i: nat, x: ListItem)
    requires i < |items|
    ensures items[i := x] == items[..i] + [x] + items[i + 1..]
  {
  }

  /** An item the update ticks off is gone after clearing, and the other items clear as before. */
  lemma MarkedCompleteIsCleared(items: seq<ListItem>, itemId: string, u: ItemUpdate)
    requires u.complete == Some(true)
    requires FirstMatch(items, itemId) < |items|
    ensures var i := FirstMatch(items, itemId);
      Incomplete(UpdateFirst(items, itemId, u)) == Incomplete(items[..i]) + Incomplete(items[i + 1..])
  {
    var i := FirstMatch(items, itemId);
    var x := Applied(items[i], u);
    UpdateFirstAt(items, itemId, u);
    SplitAround(items, i, x);
    FilterConcat(items[..i] + [x], items[i + 1..], Open());
    FilterConcat(items[..i], [x], Open());
    TickedOffCleared(x);
  }

  // ---------------------------------------------------------------------------
  // Adding an item
  // ---------------------------------------------------------------------------

  /** The entry added for `name` given the search results: linked to the first product when there is one. */
  function ListEntry(name: string, products: seq<Product>): ListItem {
    ListItem(name, if products != [] then Some(products[0].id) else None, false)
  }

  /**
    What adding leaves for the other operations: the new entry is open, so
    clearing keeps it; when it is linked to a product, removing that product
    id takes it off again and leaves the earlier list filtered as before.
  */
  lemma AddedEntryLifecycle(items: seq<ListItem>, name: string, products: seq<Product>)
    ensures Incomplete(items + [ListEntry(name, products)]) == Incomplete(items) + [ListEntry(name, products)]
    ensures products != [] ==>
      WithoutId(items + [ListEntry(name, products)], products[0].id) == WithoutId(items, products[0].id)
  {
    FilterConcat(items, [ListEntry(name, products)], Open());
    if products != [] {
      FilterConcat(items, [ListEntry(name, products)], OtherId(products[0].id));
      assert WithoutId(items, products[0].id) + [] == WithoutId(items, products[0].id);
    }
  }

  // ---------------------------------------------------------------------------
  // The entity
  // ---------------------------------------------------------------------------

  class TescoShoppingList {
    /** The client used to search and to fill the basket. */
    const api: TescoApi
    /** The list, oldest entry first. */
    var items: seq<ListItem>

    constructor (api: TescoApi)
      ensures this.api == api && items == []
    {
      this.api := api;
      items := [];
    }

    /** The list as the entity exposes it. */
    function Items(): seq<ListItem>
      reads this
    {
      items
    }

    /**
      Searches for `name`.  When the search raises, the error propagates and
      the list is untouched.  Otherwise the first product found is put in the
      basket (whatever that reports) and an open entry linked to it is
      appended; with no product found an unlinked entry is appended.
    */
    method AddItem(name: string, login: LoginExchange, searchReply: Reply<seq<Container>>, maxResults: nat,
                   addReply: Reply<AddResponse>) returns (raised: Option<ApiException>)
      modifies this, api
      ensures var search := SearchStep(old(api.State()), api.Settings(), login, searchReply, maxResults);
        match search.outcome
        case Raised(e) => raised == Some(e) && items == old(items) && api.State() == search.state
        case Value(products) =>
          && raised == None
          && items == old(items) + [ListEntry(name, products)]
          && api.State() == (if products == [] then search.state
                             else AddToBasketStep(search.state, api.Settings(), login, products[0].id, 1, addReply).state)
          && api.State().basketRequests
             == old(api.State().basketRequests)
                + (if products == [] then [] else [BasketRequest(products[0].id, 1, CsrfField(search.state.csrfToken))])
    {
      var found := api.SearchProducts(login, searchReply, maxResults);
      if found.Raised? {
        return Some(found.error);
      }
      var products := found.value;
      if products != [] {
        var product := products[0];
        var _ := api.AddToBasket(login, product.id, 1, addReply);
        items := items + [ListItem(name, Some(product.id), false)];
      } else {
        items := items + [ListItem(name, None, false)];
      }
      return None;
    }

    /** Applies `updates` to the first item with the id, if any, and stops there. */
    method UpdateItem(itemId: string, updates: ItemUpdate)
      modifies this
      ensures items == UpdateFirst(old(items), itemId, updates)
    {
      var i := 0;
      while i < |items|
        invariant 0 <= i <= |items|
        invariant items == old(items)
        invariant forall j :: 0 <= j < i ==> items[j].id != Some(itemId)
      {
        if items[i].id == Some(itemId) {
          items := items[i := Applied(items[i], updates)];
          break;
        }
        i := i + 1;
      }
      UpdateFirstAt(old(items), itemId, updates);
    }

    /** Drops every item with the id. */
    method RemoveItem(itemId: string)
      modifies this
      ensures items == WithoutId(old(items), itemId)
    {
      items := Filter(items, OtherId(itemId));
    }

    /** Drops every completed item. */
    method ClearCompleted()
      modifies this
      ensures items == Incomplete(old(items))
    {
      items := Filter(items, Open());
    }
  }
}
