/** The `data` slice of the Redux store: the last search results, the list
    the admin page edits, a loading flag, the last error and the last search
    query. Each reducer assigns fields of the slice's state in place. */
module DataSlice {
  import opened Wrappers
  import opened Selection

  /** A document id, as the database assigns it. */
  type ItemId = string

  /** One catalog record as the admin page and the search page hold it: its
      id, and the rest of its fields, which no reducer looks into. */
  datatype Item = Item(id: ItemId, fields: map<string, string>)

  /** The stored search query: the empty object `{}` the slice starts with,
      or the search text the search page dispatches. */
  datatype Query = EmptyObject | Text(text: string)

  // ---------------------------------------------------------------------
  // findIndex, and the list operations the admin reducers perform
  // ---------------------------------------------------------------------

  /** No item of `items` carries the id `id`. */
  predicate NoneWithId(items: seq<Item>, id: ItemId)
  {
    forall k :: 0 <= k < |items| ==> items[k].id != id
  }

  /** `items.findIndex(item => item.id === id)`: the position of the first
      item with that id, or -1 when there is none. */
  method FindIndexById(items: seq<Item>, id: ItemId) returns (index: int)
    ensures -1 <= index < |items|
    ensures index == -1 <==> NoneWithId(items, id)
    ensures index != -1 ==> items[index].id == id && NoneWithId(items[..index], id)
  {
    var i := 0;
    while i < |items|
      invariant 0 <= i <= |items|
      invariant NoneWithId(items[..i], id)
    {
      if items[i].id == id {
        return i;
      }
      assert items[..i + 1] == items[..i] + [items[i]];
      i := i + 1;
    }
    assert items[..i] == items;
    return -1;
  }

  /** The list with its first item whose id is `item.id` replaced by `item`;
      the list itself when no item has that id. */
  function ReplaceFirstById(items: seq<Item>, item: Item): (r: seq<Item>)
    ensures |r| == |items|
  {
    if items == [] then []
    else if items[0].id == item.id then [item] + items[1..]
    else [items[0]] + ReplaceFirstById(items[1..], item)
  }

  /** When the first item with the id sits at position `i`, exactly that
      position is overwritten. */
  lemma {:induction false} ReplaceFirstAt(items: seq<Item>, item: Item, i: int)
    requires 0 <= i < |items| && items[i].id == item.id
    requires NoneWithId(items[..i], item.id)
    ensures ReplaceFirstById(items, item) == items[i := item]
  {
    if i == 0 {
      assert items[0].id == item.id;
    } else {
      assert items[0] == items[..i][0];
      assert items[1..][..i - 1] == items[..i][1..];
      ReplaceFirstAt(items[1..], item, i - 1);
      assert [items[0]] + items[1..][i - 1 := item] == items[i := item];
    }
  }

  /** When no item has the id, nothing changes. */
  lemma {:induction false} ReplaceFirstNoMatch(items: seq<Item>, item: Item)
    requires NoneWithId(items, item.id)
    ensures ReplaceFirstById(items, item) == items
  {
    if items != [] {
      ReplaceFirstNoMatch(items[1..], item);
    }
  }

  /** Replacing twice with the same item is replacing once. */
  lemma {:induction false} ReplaceFirstIdempotent(items: seq<Item>, item: Item)
    ensures ReplaceFirstById(ReplaceFirstById(items, item), item) == ReplaceFirstById(items, item)
  {
    if items != [] && items[0].id != item.id {
      ReplaceFirstIdempotent(items[1..], item);
      var r := ReplaceFirstById(items, item);
      assert r[0] == items[0] && r[1..] == ReplaceFirstById(items[1..], item);
    }
  }

  /** The callback of `deleteAdminItem`'s `filter`: keep the other ids. */
  function HasOtherId(id: ItemId): Item -> bool
  {
    (x: Item) => x.id != id
  }

  /** `items.filter(item => item.id !== id)`. */
  function WithoutId(items: seq<Item>, id: ItemId): seq<Item>
  {
    Filter(items, HasOtherId(id))
  }

  /** After a delete no item carries the id, every item with another id is
      still there, and nothing else was added. */
  lemma WithoutIdContents(items: seq<Item>, id: ItemId)
    ensures NoneWithId(WithoutId(items, id), id)
    ensures forall x :: x in WithoutId(items, id) <==> x in items && x.id != id
  {
    forall x | x in items && x.id != id ensures x in WithoutId(items, id) {
      var i :| 0 <= i < |items| && items[i] == x;
      FilterKeepsEveryMatch(items, HasOtherId(id), i);
    }
    var r := WithoutId(items, id);
    forall k | 0 <= k < |r| ensures r[k].id != id {
      assert r[k] in r;
    }
  }

  /** The items that survive a delete keep their original relative order:
      position `i` of the old list is picked iff its id differs. */
  lemma WithoutIdKeepsOrder(items: seq<Item>, id: ItemId)
    ensures exists idx :: Selects(idx, items, WithoutId(items, id)) &&
              forall i :: 0 <= i < |items| ==> (i in idx <==> items[i].id != id)
  {
    var keep := HasOtherId(id);
    FilterSelectsKept(items, keep);
    var idx :| Selects(idx, items, Filter(items, keep)) && Picks(idx, items, keep);
    assert Selects(idx, items, WithoutId(items, id));
  }

  /** Deleting an id that no item carries changes nothing, and deleting the
      same id twice is deleting it once. */
  lemma WithoutIdAbsentAndTwice(items: seq<Item>, id: ItemId)
    ensures NoneWithId(items, id) ==> WithoutId(items, id) == items
    ensures WithoutId(WithoutId(items, id), id) == WithoutId(items, id)
  {
    if NoneWithId(items, id) {
      forall x | x in items ensures HasOtherId(id)(x) {
        var k :| 0 <= k < |items| && items[k] == x;
      }
      FilterKeepAll(items, HasOtherId(id));
    }
    FilterIdempotent(items, HasOtherId(id));
  }

  // ---------------------------------------------------------------------
  // The slice
  // ---------------------------------------------------------------------

  /** The state of the `data` slice; each method is one reducer. */
  class DataStore {
    var searchResults: seq<Item>
    var adminData: seq<Item>
    var loading: bool
    var error: Option<string>
    var searchQuery: Query

    /** `initialState`. */
    constructor()
      ensures searchResults == [] && adminData == []
      ensures !loading && error == None && searchQuery == EmptyObject
    {
      searchResults := [];
      adminData := [];
      loading := false;
      error := None;
      searchQuery := EmptyObject;
    }

    /** `setSearchResults`: store the results; loading is over, no error. */
    method SetSearchResults(payload: seq<Item>)
      modifies this
      ensures searchResults == payload && !loading && error == None
      ensures adminData == old(adminData) && searchQuery == old(searchQuery)
    {
      searchResults := payload;
      loading := false;
      error := None;
    }

    /** `setAdminData`: store the admin list; loading is over, no error. */
    method SetAdminData(payload: seq<Item>)
      modifies this
      ensures adminData == payload && !loading && error == None
      ensures searchResults == old(searchResults) && searchQuery == old(searchQuery)
    {
      adminData := payload;
      loading := false;
      error := None;
    }

    /** `setSearchQuery`: only the query changes. */
    method SetSearchQuery(payload: Query)
      modifies this
      ensures searchQuery == payload
      ensures searchResults == old(searchResults) && adminData == old(adminData)
      ensures loading == old(loading) && error == old(error)
    {
      searchQuery := payload;
    }

    /** `setLoading`: only the flag changes. */
    method SetLoading(payload: bool)
      modifies this
      ensures loading == payload
      ensures searchResults == old(searchResults) && adminData == old(adminData)
      ensures error == old(error) && searchQuery == old(searchQuery)
    {
      loading := payload;
    }

    /** `setError`: record the error; loading is over. */
    method SetError(payload: Option<string>)
      modifies this
      ensures error == payload && !loading
      ensures searchResults == old(searchResults) && adminData == old(adminData)
      ensures searchQuery == old(searchQuery)
    {
      error := payload;
      loading := false;
    }

    /** `clearError`: only the error changes. */
    method ClearError()
      modifies this
      ensures error == None
      ensures searchResults == old(searchResults) && adminData == old(adminData)
      ensures loading == old(loading) && searchQuery == old(searchQuery)
    {
      error := None;
    }

    /** `addAdminItem`: push the item at the end of the admin list. */
    method AddAdminItem(payload: Item)
      modifies this
      ensures adminData == old(adminData) + [payload]
      ensures |adminData| == |old(adminData)| + 1
      ensures adminData[..|old(adminData)|] == old(adminData)
      ensures searchResults == old(searchResults) && loading == old(loading)
      ensures error == old(error) && searchQuery == old(searchQuery)
    {
      adminData := adminData + [payload];
    }

    /** `updateAdminItem`: find the first item with the payload's id and
        overwrite it; when there is none the list is left as it was. */
    method UpdateAdminItem(payload: Item)
      modifies this
      ensures adminData == ReplaceFirstById(old(adminData), payload)
      ensures |adminData| == |old(adminData)|
      ensures NoneWithId(old(adminData), payload.id) ==> adminData == old(adminData)
      ensures searchResults == old(searchResults) && loading == old(loading)
      ensures error == old(error) && searchQuery == old(searchQuery)
    {
      var index := FindIndexById(adminData, payload.id);
      if index != -1 {
        ReplaceFirstAt(adminData, payload, index);
        adminData := adminData[index := payload];
      } else {
        ReplaceFirstNoMatch(adminData, payload);
      }
    }

    /** `deleteAdminItem`: keep only the items whose id differs. */
    method DeleteAdminItem(payload: ItemId)
      modifies this
      ensures adminData == WithoutId(old(adminData), payload)
      ensures NoneWithId(adminData, payload)
      ensures searchResults == old(searchResults) && loading == old(loading)
      ensures error == old(error) && searchQuery == old(searchQuery)
    {
      WithoutIdContents(adminData, payload);
      adminData := WithoutId(adminData, payload);
    }
  }
}
