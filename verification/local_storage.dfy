/**
 * The result store (src/services/localStorageService.js) over the `store`
 * package's in-memory backend. That backend keeps values as JSON text, so
 * a stored page comes back as a plain object and a stored exception (which
 * has no enumerable fields) comes back as `{}`.
 */
module LocalStorage {
  import opened Wrappers
  import opened Pages

  /** A stored value as read back: a page object, or the empty object `{}`. */
  datatype Stored = StoredPage(page: PageObject) | StoredEmpty

  /** One `{ key, value }` element of `getAll`. */
  datatype Item = Item(key: string, value: PageObject)

  /** `getAll` lists a pair when the key is truthy and the value is a non-empty object stored under it. */
  predicate Listed(data: map<string, Stored>, it: Item) {
    it.key != "" && it.key in data && data[it.key] == StoredPage(it.value)
  }

  /** Every entry passes the `getAll` filter. */
  predicate AllListable(data: map<string, Stored>) {
    forall k :: k in data ==> k != "" && data[k].StoredPage?
  }

  class LocalStore {
    var data: map<string, Stored>

    constructor ()
      ensures data == map[]
    {
      data := map[];
    }

    /** `addItem`: the key now maps to the value; every other key keeps its value. */
    method AddItem(key: string, value: Stored)
      modifies this
      ensures data == old(data)[key := value]
      ensures key in data && data[key] == value
      ensures forall k :: k != key ==> (k in data <==> k in old(data)) && (k in data ==> data[k] == old(data)[k])
    {
      data := data[key := value];
    }

    /** `getItem`: the value stored under the key, or `undefined` (`None`) when there is none. */
    function GetItem(key: string): (r: Option<Stored>)
      reads this
      ensures r.Some? <==> key in data
      ensures r.Some? ==> r.value == data[key]
    {
      if key in data then Some(data[key]) else None
    }

    /**
     * `getAll`: one `{ key, value }` per stored key that is non-empty and whose value
     * is not `{}`, each key once, in the store's iteration order (left open here).
     */
    method GetAll() returns (items: seq<Item>)
      ensures forall it :: it in items <==> Listed(data, it)
      ensures forall i, j :: 0 <= i < j < |items| ==> items[i].key != items[j].key
      ensures AllListable(data) ==> |items| == |data|
    {
      items := [];
      var remaining := data.Keys;
      while remaining != {}
        invariant remaining <= data.Keys
        invariant forall it :: it in items <==> it.key !in remaining && Listed(data, it)
        invariant forall i, j :: 0 <= i < j < |items| ==> items[i].key != items[j].key
        invariant AllListable(data) ==> |items| + |remaining| == |data|
        decreases remaining
      {
        var key :| key in remaining;
        var value := data[key];
        if key != "" && value.StoredPage? {
          items := items + [Item(key, value.page)];
        }
        remaining := remaining - {key};
      }
    }
  }
}
