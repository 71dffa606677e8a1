/** The browser's `localStorage`, modelled as a key/value map owned by one object.
  * Each family of keys is stored as the value its readers decode it to: the admin keys
  * as plain strings, the ticket and wishlist keys as what `JSON.parse` makes of them. */
module Storage {

  import opened Base

  /** What `JSON.parse` makes of a stored string. `Blank` is the empty string, which the
    * pages treat as absent (it is falsy); `OtherJson` is valid JSON that is not an array
    * (`null`, a number, an object); `Unparseable` makes `JSON.parse` throw. */
  datatype Stored<T> = Blank | ArrayOf(items: seq<T>) | OtherJson | Unparseable

  class Store<V> {
    var items: map<string, V>

    constructor (initial: map<string, V>)
      ensures items == initial
    {
      items := initial;
    }

    /** `getItem(key)`: the value, or `null` when the key is absent. */
    function GetItem(key: string): (r: Option<V>)
      reads this
      ensures r.Some? <==> key in items
      ensures r.Some? ==> r.value == items[key]
    {
      if key in items then Some(items[key]) else None
    }

    /** `setItem(key, value)`: the key now holds `value`; no other key changes. */
    method SetItem(key: string, value: V)
      modifies this
      ensures items == old(items)[key := value]
    {
      items := items[key := value];
    }

    /** `removeItem(key)`: the key is gone; no other key changes. */
    method RemoveItem(key: string)
      modifies this
      ensures items == old(items) - {key}
    {
      items := items - {key};
    }
  }
}
