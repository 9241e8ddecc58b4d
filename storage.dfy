/** The browser's `localStorage` as the pages use it: a map from keys to
    values, written by the two login pages, cleared in part by logout, and
    read by the route guard. */
module Storage {
  import opened Wrappers

  /** A stored value. The route guard compares plain strings; the two records
      the logins store (as JSON text) are kept as their fields. */
  datatype StoredValue =
    | Text(s: string)
    | CustomerUser(name: string, email: string)
    | AdminUser(name: string, role: string)

  type Store = map<string, StoredValue>

  /** The keys the pages read and write. */
  const CustomerFlagKey: string := "isAuthenticated"
  const CustomerUserKey: string := "user"
  const AdminFlagKey: string := "isAdminAuthenticated"
  const AdminUserKey: string := "adminUser"

  /** The store after `localStorage.setItem(key, value)`. */
  function WithItem(store: Store, key: string, value: StoredValue): (r: Store)
    ensures key in r && r[key] == value
    ensures forall k :: k != key ==> (k in r <==> k in store)
    ensures forall k :: k != key && k in store ==> r[k] == store[k]
  {
    store[key := value]
  }

  /** The store after `localStorage.removeItem(key)`; removing an absent key is
      allowed. */
  function WithoutItem(store: Store, key: string): (r: Store)
    ensures key !in r
    ensures forall k :: k != key ==> (k in r <==> k in store)
    ensures forall k :: k != key && k in store ==> r[k] == store[k]
  {
    store - {key}
  }

  /** `localStorage.getItem(key)`: null for an absent key. */
  function GetItem(store: Store, key: string): (r: Option<StoredValue>)
    ensures r.Some? <==> key in store
    ensures r.Some? ==> r.value == store[key]
  {
    if key in store then Some(store[key]) else None
  }

  /** Two stores that agree on `key`. */
  predicate AgreeOn(s: Store, t: Store, key: string) {
    GetItem(s, key) == GetItem(t, key)
  }

  /** The browser's store, one object shared by every page. */
  class LocalStorage {
    var items: Store

    constructor (items: Store)
      ensures this.items == items
    {
      this.items := items;
    }

    method SetItem(key: string, value: StoredValue)
      modifies this
      ensures items == WithItem(old(items), key, value)
    {
      items := items[key := value];
    }

    method RemoveItem(key: string)
      modifies this
      ensures items == WithoutItem(old(items), key)
    {
      items := items - {key};
    }
  }
}
