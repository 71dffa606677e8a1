/** The admin session flags kept in `localStorage`: a flag `admin_auth` that must read
  * exactly "true", and the admin's bearer token `admin_token`. */
module AdminAuth {

  import opened Base
  import opened Js
  import opened Storage

  const AdminAuthKey := "admin_auth"
  const AdminTokenKey := "admin_token"
  const AuthFlag := "true"

  /** Whether the stored entries mark an admin session: the flag is present and is exactly
    * "true" (a strict comparison, so "TRUE" or "1" do not count). */
  predicate Authenticated(items: map<string, string>) {
    AdminAuthKey in items && items[AdminAuthKey] == AuthFlag
  }

  /** Whether two stores agree on every key but the two admin keys. */
  ghost predicate SameOtherKeys(a: map<string, string>, b: map<string, string>) {
    forall k :: k != AdminAuthKey && k != AdminTokenKey ==>
      (k in a <==> k in b) && (k in a ==> a[k] == b[k])
  }

  /** The entries after `setAdminAuth(token)`. The token is stored as its string form, and
    * only when it is truthy; a falsy token keeps whatever token was stored before. */
  function AfterSetAuth(items: map<string, string>, token: JsValue): (r: map<string, string>)
    ensures Authenticated(r)
    ensures Truthy(token) ==> AdminTokenKey in r && r[AdminTokenKey] == ToStr(token)
    ensures !Truthy(token) ==>
      (AdminTokenKey in r <==> AdminTokenKey in items) &&
      (AdminTokenKey in items ==> r[AdminTokenKey] == items[AdminTokenKey])
    ensures SameOtherKeys(items, r)
  {
    var flagged := items[AdminAuthKey := AuthFlag];
    if Truthy(token) then flagged[AdminTokenKey := ToStr(token)] else flagged
  }

  /** The entries after `clearAdminAuth()`: no session flag and no token. */
  function AfterClearAuth(items: map<string, string>): (r: map<string, string>)
    ensures !Authenticated(r) && AdminTokenKey !in r
    ensures SameOtherKeys(items, r)
  {
    items - {AdminAuthKey, AdminTokenKey}
  }

  /** Logging out after logging in leaves the store as logging out alone would. */
  lemma ClearUndoesSet(items: map<string, string>, token: JsValue)
    ensures AfterClearAuth(AfterSetAuth(items, token)) == AfterClearAuth(items)
  {
    var a, b := AfterClearAuth(AfterSetAuth(items, token)), AfterClearAuth(items);
    assert a.Keys == b.Keys;
  }

  /** Setting the session twice with the same token is the same as setting it once. */
  lemma SetAuthIdempotent(items: map<string, string>, token: JsValue)
    ensures AfterSetAuth(AfterSetAuth(items, token), token) == AfterSetAuth(items, token)
  {
    var a, b := AfterSetAuth(AfterSetAuth(items, token), token), AfterSetAuth(items, token);
    assert a.Keys == b.Keys;
  }

  /** `isAdminAuthenticated()`. */
  function IsAdminAuthenticated(store: Store<string>): (r: bool)
    reads store
    ensures r <==> store.GetItem(AdminAuthKey) == Some(AuthFlag)
  {
    Authenticated(store.items)
  }

  /** `getAdminToken()`: the stored token, or `null` when there is none. */
  function GetAdminToken(store: Store<string>): (r: Option<string>)
    reads store
    ensures r.Some? <==> AdminTokenKey in store.items
    ensures r.Some? ==> r.value == store.items[AdminTokenKey]
  {
    store.GetItem(AdminTokenKey)
  }

  /** `setAdminAuth(token)`. */
  method SetAdminAuth(store: Store<string>, token: JsValue)
    modifies store
    ensures store.items == AfterSetAuth(old(store.items), token)
    ensures IsAdminAuthenticated(store)
    ensures !Truthy(token) ==> GetAdminToken(store) == old(GetAdminToken(store))
  {
    store.SetItem(AdminAuthKey, AuthFlag);
    if Truthy(token) {
      store.SetItem(AdminTokenKey, ToStr(token));
    }
  }

  /** `clearAdminAuth()`. */
  method ClearAdminAuth(store: Store<string>)
    modifies store
    ensures store.items == AfterClearAuth(old(store.items))
    ensures !IsAdminAuthenticated(store) && GetAdminToken(store) == None
  {
    store.RemoveItem(AdminAuthKey);
    store.RemoveItem(AdminTokenKey);
    assert store.items == old(store.items) - {AdminAuthKey} - {AdminTokenKey};
  }
}
