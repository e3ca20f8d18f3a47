/**
 * The client-side state the authentication code reads and writes: the browser's
 * `localStorage` (string keys to string values) and the axios instance's default
 * `Authorization` header.
 */
module Storage {
  import opened Wrappers

  datatype Store = Store(local: map<string, string>, defaultAuth: Option<string>)

  const TokenKey: string := "token"
  const RefreshKey: string := "refreshToken"
  const ProfileKey: string := "profile"

  /** `localStorage.getItem(key)`; `None` is `null`. */
  function GetItem(st: Store, key: string): Option<string> {
    if key in st.local then Some(st.local[key]) else None
  }

  /** `!!localStorage.getItem(key)`: the key is stored with a non-empty value. */
  predicate Has(st: Store, key: string) {
    key in st.local && st.local[key] != ""
  }

  function SetItem(st: Store, key: string, value: string): (r: Store)
    ensures GetItem(r, key) == Some(value)
    ensures forall k :: k != key ==> GetItem(r, k) == GetItem(st, k)
    ensures r.defaultAuth == st.defaultAuth
  {
    st.(local := st.local[key := value])
  }

  function RemoveItem(st: Store, key: string): (r: Store)
    ensures GetItem(r, key) == None
    ensures forall k :: k != key ==> GetItem(r, k) == GetItem(st, k)
    ensures r.defaultAuth == st.defaultAuth
  {
    st.(local := st.local - {key})
  }

  /** The stored items agree on every key outside `keys`. */
  ghost predicate SameExcept(a: Store, b: Store, keys: set<string>) {
    forall k :: k !in keys ==> GetItem(a, k) == GetItem(b, k)
  }

  function Bearer(token: string): string {
    "Bearer " + token
  }
}
