/**
 * The credential store of `src/config.ts`: two module-level token variables
 * (`ACCESS_TOKEN`, `REFRESH_TOKEN`) mirrored into the browser's durable
 * key/value storage, with lazy hydration on read. Each exported function is a
 * transition on an explicit `Store` value.
 */
module Config {

  /** The token pair returned by sign-in, sign-up and refresh. */
  datatype AuthTokens = AuthTokens(accessToken: string, refreshToken: string)

  /** The body of a sign-in or sign-up request. */
  datatype Credentials = Credentials(email: string, password: string)

  /** The body of a successful `/users/me` reply; `createdAt` is epoch milliseconds. */
  datatype UserDetails = UserDetails(id: string, email: string, createdAt: int)

  /**
   * The in-memory token slots (`""` is the empty, falsy slot) and the durable
   * storage they are mirrored into.
   */
  datatype Store = Store(memAccess: string, memRefresh: string, storage: map<string, string>)

  /** The value a getter returns, together with the store after the call. */
  datatype Read<T> = Read(value: T, store: Store)

  const AccessKey: string := "access_token"
  const RefreshKey: string := "refresh_token"

  /** `storage.getItem(key) || ''`: the stored string, or `""` when the key is absent. */
  function Persisted(storage: map<string, string>, key: string): string {
    if key in storage then storage[key] else ""
  }

  /** The store right after a page load: both memory slots empty, storage as left by earlier sessions. */
  function Loaded(storage: map<string, string>): Store {
    Store("", "", storage)
  }

  /**
   * Memory never disagrees with storage: a non-empty memory slot holds what
   * storage holds under its key.
   */
  predicate Coherent(s: Store) {
    && (s.memAccess == "" || Persisted(s.storage, AccessKey) == s.memAccess)
    && (s.memRefresh == "" || Persisted(s.storage, RefreshKey) == s.memRefresh)
  }

  /** `setTokens`: both slots and both storage keys take the given tokens; every other key is untouched. */
  function SetTokens(s: Store, t: AuthTokens): (r: Store)
    ensures r.storage.Keys == s.storage.Keys + {AccessKey, RefreshKey}
    ensures r.storage[AccessKey] == t.accessToken && r.storage[RefreshKey] == t.refreshToken
    ensures forall k | k in s.storage && k != AccessKey && k != RefreshKey :: r.storage[k] == s.storage[k]
    ensures Coherent(r)
    ensures GetAccessToken(r).value == t.accessToken && GetRefreshToken(r).value == t.refreshToken
    ensures GetAccessToken(Loaded(r.storage)).value == t.accessToken
    ensures GetRefreshToken(Loaded(r.storage)).value == t.refreshToken
  {
    Store(t.accessToken, t.refreshToken, s.storage[AccessKey := t.accessToken][RefreshKey := t.refreshToken])
  }

  /** The shared body of the two getters: memory when non-empty, otherwise storage. */
  function Hydrated(mem: string, storage: map<string, string>, key: string): string {
    if mem != "" then mem else Persisted(storage, key)
  }

  /**
   * `getAccessToken`: hydrates the access slot from storage only when it is
   * empty, and touches nothing else.
   */
  function GetAccessToken(s: Store): (r: Read<string>)
    ensures r.store.memAccess == r.value
    ensures r.store.memRefresh == s.memRefresh && r.store.storage == s.storage
    ensures s.memAccess != "" ==> r.store == s
    ensures s.memAccess == "" ==> r.value == Persisted(s.storage, AccessKey)
    ensures s.memAccess == "" && AccessKey !in s.storage ==> r.value == ""
    ensures Coherent(s) ==> r.value == Persisted(s.storage, AccessKey) && Coherent(r.store)
  {
    var v := Hydrated(s.memAccess, s.storage, AccessKey);
    Read(v, s.(memAccess := v))
  }

  /** `getRefreshToken`: the same lazy hydration for the refresh slot. */
  function GetRefreshToken(s: Store): (r: Read<string>)
    ensures r.store.memRefresh == r.value
    ensures r.store.memAccess == s.memAccess && r.store.storage == s.storage
    ensures s.memRefresh != "" ==> r.store == s
    ensures s.memRefresh == "" ==> r.value == Persisted(s.storage, RefreshKey)
    ensures s.memRefresh == "" && RefreshKey !in s.storage ==> r.value == ""
    ensures Coherent(s) ==> r.value == Persisted(s.storage, RefreshKey) && Coherent(r.store)
  {
    var v := Hydrated(s.memRefresh, s.storage, RefreshKey);
    Read(v, s.(memRefresh := v))
  }

  /** `clearTokens`: both slots emptied, both keys removed, every other key untouched. */
  function ClearTokens(s: Store): (r: Store)
    ensures r.memAccess == "" && r.memRefresh == ""
    ensures r.storage.Keys == s.storage.Keys - {AccessKey, RefreshKey}
    ensures forall k | k in r.storage :: r.storage[k] == s.storage[k]
    ensures Coherent(r)
    ensures GetAccessToken(r).value == "" && GetRefreshToken(r).value == ""
    ensures !IsAuthenticated(r).value && !IsAuthenticated(Loaded(r.storage)).value
  {
    Store("", "", s.storage - {AccessKey, RefreshKey})
  }

  /**
   * `isAuthenticated`: whether the access getter yields a non-empty token;
   * it hydrates the access slot as the getter does.
   */
  function IsAuthenticated(s: Store): (r: Read<bool>)
    ensures r.value <==> GetAccessToken(s).value != ""
    ensures r.store == GetAccessToken(s).store
    ensures Coherent(s) ==> (r.value <==> AccessKey in s.storage && s.storage[AccessKey] != "")
  {
    var a := GetAccessToken(s);
    Read(a.value != "", a.store)
  }

  /**
   * A second read returns the same value and leaves the store as the first
   * read left it, for either getter and in either order.
   */
  lemma GettersIdempotent(s: Store)
    ensures GetAccessToken(GetAccessToken(s).store) == GetAccessToken(s)
    ensures GetRefreshToken(GetRefreshToken(s).store) == GetRefreshToken(s)
    ensures GetAccessToken(GetRefreshToken(s).store).value == GetAccessToken(s).value
    ensures GetRefreshToken(GetAccessToken(s).store).value == GetRefreshToken(s).value
  {
  }
}
