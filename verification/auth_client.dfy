/** The client's record of the signed-in user in browser storage: the token,
    the user document and the favourite ids, under fixed keys. */
module AuthClient {
  import opened Common
  import opened Domain
  import opened Storage

  const TokenKey: string := "movie-explorer-token"
  const UserKey: string := "movie-explorer-user"

  /** `clearStoredUser`: the four keys of the application go, every other key
      stays as it was. */
  function ClearStoredUser(store: Store): (r: Store)
    ensures r.Keys == store.Keys - {TokenKey, UserKey, FavoriteIdsKey, FavoriteMoviesKey}
    ensures forall k :: k in r ==> r[k] == store[k]
  {
    store - {TokenKey, UserKey, FavoriteIdsKey, FavoriteMoviesKey}
  }

  /** `JSON.parse(userData)` read as a user. */
  function DecodeUser(slot: Slot): (r: Option<User>)
    ensures r.Some? <==> slot == Doc(UserObj(r.GetOr(User("", "", "", []))))
  {
    match Parse(slot)
    case Some(UserObj(u)) => Some(u)
    case _ => None
  }

  /** `favoriteMovies ? JSON.parse(favoriteMovies) : []` read as ids. */
  function DecodeFavorites(store: Store): (r: Option<seq<int>>)
    ensures !Present(store, FavoriteIdsKey) ==> r == Some([])
    ensures Present(store, FavoriteIdsKey) ==> r == DecodeIds(store[FavoriteIdsKey])
  {
    if Present(store, FavoriteIdsKey) then DecodeIds(store[FavoriteIdsKey]) else Some([])
  }

  /** What `getStoredUser` returns and the store it leaves. */
  datatype Read = Read(user: Option<User>, store: Store)

  /** `getStoredUser`: nothing without both a token and a user entry; the
      stored user with its favourites taken from the favourites key; and on
      a parse failure the stored session is cleared. */
  function GetStoredUser(store: Store): (r: Read)
    ensures !Present(store, TokenKey) || !Present(store, UserKey) ==> r == Read(None, store)
    ensures r.user.Some? ==> r.store == store
    ensures r.user.Some? ==> Present(store, TokenKey) && Present(store, UserKey)
    ensures r.user.Some? ==> DecodeUser(store[UserKey]).Some? && DecodeFavorites(store).Some?
    ensures r.user.Some? ==>
      r.user.value == DecodeUser(store[UserKey]).value.(favorites := DecodeFavorites(store).value)
    ensures Present(store, TokenKey) && Present(store, UserKey) ==>
      (r.user.Some? <==> DecodeUser(store[UserKey]).Some? && DecodeFavorites(store).Some?)
    ensures Present(store, TokenKey) && Present(store, UserKey) && r.user.None? ==>
      r.store == ClearStoredUser(store)
  {
    if !Present(store, TokenKey) || !Present(store, UserKey) then Read(None, store)
    else match (DecodeUser(store[UserKey]), DecodeFavorites(store))
      case (Some(u), Some(favorites)) => Read(Some(u.(favorites := favorites)), store)
      case _ => Read(None, ClearStoredUser(store))
  }

  /** `storeUser`: the token verbatim, the user as JSON, its favourites as a
      JSON array; nothing else is written. */
  function StoreUser(store: Store, user: User, token: string): (r: Store)
    ensures r.Keys == store.Keys + {TokenKey, UserKey, FavoriteIdsKey}
    ensures forall k :: k in store && k !in {TokenKey, UserKey, FavoriteIdsKey} ==> r[k] == store[k]
    ensures r[TokenKey] == Text(token)
    ensures DecodeUser(r[UserKey]) == Some(user)
    ensures DecodeIds(r[FavoriteIdsKey]) == Some(user.favorites)
  {
    IdsRoundTrip(user.favorites);
    store[TokenKey := Text(token)][UserKey := Doc(UserObj(user))][FavoriteIdsKey := IdsDoc(user.favorites)]
  }

  /** `getStoredToken`: the token entry as stored. */
  function GetStoredToken(store: Store): (r: Option<Slot>)
    ensures r.Some? <==> TokenKey in store
    ensures r.Some? ==> r.value == store[TokenKey]
  {
    if TokenKey in store then Some(store[TokenKey]) else None
  }

  /** Storing a user with a non-empty token and reading it back yields the
      same user and token, and the read changes nothing. */
  lemma StoreThenRead(store: Store, user: User, token: string)
    requires token != ""
    ensures var s := StoreUser(store, user, token);
            GetStoredUser(s) == Read(Some(user), s) && GetStoredToken(s) == Some(Text(token))
  {
    var s := StoreUser(store, user, token);
    assert Present(s, TokenKey) && Present(s, UserKey) && Present(s, FavoriteIdsKey);
    assert user.(favorites := user.favorites) == user;
  }

  /** An empty token is falsy: the user stored with it is not read back. */
  lemma EmptyTokenIsNotASession(store: Store, user: User)
    ensures GetStoredUser(StoreUser(store, user, "")).user == None
  {
  }

  /** After clearing there is no stored session, and reading does not write. */
  lemma ClearThenRead(store: Store)
    ensures GetStoredUser(ClearStoredUser(store)) == Read(None, ClearStoredUser(store))
    ensures GetStoredToken(ClearStoredUser(store)) == None
  {
  }
}
