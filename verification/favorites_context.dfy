/** The favourites provider of the web client: an in-memory list of movie
    ids, mirrored into a per-user cache entry of the browser store, updated
    optimistically and rolled back when the server rejects a change.
    Every remote call is an input (`Outcome` for add/remove, `Attempt` for the
    list fetch), so each operation is one atomic state transition. */
module FavoritesContext {
  import opened Common
  import opened Lists
  import opened Storage

  const CachePrefix: string := "favorites_"

  /** The provider's React state. */
  datatype Provider = Provider(favorites: seq<int>, isLoading: bool)

  const Initial: Provider := Provider([], false)

  /** `getCacheKey`: no key without a signed-in user, otherwise the user id
      behind the fixed prefix. */
  function CacheKey(userId: Option<string>): (r: Option<string>)
    ensures r.None? <==> !Truthy(userId)
    ensures r.Some? ==> StartsWith(r.value, CachePrefix)
    ensures r.Some? ==> r.value[|CachePrefix|..] == userId.value
  {
    if !Truthy(userId) then None else Some(CachePrefix + userId.value)
  }

  /** Two users never share a cache entry. */
  lemma CacheKeyInjective(u1: Option<string>, u2: Option<string>)
    requires CacheKey(u1).Some? && CacheKey(u1) == CacheKey(u2)
    ensures u1 == u2
  {
    assert u1.value == CacheKey(u1).value[|CachePrefix|..];
  }

  /** The result of `addToFavorites`/`removeFromFavorites`: the list shown
      while the request is pending, the state and store once it settled,
      whether the server was asked at all, and what the caller sees. */
  datatype Mutation = Mutation(
    optimistic: seq<int>,
    after: Provider,
    store: Store,
    remoteCalled: bool,
    outcome: Outcome)

  /** Shared shape of add and remove: show `next` at once, ask the server,
      then write `next` to the cache on success or restore the captured list
      and rethrow on failure. */
  function Optimistic(p: Provider, store: Store, userId: Option<string>, next: seq<int>, remote: Outcome): (r: Mutation)
    ensures !Truthy(userId) ==> r == Mutation(p.favorites, p, store, false, Ok)
    ensures Truthy(userId) ==> r.optimistic == next && r.remoteCalled && r.outcome == remote
    ensures r.after.isLoading == p.isLoading
    ensures remote.Err? ==> r.after == p && r.store == store
    ensures Truthy(userId) && remote.Ok? ==> r.after.favorites == next
    ensures Truthy(userId) && remote.Ok? ==>
      r.store.Keys == store.Keys + {CacheKey(userId).value}
      && DecodeIds(r.store[CacheKey(userId).value]) == Some(next)
    ensures Truthy(userId) && remote.Ok? ==>
      r.after == p.(favorites := next) && r.store == store[CacheKey(userId).value := IdsDoc(next)]
    ensures forall k :: k in store && Some(k) != CacheKey(userId) ==> k in r.store && r.store[k] == store[k]
  {
    match CacheKey(userId)
    case None => Mutation(p.favorites, p, store, false, Ok)
    case Some(key) =>
      match remote
      case Ok =>
        IdsRoundTrip(next);
        Mutation(next, p.(favorites := next), store[key := IdsDoc(next)], true, Ok)
      case Err(e) =>
        Mutation(next, p, store, true, Err(e))
  }

  /** `addToFavorites`: the id is appended, duplicates included. */
  function AddToFavorites(p: Provider, store: Store, userId: Option<string>, movieId: int, remote: Outcome): (r: Mutation)
    ensures !Truthy(userId) ==> r == Mutation(p.favorites, p, store, false, Ok)
    ensures Truthy(userId) ==> r.optimistic == p.favorites + [movieId] && r.remoteCalled && r.outcome == remote
    ensures Truthy(userId) && remote.Ok? ==> movieId in r.after.favorites
    ensures Truthy(userId) && remote.Ok? ==>
      r.after == p.(favorites := p.favorites + [movieId])
      && r.store == store[CacheKey(userId).value := IdsDoc(p.favorites + [movieId])]
    ensures remote.Err? ==> (movieId in r.after.favorites <==> movieId in p.favorites)
    ensures remote.Err? ==> r.after == p && r.store == store
  {
    Optimistic(p, store, userId, p.favorites + [movieId], remote)
  }

  /** `removeFromFavorites`: every copy of the id is filtered out. */
  function RemoveFromFavorites(p: Provider, store: Store, userId: Option<string>, movieId: int, remote: Outcome): (r: Mutation)
    ensures !Truthy(userId) ==> r == Mutation(p.favorites, p, store, false, Ok)
    ensures Truthy(userId) ==> r.optimistic == RemoveAll(p.favorites, movieId) && r.remoteCalled && r.outcome == remote
    ensures Truthy(userId) && remote.Ok? ==> movieId !in r.after.favorites
    ensures Truthy(userId) && remote.Ok? ==>
      r.after == p.(favorites := RemoveAll(p.favorites, movieId))
      && r.store == store[CacheKey(userId).value := IdsDoc(RemoveAll(p.favorites, movieId))]
    ensures remote.Err? ==> r.after == p && r.store == store
  {
    Optimistic(p, store, userId, RemoveAll(p.favorites, movieId), remote)
  }

  /** `isFavorite`: membership in the in-memory list. */
  function IsFavorite(p: Provider, movieId: int): (r: bool)
    ensures r <==> exists i :: 0 <= i < |p.favorites| && p.favorites[i] == movieId
  {
    movieId in p.favorites
  }

  /** The instant-UI step of `loadFavorites`: a present cache entry that
      parses replaces the list, one that does not parse is deleted. */
  function ReadCache(favorites: seq<int>, store: Store, key: string): (r: (seq<int>, Store))
    ensures !Present(store, key) ==> r == (favorites, store)
    ensures Present(store, key) && DecodeIds(store[key]).Some? ==>
      r == (DecodeIds(store[key]).value, store)
    ensures Present(store, key) && DecodeIds(store[key]).None? ==>
      r.0 == favorites && r.1.Keys == store.Keys - {key}
    ensures forall k :: k in r.1 ==> k in store && r.1[k] == store[k]
  {
    if !Present(store, key) then (favorites, store)
    else match DecodeIds(store[key])
      case Some(ids) => (ids, store)
      case None => (favorites, store - {key})
  }

  /** The outcome of `loadFavorites`. */
  datatype Loaded = Loaded(after: Provider, store: Store, fetched: bool)

  /** `loadFavorites` / `refreshFavorites`. */
  function LoadFavorites(p: Provider, store: Store, userId: Option<string>, fetch: Attempt<seq<int>>): (r: Loaded)
    ensures !Truthy(userId) ==> r == Loaded(p, store, false)
    ensures Truthy(userId) ==> r.fetched && !r.after.isLoading
    ensures Truthy(userId) && fetch.Done? ==>
      r.after.favorites == fetch.value
      && CacheKey(userId).value in r.store
      && DecodeIds(r.store[CacheKey(userId).value]) == Some(fetch.value)
    ensures Truthy(userId) && fetch.Threw? ==>
      r.after.favorites == ReadCache(p.favorites, store, CacheKey(userId).value).0
      && r.store == ReadCache(p.favorites, store, CacheKey(userId).value).1
    ensures forall k :: Some(k) != CacheKey(userId) ==>
      (k in r.store <==> k in store) && (k in r.store ==> r.store[k] == store[k])
  {
    match CacheKey(userId)
    case None => Loaded(p, store, false)
    case Some(key) =>
      var (shown, store1) := ReadCache(p.favorites, store, key);
      match fetch
      case Done(latest) =>
        IdsRoundTrip(latest);
        Loaded(Provider(latest, false), store1[key := IdsDoc(latest)], true)
      case Threw(_) =>
        // `prev.length > 0 ? prev : []` keeps whatever is shown
        var kept := if |shown| > 0 then shown else [];
        Loaded(Provider(kept, false), store1, true)
  }

  /** The effect that runs when the signed-in user changes: load for a user,
      otherwise empty the list and purge every cached favourites entry. */
  function OnUserChange(p: Provider, store: Store, userId: Option<string>, fetch: Attempt<seq<int>>): (r: Loaded)
    ensures Truthy(userId) ==> r == LoadFavorites(p, store, userId, fetch)
    ensures !Truthy(userId) ==> r.after == p.(favorites := []) && !r.fetched
    ensures !Truthy(userId) ==> forall k :: k in r.store <==> k in store && !StartsWith(k, CachePrefix)
    ensures !Truthy(userId) ==> forall k :: k in r.store ==> r.store[k] == store[k]
  {
    if Truthy(userId) then LoadFavorites(p, store, userId, fetch)
    else Loaded(p.(favorites := []), RemovePrefixed(store, CachePrefix), false)
  }

  /** The cache entry of the user holds exactly the in-memory list. */
  ghost predicate Coherent(p: Provider, store: Store, userId: Option<string>) {
    CacheKey(userId).Some?
    && CacheKey(userId).value in store
    && DecodeIds(store[CacheKey(userId).value]) == Some(p.favorites)
  }

  /** A successful load makes cache and list agree, and every later add or
      remove keeps them agreeing, whether the server accepts or rejects it. */
  lemma LoadEstablishesCoherence(p: Provider, store: Store, userId: Option<string>, latest: seq<int>)
    requires Truthy(userId)
    ensures var r := LoadFavorites(p, store, userId, Done(latest)); Coherent(r.after, r.store, userId)
  {
  }

  lemma AddPreservesCoherence(p: Provider, store: Store, userId: Option<string>, movieId: int, remote: Outcome)
    requires Coherent(p, store, userId)
    ensures var r := AddToFavorites(p, store, userId, movieId, remote); Coherent(r.after, r.store, userId)
  {
  }

  lemma RemovePreservesCoherence(p: Provider, store: Store, userId: Option<string>, movieId: int, remote: Outcome)
    requires Coherent(p, store, userId)
    ensures var r := RemoveFromFavorites(p, store, userId, movieId, remote); Coherent(r.after, r.store, userId)
  {
  }

  /** After logout no user's cache entry survives. */
  lemma LogoutForgetsEveryUser(p: Provider, store: Store, fetch: Attempt<seq<int>>, other: Option<string>)
    requires Truthy(other)
    ensures CacheKey(other).value !in OnUserChange(p, store, None, fetch).store
  {
  }

  /** Adding an id the server then accepts and removing it again, both
      accepted, restores the list and leaves the cache holding it. */
  lemma AddThenRemoveRestores(p: Provider, store: Store, userId: Option<string>, movieId: int)
    requires Truthy(userId) && movieId !in p.favorites
    ensures var a := AddToFavorites(p, store, userId, movieId, Ok);
            var r := RemoveFromFavorites(a.after, a.store, userId, movieId, Ok);
            r.after == p && DecodeIds(r.store[CacheKey(userId).value]) == Some(p.favorites)
  {
    RemoveAllAfterAppend(p.favorites, movieId);
  }

  /** The provider does not deduplicate: two accepted adds of a new id leave
      two copies in the list and in the cache (the server, by contrast,
      stores the id once). */
  lemma AddTwiceKeepsTwoCopies(p: Provider, store: Store, userId: Option<string>, movieId: int)
    requires Truthy(userId) && movieId !in p.favorites
    ensures var a := AddToFavorites(p, store, userId, movieId, Ok);
            var b := AddToFavorites(a.after, a.store, userId, movieId, Ok);
            multiset(b.after.favorites)[movieId] == 2
  {
    var a := AddToFavorites(p, store, userId, movieId, Ok);
    assert a.after.favorites == p.favorites + [movieId];
    assert multiset(p.favorites)[movieId] == 0;
  }

  /** The end-to-end run: load `[10, 20]` for `u1` from an empty cache, remove
      10 (accepted), add 99 (rejected). */
  lemma EndToEndScenario()
    ensures
      var u := Some("u1");
      var key := CachePrefix + "u1";
      var l := LoadFavorites(Initial, map[], u, Done([10, 20]));
      var r := RemoveFromFavorites(l.after, l.store, u, 10, Ok);
      var a := AddToFavorites(r.after, r.store, u, 99, Err("rejected"));
      && l.after.favorites == [10, 20] && DecodeIds(l.store[key]) == Some([10, 20])
      && r.after.favorites == [20] && DecodeIds(r.store[key]) == Some([20])
      && a.optimistic == [20, 99]
      && a.after.favorites == [20] && a.store == r.store && a.outcome == Err("rejected")
  {
    var u := Some("u1");
    var l := LoadFavorites(Initial, map[], u, Done([10, 20]));
    assert RemoveAll([10, 20], 10) == [20];
  }
}
