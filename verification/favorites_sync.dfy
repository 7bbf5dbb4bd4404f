/** The client's calls to the favourites endpoints, and how the provider's
    list and the server's list relate once a change has settled. */
module FavoritesSync {
  import opened Common
  import opened Lists
  import opened Storage
  import opened FavoritesApi
  import opened FavoritesContext

  const AddFailed: string := "Failed to add favorite"
  const RemoveFailed: string := "Failed to remove favorite"
  const FetchFailed: string := "Failed to fetch favorites"

  /** `response.ok`. */
  predicate Ok2xx(reply: Reply) {
    200 <= reply.status < 300
  }

  /** `addFavorite` / `removeFavorite`: a reply outside 2xx rejects with the
      server's message, or the given fallback when it has none. */
  function ClientOutcome(reply: Reply, fallback: string): (r: Outcome)
    ensures r.Ok? <==> Ok2xx(reply)
    ensures r.Err? && Truthy(reply.error) ==> r.error == reply.error.value
    ensures r.Err? && !Truthy(reply.error) ==> r.error == fallback
  {
    if Ok2xx(reply) then Ok
    else Err(if Truthy(reply.error) then reply.error.value else fallback)
  }

  /** `fetchFavorites`: the reply's list (`data.favorites || []`), or a
      rejection. */
  function FetchOutcome(reply: Reply): (r: Attempt<seq<int>>)
    ensures r.Done? <==> Ok2xx(reply)
    ensures r.Done? ==> r.value == reply.favorites.GetOr([])
    ensures r.Threw? && Truthy(reply.error) ==> r.error == reply.error.value
    ensures r.Threw? && !Truthy(reply.error) ==> r.error == FetchFailed
  {
    if Ok2xx(reply) then Done(reply.favorites.GetOr([]))
    else Threw(if Truthy(reply.error) then reply.error.value else FetchFailed)
  }

  /** The same movies, ignoring order and repetition. */
  ghost predicate SameMembers(a: seq<int>, b: seq<int>) {
    forall x :: x in a <==> x in b
  }

  /** After a load from the server and an add the server accepts, the
      provider's list has the same members as the server's document; if the
      server refuses, both sides keep what they had. */
  lemma AddConverges(p: Provider, store: Store, db: Db, uid: string, movieId: int, dbUp: bool)
    requires uid != "" && uid in db && movieId != 0
    ensures
      var session := Done(Some(uid));
      var l := LoadFavorites(p, store, Some(uid), FetchOutcome(FavoritesApi.GetFavorites(db, session, true)));
      var s := AddFavorite(db, session, Done(Some(movieId)), dbUp);
      var c := AddToFavorites(l.after, l.store, Some(uid), movieId, ClientOutcome(s.reply, AddFailed));
      && l.after.favorites == FavoritesOf(db[uid])
      && (dbUp ==> SameMembers(c.after.favorites, FavoritesOf(s.db[uid])))
      && (!dbUp ==> c.after == l.after && s.db == db && c.outcome == Err(InternalError))
  {
  }

  /** The same for a removal. */
  lemma RemoveConverges(p: Provider, store: Store, db: Db, uid: string, movieId: int, dbUp: bool)
    requires uid != "" && uid in db && movieId != 0
    ensures
      var session := Done(Some(uid));
      var l := LoadFavorites(p, store, Some(uid), FetchOutcome(FavoritesApi.GetFavorites(db, session, true)));
      var s := FavoritesApi.RemoveFavorite(db, session, Done(Some(movieId)), dbUp);
      var c := RemoveFromFavorites(l.after, l.store, Some(uid), movieId, ClientOutcome(s.reply, RemoveFailed));
      && (dbUp ==> c.after.favorites == FavoritesOf(s.db[uid]))
      && (!dbUp ==> c.after == l.after && s.db == db)
  {
  }
}
