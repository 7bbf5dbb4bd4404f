/** The three favourites endpoints of the server: list, add and remove. Each
    handler is an ordered decision procedure over the session lookup, the
    request body and the database; the session lookup, the body parse and the
    database round trip are inputs that may throw. The database is the
    `favorites` field of every user document, by user id. */
module FavoritesApi {
  import opened Common
  import opened Lists

  /** user id ↦ the document's `favorites` field (`None` when the field is
      missing from the stored document). */
  type Db = map<string, Option<seq<int>>>

  const StatusOk: int := 200
  const StatusBadRequest: int := 400
  const StatusUnauthorized: int := 401
  const StatusNotFound: int := 404
  const StatusServerError: int := 500

  const Unauthorized: string := "Unauthorized"
  const MovieIdRequired: string := "Movie ID is required"
  const UserNotFound: string := "User not found"
  const InternalError: string := "Internal server error"

  /** A JSON reply: status, `error` message, `favorites` list. */
  datatype Reply = Reply(status: int, error: Option<string>, favorites: Option<seq<int>>)

  function Failure(status: int, message: string): Reply {
    Reply(status, Some(message), None)
  }

  function Success(favorites: seq<int>): Reply {
    Reply(StatusOk, None, Some(favorites))
  }

  /** The reply and the database after a request. */
  datatype Handled = Handled(reply: Reply, db: Db)

  /** A user document's favourites, with the schema's default `[]` for a
      missing field (also `user.favorites || []`). */
  function FavoritesOf(field: Option<seq<int>>): seq<int> {
    field.GetOr([])
  }

  /** `$addToSet`: insert unless already present. */
  function AddToSet(list: seq<int>, x: int): (r: seq<int>)
    ensures x in r
    ensures forall y :: y in r <==> y in list || y == x
    ensures multiset(r)[x] == if x in list then multiset(list)[x] else 1
    ensures forall y :: y != x ==> multiset(r)[y] == multiset(list)[y]
    ensures |list| <= |r| && r[..|list|] == list
  {
    if x in list then list else list + [x]
  }

  /** `$addToSet` is idempotent. */
  lemma AddToSetIdempotent(list: seq<int>, x: int)
    ensures AddToSet(AddToSet(list, x), x) == AddToSet(list, x)
  {
  }

  /** Pulling after adding a value that was absent gives back the list. */
  lemma PullUndoesAddToSet(list: seq<int>, x: int)
    requires x !in list
    ensures RemoveAll(AddToSet(list, x), x) == list
  {
    RemoveAllAfterAppend(list, x);
  }

  /** `$addToSet` never introduces a duplicate. */
  lemma AddToSetKeepsDistinct(list: seq<int>, x: int)
    requires forall i, j :: 0 <= i < j < |list| ==> list[i] != list[j]
    ensures var r := AddToSet(list, x); forall i, j :: 0 <= i < j < |r| ==> r[i] != r[j]
  {
  }

  datatype Change = AddChange | PullChange

  /** The update operator applied to the stored field. `$pull` on a missing
      field leaves it missing; `$addToSet` creates it. */
  function ApplyChange(change: Change, field: Option<seq<int>>, movieId: int): (r: Option<seq<int>>)
    ensures change == AddChange ==> r == Some(AddToSet(FavoritesOf(field), movieId))
    ensures change == PullChange ==> FavoritesOf(r) == RemoveAll(FavoritesOf(field), movieId)
  {
    match change
    case AddChange => Some(AddToSet(FavoritesOf(field), movieId))
    case PullChange => if field.None? then None else Some(RemoveAll(field.value, movieId))
  }

  /** `!movieId` for a numeric or missing `movieId`: missing, `null` and `0`
      are falsy. */
  predicate FalsyId(movieId: Option<int>) {
    movieId.None? || movieId.value == 0
  }

  /** Every check of the change handlers passes: a session with a user id, a
      readable body with a truthy `movieId`, a reachable database that holds
      the user. */
  predicate Accepted(db: Db, session: Attempt<Option<string>>, body: Attempt<Option<int>>, dbUp: bool) {
    session.Done? && Truthy(session.value) && body.Done? && !FalsyId(body.value) && dbUp
    && session.value.value in db
  }

  /** `POST /api/favorites/add` and `POST /api/favorites/remove`: session,
      body, connection, update, in that order. */
  function PostChange(change: Change, db: Db, session: Attempt<Option<string>>,
                      body: Attempt<Option<int>>, dbUp: bool): (r: Handled)
    ensures r.reply.status in {StatusOk, StatusBadRequest, StatusUnauthorized, StatusNotFound, StatusServerError}
    ensures r.reply.status != StatusOk ==> r.db == db
    ensures session.Threw? ==> r.reply == Failure(StatusServerError, InternalError)
    ensures session.Done? && !Truthy(session.value) ==> r.reply == Failure(StatusUnauthorized, Unauthorized)
    ensures r.reply.status == StatusOk <==> Accepted(db, session, body, dbUp)
    ensures session.Done? && Truthy(session.value) && body.Done? && FalsyId(body.value) ==>
      r.reply == Failure(StatusBadRequest, MovieIdRequired)
    ensures session.Done? && Truthy(session.value) && body.Threw? ==>
      r.reply == Failure(StatusServerError, InternalError)
    ensures session.Done? && Truthy(session.value) && body.Done? && !FalsyId(body.value) && !dbUp ==>
      r.reply == Failure(StatusServerError, InternalError)
    ensures (session.Done? && Truthy(session.value) && body.Done? && !FalsyId(body.value) && dbUp
             && session.value.value !in db) ==> r.reply == Failure(StatusNotFound, UserNotFound)
    ensures Accepted(db, session, body, dbUp) ==>
      r.db == db[session.value.value := ApplyChange(change, db[session.value.value], body.value.value)]
      && r.reply == Success(FavoritesOf(r.db[session.value.value]))
  {
    match session
    case Threw(_) => Handled(Failure(StatusServerError, InternalError), db)
    case Done(sessionUser) =>
      if !Truthy(sessionUser) then Handled(Failure(StatusUnauthorized, Unauthorized), db)
      else
        match body
        case Threw(_) => Handled(Failure(StatusServerError, InternalError), db)
        case Done(movieId) =>
          if FalsyId(movieId) then Handled(Failure(StatusBadRequest, MovieIdRequired), db)
          else if !dbUp then Handled(Failure(StatusServerError, InternalError), db)
          else if sessionUser.value !in db then Handled(Failure(StatusNotFound, UserNotFound), db)
          else
            var uid := sessionUser.value;
            var updated := ApplyChange(change, db[uid], movieId.value);
            Handled(Success(FavoritesOf(updated)), db[uid := updated])
  }

  function AddFavorite(db: Db, session: Attempt<Option<string>>, body: Attempt<Option<int>>, dbUp: bool): (r: Handled)
    ensures Accepted(db, session, body, dbUp) ==>
      r.reply.favorites == Some(AddToSet(FavoritesOf(db[session.value.value]), body.value.value))
    ensures Accepted(db, session, body, dbUp) ==> body.value.value in r.reply.favorites.value
    ensures Accepted(db, session, body, dbUp) ==>
      r.reply == Success(r.reply.favorites.value)
      && r.db == db[session.value.value := r.reply.favorites]
    ensures !Accepted(db, session, body, dbUp) ==> r.db == db && r.reply.status != StatusOk
  {
    PostChange(AddChange, db, session, body, dbUp)
  }

  function RemoveFavorite(db: Db, session: Attempt<Option<string>>, body: Attempt<Option<int>>, dbUp: bool): (r: Handled)
    ensures Accepted(db, session, body, dbUp) ==>
      r.reply.favorites == Some(RemoveAll(FavoritesOf(db[session.value.value]), body.value.value))
    ensures Accepted(db, session, body, dbUp) ==> body.value.value !in r.reply.favorites.value
    ensures Accepted(db, session, body, dbUp) ==>
      r.reply == Success(r.reply.favorites.value)
      && session.value.value in r.db && FavoritesOf(r.db[session.value.value]) == r.reply.favorites.value
      && forall k :: k != session.value.value ==> (k in r.db <==> k in db) && (k in db ==> r.db[k] == db[k])
    ensures !Accepted(db, session, body, dbUp) ==> r.db == db && r.reply.status != StatusOk
  {
    PostChange(PullChange, db, session, body, dbUp)
  }

  /** `GET /api/favorites`. */
  function GetFavorites(db: Db, session: Attempt<Option<string>>, dbUp: bool): (r: Reply)
    ensures r.status in {StatusOk, StatusUnauthorized, StatusNotFound, StatusServerError}
    ensures session.Threw? ==> r == Failure(StatusServerError, InternalError)
    ensures session.Done? && !Truthy(session.value) ==> r == Failure(StatusUnauthorized, Unauthorized)
    ensures session.Done? && Truthy(session.value) && !dbUp ==> r == Failure(StatusServerError, InternalError)
    ensures session.Done? && Truthy(session.value) && dbUp && session.value.value !in db ==>
      r == Failure(StatusNotFound, UserNotFound)
    ensures r.status == StatusOk <==> session.Done? && Truthy(session.value) && dbUp && session.value.value in db
    ensures r.status == StatusOk ==> r == Success(FavoritesOf(db[session.value.value]))
    ensures r.status == StatusOk && db[session.value.value].None? ==> r.favorites == Some([])
  {
    match session
    case Threw(_) => Failure(StatusServerError, InternalError)
    case Done(sessionUser) =>
      if !Truthy(sessionUser) then Failure(StatusUnauthorized, Unauthorized)
      else if !dbUp then Failure(StatusServerError, InternalError)
      else if sessionUser.value !in db then Failure(StatusNotFound, UserNotFound)
      else Success(FavoritesOf(db[sessionUser.value]))
  }

  /** The session check comes before the body is read: without a session the
      reply is 401 whatever the body and the database. */
  lemma UnauthorizedBeforeBody(change: Change, db: Db, b1: Attempt<Option<int>>, b2: Attempt<Option<int>>, up1: bool, up2: bool)
    ensures PostChange(change, db, Done(None), b1, up1) == PostChange(change, db, Done(Some("")), b2, up2)
    ensures PostChange(change, db, Done(None), b1, up1).reply.status == StatusUnauthorized
  {
  }

  /** A successful request touches only the caller's own document. */
  lemma OnlyOwnDocumentChanges(change: Change, db: Db, session: Attempt<Option<string>>, body: Attempt<Option<int>>, dbUp: bool, other: string)
    requires Accepted(db, session, body, dbUp) && other != session.value.value
    ensures var r := PostChange(change, db, session, body, dbUp);
            (other in r.db <==> other in db) && (other in db ==> r.db[other] == db[other])
  {
  }

  /** Adding the same movie twice leaves the database as adding it once. */
  lemma AddIsIdempotent(db: Db, uid: string, movieId: int)
    requires uid != "" && uid in db && movieId != 0
    ensures var once := AddFavorite(db, Done(Some(uid)), Done(Some(movieId)), true);
            AddFavorite(once.db, Done(Some(uid)), Done(Some(movieId)), true) == once
  {
    AddToSetIdempotent(FavoritesOf(db[uid]), movieId);
  }

  /** Removing a movie that is not there changes nothing. */
  lemma RemoveAbsentIsNoOp(db: Db, uid: string, movieId: int)
    requires uid != "" && uid in db && movieId != 0 && movieId !in FavoritesOf(db[uid])
    ensures RemoveFavorite(db, Done(Some(uid)), Done(Some(movieId)), true).db == db
  {
  }

  /** What the list endpoint reports after an accepted add or remove is what
      that request replied. */
  lemma ListingReflectsLastChange(change: Change, db: Db, session: Attempt<Option<string>>, body: Attempt<Option<int>>)
    requires Accepted(db, session, body, true)
    ensures var r := PostChange(change, db, session, body, true);
            GetFavorites(r.db, session, true).favorites == r.reply.favorites
  {
  }
}
