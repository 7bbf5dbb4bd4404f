/** The browser-only favourites helpers: a JSON array of ids under one
    storage key, kept in step with the server by add-if-absent and
    revert-on-failure, and a second list of whole movie records. */
module LegacyFavorites {
  import opened Common
  import opened Domain
  import opened Lists
  import opened Storage

  const ParseError: string := "SyntaxError: stored value is not JSON"
  const ShapeError: string := "TypeError: stored value is not an array"

  /** `key ? JSON.parse(key) : []`, read as an array: an absent or empty
      entry is the empty list, a stored array is its elements, anything else
      throws (at the parse, or at the first array method called on it). */
  function ReadList(store: Store, key: string): (r: Attempt<seq<Elem>>)
    ensures !Present(store, key) ==> r == Done([])
    ensures r.Done? && Present(store, key) ==> store[key] == Doc(Arr(r.value))
    ensures Present(store, key) && store[key].Doc? && store[key].json.Arr? ==> r.Done?
  {
    if !Present(store, key) then Done([])
    else match Parse(store[key])
      case None => Threw(ParseError)
      case Some(Arr(elems)) => Done(elems)
      case Some(UserObj(_)) => Threw(ShapeError)
  }

  /** `getFavorites`. */
  function GetFavorites(store: Store): (r: Attempt<seq<Elem>>)
    ensures !Present(store, FavoriteIdsKey) ==> r == Done([])
    ensures r.Done? && Present(store, FavoriteIdsKey) ==> store[FavoriteIdsKey] == Doc(Arr(r.value))
    ensures Present(store, FavoriteIdsKey) && store[FavoriteIdsKey].Doc? && store[FavoriteIdsKey].json.Arr? ==> r.Done?
  {
    ReadList(store, FavoriteIdsKey)
  }

  /** The result of a helper that may write the store and call the server. */
  datatype Step = Step(store: Store, remoteCalled: bool, outcome: Outcome)

  /** Every key other than `key` holds what it held before. */
  ghost predicate OnlyTouches(before: Store, after: Store, key: string) {
    forall k :: k != key ==> (k in after <==> k in before) && (k in after ==> after[k] == before[k])
  }

  /** `addToFavorites`: a known id changes nothing and sends nothing; a new
      id is appended and sent, and a rejected request filters it back out
      and rethrows. */
  function AddToFavorites(store: Store, movieId: int, remote: Outcome): (r: Step)
    ensures OnlyTouches(store, r.store, FavoriteIdsKey)
    ensures GetFavorites(store).Threw? ==> r == Step(store, false, Err(GetFavorites(store).error))
    ensures GetFavorites(store).Done? && Num(movieId) in GetFavorites(store).value ==>
      r == Step(store, false, Ok)
    ensures GetFavorites(store).Done? && Num(movieId) !in GetFavorites(store).value ==>
      r.remoteCalled && r.outcome == remote
    ensures GetFavorites(store).Done? && Num(movieId) !in GetFavorites(store).value && remote.Ok? ==>
      GetFavorites(r.store) == Done(GetFavorites(store).value + [Num(movieId)])
    ensures remote.Err? ==> GetFavorites(r.store) == GetFavorites(store)
  {
    match GetFavorites(store)
    case Threw(e) => Step(store, false, Err(e))
    case Done(favorites) =>
      if Num(movieId) in favorites then Step(store, false, Ok)
      else
        var added := favorites + [Num(movieId)];
        match remote
        case Ok => Step(store[FavoriteIdsKey := Doc(Arr(added))], true, Ok)
        case Err(e) =>
          RemoveAllAfterAppend(favorites, Num(movieId));
          Step(store[FavoriteIdsKey := Doc(Arr(RemoveAll(added, Num(movieId))))], true, Err(e))
  }

  /** `removeFromFavorites`: the filtered list is stored and the removal
      sent; a rejected request stores the list read before and rethrows. */
  function RemoveFromFavorites(store: Store, movieId: int, remote: Outcome): (r: Step)
    ensures OnlyTouches(store, r.store, FavoriteIdsKey)
    ensures GetFavorites(store).Threw? ==> r == Step(store, false, Err(GetFavorites(store).error))
    ensures GetFavorites(store).Done? ==> r.remoteCalled && r.outcome == remote
    ensures GetFavorites(store).Done? && remote.Ok? ==>
      GetFavorites(r.store) == Done(RemoveAll(GetFavorites(store).value, Num(movieId)))
    ensures remote.Err? ==> GetFavorites(r.store) == GetFavorites(store)
  {
    match GetFavorites(store)
    case Threw(e) => Step(store, false, Err(e))
    case Done(favorites) =>
      match remote
      case Ok => Step(store[FavoriteIdsKey := Doc(Arr(RemoveAll(favorites, Num(movieId))))], true, Ok)
      case Err(e) => Step(store[FavoriteIdsKey := Doc(Arr(favorites))], true, Err(e))
  }

  /** `isFavorite`: membership of the number in the stored list. */
  function IsFavorite(store: Store, movieId: int): (r: Attempt<bool>)
    ensures r.Done? <==> GetFavorites(store).Done?
    ensures r.Done? ==> (r.value <==> exists i :: 0 <= i < |GetFavorites(store).value|
                                                && GetFavorites(store).value[i] == Num(movieId))
  {
    match GetFavorites(store)
    case Threw(e) => Threw(e)
    case Done(favorites) => Done(Num(movieId) in favorites)
  }

  /** What `toggleFavorite` resolves to, and the step it took. */
  datatype Toggled = Toggled(step: Step, result: Attempt<bool>)

  /** `toggleFavorite`: remove a favourite, add anything else; resolves to
      whether the id is a favourite now. */
  function ToggleFavorite(store: Store, movieId: int, remote: Outcome): (r: Toggled)
    ensures r.result.Done? ==> IsFavorite(store, movieId) == Done(!r.result.value)
    ensures r.result.Done? <==> IsFavorite(store, movieId).Done? && remote.Ok?
    ensures r.result.Done? ==> IsFavorite(r.step.store, movieId) == Done(r.result.value)
    ensures r.result.Threw? ==> GetFavorites(r.step.store) == GetFavorites(store)
    ensures OnlyTouches(store, r.step.store, FavoriteIdsKey)
    ensures r.result.Done? && Num(movieId) in GetFavorites(store).value ==>
              GetFavorites(r.step.store) == Done(RemoveAll(GetFavorites(store).value, Num(movieId)))
    ensures r.result.Done? && Num(movieId) !in GetFavorites(store).value ==>
              GetFavorites(r.step.store) == Done(GetFavorites(store).value + [Num(movieId)])
  {
    match GetFavorites(store)
    case Threw(e) => Toggled(Step(store, false, Err(e)), Threw(e))
    case Done(favorites) =>
      if Num(movieId) in favorites then
        var s := RemoveFromFavorites(store, movieId, remote);
        Toggled(s, if s.outcome.Ok? then Done(false) else Threw(s.outcome.error))
      else
        var s := AddToFavorites(store, movieId, remote);
        Toggled(s, if s.outcome.Ok? then Done(true) else Threw(s.outcome.error))
  }

  /** Toggling a non-favourite twice, both requests accepted, gives back the
      list that was stored. */
  lemma ToggleTwiceRestores(store: Store, movieId: int)
    requires GetFavorites(store).Done? && Num(movieId) !in GetFavorites(store).value
    ensures var t1 := ToggleFavorite(store, movieId, Ok);
            var t2 := ToggleFavorite(t1.step.store, movieId, Ok);
            t1.result == Done(true) && t2.result == Done(false)
            && GetFavorites(t2.step.store) == GetFavorites(store)
  {
    RemoveAllAfterAppend(GetFavorites(store).value, Num(movieId));
  }

  /** `getFavoriteMovies`: reads the id list's key, not the movies key. */
  function GetFavoriteMovies(store: Store): (r: Attempt<seq<Elem>>)
    ensures r == GetFavorites(store)
  {
    ReadList(store, FavoriteIdsKey)
  }

  /** `findIndex(m => m.id === id) !== -1`. */
  predicate HasMovie(list: seq<Elem>, id: int) {
    exists i :: 0 <= i < |list| && list[i].Id() == Some(id)
  }

  /** `filter(m => m.id !== id)`. */
  function WithoutMovie(list: seq<Elem>, id: int): (r: seq<Elem>)
    ensures !HasMovie(r, id)
    ensures forall i :: 0 <= i < |r| ==> r[i] in list
    ensures forall i :: 0 <= i < |list| && list[i].Id() != Some(id) ==> list[i] in r
    ensures !HasMovie(list, id) ==> r == list
  {
    if |list| == 0 then []
    else if list[0].Id() == Some(id) then WithoutMovie(list[1..], id)
    else [list[0]] + WithoutMovie(list[1..], id)
  }

  /** Filtering distributes over concatenation; with `WithoutMovieSingleton`
      this fixes the result exactly: the list with the matching movies cut
      out, the rest in their original order and number. */
  lemma {:induction false} WithoutMovieConcat(a: seq<Elem>, b: seq<Elem>, id: int)
    ensures WithoutMovie(a + b, id) == WithoutMovie(a, id) + WithoutMovie(b, id)
  {
    if |a| == 0 {
      assert a + b == b;
    } else {
      assert (a + b)[1..] == a[1..] + b;
      WithoutMovieConcat(a[1..], b, id);
    }
  }

  /** The element-by-element reading of `WithoutMovie`. */
  lemma WithoutMovieSingleton(e: Elem, id: int)
    ensures WithoutMovie([e], id) == (if e.Id() == Some(id) then [] else [e])
  {
  }

  /** `saveFavoriteMovie` as written: the list is read from the id key and
      written, with the movie appended, to the movies key. */
  function SaveFavoriteMovie(store: Store, movie: Movie): (r: Attempt<Store>)
    ensures r.Done? <==> GetFavoriteMovies(store).Done?
    ensures r.Done? ==> OnlyTouches(store, r.value, FavoriteMoviesKey)
    ensures r.Done? && !HasMovie(GetFavoriteMovies(store).value, movie.id) ==>
      ReadList(r.value, FavoriteMoviesKey) == Done(GetFavoriteMovies(store).value + [MovieObj(movie)])
    ensures r.Done? && HasMovie(GetFavoriteMovies(store).value, movie.id) ==> r.value == store
  {
    match GetFavoriteMovies(store)
    case Threw(e) => Threw(e)
    case Done(list) =>
      if HasMovie(list, movie.id) then Done(store)
      else Done(store[FavoriteMoviesKey := Doc(Arr(list + [MovieObj(movie)]))])
  }

  /** `removeFavoriteMovie` as written: the filtered id list is written to
      the movies key. */
  function RemoveFavoriteMovie(store: Store, movieId: int): (r: Attempt<Store>)
    ensures r.Done? <==> GetFavoriteMovies(store).Done?
    ensures r.Done? ==> OnlyTouches(store, r.value, FavoriteMoviesKey)
    ensures r.Done? ==> ReadList(r.value, FavoriteMoviesKey) == Done(WithoutMovie(GetFavoriteMovies(store).value, movieId))
  {
    match GetFavoriteMovies(store)
    case Threw(e) => Threw(e)
    case Done(list) => Done(store[FavoriteMoviesKey := Doc(Arr(WithoutMovie(list, movieId)))])
  }

  /** Numbers in the id list never match a movie, so as long as the id list
      is what `AddToFavorites` writes, every save writes. */
  lemma SaveAlwaysWritesOverIds(ids: seq<int>, movie: Movie)
    ensures var s := map[FavoriteIdsKey := IdsDoc(ids)];
            SaveFavoriteMovie(s, movie) == Done(s[FavoriteMoviesKey := Doc(Arr(Nums(ids) + [MovieObj(movie)]))])
  {
    var s := map[FavoriteIdsKey := IdsDoc(ids)];
    assert GetFavoriteMovies(s) == Done(Nums(ids));
    assert !HasMovie(Nums(ids), movie.id);
  }

  /** Saving movie `a` and then movie `b` loses `a`: the second save starts
      again from the id list. */
  lemma SaveFavoriteMovieForgetsEarlierSave()
    ensures var a := Movie(1, "A");
            var b := Movie(2, "B");
            var s1 := SaveFavoriteMovie(map[], a).value;
            var s2 := SaveFavoriteMovie(s1, b).value;
            ReadList(s2, FavoriteMoviesKey) == Done([MovieObj(b)])
  {
    assert FavoriteIdsKey != FavoriteMoviesKey by { assert |FavoriteIdsKey| != |FavoriteMoviesKey|; }
    var s1 := SaveFavoriteMovie(map[], Movie(1, "A")).value;
    assert GetFavoriteMovies(s1) == Done([]);
    assert [] + [MovieObj(Movie(2, "B"))] == [MovieObj(Movie(2, "B"))];
  }

  /** Removing movie `b` after saving movie `a` loses `a` as well. */
  lemma RemoveFavoriteMovieForgetsSavedMovie()
    ensures var a := Movie(1, "A");
            var s1 := SaveFavoriteMovie(map[], a).value;
            var s2 := RemoveFavoriteMovie(s1, 2).value;
            ReadList(s2, FavoriteMoviesKey) == Done([])
  {
    var s1 := SaveFavoriteMovie(map[], Movie(1, "A")).value;
    assert GetFavoriteMovies(s1) == Done([]);
  }

  /** `saveFavoriteMovie` reading the key it writes. */
  function SaveFavoriteMovieFixed(store: Store, movie: Movie): (r: Attempt<Store>)
    ensures r.Done? <==> ReadList(store, FavoriteMoviesKey).Done?
    ensures r.Done? ==> OnlyTouches(store, r.value, FavoriteMoviesKey)
    ensures r.Done? ==> ReadList(r.value, FavoriteMoviesKey).Done?
    ensures r.Done? ==> HasMovie(ReadList(r.value, FavoriteMoviesKey).value, movie.id)
    ensures r.Done? ==> forall e :: e in ReadList(store, FavoriteMoviesKey).value ==> e in ReadList(r.value, FavoriteMoviesKey).value
    ensures r.Done? && !HasMovie(ReadList(store, FavoriteMoviesKey).value, movie.id) ==>
              ReadList(r.value, FavoriteMoviesKey) == Done(ReadList(store, FavoriteMoviesKey).value + [MovieObj(movie)])
    ensures r.Done? && HasMovie(ReadList(store, FavoriteMoviesKey).value, movie.id) ==> r.value == store
  {
    match ReadList(store, FavoriteMoviesKey)
    case Threw(e) => Threw(e)
    case Done(list) =>
      if HasMovie(list, movie.id) then Done(store)
      else
        assert (list + [MovieObj(movie)])[|list|].Id() == Some(movie.id);
        Done(store[FavoriteMoviesKey := Doc(Arr(list + [MovieObj(movie)]))])
  }

  /** `removeFavoriteMovie` reading the key it writes. */
  function RemoveFavoriteMovieFixed(store: Store, movieId: int): (r: Attempt<Store>)
    ensures r.Done? <==> ReadList(store, FavoriteMoviesKey).Done?
    ensures r.Done? ==> OnlyTouches(store, r.value, FavoriteMoviesKey)
    ensures r.Done? ==> ReadList(r.value, FavoriteMoviesKey) == Done(WithoutMovie(ReadList(store, FavoriteMoviesKey).value, movieId))
  {
    match ReadList(store, FavoriteMoviesKey)
    case Threw(e) => Threw(e)
    case Done(list) => Done(store[FavoriteMoviesKey := Doc(Arr(WithoutMovie(list, movieId)))])
  }

  /** With the key read fixed, a second save keeps the first one, and
      removing one movie keeps the other. */
  lemma FixedSavesAccumulate(store: Store, a: Movie, b: Movie)
    requires ReadList(store, FavoriteMoviesKey).Done? && a.id != b.id
    ensures var s1 := SaveFavoriteMovieFixed(store, a).value;
            var s2 := SaveFavoriteMovieFixed(s1, b).value;
            var s3 := RemoveFavoriteMovieFixed(s2, b.id).value;
            HasMovie(ReadList(s2, FavoriteMoviesKey).value, a.id)
            && HasMovie(ReadList(s2, FavoriteMoviesKey).value, b.id)
            && HasMovie(ReadList(s3, FavoriteMoviesKey).value, a.id)
            && !HasMovie(ReadList(s3, FavoriteMoviesKey).value, b.id)
  {
    var s1 := SaveFavoriteMovieFixed(store, a).value;
    var s2 := SaveFavoriteMovieFixed(s1, b).value;
    var l1 := ReadList(s1, FavoriteMoviesKey).value;
    var l2 := ReadList(s2, FavoriteMoviesKey).value;
    var i :| 0 <= i < |l1| && l1[i].Id() == Some(a.id);
    assert l1[i] in l2;
    var j :| 0 <= j < |l2| && l2[j] == l1[i];
    var l3 := WithoutMovie(l2, b.id);
    assert l2[j] in l3;
  }
}
