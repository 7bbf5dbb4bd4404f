/** The browser's `localStorage`: a string-keyed store whose values are
    strings. A value is either text stored verbatim (the session token) or the
    `JSON.stringify` output of a JSON document; which one it is, is recorded in
    the slot instead of re-parsing characters. */
module Storage {
  import opened Common
  import opened Domain

  /** One element of a stored JSON array: a number, or a movie object. */
  datatype Elem = Num(n: int) | MovieObj(movie: Movie) {
    /** `e.id` in JavaScript: a number has no `id` property. */
    function Id(): Option<int> {
      match this
      case Num(_) => None
      case MovieObj(m) => Some(m.id)
    }
  }

  /** The JSON documents the application writes. */
  datatype Json = Arr(elems: seq<Elem>) | UserObj(user: User)

  /** A stored string. `Text` is never valid JSON here (only the token is
      stored verbatim); `Doc` is the serialisation of a document, which is
      never the empty string. */
  datatype Slot = Text(text: string) | Doc(json: Json)

  type Store = map<string, Slot>

  /** The key of the favourite-id list, shared by the local favourites store
      and the stored session. */
  const FavoriteIdsKey: string := "movie-explorer-favorites"

  /** The key of the saved-movie list. */
  const FavoriteMoviesKey: string := "movie-explorer-favorite-movies"

  /** `if (value)` on the result of `getItem`. */
  predicate Present(store: Store, key: string) {
    key in store && (store[key].Text? ==> store[key].text != "")
  }

  /** `JSON.parse`, failing on text that is not a document. */
  function Parse(slot: Slot): Option<Json> {
    match slot
    case Text(_) => None
    case Doc(j) => Some(j)
  }

  /** A JSON array of numbers written from a list of ids. */
  function Nums(ids: seq<int>): (r: seq<Elem>)
    ensures |r| == |ids|
    ensures forall i :: 0 <= i < |ids| ==> r[i] == Num(ids[i])
  {
    if |ids| == 0 then [] else [Num(ids[0])] + Nums(ids[1..])
  }

  /** Reading a JSON array as `number[]`; `None` when an element is not a
      number. */
  function AsIds(elems: seq<Elem>): (r: Option<seq<int>>)
    ensures r.Some? <==> forall i :: 0 <= i < |elems| ==> elems[i].Num?
    ensures r.Some? ==> |r.value| == |elems|
    ensures r.Some? ==> forall i :: 0 <= i < |elems| ==> elems[i] == Num(r.value[i])
  {
    if |elems| == 0 then Some([])
    else match (elems[0], AsIds(elems[1..]))
      case (Num(n), Some(rest)) => Some([n] + rest)
      case _ => None
  }

  /** A list of ids written as a JSON array reads back as the same list. */
  lemma IdsRoundTrip(ids: seq<int>)
    ensures AsIds(Nums(ids)) == Some(ids)
  {
    var r := AsIds(Nums(ids));
    assert r.value == ids by {
      forall i | 0 <= i < |ids| ensures r.value[i] == ids[i] {
        assert Nums(ids)[i] == Num(r.value[i]);
      }
    }
  }

  /** The slot `localStorage.setItem(k, JSON.stringify(ids))` writes. */
  function IdsDoc(ids: seq<int>): Slot {
    Doc(Arr(Nums(ids)))
  }

  /** Decoding a slot as a list of ids. */
  function DecodeIds(slot: Slot): (r: Option<seq<int>>)
    ensures r.Some? ==> slot == IdsDoc(r.value)
  {
    match Parse(slot)
    case Some(Arr(elems)) =>
      var r := AsIds(elems);
      assert r.Some? ==> Nums(r.value) == elems;
      r
    case _ => None
  }

  /** `Object.keys(localStorage).forEach(k => if (k.startsWith(p)) removeItem(k))`. */
  function RemovePrefixed(store: Store, prefix: string): (r: Store)
    ensures forall k :: k in r <==> k in store && !StartsWith(k, prefix)
    ensures forall k :: k in r ==> r[k] == store[k]
  {
    map k | k in store && !StartsWith(k, prefix) :: store[k]
  }
}
