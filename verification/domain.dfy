/** The two records every layer of the application passes around. The
    repository's `@/types` module is not part of this model; the fields kept
    here are the ones the modelled code reads or writes. */
module Domain {

  /** A movie as returned by the movie-metadata service; only `id` takes part
      in any decision, `title` stands for the remaining display fields. */
  datatype Movie = Movie(id: int, title: string)

  /** The client-side user record: identity plus the favourite movie ids. */
  datatype User = User(id: string, email: string, name: string, favorites: seq<int>)

  /** The set of ids of a list of movies (`new Set(prev.map(m => m.id))`). */
  function Ids(movies: seq<Movie>): (r: set<int>)
    ensures forall i :: 0 <= i < |movies| ==> movies[i].id in r
    ensures forall id :: id in r ==> exists i :: 0 <= i < |movies| && movies[i].id == id
  {
    set i | 0 <= i < |movies| :: movies[i].id
  }
}
