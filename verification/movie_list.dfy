/** The paged movie grid: which listing feeds it, how a further page is
    merged into what is shown, when "load more" fires and when a category
    change applies. The movie-metadata service is an input (`Attempt`). */
module MovieList {
  import opened Common
  import opened Domain

  datatype Category = Popular | TopRated | NowPlaying | Upcoming

  /** The listing a request goes to. */
  datatype Feed = Search(query: string) | Listing(category: Category)

  /** One page of results and the listing's page count. */
  datatype Response = Response(results: seq<Movie>, totalPages: int)

  const LoadError: string := "Failed to load movies. Please try again."

  /** The dispatch at the top of `fetchMovies`: any non-empty query searches,
      otherwise the category picks its listing. */
  function SelectFeed(category: Category, query: string): (r: Feed)
    ensures r.Search? <==> query != ""
    ensures r.Search? ==> r.query == query
    ensures r.Listing? ==> r.category == category
  {
    if query != "" then Search(query) else Listing(category)
  }

  /** The service path each listing is fetched from. */
  function FeedPath(feed: Feed): (r: string)
    ensures |r| > 1 && r[0] == '/'
    ensures feed.Search? <==> r[1] == 's'
    ensures feed.Listing? ==> |r| > 7 && r[..7] == "/movie/"
  {
    match feed
    case Search(_) => "/search/movie"
    case Listing(Popular) => "/movie/popular"
    case Listing(TopRated) => "/movie/top_rated"
    case Listing(NowPlaying) => "/movie/now_playing"
    case Listing(Upcoming) => "/movie/upcoming"
  }

  /** A non-empty query reaches the search path whatever the category; with
      no query, distinct categories reach distinct paths. */
  lemma DispatchPaths(c1: Category, c2: Category, query: string)
    ensures query != "" ==> FeedPath(SelectFeed(c1, query)) == "/search/movie"
    ensures FeedPath(SelectFeed(c1, "")) == FeedPath(SelectFeed(c2, "")) <==> c1 == c2
    ensures FeedPath(SelectFeed(c1, "")) != "/search/movie"
  {
    var p1, p2 := FeedPath(Listing(c1)), FeedPath(Listing(c2));
    if c1 != c2 {
      assert |p1| != |p2|;
    }
    assert p1[1] != "/search/movie"[1];
  }

  /** The movies of `results` whose id is not in `seen`, in response order. */
  function FreshOnly(results: seq<Movie>, seen: set<int>): (r: seq<Movie>)
    ensures |r| <= |results|
    ensures forall i :: 0 <= i < |r| ==> r[i].id !in seen && r[i] in results
    ensures forall i :: 0 <= i < |results| && results[i].id !in seen ==> results[i] in r
  {
    if |results| == 0 then []
    else if results[0].id in seen then FreshOnly(results[1..], seen)
    else [results[0]] + FreshOnly(results[1..], seen)
  }

  /** Filtering distributes over concatenation, so the new movies keep their
      response order. */
  lemma {:induction false} FreshOnlyConcat(a: seq<Movie>, b: seq<Movie>, seen: set<int>)
    ensures FreshOnly(a + b, seen) == FreshOnly(a, seen) + FreshOnly(b, seen)
  {
    if |a| == 0 {
      assert a + b == b;
    } else {
      assert (a + b)[1..] == a[1..] + b;
      FreshOnlyConcat(a[1..], b, seen);
    }
  }

  /** Append mode: what is shown stays, in place, followed by the new page's
      movies whose id is not shown yet. */
  function Merge(prev: seq<Movie>, results: seq<Movie>): (r: seq<Movie>)
    ensures |prev| <= |r| && r[..|prev|] == prev
    ensures forall i :: |prev| <= i < |r| ==> r[i].id !in Ids(prev) && r[i] in results
    ensures forall m :: m in results && m.id !in Ids(prev) ==> m in r
  {
    prev + FreshOnly(results, Ids(prev))
  }

  /** No two shown movies share an id. */
  ghost predicate UniqueIds(movies: seq<Movie>) {
    forall i, j :: 0 <= i < j < |movies| ==> movies[i].id != movies[j].id
  }

  /** Merging keeps ids unique as long as each page does. */
  lemma {:induction false} FreshOnlyUnique(results: seq<Movie>, seen: set<int>)
    requires UniqueIds(results)
    ensures UniqueIds(FreshOnly(results, seen))
  {
    if |results| > 0 {
      FreshOnlyUnique(results[1..], seen);
      var rest := FreshOnly(results[1..], seen);
      forall i | 0 <= i < |rest|
        ensures rest[i].id != results[0].id
      {
        var k :| 0 <= k < |results[1..]| && results[1..][k] == rest[i];
        assert results[k + 1] == rest[i];
      }
    }
  }

  lemma MergeKeepsIdsUnique(prev: seq<Movie>, results: seq<Movie>)
    requires UniqueIds(prev) && UniqueIds(results)
    ensures UniqueIds(Merge(prev, results))
  {
    FreshOnlyUnique(results, Ids(prev));
    var r := Merge(prev, results);
    forall i, j | 0 <= i < j < |r|
      ensures r[i].id != r[j].id
    {
      if j >= |prev| && i < |prev| {
        assert r[i].id in Ids(prev);
      } else if i >= |prev| {
        assert r[i] == FreshOnly(results, Ids(prev))[i - |prev|];
      }
    }
  }

  /** A page delivered twice adds nothing the second time. */
  lemma MergeIdempotent(prev: seq<Movie>, results: seq<Movie>)
    ensures Merge(Merge(prev, results), results) == Merge(prev, results)
  {
    var once := Merge(prev, results);
    assert forall m :: m in results ==> m.id in Ids(once) by {
      forall m | m in results ensures m.id in Ids(once) {
        if m.id !in Ids(prev) {
          var k :| 0 <= k < |once| && once[k] == m;
        } else {
          var k :| 0 <= k < |prev| && prev[k].id == m.id;
          assert once[k] == prev[k];
        }
      }
    }
    AllSeenLeavesNothing(results, Ids(once));
  }

  lemma {:induction false} AllSeenLeavesNothing(results: seq<Movie>, seen: set<int>)
    requires forall m :: m in results ==> m.id in seen
    ensures FreshOnly(results, seen) == []
  {
    if |results| > 0 {
      assert results[0] in results;
      AllSeenLeavesNothing(results[1..], seen);
    }
  }

  /** The component's state. */
  datatype ListState = ListState(
    movies: seq<Movie>,
    currentPage: int,
    totalPages: int,
    isLoading: bool,
    isLoadingMore: bool,
    category: Category,
    error: Option<string>)

  const InitialList: ListState := ListState([], 1, 1, false, false, Popular, None)

  /** The settled state of `fetchMovies` and the listing it asked for. */
  datatype Fetch = Fetch(state: ListState, requested: Feed, page: int)

  /** `fetchMovies`: one request to the selected listing; on success the page
      count is taken over and the results replace or are merged into the
      list; on failure the list stays and the error message is set. */
  function FetchMovies(st: ListState, category: Category, page: int, query: string, append: bool,
                       response: Attempt<Response>): (r: Fetch)
    ensures r.requested == SelectFeed(category, query) && r.page == page
    ensures !r.state.isLoading && !r.state.isLoadingMore
    ensures r.state.currentPage == st.currentPage && r.state.category == st.category
    ensures response.Done? && append ==> r.state.movies == Merge(st.movies, response.value.results)
    ensures response.Done? && !append ==> r.state.movies == response.value.results
    ensures response.Done? ==> r.state.totalPages == response.value.totalPages
    ensures response.Done? ==> r.state.error == (if page == 1 then None else st.error)
    ensures response.Threw? ==> r.state.movies == st.movies && r.state.totalPages == st.totalPages
    ensures response.Threw? ==> r.state.error == Some(LoadError)
  {
    var cleared := if page == 1 then st.(error := None) else st;
    var settled :=
      match response
      case Done(resp) =>
        var movies := if append then Merge(cleared.movies, resp.results) else resp.results;
        cleared.(movies := movies, totalPages := resp.totalPages)
      case Threw(_) => cleared.(error := Some(LoadError));
    Fetch(settled.(isLoading := false, isLoadingMore := false), SelectFeed(category, query), page)
  }

  /** The effect run when the category or the search query changes: back to
      page 1 and a fresh first page, replacing the list. */
  function Reload(st: ListState, searchQuery: string, response: Attempt<Response>): (r: Fetch)
    ensures r.state.currentPage == 1 && r.page == 1
    ensures r.requested == SelectFeed(st.category, searchQuery)
    ensures response.Done? ==> r.state.movies == response.value.results && r.state.error == None
    ensures response.Done? ==> r.state.totalPages == response.value.totalPages
    ensures response.Threw? ==>
      r.state.movies == st.movies && r.state.totalPages == st.totalPages && r.state.error == Some(LoadError)
    ensures !r.state.isLoading && !r.state.isLoadingMore && r.state.category == st.category
  {
    var st1 := st.(currentPage := 1);
    if searchQuery != "" then FetchMovies(st1, Popular, 1, searchQuery, false, response)
    else FetchMovies(st1, st1.category, 1, "", false, response)
  }

  /** The result of `loadMore`: the state, and the request if one was made. */
  datatype More = More(state: ListState, requested: Option<Feed>)

  /** `loadMore`: only with pages left and no load-more in flight; moves to
      the next page and appends it. */
  function LoadMore(st: ListState, searchQuery: string, response: Attempt<Response>): (r: More)
    ensures r.requested.Some? <==> st.currentPage < st.totalPages && !st.isLoadingMore
    ensures r.requested.None? ==> r.state == st
    ensures r.requested.Some? ==> r.state.currentPage == st.currentPage + 1
    ensures r.requested.Some? ==> r.requested.value == SelectFeed(st.category, searchQuery)
    ensures r.requested.Some? ==> |st.movies| <= |r.state.movies| && r.state.movies[..|st.movies|] == st.movies
    ensures r.requested.Some? ==> !r.state.isLoading && !r.state.isLoadingMore && r.state.category == st.category
    ensures r.requested.Some? && response.Done? ==>
      r.state.movies == Merge(st.movies, response.value.results)
      && r.state.totalPages == response.value.totalPages
      && r.state.error == (if st.currentPage + 1 == 1 then None else st.error)
    ensures r.requested.Some? && response.Threw? ==>
      r.state.movies == st.movies && r.state.totalPages == st.totalPages && r.state.error == Some(LoadError)
  {
    if st.currentPage < st.totalPages && !st.isLoadingMore then
      var next := st.currentPage + 1;
      var st1 := st.(currentPage := next);
      var f := if searchQuery != "" then FetchMovies(st1, Popular, next, searchQuery, true, response)
               else FetchMovies(st1, st1.category, next, "", true, response);
      More(f.state, Some(f.requested))
    else More(st, None)
  }

  /** `handleCategoryChange`: applies only to a different category while no
      search is active, and restarts at page 1. */
  function HandleCategoryChange(st: ListState, searchQuery: string, category: Category): (r: ListState)
    ensures category != st.category && searchQuery == "" ==>
      r == st.(category := category, currentPage := 1)
    ensures !(category != st.category && searchQuery == "") ==> r == st
    ensures searchQuery != "" ==> r.category == st.category
  {
    if category != st.category && searchQuery == "" then st.(category := category, currentPage := 1)
    else st
  }

  /** A category change followed by its reload shows the new category's
      first page. */
  lemma CategoryChangeShowsNewListing(st: ListState, category: Category, page: Response)
    requires category != st.category
    ensures var r := Reload(HandleCategoryChange(st, "", category), "", Done(page));
            r.requested == Listing(category) && r.state.movies == page.results && r.state.currentPage == 1
  {
  }
}
