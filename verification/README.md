# Movie Explorer — a Dafny model of its state logic

Movie Explorer is a Next.js application for browsing TMDB movies, signing in and
keeping a list of favourite movies. Almost all of it is rendering and network
glue; this project models the parts that make decisions, each as a pure
function over immutable values, with every remote call, storage failure, hash
check and fresh id supplied as an input:

- the favourites provider (`FavoritesContext`): optimistic add and remove with
  roll-back, the per-user `favorites_<id>` cache in browser storage, loading
  (cache first, then the server copy), and the purge of every cached list on
  sign-out;
- the older local favourites store (`LegacyFavorites`): the id list under
  `movie-explorer-favorites`, add-if-absent, revert on failure, toggle, and the
  saved-movie list under `movie-explorer-favorite-movies`;
- the three favourites endpoints (`FavoritesApi`): the ordered status decision
  (401, 400, 404, 500, 200) and the set semantics of `$addToSet` and `$pull`;
- the client wrappers around those endpoints (`FavoritesSync`), only so that the
  optimistic list can be compared with the list the server ends up storing;
- the movie grid's paging (`MovieList`): search/category dispatch, the
  de-duplicating append, the `loadMore` guard and the category-change rule;
- registration form validation, including the email regular expression
  (`RegisterForm`), the route-guard decision table (`RouteGuard`) and TMDB image
  URL construction (`TmdbImages`);
- the stored-session protocol in browser storage (`AuthClient`), the auth state
  machine (`AuthContext`), the confirmation-modal hook (`ConfirmationModal`)
  and the in-memory user registry used when the database is unavailable
  (`AuthFallback`).

Shared vocabulary lives in `Common` (`Option`, `Outcome` = `Ok | Err`,
`Attempt` = `Done | Threw`, JavaScript truthiness of an optional string),
`Lists` (`RemoveAll`, the `filter(x => x !== v)` idiom), `Domain` (`Movie`,
`User`) and `Storage` (browser storage as `map<string, Slot>`, where a slot is
either raw text or a JSON document the application wrote).

Two behaviours of the provider are easy to misread, and the model keeps them as the code has them:

- The provider appends without checking, so adding an id twice keeps two copies
  (`FavoritesContext.AddTwiceKeepsTwoCopies`), unlike the server's `$addToSet`
  and the local store's add-if-absent.
- Sign-out removes every key starting with `favorites_`, whoever it belongs to
  (`FavoritesContext.LogoutForgetsEveryUser`).

## Model

| member | source | states |
|---|---|---|
| Lists.RemoveAll | src/contexts/FavoritesContext.tsx:127 | the filtered list holds no copy of the id, holds every other element of the input and nothing else, and is the input itself when the id was absent |
| Lists.RemoveAllConcat | src/contexts/FavoritesContext.tsx:127 | filtering distributes over concatenation, so the survivors keep their relative order |
| Lists.RemoveAllMultiset | src/contexts/FavoritesContext.tsx:127 | filtering removes every occurrence of the id and keeps the exact multiplicity of every other element |
| Lists.RemoveAllSingleton | src/contexts/FavoritesContext.tsx:127 | a single element is dropped iff it equals the id; with the concatenation lemma this fixes the result exactly |
| Lists.RemoveAllAfterAppend | src/lib/favorites.ts:26-28 | filtering a freshly appended, previously absent id gives back the original list |
| Storage.IdsRoundTrip | src/contexts/FavoritesContext.tsx:54 | an id list written as JSON reads back as the same id list |
| Storage.DecodeIds | src/contexts/FavoritesContext.tsx:54 | a slot decodes to an id list only when it is exactly that list's JSON document |
| Storage.RemovePrefixed | src/contexts/FavoritesContext.tsx:88-93 | exactly the keys with the prefix disappear; every other key keeps its value |
| FavoritesContext.CacheKey | src/contexts/FavoritesContext.tsx:37-40 | there is no key iff the user id is falsy; otherwise the key is `favorites_` followed by exactly the user id |
| FavoritesContext.CacheKeyInjective | src/contexts/FavoritesContext.tsx:37-40 | two users never share a cache key |
| FavoritesContext.Optimistic | src/contexts/FavoritesContext.tsx:98-146 | without a user nothing changes and no remote call happens; on failure list and storage are restored exactly; on success the list and the user's cache both become the new list; no other storage key changes |
| FavoritesContext.AddToFavorites | src/contexts/FavoritesContext.tsx:98-121 | without a user nothing changes and no remote call is made; otherwise the optimistic list is the old list with the id appended and the remote call is made; after success the list is that appended list and exactly the user's cache entry is overwritten with it; after failure the provider and storage are exactly as before |
| FavoritesContext.RemoveFromFavorites | src/contexts/FavoritesContext.tsx:123-146 | without a user nothing changes and no remote call is made; otherwise the optimistic list is the old list with every copy of the id filtered out and the remote call is made; after success the list is that filtered list and exactly the user's cache entry is overwritten with it; after failure the provider and storage are exactly as before |
| FavoritesContext.IsFavorite | src/contexts/FavoritesContext.tsx:148 | true iff some position of the list holds the id |
| FavoritesContext.ReadCache | src/contexts/FavoritesContext.tsx:49-61 | a missing entry changes nothing; a readable entry becomes the list; an unreadable entry is deleted and the list kept; no key is added or altered |
| FavoritesContext.LoadFavorites | src/contexts/FavoritesContext.tsx:42-78 | without a user nothing happens; a successful fetch sets list and cache to the server copy; a failed fetch keeps the list; loading ends false; no other key changes |
| FavoritesContext.OnUserChange | src/contexts/FavoritesContext.tsx:80-96 | with a user it is a load; without one only the list changes (it becomes empty, the loading flag is kept), nothing is fetched, and exactly the `favorites_` keys are removed, all other entries untouched |
| FavoritesContext.LoadEstablishesCoherence | src/contexts/FavoritesContext.tsx:63-70 | after a successful load the cached entry decodes to the in-memory list |
| FavoritesContext.AddPreservesCoherence | src/contexts/FavoritesContext.tsx:98-121 | add keeps the cache in agreement with the list, whether the remote call succeeds or fails |
| FavoritesContext.RemovePreservesCoherence | src/contexts/FavoritesContext.tsx:123-146 | remove keeps the cache in agreement with the list, whether the remote call succeeds or fails |
| FavoritesContext.LogoutForgetsEveryUser | src/contexts/FavoritesContext.tsx:84-94 | after sign-out no user's cache key remains |
| FavoritesContext.AddThenRemoveRestores | src/contexts/FavoritesContext.tsx:98-146 | a successful add followed by a successful remove of a new id restores the list |
| FavoritesContext.AddTwiceKeepsTwoCopies | src/contexts/FavoritesContext.tsx:102 | adding the same new id twice leaves it in the list twice |
| FavoritesContext.EndToEndScenario | src/contexts/FavoritesContext.tsx:42-146 | a concrete load, successful remove and failed add end with the expected list and cache |
| LegacyFavorites.GetFavorites | src/lib/favorites.ts:4-9 | an absent id key reads as the empty list; a successful read is exactly the stored array; a stored array always reads |
| LegacyFavorites.WithoutMovieConcat | src/lib/favorites.ts:92 | filtering distributes over concatenation, so kept movies stay in order and in number |
| LegacyFavorites.WithoutMovieSingleton | src/lib/favorites.ts:92 | a single entry is dropped iff its id matches |
| LegacyFavorites.ReadList | src/lib/favorites.ts:5-8 | for any key: an absent or empty entry reads as the empty list; a successful read is exactly the stored array; a stored array always reads |
| LegacyFavorites.AddToFavorites | src/lib/favorites.ts:11-31 | only the id key changes; a present id changes nothing and skips the remote call; a new id is appended; on failure the stored list reads as before |
| LegacyFavorites.RemoveFromFavorites | src/lib/favorites.ts:33-49 | only the id key changes; the id is filtered out and the remote call made; on failure the stored list reads as before |
| LegacyFavorites.IsFavorite | src/lib/favorites.ts:51-54 | answers iff the list can be read, and then answers membership |
| LegacyFavorites.ToggleFavorite | src/lib/favorites.ts:56-67 | returns true iff the id was not a favourite before, and afterwards the id is a favourite iff it returned true; only the ids key is written; an accepted removal stores the list without the id, an accepted addition stores the list with the id appended; a failure leaves the list as it was |
| LegacyFavorites.ToggleTwiceRestores | src/lib/favorites.ts:56-67 | two successful toggles of a new id return true then false and leave it absent |
| LegacyFavorites.GetFavoriteMovies | src/lib/favorites.ts:69-74 | the movie list is whatever the id key holds |
| LegacyFavorites.WithoutMovie | src/lib/favorites.ts:92 | no movie with the id remains; every other entry is kept; nothing new appears |
| LegacyFavorites.SaveFavoriteMovie | src/lib/favorites.ts:76-86 | reading from the id key, it writes only the movies key, leaves storage alone if the id is already listed and otherwise writes the read list plus the movie |
| LegacyFavorites.RemoveFavoriteMovie | src/lib/favorites.ts:88-94 | reading from the id key, it writes only the movies key, with every movie of that id filtered out |
| LegacyFavorites.SaveAlwaysWritesOverIds | src/lib/favorites.ts:76-86 | when the id key holds ids, every save overwrites the movies key with those ids plus the movie |
| LegacyFavorites.SaveFavoriteMovieForgetsEarlierSave | src/lib/favorites.ts:76-86 | saving A and then B leaves only B in the movies key |
| LegacyFavorites.RemoveFavoriteMovieForgetsSavedMovie | src/lib/favorites.ts:88-94 | removing B after saving A leaves the movies key empty |
| LegacyFavorites.SaveFavoriteMovieFixed | src/lib/favorites.ts:76-86 | reading the movies key, only the movies key is written; a movie already listed leaves storage unchanged, a new one is appended to the stored list; a read failure is reported |
| LegacyFavorites.RemoveFavoriteMovieFixed | src/lib/favorites.ts:88-94 | reading the movies key, a remove writes that list with the movie filtered out |
| LegacyFavorites.FixedSavesAccumulate | src/lib/favorites.ts:76-94 | two saves keep both movies, and removing one keeps the other |
| FavoritesApi.AddToSet | src/app/api/favorites/add/route.ts:28-33 | the result contains the id and exactly the old members; the id occurs once unless it was there already; the old list is a prefix |
| FavoritesApi.AddToSetIdempotent | src/app/api/favorites/add/route.ts:28-33 | inserting the same id twice is the same as once |
| FavoritesApi.PullUndoesAddToSet | src/app/api/favorites/remove/route.ts:28-33 | pulling a freshly inserted id gives back the original list |
| FavoritesApi.AddToSetKeepsDistinct | src/app/api/favorites/add/route.ts:28-33 | a duplicate-free list stays duplicate-free |
| FavoritesApi.ApplyChange | src/app/api/favorites/remove/route.ts:28-33 | an add sets the field to the set insert; a pull leaves exactly the old list with every copy of the id removed |
| FavoritesApi.PostChange | src/app/api/favorites/add/route.ts:6-53 | the status is one of five; a thrown session lookup gives 500, a falsy user id 401, an unreadable body 500, a falsy movie id 400, an unreachable database 500, a missing user 404; 200 iff the request is accepted, replying the stored list; only 200 changes the database |
| FavoritesApi.AddFavorite | src/app/api/favorites/add/route.ts:28-45 | an accepted add stores and returns the set insert, which contains the id; anything else leaves the database alone and is not 200 |
| FavoritesApi.RemoveFavorite | src/app/api/favorites/remove/route.ts:28-45 | an accepted remove stores and returns the pulled list, which lacks the id, and no other user's document changes; anything else leaves the database alone and is not 200 |
| FavoritesApi.GetFavorites | src/app/api/favorites/route.ts:8-34 | a thrown session lookup 500, a falsy user id 401, an unreachable database 500, a missing user 404, in that order; 200 iff a signed-in user exists, returning the stored list or the empty list when unset |
| FavoritesApi.UnauthorizedBeforeBody | src/app/api/favorites/add/route.ts:10-17 | without a session the reply is 401 whatever the body and the database |
| FavoritesApi.OnlyOwnDocumentChanges | src/app/api/favorites/add/route.ts:28-33 | an accepted change leaves every other user's document as it was |
| FavoritesApi.AddIsIdempotent | src/app/api/favorites/add/route.ts:28-45 | repeating an accepted add returns the same list and database |
| FavoritesApi.RemoveAbsentIsNoOp | src/app/api/favorites/remove/route.ts:28-33 | removing an id the user does not have leaves the database unchanged |
| FavoritesApi.ListingReflectsLastChange | src/app/api/favorites/route.ts:18-26 | after an accepted change, the listing returns exactly the list the change returned |
| FavoritesSync.ClientOutcome | src/lib/favorites-client.ts:16-29 | the call succeeds iff the reply is 2xx; a failure carries the server's error message when it is truthy, and otherwise the fallback message |
| FavoritesSync.FetchOutcome | src/lib/favorites-client.ts:4-14 | the fetch succeeds iff the reply is 2xx, and yields the returned list or the empty list; a failure carries the server's message or `Failed to fetch favorites` |
| FavoritesSync.AddConverges | src/contexts/FavoritesContext.tsx:98-121 | after an add through the real endpoint, the provider's list and the server's stored list hold the same ids |
| FavoritesSync.RemoveConverges | src/contexts/FavoritesContext.tsx:123-146 | after a remove through the real endpoint, the provider's list and the server's stored list hold the same ids |
| Domain.Ids | src/components/movies/MovieList.tsx:71 | the id set holds exactly the ids of the listed movies |
| MovieList.SelectFeed | src/components/movies/MovieList.tsx:48-65 | a search iff the query is non-empty, carrying that query; otherwise the listing of the current category |
| MovieList.FeedPath | src/lib/tmdb.ts:19-52 | every path is absolute; the search path is the only one under `/search`, and every listing lies under `/movie/` |
| MovieList.DispatchPaths | src/components/movies/MovieList.tsx:48-65 | a non-empty query always searches; otherwise distinct categories use distinct listing endpoints, none of them search |
| MovieList.FreshOnly | src/components/movies/MovieList.tsx:71-73 | keeps exactly the results whose id is not already shown |
| MovieList.FreshOnlyConcat | src/components/movies/MovieList.tsx:71-73 | filtering distributes over concatenation, so kept results stay in response order |
| MovieList.Merge | src/components/movies/MovieList.tsx:69-74 | the shown list is a prefix; every appended movie is new and from the response; every new response movie is appended |
| MovieList.MergeKeepsIdsUnique | src/components/movies/MovieList.tsx:69-74 | merging duplicate-free lists gives a duplicate-free list |
| MovieList.MergeIdempotent | src/components/movies/MovieList.tsx:69-74 | merging the same page twice adds nothing the second time |
| MovieList.AllSeenLeavesNothing | src/components/movies/MovieList.tsx:71-73 | a page whose movies are all shown appends nothing |
| MovieList.FetchMovies | src/components/movies/MovieList.tsx:32-85 | loading flags end false; success appends by merge or replaces, takes the page count and clears the error on page 1; failure keeps list and count and sets the error message |
| MovieList.Reload | src/components/movies/MovieList.tsx:87-94 | a reload requests page 1 of the selected feed and shows exactly its results with the error cleared; on failure the list is kept and the error set |
| MovieList.LoadMore | src/components/movies/MovieList.tsx:96-106 | fires iff pages remain and no load-more is running; then requests the next page of the selected feed, merges a fetched page into the shown list and takes its page count, or on failure keeps the list and sets the error; loading flags end false; otherwise nothing changes |
| MovieList.HandleCategoryChange | src/components/movies/MovieList.tsx:123-128 | applies iff the category differs and there is no query, resetting to page 1; otherwise nothing changes |
| MovieList.CategoryChangeShowsNewListing | src/components/movies/MovieList.tsx:87-128 | after a category change without a query, the reload shows the new category's first page |
| RegisterForm.EmailShapeIsRegex | src/components/auth/RegisterForm.tsx:27-28 | the bounded search agrees with the unanchored pattern non-space+ `@` non-space+ `.` non-space+ |
| RegisterForm.TestEmail | src/components/auth/RegisterForm.tsx:27-28 | returns true iff the email matches the unanchored pattern, by a scan that decides the same question as the form's check |
| RegisterForm.ValidateForm | src/components/auth/RegisterForm.tsx:23-36 | each field has an error iff its rule fails, with the field's message, and no other key appears |
| RegisterForm.ValidIffAllRulesPass | src/components/auth/RegisterForm.tsx:35 | the form is valid iff every rule passes |
| RegisterForm.HandleChange | src/components/auth/RegisterForm.tsx:38-44 | only the edited field changes; only its error, if set, is blanked; every other error stays |
| RegisterForm.HandleSubmit | src/components/auth/RegisterForm.tsx:46-62 | a request is sent iff the form is valid, carrying name, email and password |
| RegisterForm.SubmittedRequestIsValid | src/components/auth/RegisterForm.tsx:48-61 | every request sent has a name, a well-formed email and a password of at least six characters |
| RouteGuard.OrDefault | src/components/auth/RouteGuard.tsx:29 | a truthy target is used as is; otherwise the fallback |
| RouteGuard.AuthGuard | src/components/auth/RouteGuard.tsx:14-52 | an omitted `requireAuth` counts as true; loading shows the loading view; a required sign-in without a session and a guest page with a session redirect and show loading; everything else renders the children with no redirect |
| RouteGuard.RedirectMeansLoadingView | src/components/auth/RouteGuard.tsx:22-51 | a redirect always comes with the loading view and a settled status |
| RouteGuard.OmittedRequirementProtects | src/components/auth/RouteGuard.tsx:14-18 | a guard without `requireAuth` behaves as one that requires a session |
| RouteGuard.ProtectedPage | src/components/auth/RouteGuard.tsx:54-66 | requires sign-in, redirects to `/login` by default, and shows the page iff signed in |
| RouteGuard.GuestOnlyPage | src/components/auth/RouteGuard.tsx:68-80 | requires no session, redirects to `/` by default, and shows the page iff signed out |
| RouteGuard.WrappersPartitionSettledSessions | src/components/auth/RouteGuard.tsx:54-80 | once the status is settled, exactly one of the two wrappers shows its page |
| TmdbImages.ImageBaseUrl | src/lib/tmdb.ts:6 | a configured base is used when truthy; otherwise the public TMDB image host |
| TmdbImages.Join | src/lib/tmdb.ts:71 | the URL is base, a slash, the size and the path, each recoverable at its offset |
| TmdbImages.GetImageUrl | src/lib/tmdb.ts:69-72 | a falsy path gives the poster placeholder; otherwise base, `/`, size (default `w500`) and path |
| TmdbImages.GetBackdropUrl | src/lib/tmdb.ts:74-77 | a falsy path gives the backdrop placeholder; otherwise base, `/`, size (default `w1280`) and path |
| TmdbImages.PathRecoverable | src/lib/tmdb.ts:69-77 | different paths give different URLs for the same base and size |
| TmdbImages.RealImageIsNotPlaceholder | src/lib/tmdb.ts:69-77 | a real path never yields a placeholder URL |
| AuthClient.ClearStoredUser | src/lib/auth-client.ts:42-49 | exactly the four `movie-explorer-*` session keys disappear; everything else is untouched |
| AuthClient.DecodeUser | src/lib/auth-client.ts:14 | a user is decoded exactly from a stored user document |
| AuthClient.DecodeFavorites | src/lib/auth-client.ts:16-19 | an absent favourites key reads as the empty list; otherwise the stored id list |
| AuthClient.GetStoredUser | src/lib/auth-client.ts:4-27 | no user without both token and user keys; a returned user is the stored one with favourites from the favourites key; a decode failure clears the session keys |
| AuthClient.StoreUser | src/lib/auth-client.ts:29-40 | exactly the token, user and favourites keys are written, and each decodes to what was stored |
| AuthClient.GetStoredToken | src/lib/auth-client.ts:51-54 | returns the token slot iff one is stored |
| AuthClient.StoreThenRead | src/lib/auth-client.ts:4-54 | storing a user with a non-empty token and reading back yields that user and that token |
| AuthClient.EmptyTokenIsNotASession | src/lib/auth-client.ts:11 | a user stored with an empty token is not read back |
| AuthClient.ClearThenRead | src/lib/auth-client.ts:4-54 | after clearing, neither a user nor a token is read back |
| AuthContext.Initialize | src/contexts/AuthContext.tsx:34-62 | loading ends; authenticated iff storage is readable and holds a user, which becomes the state's user; otherwise no user; storage is what the stored-user read leaves behind |
| AuthContext.Login | src/contexts/AuthContext.tsx:64-71 | authenticated with the given user, not loading, and storage is the old storage with exactly the token, user and favourite-ids keys written |
| AuthContext.Logout | src/contexts/AuthContext.tsx:73-80 | no user, not authenticated, storage is the old storage with exactly the session keys removed, and it no longer yields a user |
| AuthContext.UpdateUser | src/contexts/AuthContext.tsx:82-87 | only the user changes; the flags and storage are preserved |
| AuthContext.TransitionsKeepConsistent | src/contexts/AuthContext.tsx:28-87 | being authenticated implies having a user, initially and across every transition |
| AuthContext.ReloadAfterLoginRestoresSession | src/contexts/AuthContext.tsx:34-71 | initializing from the storage a login left behind restores that user |
| AuthContext.ReloadAfterLogoutStaysSignedOut | src/contexts/AuthContext.tsx:34-80 | initializing from the storage a logout left behind is signed out |
| AuthContext.UpdateWhileSignedOut | src/contexts/AuthContext.tsx:82-87 | an update while signed out sets a user without authenticating |
| ConfirmationModal.ShowModal | src/hooks/useConfirmationModal.ts:29-35 | each field is the config's value or the default, and the modal is open |
| ConfirmationModal.HideModal | src/hooks/useConfirmationModal.ts:37-40 | back to the closed default (`Confirm`, `Cancel`, danger) with loading off |
| ConfirmationModal.Confirm | src/hooks/useConfirmationModal.ts:42-52 | runs the stored action, logs iff it failed, and always ends hidden with loading off |
| ConfirmationModal.ConfirmOutcomeIrrelevant | src/hooks/useConfirmationModal.ts:42-52 | success and failure of the action leave the same hook state |
| ConfirmationModal.ShowThenConfirm | src/hooks/useConfirmationModal.ts:29-52 | confirming a shown modal runs the configured action and closes |
| ConfirmationModal.ConfigCannotKeepClosed | src/hooks/useConfirmationModal.ts:33 | a config asking for a closed modal still opens it |
| AuthFallback.FindByEmail | src/lib/auth-fallback.ts:41 | finds a position holding the email, or none iff no account has it |
| AuthFallback.RegisterUser | src/lib/auth-fallback.ts:37-64 | fails with `User already exists` iff the email is taken, and succeeds iff it is free; a success appends exactly the new account with empty favourites and returns it without the password |
| AuthFallback.RegisterKeepsEmailsDistinct | src/lib/auth-fallback.ts:41-56 | registration keeps emails unique |
| AuthFallback.LoginUser | src/lib/auth-fallback.ts:66-85 | succeeds iff the email is known and the password verifies, returning that account without its password; every failure is `Invalid credentials` |
| AuthFallback.GetUserById | src/lib/auth-fallback.ts:87-99 | none iff no account has the id; otherwise an account with that id, without its password |
| AuthFallback.RegisterThenSignIn | src/lib/auth-fallback.ts:37-99 | a fresh registration can sign in with its password and be found by its id |

## Left out

- Browser storage is a map of strings to slots. A slot is raw text or a JSON document the application wrote. Text never parses. A JSON value of the wrong shape, such as `null` or an object where a list is expected, counts as unreadable rather than being stored as is.
- Every `typeof window` check assumes the browser side; server-side rendering is not modelled.
- Network calls, MongoDB, the session lookup and the TMDB fetchers are inputs. Their result is an `Outcome`, an `Attempt` or a reply; the route handlers keep only their decision logic.
- bcrypt hashing and verification, JWT token generation and NextAuth are left out. `AuthFallback` takes the hash, a verify function and the fresh id as parameters. Id generation from `Date.now` and `Math.random` is therefore not modelled.
- Concurrency is not modelled. Each operation is atomic, and nothing is claimed about overlapping optimistic updates or the `isLoading` flags visible while a call is in flight.
- React scheduling, console logging, timers, scroll geometry, rendering and the favourites page's parallel removals are left out.
- `refreshFavorites` is the same operation as `FavoritesContext.LoadFavorites`.
- AuthContext.Initialize: a thrown storage error is a boolean `storageFault` input. The model does not say which storage access threw.
- RegisterForm.ValidateForm: password length counts characters, not UTF-16 code units, so strings outside the Basic Multilingual Plane are not modelled.
- FavoritesApi.PostChange: the request body's `movieId` is an optional integer. A non-numeric JSON value, and a body that fails to parse as anything other than a thrown error, are not modelled.
- ConfirmationModal.ShowModal: a config field set explicitly to `undefined` is treated as absent.
- LegacyFavorites.AddToFavorites: revert on failure restores the list as read, not the raw storage. An absent key is afterwards an empty list, as in the code.
- AuthClient.StoreThenRead: the round trip holds only for a non-empty token, because an empty token reads as no session.

## Findings

| source | as written | input that shows it | evidently intended | confidence | as-written member | corrected member |
|---|---|---|---|---|---|---|
| src/lib/favorites.ts:76-86 | `saveFavoriteMovie` reads the list from `movie-explorer-favorites` (through `getFavoriteMovies`) but writes it to `movie-explorer-favorite-movies` | empty storage; save movie 1, then save movie 2: the movies key holds only movie 2 | read and write the same movies key, so saved movies accumulate | high (not executed) | LegacyFavorites.SaveFavoriteMovieForgetsEarlierSave | LegacyFavorites.FixedSavesAccumulate |
| src/lib/favorites.ts:88-94 | `removeFavoriteMovie` filters the list read from `movie-explorer-favorites` and writes it to `movie-explorer-favorite-movies` | empty storage; save movie 1, then remove movie 2: the movies key becomes empty and movie 1 is lost | filter the saved-movie list itself | high (not executed) | LegacyFavorites.RemoveFavoriteMovieForgetsSavedMovie | LegacyFavorites.RemoveFavoriteMovieFixed |
