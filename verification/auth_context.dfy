/** The client's authentication state: restored from browser storage on
    start, set by login, cleared by logout. */
module AuthContext {
  import opened Common
  import opened Domain
  import opened Storage
  import opened AuthClient

  datatype AuthState = AuthState(user: Option<User>, isLoading: bool, isAuthenticated: bool)

  /** The state before the stored session has been looked at. */
  const InitialAuth: AuthState := AuthState(None, true, false)

  /** Being authenticated always comes with a user. */
  predicate Consistent(s: AuthState) {
    s.isAuthenticated ==> s.user.Some?
  }

  /** The state together with the browser store it goes with. */
  datatype Session = Session(state: AuthState, store: Store)

  /** `initializeAuth`: authenticated with the stored user when there is one;
      unauthenticated when there is none or reading storage threw
      (`storageFault`). Loading is over either way. */
  function Initialize(store: Store, storageFault: bool): (r: Session)
    ensures !r.state.isLoading && Consistent(r.state)
    ensures r.state.isAuthenticated <==> !storageFault && GetStoredUser(store).user.Some?
    ensures r.state.isAuthenticated ==> r.state.user == GetStoredUser(store).user
    ensures !r.state.isAuthenticated ==> r.state.user.None?
    ensures storageFault ==> r.store == store
    ensures !storageFault ==> r.store == GetStoredUser(store).store
  {
    if storageFault then Session(AuthState(None, false, false), store)
    else
      var read := GetStoredUser(store);
      match read.user
      case Some(u) => Session(AuthState(Some(u), false, true), read.store)
      case None => Session(AuthState(None, false, false), read.store)
  }

  /** `login`: the user and token are stored and the state is signed in. */
  function Login(s: Session, user: User, token: string): (r: Session)
    ensures r.state.user == Some(user) && r.state.isAuthenticated && !r.state.isLoading
    ensures UserKey in r.store && TokenKey in r.store
    ensures DecodeUser(r.store[UserKey]) == Some(user) && r.store[TokenKey] == Text(token)
    ensures r.store == StoreUser(s.store, user, token)
  {
    Session(AuthState(Some(user), false, true), StoreUser(s.store, user, token))
  }

  /** `logout`: the stored session is cleared and the state is signed out. */
  function Logout(s: Session): (r: Session)
    ensures r.state.user.None? && !r.state.isAuthenticated && !r.state.isLoading
    ensures GetStoredUser(r.store).user.None?
    ensures r.store == ClearStoredUser(s.store)
  {
    Session(AuthState(None, false, false), ClearStoredUser(s.store))
  }

  /** `updateUser`: only the user changes; storage is not written. */
  function UpdateUser(s: Session, user: User): (r: Session)
    ensures r.state.user == Some(user)
    ensures r.state.isLoading == s.state.isLoading && r.state.isAuthenticated == s.state.isAuthenticated
    ensures r.store == s.store
  {
    Session(s.state.(user := Some(user)), s.store)
  }

  /** Every transition keeps `isAuthenticated ==> user != null`. */
  lemma TransitionsKeepConsistent(s: Session, user: User, token: string, store: Store, fault: bool)
    requires Consistent(s.state)
    ensures Consistent(InitialAuth)
    ensures Consistent(Initialize(store, fault).state)
    ensures Consistent(Login(s, user, token).state)
    ensures Consistent(Logout(s).state)
    ensures Consistent(UpdateUser(s, user).state)
  {
  }

  /** Reloading the page after a login with a non-empty token restores the
      same signed-in state. */
  lemma ReloadAfterLoginRestoresSession(s: Session, user: User, token: string)
    requires token != ""
    ensures var l := Login(s, user, token);
            Initialize(l.store, false) == l
  {
    StoreThenRead(s.store, user, token);
  }

  /** Reloading after a logout comes up signed out. */
  lemma ReloadAfterLogoutStaysSignedOut(s: Session)
    ensures var l := Logout(s);
            Initialize(l.store, false) == l
  {
    ClearThenRead(s.store);
  }

  /** `updateUser` while signed out leaves a user in a signed-out state. */
  lemma UpdateWhileSignedOut(s: Session, user: User)
    requires !s.state.isAuthenticated
    ensures UpdateUser(s, user).state.user.Some? && !UpdateUser(s, user).state.isAuthenticated
  {
  }
}
