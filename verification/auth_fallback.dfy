/** The in-memory user registry used when no database is configured: users
    keyed by email in insertion order, registered with a password hash and a
    generated id (both supplied), signed in by checking the password against
    the hash (the check is a parameter). */
module AuthFallback {
  import opened Common
  import opened Domain

  datatype Account = Account(id: string, email: string, passwordHash: string, name: string, favorites: seq<int>)

  datatype Credentials = Credentials(email: string, password: string, name: string)

  /** The `users` map, as its entries in insertion order. */
  type Registry = seq<Account>

  const UserExists: string := "User already exists"
  const InvalidCredentials: string := "Invalid credentials"

  /** A map has one entry per key. */
  ghost predicate DistinctEmails(reg: Registry) {
    forall i, j :: 0 <= i < j < |reg| ==> reg[i].email != reg[j].email
  }

  /** The account stored under `email`. */
  function FindByEmail(reg: Registry, email: string): (r: Option<nat>)
    ensures r.Some? ==> r.value < |reg| && reg[r.value].email == email
    ensures r.None? <==> forall i :: 0 <= i < |reg| ==> reg[i].email != email
  {
    if |reg| == 0 then None
    else if reg[0].email == email then Some(0)
    else match FindByEmail(reg[1..], email)
      case None => None
      case Some(i) => Some(i + 1)
  }

  /** The client-facing view of an account: everything but the hash. */
  function PublicUser(a: Account): User {
    User(a.id, a.email, a.name, a.favorites)
  }

  datatype Registered = Registered(user: User, registry: Registry)

  /** `registerUser`: a taken email is refused and nothing changes; a new
      email gets an account with the supplied id and hash and no favourites. */
  function RegisterUser(reg: Registry, creds: Credentials, hashed: string, freshId: string): (r: Attempt<Registered>)
    ensures FindByEmail(reg, creds.email).Some? <==> r == Threw(UserExists)
    ensures FindByEmail(reg, creds.email).None? <==> r.Done?
    ensures r.Done? ==> r.value.registry == reg + [Account(freshId, creds.email, hashed, creds.name, [])]
    ensures r.Done? ==> r.value.user == User(freshId, creds.email, creds.name, [])
  {
    if FindByEmail(reg, creds.email).Some? then Threw(UserExists)
    else
      var account := Account(freshId, creds.email, hashed, creds.name, []);
      Done(Registered(PublicUser(account), reg + [account]))
  }

  /** Registration keeps one account per email. */
  lemma RegisterKeepsEmailsDistinct(reg: Registry, creds: Credentials, hashed: string, freshId: string)
    requires DistinctEmails(reg)
    ensures var r := RegisterUser(reg, creds, hashed, freshId);
            r.Done? ==> DistinctEmails(r.value.registry)
  {
  }

  /** `loginUser`: an unknown email and a wrong password fail alike. */
  function LoginUser(reg: Registry, email: string, password: string, verify: (string, string) -> bool): (r: Attempt<User>)
    ensures r.Threw? ==> r.error == InvalidCredentials
    ensures r.Done? <==> FindByEmail(reg, email).Some? && verify(password, reg[FindByEmail(reg, email).value].passwordHash)
    ensures r.Done? ==> r.value == PublicUser(reg[FindByEmail(reg, email).value]) && r.value.email == email
  {
    match FindByEmail(reg, email)
    case None => Threw(InvalidCredentials)
    case Some(i) =>
      if !verify(password, reg[i].passwordHash) then Threw(InvalidCredentials)
      else Done(PublicUser(reg[i]))
  }

  /** `getUserById`: the first account, in insertion order, with that id. */
  function GetUserById(reg: Registry, id: string): (r: Option<User>)
    ensures r.None? <==> forall i :: 0 <= i < |reg| ==> reg[i].id != id
    ensures r.Some? ==> exists i :: 0 <= i < |reg| && reg[i].id == id && r.value == PublicUser(reg[i])
                                    && forall j :: 0 <= j < i ==> reg[j].id != id
  {
    if |reg| == 0 then None
    else if reg[0].id == id then Some(PublicUser(reg[0]))
    else
      var r := GetUserById(reg[1..], id);
      if r.Some? then
        var i :| 0 <= i < |reg[1..]| && reg[1..][i].id == id && r.value == PublicUser(reg[1..][i])
                 && forall j :: 0 <= j < i ==> reg[1..][j].id != id;
        assert reg[i + 1] == reg[1..][i];
        r
      else r
  }

  /** A user who registered can sign in with the password whose hash was
      stored, and is found by the new id. */
  lemma RegisterThenSignIn(reg: Registry, creds: Credentials, hashed: string, freshId: string, verify: (string, string) -> bool)
    requires DistinctEmails(reg)
    requires FindByEmail(reg, creds.email).None?
    requires verify(creds.password, hashed)
    requires forall i :: 0 <= i < |reg| ==> reg[i].id != freshId
    ensures var r := RegisterUser(reg, creds, hashed, freshId);
            LoginUser(r.value.registry, creds.email, creds.password, verify) == Done(r.value.user)
            && GetUserById(r.value.registry, freshId) == Some(r.value.user)
  {
    var r := RegisterUser(reg, creds, hashed, freshId);
    var reg' := r.value.registry;
    assert reg'[|reg|].email == creds.email;
    var k := FindByEmail(reg', creds.email).value;
    assert k == |reg|;
    var u := GetUserById(reg', freshId);
    assert reg'[|reg|].id == freshId;
    var i :| 0 <= i < |reg'| && reg'[i].id == freshId && u.value == PublicUser(reg'[i]);
    assert i == |reg|;
  }
}
