/** `useAuthStore`: the session's two fields, overwritten by `login`, `register` and
    `logout`, which delegate to the user table. */
module AuthStore {
  import opened Wrappers
  import opened Text
  import opened UserService

  /** The error `login` throws when no user has the address. */
  const USER_NOT_FOUND: string := "Usuário não encontrado."

  class Auth {
    var isAuthenticated: bool
    var user: Option<User>

    /** A session is authenticated exactly when it holds a user. */
    ghost predicate Valid()
      reads this
    {
      isAuthenticated <==> user.Some?
    }

    constructor ()
      ensures Valid()
      ensures !isAuthenticated && user == None
    {
      isAuthenticated := false;
      user := None;
    }

    /** `login`: with a user found for that address the session holds it; otherwise it throws
        "Usuário não encontrado." and the session is unchanged. The table is not changed. */
    method Login(email: string, service: UserStore) returns (r: Outcome<string>)
      requires Valid()
      modifies this
      ensures Valid()
      ensures FindByEmail(service.users, email).Some? ==>
                r == Pass && isAuthenticated && user == FindByEmail(service.users, email)
      ensures FindByEmail(service.users, email).None? ==>
                r == Fail(USER_NOT_FOUND) && isAuthenticated == old(isAuthenticated) && user == old(user)
    {
      var found := service.Login(email);
      if found.Some? {
        isAuthenticated, user := true, found;
        r := Pass;
      } else {
        r := Fail(USER_NOT_FOUND);
      }
    }

    /** `register`: a registered user becomes the session's user; a rejection propagates
        with the session unchanged. */
    method Register(name: string, email: string, now: nat, service: UserStore) returns (r: Outcome<string>)
      requires Valid() && service.Valid()
      modifies this, service
      ensures Valid() && service.Valid()
      ensures EmailTaken(old(service.users), email) ==>
                r == Fail(EMAIL_IN_USE) && service.users == old(service.users) &&
                isAuthenticated == old(isAuthenticated) && user == old(user)
      ensures !EmailTaken(old(service.users), email) ==>
                var newUser := User("user_" + Decimal(now), name, email);
                r == Pass && service.users == old(service.users) + [newUser] &&
                isAuthenticated && user == Some(newUser)
    {
      var registered := service.Register(name, email, now);
      if registered.Failure? {
        return Fail(registered.error);
      }
      isAuthenticated, user := true, Some(registered.value);
      r := Pass;
    }

    /** `logout`: the session holds no user; a second logout changes nothing more. */
    method Logout()
      modifies this
      ensures Valid()
      ensures !isAuthenticated && user == None
    {
      isAuthenticated, user := false, None;
    }
  }

  /** A registered user is logged in by the new session, then by a fresh login in another
      casing after a logout. */
  method RegisterLogoutLogin()
  {
    var service := new UserStore();
    var auth := new Auth();
    var r := auth.Register("Ana", "ana@exemplo.com", 1700000000000, service);
    assert !EmailTaken(INITIAL_USERS, "ana@exemplo.com") by {
      assert Lower("ana@exemplo.com") != Lower("teste@exemplo.com");
    }
    assert r == Pass && auth.isAuthenticated;
    var registered := auth.user.value;
    auth.Logout();
    auth.Logout();
    assert !auth.isAuthenticated && auth.user == None;
    assert SameEmail("ANA@exemplo.com", registered.email);
    LoginFindsRegistered(INITIAL_USERS, registered, "ANA@exemplo.com");
    r := auth.Login("ANA@exemplo.com", service);
    assert auth.user == Some(registered);
  }
}
