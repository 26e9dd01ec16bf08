/** `userService`: the module-level mock table of users, looked up and extended by e-mail
    address compared without regard to case. */
module UserService {
  import opened Wrappers
  import opened Collections
  import opened Text

  datatype User = User(id: string, name: string, email: string)

  const INITIAL_USERS: seq<User> := [User("user_1", "Usuário Teste", "teste@exemplo.com")]

  /** The message `register` rejects with when the address is already in use. */
  const EMAIL_IN_USE: string := "Este e-mail já está em uso."

  /** `a.toLowerCase() === b.toLowerCase()`: the addresses have the same length and agree
      character by character once each character is lower-cased. */
  function SameEmail(a: string, b: string): (same: bool)
    ensures same <==> |a| == |b| && forall i :: 0 <= i < |a| ==> LowerChar(a[i]) == LowerChar(b[i])
  {
    assert |a| == |b| && (forall i :: 0 <= i < |a| ==> LowerChar(a[i]) == LowerChar(b[i])) ==>
           Lower(a) == Lower(b);
    Lower(a) == Lower(b)
  }

  /** `users.find(u => u.email.toLowerCase() === email.toLowerCase())`: the first user whose
      address matches, if any. */
  function FindByEmail(users: seq<User>, email: string): (r: Option<User>)
    ensures r.None? <==> forall i :: 0 <= i < |users| ==> !SameEmail(users[i].email, email)
    ensures r.Some? ==> exists i :: 0 <= i < |users| && users[i] == r.value && SameEmail(r.value.email, email) &&
                                    forall j :: 0 <= j < i ==> !SameEmail(users[j].email, email)
  {
    Find(users, (u: User) => SameEmail(u.email, email))
  }

  /** `users.some(u => u.email.toLowerCase() === email.toLowerCase())`. */
  function EmailTaken(users: seq<User>, email: string): (b: bool)
    ensures b <==> exists i :: 0 <= i < |users| && SameEmail(users[i].email, email)
    ensures b <==> FindByEmail(users, email).Some?
  {
    AnyIffFind(users, (u: User) => SameEmail(u.email, email));
    Any(users, (u: User) => SameEmail(u.email, email))
  }

  /** No two users have addresses that differ only in case. */
  ghost predicate UniqueEmails(users: seq<User>)
  {
    forall i, j :: 0 <= i < j < |users| ==> !SameEmail(users[i].email, users[j].email)
  }

  lemma InitialUnique()
    ensures UniqueEmails(INITIAL_USERS)
  {
  }

  /** Appending a user whose address is not taken keeps the addresses unique. */
  lemma RegisterKeepsUnique(users: seq<User>, u: User)
    requires UniqueEmails(users)
    requires !EmailTaken(users, u.email)
    ensures UniqueEmails(users + [u])
  {
    var s := users + [u];
    forall i, j | 0 <= i < j < |s|
      ensures !SameEmail(s[i].email, s[j].email)
    {
      if j == |users| {
        assert !SameEmail(users[i].email, u.email);
      }
    }
  }

  /** Once a user is appended with an address nobody had, logging in with any casing of
      that address finds exactly that user. */
  lemma LoginFindsRegistered(users: seq<User>, u: User, email: string)
    requires !EmailTaken(users, u.email)
    requires SameEmail(email, u.email)
    ensures FindByEmail(users + [u], email) == Some(u)
  {
    FindAppend(users, u, (v: User) => SameEmail(v.email, email));
  }

  /** With unique addresses, every stored user is what a login with any casing of its own
      address finds. */
  lemma LoginFindsEveryUser(users: seq<User>, i: nat, email: string)
    requires UniqueEmails(users)
    requires i < |users|
    requires SameEmail(email, users[i].email)
    ensures FindByEmail(users, email) == Some(users[i])
  {
    var r := FindByEmail(users, email);
    var k :| 0 <= k < |users| && users[k] == r.value && SameEmail(r.value.email, email) &&
             forall j :: 0 <= j < k ==> !SameEmail(users[j].email, email);
    assert !(i < k);
    assert !(k < i);
  }

  /** The mock table, extended in place by `register` (push). */
  class UserStore {
    var users: seq<User>

    ghost predicate Valid()
      reads this
    {
      UniqueEmails(users)
    }

    constructor ()
      ensures Valid()
      ensures users == INITIAL_USERS
    {
      users := INITIAL_USERS;
    }

    /** `login`: the user with that address in any casing, or `null`; the table is not changed. */
    method Login(email: string) returns (r: Option<User>)
      ensures r == FindByEmail(users, email)
    {
      r := FindByEmail(users, email);
    }

    /** `register`: rejects an address already in use (in any casing) and changes nothing;
        otherwise appends one new user and returns it. `now` stands for `Date.now()`. */
    method Register(name: string, email: string, now: nat) returns (r: Result<User, string>)
      requires Valid()
      modifies this
      ensures Valid()
      ensures EmailTaken(old(users), email) ==> r == Failure(EMAIL_IN_USE) && users == old(users)
      ensures !EmailTaken(old(users), email) ==>
                r == Success(User("user_" + Decimal(now), name, email)) && users == old(users) + [r.value]
    {
      if EmailTaken(users, email) {
        return Failure(EMAIL_IN_USE);
      }
      var newUser := User("user_" + Decimal(now), name, email);
      RegisterKeepsUnique(users, newUser);
      users := users + [newUser];
      r := Success(newUser);
    }
  }
}
