/** The custom user model: the email address is the login identifier and is
    unique, and the two role properties read the framework's staff and
    superuser flags. */
module Users {
  import opened Results

  datatype User = User(
    id: int,
    email: string,
    username: string,
    firstName: string,
    lastName: string,
    isStaff: bool,
    isSuperuser: bool)

  /** Who sends a request: nobody logged in, or a user. */
  datatype Requester = Anonymous | Authenticated(user: User)

  /** `is_moderator`: a moderator is exactly a staff user. */
  predicate IsModerator(u: User) {
    u.isStaff
  }

  /** `is_admin`: an administrator is exactly a superuser. */
  predicate IsAdmin(u: User) {
    u.isSuperuser
  }

  /** `USERNAME_FIELD`: the field a user logs in with. */
  function LoginId(u: User): string {
    u.email
  }

  /** The `unique=True` constraint on `email`. */
  predicate UniqueEmails(users: seq<User>) {
    forall i, j :: 0 <= i < j < |users| ==> users[i].email != users[j].email
  }

  /** The `unique=True` constraint `AbstractUser` declares on `username`. */
  predicate UniqueUsernames(users: seq<User>) {
    forall i, j :: 0 <= i < j < |users| ==> users[i].username != users[j].username
  }

  /** Primary keys grow along the table, so they are unique too. */
  predicate IdsIncreasing(users: seq<User>) {
    forall i, j :: 0 <= i < j < |users| ==> users[i].id < users[j].id
  }

  /** The account a login identifier names, if any. */
  function FindByLogin(users: seq<User>, login: string): (r: Option<User>)
    ensures r.Some? ==> r.value in users && LoginId(r.value) == login
    ensures r.None? ==> forall k :: 0 <= k < |users| ==> LoginId(users[k]) != login
  {
    if users == [] then None
    else if LoginId(users[0]) == login then Some(users[0])
    else FindByLogin(users[1..], login)
  }

  /** Because emails are unique, a login identifier picks out exactly one account:
      every user is found by their own email. */
  lemma {:induction false} LoginFindsOwner(users: seq<User>, k: int)
    requires UniqueEmails(users)
    requires 0 <= k < |users|
    ensures FindByLogin(users, users[k].email) == Some(users[k])
  {
    if k > 0 {
      assert users[0].email != users[k].email;
      assert UniqueEmails(users[1..]) by {
        forall i, j | 0 <= i < j < |users[1..]| ensures users[1..][i].email != users[1..][j].email {
          assert users[1..][i] == users[i + 1] && users[1..][j] == users[j + 1];
        }
      }
      assert users[1..][k - 1] == users[k];
      LoginFindsOwner(users[1..], k - 1);
    }
  }
}
