/** The account manager and the user methods of the users application. */
module Accounts {
  import opened Wrappers
  import opened Store

  /** `not email` in Python: the email is absent or the empty string. */
  predicate Falsy(email: Option<string>) {
    email.None? || email.value == ""
  }

  /** Some existing user already has this username or this email. */
  predicate Taken(db: Db, username: string, email: string) {
    exists v :: v in db.users && (db.users[v].username == username || db.users[v].email == email)
  }

  /**
    `create_user`: refuses a falsy email before anything is stored; then
    saves a new active, unsubscribed user, which the unique username and
    email columns refuse when either is already in use. `id` is the key the
    database sequence hands out.
   */
  function CreateUser(db: Db, id: UserId, username: string, firstName: string, lastName: string,
                      email: Option<string>): (r: Result<Db, Error>)
    requires id !in db.users
    ensures Falsy(email) ==> r == Failure(EmailRequired)
    ensures !Falsy(email) && Taken(db, username, email.value) ==> r == Failure(Duplicate)
    ensures r.Success? <==> !Falsy(email) && !Taken(db, username, email.value)
    ensures r.Success? ==> id in r.value.users
    ensures r.Success? ==> r.value.users[id] == User(username, firstName, lastName, email.value, true, false)
    ensures r.Success? ==> forall v :: v in r.value.users <==> v in db.users || v == id
    ensures r.Success? ==> forall v :: v in db.users ==> r.value.users[v] == db.users[v]
    ensures r.Success? ==> r.value.(users := db.users) == db
  {
    if Falsy(email) then Failure(EmailRequired)
    else if Taken(db, username, email.value) then Failure(Duplicate)
    else Success(db.(users := db.users[id := User(username, firstName, lastName, email.value, true, false)]))
  }

  /** A created user keeps usernames and emails unique, and every other table as it was. */
  lemma CreateUserPreservesValid(db: Db, id: UserId, username: string, firstName: string, lastName: string,
                                 email: Option<string>)
    requires Valid(db)
    requires id !in db.users
    ensures var r := CreateUser(db, id, username, firstName, lastName, email);
            r.Success? ==> Valid(r.value)
  {
    var r := CreateUser(db, id, username, firstName, lastName, email);
    if r.Success? {
      var db' := r.value;
      forall u, v | u in db'.users && v in db'.users && u != v
        ensures db'.users[u].username != db'.users[v].username && db'.users[u].email != db'.users[v].email
      {
        if u == id {
          assert v in db.users;
        } else if v == id {
          assert u in db.users;
        }
      }
    }
  }

  /** `has_perm`: every user holds every permission, on every object. */
  function HasPerm<T>(user: User, perm: string, obj: Option<T>): (r: bool)
    ensures r
  {
    true
  }

  function FullName(user: User): string {
    user.firstName
  }

  function ShortName(user: User): string {
    user.firstName
  }

  /** Full and short name coincide: both are the first name, whatever the last name. */
  lemma FullNameIsShortName(user: User, last: string)
    ensures FullName(user) == ShortName(user) == user.firstName
    ensures FullName(user.(lastName := last)) == FullName(user)
  {
  }
}
