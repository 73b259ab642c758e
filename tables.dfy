/**
 * The two database tables the backend writes, `users` and `reservations`, and
 * the outcome of an awaited INSERT into either of them (backend/server.js).
 */
module Tables {
  import opened Wrappers
  import opened Http

  /** A calendar date as a day number. */
  type Day = int

  /**
   * What `new Date(s)` makes of a date string from a request body: a day, or
   * None for `Invalid Date` (an unparsable or absent field).
   */
  type DateField = Option<Day>

  /** The profile columns `/register` copies from the form as they are. */
  datatype Profile = Profile(
    firstName: Option<string>,
    lastName: Option<string>,
    birthDate: Option<string>,
    gender: Option<string>,
    country: Option<string>)

  datatype User = User(id: UserId, profile: Profile, email: string, passwordHash: string)

  /** A row of `reservations`: the owner and the two dates the request carried. */
  datatype Reservation = Reservation(userId: UserId, start: DateField, end: DateField)

  /** An INSERT either writes its row (returning `T`) or rejects with `err.code`. */
  datatype InsertOutcome<T> = Inserted(returned: T) | Failed(code: string)

  /** PostgreSQL's SQLSTATE for a violated exclusion constraint. */
  const ExclusionViolation := "23P01"

  /** No two users share an e-mail address. */
  ghost predicate UniqueEmails(users: seq<User>) {
    forall i, j :: 0 <= i < j < |users| ==> users[i].email != users[j].email
  }

  /**
   * `SELECT ... FROM users WHERE email=$1`: a user with that e-mail, if any.
   * An absent e-mail is sent as NULL, and `email = NULL` matches no row.
   */
  function FindByEmail(users: seq<User>, email: Option<string>): (r: Option<User>)
    ensures r.Some? ==> r.value in users && email == Some(r.value.email)
    ensures r.None? <==> email.None? || forall u :: u in users ==> u.email != email.value
  {
    if email.None? || users == [] then None
    else if users[0].email == email.value then Some(users[0])
    else FindByEmail(users[1..], email)
  }

  /** Appending a user whose e-mail is not yet taken keeps e-mails unique. */
  lemma AddUserKeepsEmailsUnique(users: seq<User>, u: User)
    requires UniqueEmails(users)
    requires FindByEmail(users, Some(u.email)).None?
    ensures UniqueEmails(users + [u])
  {
  }

  /** With unique e-mails the lookup finds the one user holding the address. */
  lemma FindByEmailIsUnique(users: seq<User>, k: nat)
    requires UniqueEmails(users)
    requires k < |users|
    ensures FindByEmail(users, Some(users[k].email)) == Some(users[k])
  {
  }
}
