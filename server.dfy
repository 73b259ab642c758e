/**
 * The decision logic of the backend's POST handlers (backend/server.js):
 * `/register`, `/login`, `/reserve` and `/api/reserve`. The database is the
 * `Backend` object's two tables; the session is a `Session` object whose
 * `userId` the handlers assign in place. What the database or a library decides
 * (the id an INSERT returns, whether it fails and with which code, the salted
 * bcrypt hash, the bcrypt comparison) arrives as a parameter.
 */
module Server {
  import opened Wrappers
  import opened Http
  import opened Password
  import opened Tables
  import ExclusionAssumption

  const WeakPasswordMsg :=
    "Lozinka mora imati najmanje 15 znakova ILI najmanje 8 znakova s barem jednim malim slovom i jednim brojem."
  const MissingFieldsMsg := "Email i lozinka su obavezni."
  const EmailTakenMsg := "Email već postoji."
  const RegisterServerErrorMsg := "Greška na serveru (register)."
  const BadCredentialsMsg := "Krivi email ili lozinka."
  const LoginServerErrorMsg := "Greška na serveru (login)."
  const PastDateMsg := "Ne možete rezervirati datume u prošlosti."
  const EndBeforeStartMsg := "Datum završetka mora biti nakon datuma početka."
  const AlreadyBookedMsg := "Termin je već rezerviran."
  const ReserveServerErrorMsg := "Greška kod spremanja rezervacije."
  const ApiAlreadyBookedMsg := "Those dates are already reserved."
  const ApiServerErrorMsg := "Server error."

  /** The request bodies; a field the form did not send is None. */
  datatype RegisterForm = RegisterForm(profile: Profile, email: Option<string>, password: Option<string>)
  datatype LoginForm = LoginForm(email: Option<string>, password: Option<string>)
  datatype ReserveForm = ReserveForm(start: DateField, end: DateField)

  /** JavaScript truthiness of a body field: present and not the empty string. */
  predicate Truthy(s: Option<string>) {
    s.Some? && s.value != ""
  }

  // ----- /register -----

  /**
   * The checks `/register` makes before writing anything, in source order;
   * None when all pass. An absent password makes `password.length` throw, which
   * the handler's catch turns into a 500. `emailTaken` is the answer of the
   * uniqueness query, consulted only once the first checks pass.
   */
  function RegisterPrecheck(email: Option<string>, password: Option<string>, emailTaken: bool): (r: Option<Response>)
    ensures password.None? ==> r == Some(Text(500, RegisterServerErrorMsg))
    ensures password.Some? && !IsValidPassword(password.value) ==> r == Some(Text(400, WeakPasswordMsg))
    ensures password.Some? && IsValidPassword(password.value) && !Truthy(email) ==>
      r == Some(Text(400, MissingFieldsMsg))
    ensures password.Some? && IsValidPassword(password.value) && Truthy(email) && emailTaken ==>
      r == Some(Text(400, EmailTakenMsg))
    ensures r.None? <==>
      password.Some? && IsValidPassword(password.value) && Truthy(email) && !emailTaken
    ensures r.Some? ==> r.value.Text? && r.value.status in {400, 500}
  {
    if password.None? then Some(Text(500, RegisterServerErrorMsg))
    else if !IsValidPassword(password.value) then Some(Text(400, WeakPasswordMsg))
    else if !Truthy(email) || !Truthy(password) then Some(Text(400, MissingFieldsMsg))
    else if emailTaken then Some(Text(400, EmailTakenMsg))
    else None
  }

  /** The `!password` half of the presence check can never fire: a valid password is not empty. */
  lemma PasswordPresenceCheckUnreachable(email: Option<string>, password: string, emailTaken: bool)
    requires IsValidPassword(password)
    ensures Truthy(Some(password))
    ensures Truthy(email) ==> RegisterPrecheck(email, Some(password), emailTaken) != Some(Text(400, MissingFieldsMsg))
  {
  }

  // ----- /login -----

  /** What `/login` does once the user lookup has answered. */
  datatype LoginStep = SignIn(id: UserId) | Refuse(response: Response)

  /**
   * `found` is the row the lookup returned, `compare` stands for `bcrypt.compare`.
   * An unknown e-mail and a wrong password get the same answer; an absent
   * password makes `bcrypt.compare` reject, which the catch turns into a 500.
   */
  function LoginDecision(found: Option<User>, password: Option<string>, compare: (string, string) -> bool): (r: LoginStep)
    ensures r.SignIn? <==> found.Some? && password.Some? && compare(password.value, found.value.passwordHash)
    ensures r.SignIn? ==> r.id == found.value.id
    ensures found.None? ==> r == Refuse(Text(400, BadCredentialsMsg))
    ensures found.Some? && password.Some? && !compare(password.value, found.value.passwordHash) ==>
      r == Refuse(Text(400, BadCredentialsMsg))
    ensures found.Some? && password.None? ==> r == Refuse(Text(500, LoginServerErrorMsg))
  {
    if found.None? then Refuse(Text(400, BadCredentialsMsg))
    else if password.None? then Refuse(Text(500, LoginServerErrorMsg))
    else if !compare(password.value, found.value.passwordHash) then Refuse(Text(400, BadCredentialsMsg))
    else SignIn(found.value.id)
  }

  // ----- /reserve and /api/reserve -----

  /** `d < today`; Invalid Date compares false. */
  predicate BeforeDay(d: DateField, today: Day) {
    d.Some? && d.value < today
  }

  /** `a < b` on two parsed dates; false if either is Invalid Date. */
  predicate Earlier(a: DateField, b: DateField) {
    a.Some? && b.Some? && a.value < b.value
  }

  /**
   * The date checks of `/reserve`: a date before today is refused first, then an
   * end strictly before the start. None lets the request through to the insert.
   */
  function ReserveCheck(today: Day, start: DateField, end: DateField): (r: Option<Response>)
    ensures r == Some(Text(400, PastDateMsg)) <==> BeforeDay(start, today) || BeforeDay(end, today)
    ensures r == Some(Text(400, EndBeforeStartMsg)) <==>
      !BeforeDay(start, today) && !BeforeDay(end, today) && Earlier(end, start)
    ensures r.None? <==> !BeforeDay(start, today) && !BeforeDay(end, today) && !Earlier(end, start)
  {
    if BeforeDay(start, today) || BeforeDay(end, today) then Some(Text(400, PastDateMsg))
    else if Earlier(end, start) then Some(Text(400, EndBeforeStartMsg))
    else None
  }

  /** On two real days the check admits exactly `today <= start <= end`: a zero-night stay included. */
  lemma ReserveCheckOnDays(today: Day, start: Day, end: Day)
    ensures ReserveCheck(today, Some(start), Some(end)).None? <==> today <= start <= end
    ensures ReserveCheck(today, Some(start), Some(end)) == Some(Text(400, PastDateMsg)) <==>
      start < today || end < today
  {
  }

  /** An unparsable date fails no comparison, so it passes both checks. */
  lemma InvalidDatesPassChecks(today: Day, d: Day)
    requires today <= d
    ensures ReserveCheck(today, None, None).None?
    ensures ReserveCheck(today, None, Some(d)).None?
    ensures ReserveCheck(today, Some(d), None).None?
  {
  }

  /** How `/reserve` answers an INSERT error. */
  function ReserveErrorResponse(code: string): (r: Response)
    ensures r.Text?
    ensures r.status == 400 <==> code == ExclusionViolation
    ensures r.status == 400 ==> r.body == AlreadyBookedMsg
    ensures r.status != 400 ==> r == Text(500, ReserveServerErrorMsg)
  {
    if code == ExclusionViolation then Text(400, AlreadyBookedMsg)
    else Text(500, ReserveServerErrorMsg)
  }

  /** How `/api/reserve` answers an INSERT error. */
  function ApiReserveErrorResponse(code: string): (r: Response)
    ensures r.Json? && !r.ok
    ensures r.status == 409 <==> code == ExclusionViolation
    ensures r.status == 409 ==> r.message == Some(ApiAlreadyBookedMsg)
    ensures r.status != 409 ==> r.status == 500 && r.message == Some(ApiServerErrorMsg)
  {
    if code == ExclusionViolation then Json(409, false, Some(ApiAlreadyBookedMsg))
    else Json(500, false, Some(ApiServerErrorMsg))
  }

  /** The two entry points classify an insert error alike: conflict or server error. */
  lemma ErrorMappingsAgree(code: string)
    ensures ReserveErrorResponse(code).status == 400 <==> ApiReserveErrorResponse(code).status == 409
    ensures ReserveErrorResponse(code).status == 500 <==> ApiReserveErrorResponse(code).status == 500
  {
  }

  /** `req.session`: the only field the handlers touch is `userId`. */
  class Session {
    var userId: Option<UserId>

    constructor ()
      ensures userId == None
    {
      userId := None;
    }
  }

  /** The database: the `users` and `reservations` tables. */
  class Backend {
    var users: seq<User>
    var reservations: seq<Reservation>

    /** Every handler keeps e-mail addresses unique (requests handled one at a time). */
    ghost predicate Valid()
      reads this
    {
      UniqueEmails(users)
    }

    constructor ()
      ensures Valid() && users == [] && reservations == []
    {
      users := [];
      reservations := [];
    }

    /** `POST /register`. `passwordHash` is what `bcrypt.hash` produced. */
    method Register(session: Session, form: RegisterForm, passwordHash: string, insert: InsertOutcome<UserId>)
      returns (res: Response)
      requires Valid()
      modifies this, session
      ensures Valid()
      ensures reservations == old(reservations)
      ensures var rejection := RegisterPrecheck(form.email, form.password, FindByEmail(old(users), form.email).Some?);
        if rejection.Some? then
          res == rejection.value && users == old(users) && session.userId == old(session.userId)
        else match insert
          case Inserted(id) =>
            users == old(users) + [User(id, form.profile, form.email.value, passwordHash)] &&
            session.userId == Some(id) && res == Redirect("/")
          case Failed(_) =>
            users == old(users) && session.userId == old(session.userId) &&
            res == Text(500, RegisterServerErrorMsg)
    {
      if form.password.None? {
        return Text(500, RegisterServerErrorMsg);
      }
      if !IsValidPassword(form.password.value) {
        return Text(400, WeakPasswordMsg);
      }
      if !Truthy(form.email) || !Truthy(form.password) {
        return Text(400, MissingFieldsMsg);
      }
      var existing := FindByEmail(users, form.email);
      if existing.Some? {
        return Text(400, EmailTakenMsg);
      }
      match insert {
        case Failed(_) =>
          res := Text(500, RegisterServerErrorMsg);
        case Inserted(id) =>
          var user := User(id, form.profile, form.email.value, passwordHash);
          AddUserKeepsEmailsUnique(users, user);
          users := users + [user];
          session.userId := Some(id);
          res := Redirect("/");
      }
    }

    /** `POST /login`. `compare` stands for `bcrypt.compare`. */
    method Login(session: Session, form: LoginForm, compare: (string, string) -> bool) returns (res: Response)
      modifies session
      ensures match LoginDecision(FindByEmail(users, form.email), form.password, compare)
        case SignIn(id) => session.userId == Some(id) && res == Redirect("/")
        case Refuse(r) => session.userId == old(session.userId) && res == r
      ensures forall k :: Valid() && 0 <= k < |users| && form.email == Some(users[k].email) ==>
        LoginDecision(FindByEmail(users, form.email), form.password, compare) ==
        LoginDecision(Some(users[k]), form.password, compare)
    {
      forall k | Valid() && 0 <= k < |users| && form.email == Some(users[k].email) {
        FindByEmailIsUnique(users, k);
      }
      var found := FindByEmail(users, form.email);
      if found.None? {
        return Text(400, BadCredentialsMsg);
      }
      var user := found.value;
      if form.password.None? {
        return Text(500, LoginServerErrorMsg);
      }
      var ok := compare(form.password.value, user.passwordHash);
      if !ok {
        return Text(400, BadCredentialsMsg);
      }
      session.userId := Some(user.id);
      res := Redirect("/");
    }

    /**
     * `POST /reserve` behind `requireAuth`; `today` is the server's current day.
     * Under the assumed exclusion constraint the table stays free of overlaps.
     */
    method Reserve(session: Session, form: ReserveForm, today: Day, insert: InsertOutcome<()>) returns (res: Response)
      modifies this
      ensures users == old(users)
      ensures !LoggedIn(session.userId) ==> res == Redirect("/login") && reservations == old(reservations)
      ensures LoggedIn(session.userId) ==>
        var rejection := ReserveCheck(today, form.start, form.end);
        if rejection.Some? then
          res == rejection.value && reservations == old(reservations)
        else match insert
          case Inserted(_) =>
            reservations == old(reservations) + [Reservation(session.userId.value, form.start, form.end)] &&
            res == Redirect("/")
          case Failed(code) =>
            reservations == old(reservations) && res == ReserveErrorResponse(code)
      ensures LoggedIn(session.userId) ==>
        var row := Reservation(session.userId.value, form.start, form.end);
        ExclusionAssumption.Known(row) && insert == ExclusionAssumption.AssumedInsert(old(reservations), row) &&
        ExclusionAssumption.Disjoint(old(reservations)) ==>
          ExclusionAssumption.Disjoint(reservations)
    {
      var guard := RequireAuth(session.userId);
      if guard.Stop? {
        return guard.response;
      }
      var rejection := ReserveCheck(today, form.start, form.end);
      if rejection.Some? {
        return rejection.value;
      }
      InsertReservation(Reservation(session.userId.value, form.start, form.end), insert);
      if insert.Failed? {
        res := ReserveErrorResponse(insert.code);
      } else {
        res := Redirect("/");
      }
    }

    /** `POST /api/reserve` behind `requireAuth`: no date check at all before the insert. */
    method ApiReserve(session: Session, form: ReserveForm, insert: InsertOutcome<()>) returns (res: Response)
      modifies this
      ensures users == old(users)
      ensures !LoggedIn(session.userId) ==> res == Redirect("/login") && reservations == old(reservations)
      ensures LoggedIn(session.userId) ==>
        match insert
        case Inserted(_) =>
          reservations == old(reservations) + [Reservation(session.userId.value, form.start, form.end)] &&
          res == Json(200, true, None)
        case Failed(code) =>
          reservations == old(reservations) && res == ApiReserveErrorResponse(code)
      ensures LoggedIn(session.userId) ==>
        var row := Reservation(session.userId.value, form.start, form.end);
        ExclusionAssumption.Known(row) && insert == ExclusionAssumption.AssumedInsert(old(reservations), row) &&
        ExclusionAssumption.Disjoint(old(reservations)) ==>
          ExclusionAssumption.Disjoint(reservations)
    {
      var guard := RequireAuth(session.userId);
      if guard.Stop? {
        return guard.response;
      }
      InsertReservation(Reservation(session.userId.value, form.start, form.end), insert);
      if insert.Failed? {
        res := ApiReserveErrorResponse(insert.code);
      } else {
        res := Json(200, true, None);
      }
    }

    /** The INSERT both handlers make: the row is appended exactly when the database accepts it. */
    method InsertReservation(row: Reservation, insert: InsertOutcome<()>)
      modifies this
      ensures users == old(users)
      ensures reservations == if insert.Inserted? then old(reservations) + [row] else old(reservations)
      ensures
        ExclusionAssumption.Known(row) && insert == ExclusionAssumption.AssumedInsert(old(reservations), row) &&
        ExclusionAssumption.Disjoint(old(reservations)) ==>
          ExclusionAssumption.Disjoint(reservations)
    {
      if insert.Inserted? {
        if ExclusionAssumption.Known(row) && insert == ExclusionAssumption.AssumedInsert(reservations, row) &&
           ExclusionAssumption.Disjoint(reservations) {
          ExclusionAssumption.AssumedInsertKeepsDisjoint(reservations, row);
        }
        reservations := reservations + [row];
      }
    }
  }
}
