# Booking site: server decisions and the date picker, in Dafny

This project models the two pieces of the booking site that make
decisions.

- **The backend** (`backend/server.js`). This covers the password-strength rule
  and the two session guards. It also covers the check order of `POST /register`
  and `POST /login`, the date checks of `POST /reserve`, and how an INSERT error
  becomes a response in `POST /reserve` and in `POST /api/reserve`. The database
  is a `Backend` object holding the `users` and `reservations` tables as
  sequences. The session is a `Session` object whose `userId` the handlers
  assign in place. Some values come from outside the handler's code: the id an
  INSERT returns, whether the INSERT fails and with which SQLSTATE code, the
  salted bcrypt hash, the bcrypt comparison, and "today". Each of these is a
  parameter.
- **The date picker** (`Projekt_yolo/js/calendar.js`). This covers the check-in
  and check-out inputs with their `min` attributes, the nights/total summary,
  the reserve button's disabled flag and the popup's hidden flag. It also covers
  the five event handlers. The handlers are pure functions on the pair of dates
  (`CheckinChanged`, `CheckoutChanged`, `AfterEvent`, `Run`). A `BookingWidget`
  class has methods that update its fields in place, and each method is proved
  equal to those functions. The central result is `ReachableDatesAreBookable`.
  Starting from a freshly loaded page, after any sequence of events, whenever
  both dates are set the check-in comes before the check-out. In that state
  there is at least one night and the summary computed by `updateSummary`
  enables the reserve button; in every other state it disables it. The page
  does not call `updateSummary` when it loads, so until the first handler has
  run the button shows whatever the markup says; every handler that changes
  the dates refreshes the summary (`BookingWidget.SummaryCurrent`).

Dates are day numbers. A date string that JavaScript cannot parse becomes
`Invalid Date` on the server. An empty date input on the page is treated the same
way. Both are modelled as `None`, and every `<` or `<=` involving `None` is
false, as in JavaScript.

Behaviour modelled as the code has it:

- `/reserve` accepts `end == start`, because its range check is a strict `<`.
  A request with an unparsable date passes both checks and reaches the INSERT.
- `/api/reserve` checks no dates at all.
- The model takes the body fields as parsed and lets any of them be `None`
  (absent).
- `requireAuth` answers an unauthenticated `/api/reserve` call with a redirect to
  `/login`, not with a 401.
- `req.session.userId` is tested for JavaScript truthiness, so a session holding
  the id `0` counts as logged out (`Http.LoggedIn`).
- In `/register`, an absent password makes `password.length` throw. The catch
  answers 500. The `!password` half of the presence check can never fire,
  because a valid password is at least 8 characters long.
- In `/login`, an absent password with a known e-mail makes `bcrypt.compare`
  reject. The catch answers 500.
- On the page, the check-out handler never resets `checkout.min` when the
  check-in is emptied, and the check-in handler resets `checkin.min`, which is
  always today already. `BookingWidget.Valid` records this: `checkinMin` is
  always today, `checkoutMin` is never before today, and `checkoutMin` equals
  the check-in while one is chosen.

`ExclusionAssumption` is an **assumption**, labelled as such in the code. The
handlers mention a daterange exclusion constraint, but its definition is not
part of this model. The module assumes the usual half-open form
`EXCLUDE USING gist (daterange(start_date, end_date) WITH &&)`. Under that
assumption it proves three things:

- an admitted insert keeps the table free of overlapping stays;
- the same non-empty interval is refused the second time;
- a zero-night stay, which `/reserve` lets through, never conflicts.

The handlers themselves never rely on it. They take the INSERT's outcome as
given.

## Model

| member | source | states |
|---|---|---|
| `Http.RequireAuth` | backend/server.js:62-65 | the request proceeds exactly when `userId` is truthy; otherwise it is redirected to `/login` |
| `Http.PreventAuthPagesForLoggedIn` | backend/server.js:67-70 | the request is redirected to `/` exactly when `userId` is truthy; otherwise it proceeds |
| `Http.GuardsAreComplementary` | backend/server.js:62-70 | every session passes exactly one of the two guards |
| `Password.Test` | backend/server.js:16-17 | `/[a-z]/.test` and `/[0-9]/.test` hold exactly when some character is in the class |
| `Password.IsValidPassword` | backend/server.js:13-22 | valid iff length ≥ 15, or length ≥ 8 with a lower-case letter and a digit; under 8 always refused, 15 or more always accepted |
| `Tables.FindByEmail` | backend/server.js:155-156 | a returned user is in the table with that e-mail; none is returned iff the e-mail is absent (NULL) or no user has it |
| `Tables.AddUserKeepsEmailsUnique` | backend/server.js:120-139 | inserting a user whose e-mail the uniqueness query did not find keeps e-mails unique |
| `Tables.FindByEmailIsUnique` | backend/server.js:155-158 | with unique e-mails, the login lookup returns the one user holding the address |
| `ExclusionAssumption.AssumedInsert` | backend/server.js:223-229 | (assumption) the insert fails with 23P01 iff a well-ordered range shares a night with an existing row; an admitted row overlaps no existing row |
| `ExclusionAssumption.AssumedInsertKeepsDisjoint` | backend/server.js:223-229 | (assumption) an admitted insert keeps the table free of overlaps |
| `ExclusionAssumption.SameIntervalTwiceConflicts` | backend/server.js:223-229 | (assumption) a non-empty interval admitted once is refused with 23P01 the second time |
| `ExclusionAssumption.ZeroNightsNeverConflict` | backend/server.js:186-192 | (assumption) a stay with `end == start`, which `/reserve` admits, never conflicts |
| `Server.RegisterPrecheck` | backend/server.js:111-122 | check order of `/register`: absent password → 500, weak password → 400, missing e-mail → 400, e-mail taken → 400 "Email već postoji."; it lets the request through iff the password is valid, the e-mail present and not taken |
| `Server.PasswordPresenceCheckUnreachable` | backend/server.js:111-118 | a valid password is never empty, so the `!password` half of the presence check never fires |
| `Server.LoginDecision` | backend/server.js:155-163 | sign-in iff a user was found and `bcrypt.compare` succeeds, with that user's id; an unknown e-mail and a wrong password get the same 400 message |
| `Server.ReserveCheck` | backend/server.js:180-192 | a date before today → past-date 400; only then an end strictly before the start → range 400; otherwise the request passes |
| `Server.ReserveCheckOnDays` | backend/server.js:186-192 | on two real days the checks pass iff `today <= start <= end`, so `end == start` passes |
| `Server.InvalidDatesPassChecks` | backend/server.js:183-192 | an unparsable start or end date passes both checks |
| `Server.ReserveErrorResponse` | backend/server.js:200-208 | error 23P01 → 400 "Termin je već rezerviran."; any other code → 500 |
| `Server.ApiReserveErrorResponse` | backend/server.js:222-235 | error 23P01 → 409 `{ok:false}` with the conflict message; any other code → 500 `{ok:false}` |
| `Server.ErrorMappingsAgree` | backend/server.js:203-234 | both entry points classify an insert error alike: conflict or server error |
| `Server.Backend.Register` | backend/server.js:98-148 | a refused request changes neither table nor session; otherwise a successful insert adds exactly that user and sets `session.userId` to the returned id; a failed insert answers 500 and changes nothing; e-mails stay unique |
| `Server.Backend.Login` | backend/server.js:151-168 | only a successful compare sets `session.userId`, to the found user's id, and redirects to `/`; otherwise the session is unchanged and the response is the refusal; with unique e-mails a registered address is always checked against its own user's hash |
| `Server.Backend.Reserve` | backend/server.js:176-210 | not logged in → redirect to `/login`; failed checks → no insert and the check's 400; passing → exactly one row `(userId, start, end)` on success with a redirect to `/`, or the mapped error and no row |
| `Server.Backend.ApiReserve` | backend/server.js:212-236 | no date check: any logged-in request goes to the insert; success appends the row and answers `{ok:true}`; failure answers the mapped JSON error |
| `Server.Backend.InsertReservation` | backend/server.js:194-197 | the row is appended exactly when the database accepts it; under the assumed constraint the table stays overlap-free |
| `Calendar.Nights` | Projekt_yolo/js/calendar.js:22-31 | the definition of `getNights`: 0 while either input is empty, otherwise check-out minus check-in in whole days (possibly ≤ 0 on dates the handlers did not check) |
| `Calendar.NightsOfOrdered` | Projekt_yolo/js/calendar.js:22-31 | on ordered dates `getNights` is never negative, and at least 1 exactly when both inputs are set |
| `Calendar.SummaryFor` | Projekt_yolo/js/calendar.js:33-51 | nights ≤ 0 shows 0 nights, total 0, button disabled; otherwise the nights, total = nights × 2500, button enabled; singular word iff 1 night |
| `Calendar.ReserveEnabledExactlyWhenBothSet` | Projekt_yolo/js/calendar.js:33-51 | on ordered dates the summary enables the reserve button exactly when both dates are set |
| `Calendar.CheckinChanged` | Projekt_yolo/js/calendar.js:54-63 | a past check-in is dropped; a kept check-out is the old one, not past and after the new check-in; a check-out that still qualifies is kept, also when the check-in was emptied; the result is ordered whatever came before |
| `Calendar.CheckoutChanged` | Projekt_yolo/js/calendar.js:74-83 | no check-in, or a check-out on or before it, empties both; a past or emptied check-out keeps the check-in; ordering is preserved |
| `Calendar.AfterEvent` | Projekt_yolo/js/calendar.js:54-111 | every event preserves the ordering; clear and popup-close empty both inputs; reserve-click empties them iff there are no nights |
| `Calendar.RunKeepsOrdered` | Projekt_yolo/js/calendar.js:54-111 | no sequence of events breaks the ordering |
| `Calendar.ReachableDatesAreBookable` | Projekt_yolo/js/calendar.js:22-111 | from a fresh page, after any events: both dates set ⇒ check-in < check-out, nights ≥ 1 iff both set, reserve button enabled iff both set |
| `Calendar.SameDayStayIsCleared` | Projekt_yolo/js/calendar.js:74-83 | choosing the same day as check-in and check-out leaves both inputs empty |
| `Calendar.ClearIsIdempotent` | Projekt_yolo/js/calendar.js:88-92 | clearing twice equals clearing once |
| `Calendar.BookingWidget.constructor` | Projekt_yolo/js/calendar.js:18-20 | the loaded page has empty inputs whose `min` is today |
| `Calendar.BookingWidget.UpdateSummary` | Projekt_yolo/js/calendar.js:33-51 | the summary becomes `SummaryFor(getNights())`; nothing else changes |
| `Calendar.BookingWidget.OnCheckinChange` | Projekt_yolo/js/calendar.js:54-72 | the dates become `CheckinChanged`; a set check-in becomes `checkout.min`; an empty one resets `checkin.min` to today; summary refreshed; invariant kept |
| `Calendar.BookingWidget.OnCheckoutChange` | Projekt_yolo/js/calendar.js:74-85 | the dates become `CheckoutChanged`; summary refreshed; invariant kept |
| `Calendar.BookingWidget.OnClearClick` | Projekt_yolo/js/calendar.js:88-92 | both inputs empty, summary refreshed |
| `Calendar.BookingWidget.OnReserveClick` | Projekt_yolo/js/calendar.js:95-104 | no nights → inputs emptied, summary refreshed, popup untouched; nights → dates and summary untouched, popup shown |
| `Calendar.BookingWidget.OnPopupCloseClick` | Projekt_yolo/js/calendar.js:106-111 | popup hidden, both inputs empty, summary refreshed |

## Left out

- Express setup, the session store, static files, the page routes, `/api/me`,
  `/health`, `/logout` and `app.listen` (backend/server.js:1-59, 72-95, 171-173,
  238-249): these are framework wiring with no decisions of their own.
- bcrypt. The hash is a parameter, because bcrypt salts randomly and so the hash
  is not a function of the password. The comparison is a function-typed
  parameter. A failing `bcrypt.hash` (a 500 in the source) is not modelled.
- Failures of the SELECT queries in `/register` and `/login` (a 500 in the
  source) are not modelled. The lookups always answer from the `users` table.
  Only INSERT failures are modelled.
- Request fields that arrive as arrays or objects under `extended: true`
  parsing are not modelled. Every field is a string or absent.
- `password.length` counts UTF-16 code units, and the model counts characters.
  The two differ for characters outside the Basic Multilingual Plane.
- Concurrency: handlers run one at a time. `Backend.Valid` (unique e-mails)
  holds only for requests handled in sequence, since two concurrent
  registrations can both pass the uniqueness query. Races between inserts into
  `reservations` are the database's business.
- The exclusion constraint's real definition is not part of this model. See
  `ExclusionAssumption`, which speaks only of rows whose dates both parse.
- Which date a reservation row really holds is not modelled. The INSERT sends
  the raw date strings (backend/server.js:196, 218) and the database parses
  them itself. A row records the day JavaScript made of the string, or `None`;
  the real table may hold a different date for the same string, including one
  in the past, or reject it.
- Time of day in a request's dates is not modelled. The checks at
  backend/server.js:186-190 compare to the millisecond, and the model compares
  whole days.
- How a request body that is not form-encoded arrives is not modelled. Only
  `express.urlencoded` is installed (backend/server.js:34); depending on the
  body-parser version such a body yields no fields or an undefined `req.body`
  (a 500 from the destructuring).
- Time zones are not modelled. The offset arithmetic of `toISODates`
  (Projekt_yolo/js/calendar.js:13-16) and the local-midnight versus UTC-midnight
  parsing on the server are left out. "Today" is a given day number, and a
  date's string order equals its day order.
- The page's DOM text, the `enabled` class and `console.log` are not modelled.
  The summary keeps the nights, the singular/plural choice, the total and the
  disabled flag.
- The initial summary text, button state and popup state come from page markup
  that is not part of this model. They are constructor parameters.
- Projekt_yolo/js/testimonial.js (a carousel driven by pixel geometry and pointer
  events) and Projekt_yolo/js/profile.js (a `fetch` and DOM filling) are not
  part of this model.
