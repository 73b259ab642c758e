/**
 * The HTTP responses the backend produces and the two session guards that run
 * in front of its routes (backend/server.js).
 */
module Http {
  import opened Wrappers

  type UserId = int

  /**
   * A response as the handlers build it: `res.redirect(location)`,
   * `res.status(status).send(body)` or `res.status(status).json({ ok, message })`.
   * A bare `res.json(...)` has status 200.
   */
  datatype Response =
    | Redirect(location: string)
    | Text(status: int, body: string)
    | Json(status: int, ok: bool, message: Option<string>)

  /** What a middleware does: hand the request to the next handler, or answer it itself. */
  datatype Guard = Next | Stop(response: Response)

  /**
   * `req.session.userId` is truthy. JavaScript treats an absent id and the
   * number 0 alike as falsy, so a session holding id 0 counts as logged out.
   */
  predicate LoggedIn(userId: Option<UserId>) {
    userId.Some? && userId.value != 0
  }

  /** `requireAuth`: a logged-out request is redirected to the login page and goes no further. */
  function RequireAuth(userId: Option<UserId>): (g: Guard)
    ensures g.Next? <==> LoggedIn(userId)
    ensures g.Stop? ==> g.response == Redirect("/login")
  {
    if !LoggedIn(userId) then Stop(Redirect("/login")) else Next
  }

  /** `preventAuthPagesForLoggedIn`: a logged-in request for a login or register page goes home. */
  function PreventAuthPagesForLoggedIn(userId: Option<UserId>): (g: Guard)
    ensures g.Next? <==> !LoggedIn(userId)
    ensures g.Stop? ==> g.response == Redirect("/")
  {
    if LoggedIn(userId) then Stop(Redirect("/")) else Next
  }

  /** Every session passes exactly one of the two guards. */
  lemma GuardsAreComplementary(userId: Option<UserId>)
    ensures RequireAuth(userId).Next? != PreventAuthPagesForLoggedIn(userId).Next?
  {
  }
}
