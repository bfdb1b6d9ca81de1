/**
 * The request gates of src/middlewares/auth.middleware.ts. Each gate either
 * lets the request through or ends it with an HTTP error; none changes any
 * state. Validation errors are those express-validator collected before the
 * gate, given here as a list.
 */
module AuthMiddleware {
  import opened Common
  import opened Store

  /** The verified user behind a session: no session user, an unknown user or an unverified one are all 403s. */
  function SessionUser(users: seq<UserDoc>, session: Option<Id>): (r: Result<UserDoc>)
    ensures r.Err? ==> r.error == Forbidden
    ensures r.Ok? <==> session.Some? && UserById(users, session.value).Some? && users[UserById(users, session.value).value].verified
    ensures r.Ok? ==> r.value == users[UserById(users, session.value).value] && r.value.verified
  {
    if session.None? then Err(Forbidden)                          // "Not authenticated"
    else match UserById(users, session.value)
      case None => Err(Forbidden)                                 // "User not found"
      case Some(i) =>
        if !users[i].verified then Err(Forbidden)                 // "User not verified"
        else Ok(users[i])
  }

  /** `validationMiddleware`: any collected error is a 422. */
  function ValidationGate(errors: seq<string>): (r: Outcome)
    ensures r.Pass? <==> |errors| == 0
    ensures r.Fail? ==> r.error == Unprocessable
  {
    if |errors| > 0 then Fail(Unprocessable) else Pass
  }

  /** `registerMiddleware`: validation errors first (422), then an email already registered (400). */
  function RegisterGate(errors: seq<string>, users: seq<UserDoc>, email: string): (r: Outcome)
    ensures r.Pass? <==> |errors| == 0 && forall j :: 0 <= j < |users| ==> users[j].email != email
    ensures |errors| > 0 ==> r == Fail(Unprocessable)
    ensures |errors| == 0 && UserByEmail(users, email).Some? ==> r == Fail(BadRequest)
  {
    if ValidationGate(errors).Fail? then Fail(Unprocessable)
    else if UserByEmail(users, email).Some? then Fail(BadRequest)   // "Email already exists"
    else Pass
  }

  /** `authRequiredMiddleWare`: a verified session user. */
  function AuthRequired(users: seq<UserDoc>, session: Option<Id>): (r: Outcome)
    ensures r.Pass? <==> SessionUser(users, session).Ok?
    ensures r.Fail? ==> r.error == Forbidden
  {
    match SessionUser(users, session)
    case Err(e) => Fail(e)
    case Ok(_) => Pass
  }

  /** `adminRequiredMiddleware`: a verified session user whose role is admin. */
  function AdminRequired(users: seq<UserDoc>, session: Option<Id>): (r: Outcome)
    ensures r.Pass? <==> SessionUser(users, session).Ok? && SessionUser(users, session).value.role == Admin
    ensures r.Fail? ==> r.error == Forbidden
  {
    match SessionUser(users, session)
    case Err(e) => Fail(e)
    case Ok(u) => if u.role != Admin then Fail(Forbidden) else Pass   // "User is not an admin"
  }

  /** `judgeRequiredMiddleware`: a verified session user whose role is judge or admin. */
  function JudgeRequired(users: seq<UserDoc>, session: Option<Id>): (r: Outcome)
    ensures r.Pass? <==> SessionUser(users, session).Ok? && SessionUser(users, session).value.role in {Judge, Admin}
    ensures r.Fail? ==> r.error == Forbidden
  {
    match SessionUser(users, session)
    case Err(e) => Fail(e)
    case Ok(u) => if !(u.role == Judge || u.role == Admin) then Fail(Forbidden) else Pass
  }

  /**
   * The gates are nested: whoever passes the admin gate passes the judge
   * gate, whoever passes the judge gate passes the authentication gate, and
   * a plain user never passes the judge gate.
   */
  lemma GatesNested(users: seq<UserDoc>, session: Option<Id>)
    ensures AdminRequired(users, session).Pass? ==> JudgeRequired(users, session).Pass?
    ensures JudgeRequired(users, session).Pass? ==> AuthRequired(users, session).Pass?
    ensures AuthRequired(users, session).Pass? && SessionUser(users, session).value.role == User
        ==> JudgeRequired(users, session).Fail?
  {
  }
}
