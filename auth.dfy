/**
 * The handlers of src/controllers/auth.controller.ts that decide something:
 * `verifyEmail` (the one-time code and its expiry), `resetPassword` (the
 * single-use reset token), the page `listUsers` answers with, and the
 * projection of `getHomepageLeaderboard`. bcrypt and jwt are parameters:
 * `matches(code, stored)` is `bcrypt.compare`, `verify(token)` is
 * `jwt.verify` (None when it throws), and `hashed` is the digest the
 * pre-save hook stores for a changed password.
 */
module AuthController {
  import opened Common
  import opened Store
  import opened Paging
  import opened SubmissionModel
  import opened BugsController

  /** `!s` on a body field or a stored string: absent and "" are both falsy. */
  predicate Missing(s: Option<string>) {
    s.None? || s.value == ""
  }

  // ---------------------------------------------------------------------
  // verifyEmail
  // ---------------------------------------------------------------------

  /** Nobody who is verified still holds a one-time code. */
  ghost predicate VerifiedHoldNoCode(users: seq<UserDoc>) {
    forall j :: 0 <= j < |users| && users[j].verified ==> users[j].otp.None? && users[j].otpExpiresAt.None?
  }

  /**
   * `verifyEmail`: 400 without both fields, 401 for an unknown address, a
   * success with nothing changed for a verified user, 401 without a stored
   * code, 401 after clearing an expired code, 401 on a wrong code, and
   * otherwise the user becomes verified and the code is cleared.
   */
  method VerifyEmail(db: Db, email: Option<string>, otp: Option<string>, now: int,
                     matches: (string, string) -> bool) returns (r: Outcome)
    modifies db`users
    ensures Missing(email) || Missing(otp) ==> r == Fail(BadRequest) && db.users == old(db.users)
    ensures !Missing(email) && !Missing(otp) && UserByEmail(old(db.users), email.value).None? ==>
      r == Fail(Unauthorized) && db.users == old(db.users)
    ensures !Missing(email) && !Missing(otp) && UserByEmail(old(db.users), email.value).Some? ==>
      var i := UserByEmail(old(db.users), email.value).value;
      var u := old(db.users)[i];
      (u.verified ==> r == Pass && db.users == old(db.users))
      && (!u.verified && (Missing(u.otp) || u.otpExpiresAt.None?) ==>
            r == Fail(Unauthorized) && db.users == old(db.users))
      && (!u.verified && !Missing(u.otp) && u.otpExpiresAt.Some? && u.otpExpiresAt.value < now ==>
            r == Fail(Unauthorized) && db.users == old(db.users)[i := u.(otp := None, otpExpiresAt := None)])
      && (!u.verified && !Missing(u.otp) && u.otpExpiresAt.Some? && u.otpExpiresAt.value >= now ==>
            if matches(otp.value, u.otp.value)
            then r == Pass && db.users == old(db.users)[i := u.(verified := true, otp := None, otpExpiresAt := None)]
            else r == Fail(Unauthorized) && db.users == old(db.users))
    ensures |db.users| == |old(db.users)|
    ensures forall j :: 0 <= j < |db.users| ==> db.users[j].id == old(db.users)[j].id
    ensures forall j :: 0 <= j < |db.users| && old(db.users)[j].verified ==> db.users[j].verified
    ensures VerifiedHoldNoCode(old(db.users)) ==> VerifiedHoldNoCode(db.users)
  {
    if Missing(email) || Missing(otp) {
      return Fail(BadRequest);
    }
    var found := UserByEmail(db.users, email.value);
    if found.None? {
      return Fail(Unauthorized);
    }
    var i := found.value;
    var user := db.users[i];
    if user.verified {
      return Pass;
    }
    if Missing(user.otp) || user.otpExpiresAt.None? {
      return Fail(Unauthorized);
    }
    if user.otpExpiresAt.value < now {
      user := user.(otp := None);
      user := user.(otpExpiresAt := None);
      db.users := db.users[i := user];
      return Fail(Unauthorized);
    }
    if !matches(otp.value, user.otp.value) {
      return Fail(Unauthorized);
    }
    user := user.(verified := true);
    user := user.(otp := None);
    user := user.(otpExpiresAt := None);
    db.users := db.users[i := user];
    return Pass;
  }

  // ---------------------------------------------------------------------
  // resetPassword
  // ---------------------------------------------------------------------

  /** The payload `jwt.verify` gives back: the token's `type` and `email`. */
  datatype TokenClaims = TokenClaims(kind: string, email: string)

  /** `SignType.FORGOT_PASSWORD` (src/libs/mails.ts). */
  const ForgotPassword: string := "forgot"

  /** The stored token is set and equal to the presented one. */
  predicate HoldsToken(u: UserDoc, token: string) {
    !Missing(u.token) && u.token.value == token
  }

  /**
   * The user whose password `token` unlocks: the token must verify, carry
   * the "forgot" type, name the address of a stored user (the first one with
   * it) and equal that user's stored token.
   */
  function ResetTarget(users: seq<UserDoc>, token: string, verify: string -> Option<TokenClaims>): (r: Option<nat>)
    ensures r.Some? ==> verify(token).Some? && verify(token).value.kind == ForgotPassword
    ensures r.Some? ==> UserByEmail(users, verify(token).value.email) == Some(r.value)
    ensures r.Some? ==> r.value < |users| && HoldsToken(users[r.value], token) && token != ""
    ensures r.None? <==>
      verify(token).None? || verify(token).value.kind != ForgotPassword
      || UserByEmail(users, verify(token).value.email).None?
      || !HoldsToken(users[UserByEmail(users, verify(token).value.email).value], token)
  {
    match verify(token)
    case None => None
    case Some(claims) =>
      if claims.kind != ForgotPassword then None
      else match UserByEmail(users, claims.email)
        case None => None
        case Some(i) => if HoldsToken(users[i], token) then Some(i) else None
  }

  /**
   * `resetPassword`: 401 for a token that does not unlock a user; a
   * password the schema refuses (`required` refuses "") fails the save;
   * otherwise the stored password becomes the new digest and the token is
   * cleared.
   */
  method ResetPassword(db: Db, password: string, hashed: string, token: string,
                       verify: string -> Option<TokenClaims>) returns (r: Outcome)
    modifies db`users
    ensures ResetTarget(old(db.users), token, verify).None? ==>
      r == Fail(Unauthorized) && db.users == old(db.users)
    ensures ResetTarget(old(db.users), token, verify).Some? && password == "" ==>
      r == Fail(Internal) && db.users == old(db.users)
    ensures ResetTarget(old(db.users), token, verify).Some? && password != "" ==>
      var i := ResetTarget(old(db.users), token, verify).value;
      r == Pass && db.users == old(db.users)[i := old(db.users)[i].(password := hashed, token := None)]
  {
    var decoded := verify(token);
    if decoded.None? {
      return Fail(Unauthorized);
    }
    if decoded.value.kind != ForgotPassword {
      return Fail(Unauthorized);
    }
    var found := UserByEmail(db.users, decoded.value.email);
    if found.None? {
      return Fail(Unauthorized);
    }
    var i := found.value;
    var user := db.users[i];
    if Missing(user.token) || user.token.value != token {
      return Fail(Unauthorized);
    }
    if password == "" {
      return Fail(Internal);
    }
    user := user.(password := hashed);
    user := user.(token := None);
    db.users := db.users[i := user];
    return Pass;
  }

  /**
   * A reset token works once: after the reset it unlocked, the same token
   * unlocks nobody, whatever `verify` makes of it.
   */
  lemma TokenSingleUse(users: seq<UserDoc>, token: string, verify: string -> Option<TokenClaims>, hashed: string)
    requires ResetTarget(users, token, verify).Some?
    ensures var i := ResetTarget(users, token, verify).value;
      ResetTarget(users[i := users[i].(password := hashed, token := None)], token, verify).None?
  {
    var i := ResetTarget(users, token, verify).value;
    var email := verify(token).value.email;
    var after := users[i := users[i].(password := hashed, token := None)];
    FirstUpdate(users, i, after[i], (u: UserDoc) => u.email == email);
    assert UserByEmail(after, email) == Some(i);
  }

  // ---------------------------------------------------------------------
  // listUsers
  // ---------------------------------------------------------------------

  /**
   * The users `listUsers` counts and pages over when no search term is
   * given: verified users, and for a caller whose session role is "user"
   * only those of the caller's college.
   */
  function Listed(users: seq<UserDoc>, sameCollege: bool, college: Id): (r: seq<UserDoc>)
    ensures |r| <= |users|
  {
    if |users| == 0 then []
    else
      var u := users[0];
      (if u.verified && (sameCollege ==> u.college == college) then [u] else [])
      + Listed(users[1..], sameCollege, college)
  }

  lemma {:induction false} ListedMembers(users: seq<UserDoc>, sameCollege: bool, college: Id)
    ensures forall u :: u in Listed(users, sameCollege, college) <==>
      u in users && u.verified && (sameCollege ==> u.college == college)
  {
    if |users| > 0 {
      ListedMembers(users[1..], sameCollege, college);
      assert users == [users[0]] + users[1..];
    }
  }

  /** A page of users and the window it was cut with. */
  datatype UserPage = UserPage(window: Window, users: seq<UserDoc>)

  /**
   * `listUsers` without search terms: a limit outside `[0, 3000]` is a 400,
   * a session without a stored user is a 409, and otherwise the page is the
   * listed users from the clamped offset, at most `limit` of them. For an
   * admin session each user on the page has its college looked up, and a
   * college that is not stored is a 400.
   */
  function ListUsers(users: seq<UserDoc>, colleges: map<Id, string>, caller: Option<Id>, sessionRole: Role,
                     limit: QueryParam, offset: QueryParam): (r: Result<UserPage>)
    ensures !(0 <= IntOr(limit, 10) <= 3000) ==> r == Err(BadRequest)
    ensures 0 <= IntOr(limit, 10) <= 3000 && (caller.None? || UserById(users, caller.value).None?) ==>
      r == Err(Conflict)
    ensures r.Ok? ==> caller.Some? && UserById(users, caller.value).Some?
    ensures r.Ok? ==>
      var listed := Listed(users, sessionRole == User, users[UserById(users, caller.value).value].college);
      r.value.window == ListUsersWindow(limit, offset, |listed|).value
      && r.value.window.offset + |r.value.users| <= |listed|
      && r.value.users == listed[r.value.window.offset .. r.value.window.offset + |r.value.users|]
      && |r.value.users| == Min(r.value.window.limit, |listed| - r.value.window.offset)
    ensures r.Ok? && sessionRole == Admin ==> forall i :: 0 <= i < |r.value.users| ==> r.value.users[i].college in colleges
    ensures 0 <= IntOr(limit, 10) <= 3000 && caller.Some? && UserById(users, caller.value).Some? ==>
      var listed := Listed(users, sessionRole == User, users[UserById(users, caller.value).value].college);
      var w := ListUsersWindow(limit, offset, |listed|).value;
      var page := listed[w.offset .. Min(w.offset + w.limit, |listed|)];
      (r.Err? <==> sessionRole == Admin && CollegeMissing(page, colleges))
      && (r.Err? ==> r.error == BadRequest)
  {
    if ListUsersWindow(limit, offset, 0).Err? then Err(BadRequest)
    else if caller.None? || UserById(users, caller.value).None? then Err(Conflict)
    else
      var me := users[UserById(users, caller.value).value];
      var listed := Listed(users, sessionRole == User, me.college);
      var w := ListUsersWindow(limit, offset, |listed|).value;
      var end := Min(w.offset + w.limit, |listed|);
      var page := listed[w.offset .. end];
      if sessionRole == Admin && CollegeMissing(page, colleges) then
        Err(BadRequest)                                   // "User's college not found"
      else Ok(UserPage(w, page))
  }

  /** Some user on the page has a college that is not stored. */
  predicate CollegeMissing(page: seq<UserDoc>, colleges: map<Id, string>) {
    exists i :: 0 <= i < |page| && page[i].college !in colleges
  }

  function Min(a: int, b: int): int {
    if a < b then a else b
  }

  /**
   * Everyone on a page is verified, and a caller with the "user" session
   * role sees only users of their own college.
   */
  lemma PageIsScoped(users: seq<UserDoc>, colleges: map<Id, string>, caller: Option<Id>, sessionRole: Role,
                     limit: QueryParam, offset: QueryParam, u: UserDoc)
    requires ListUsers(users, colleges, caller, sessionRole, limit, offset).Ok?
    requires u in ListUsers(users, colleges, caller, sessionRole, limit, offset).value.users
    ensures u in users && u.verified
    ensures sessionRole == User ==> u.college == users[UserById(users, caller.value).value].college
  {
    var me := users[UserById(users, caller.value).value];
    ListedMembers(users, sessionRole == User, me.college);
  }

  // ---------------------------------------------------------------------
  // getHomepageLeaderboard
  // ---------------------------------------------------------------------

  /** One leaderboard line: the team's name, head score and head bug count. */
  datatype LeaderRow = LeaderRow(name: string, score: int, bugs: int)

  /** The `map` over the projected document: the head entry's figures, or 0 and 0. */
  function Row(t: TeamDoc): (r: LeaderRow)
    ensures r.name == t.name
    ensures |t.bugs| == 0 ==> r.score == 0 && r.bugs == 0
    ensures |t.bugs| > 0 ==> r.score == t.bugs[0].score && r.bugs == t.bugs[0].bugCount
  {
    LeaderRow(t.name, HeadScore(t.bugs), HeadCount(t.bugs))
  }

  /** `$lookup` + `$unwind`: one document per team whose id is the submission's team. */
  function Joined(teams: seq<TeamDoc>, team: Id): (r: seq<LeaderRow>)
    ensures |r| <= |teams|
  {
    if |teams| == 0 then []
    else (if teams[0].id == team then [Row(teams[0])] else []) + Joined(teams[1..], team)
  }

  /** The pipeline: admin-approved submissions in store order, each joined with its team. */
  function Leaderboard(subs: seq<SubmissionDoc>, teams: seq<TeamDoc>): seq<LeaderRow> {
    if |subs| == 0 then []
    else
      (if subs[0].status == AdminApproved then Joined(teams, subs[0].team) else [])
      + Leaderboard(subs[1..], teams)
  }

  lemma {:induction false} JoinedMembers(teams: seq<TeamDoc>, team: Id)
    ensures forall row :: row in Joined(teams, team) <==>
      exists k :: 0 <= k < |teams| && teams[k].id == team && row == Row(teams[k])
  {
    if |teams| > 0 {
      JoinedMembers(teams[1..], team);
      forall row | row in Joined(teams, team)
        ensures exists k :: 0 <= k < |teams| && teams[k].id == team && row == Row(teams[k])
      {
        if !(teams[0].id == team && row == Row(teams[0])) {
          var k :| 0 <= k < |teams[1..]| && teams[1..][k].id == team && row == Row(teams[1..][k]);
          assert teams[k + 1] == teams[1..][k];
        }
      }
      forall row | exists k :: 0 <= k < |teams| && teams[k].id == team && row == Row(teams[k])
        ensures row in Joined(teams, team)
      {
        var k :| 0 <= k < |teams| && teams[k].id == team && row == Row(teams[k]);
        if k > 0 {
          assert teams[1..][k - 1] == teams[k];
        }
      }
    }
  }

  /** A team whose ids are unique joins a submission exactly once. */
  lemma {:induction false} JoinedUnique(teams: seq<TeamDoc>, k: nat)
    requires UniqueTeamIds(teams) && k < |teams|
    ensures Joined(teams, teams[k].id) == [Row(teams[k])]
  {
    if k == 0 {
      JoinedAbsent(teams[1..], teams[0].id);
    } else {
      assert teams[0].id != teams[k].id;
      assert teams[1..][k - 1] == teams[k];
      JoinedUnique(teams[1..], k - 1);
    }
  }

  lemma {:induction false} JoinedAbsent(teams: seq<TeamDoc>, team: Id)
    requires forall k :: 0 <= k < |teams| ==> teams[k].id != team
    ensures Joined(teams, team) == []
  {
    if |teams| > 0 {
      JoinedAbsent(teams[1..], team);
    }
  }

  /** `row` is the line of an admin-approved submission joined with a stored team. */
  ghost predicate ApprovedLine(subs: seq<SubmissionDoc>, teams: seq<TeamDoc>, row: LeaderRow) {
    exists j, k :: 0 <= j < |subs| && 0 <= k < |teams| && subs[j].status == AdminApproved
      && teams[k].id == subs[j].team && row == Row(teams[k])
  }

  /**
   * A leaderboard line belongs to an admin-approved submission and shows its
   * team's current figures; every admin-approved submission of a stored
   * team has its line.
   */
  lemma {:induction false} LeaderboardMembers(subs: seq<SubmissionDoc>, teams: seq<TeamDoc>)
    ensures forall row :: row in Leaderboard(subs, teams) <==> ApprovedLine(subs, teams, row)
  {
    if |subs| > 0 {
      var rest := Leaderboard(subs[1..], teams);
      LeaderboardMembers(subs[1..], teams);
      JoinedMembers(teams, subs[0].team);
      forall row | row in Leaderboard(subs, teams)
        ensures ApprovedLine(subs, teams, row)
      {
        if subs[0].status == AdminApproved && row in Joined(teams, subs[0].team) {
          var k :| 0 <= k < |teams| && teams[k].id == subs[0].team && row == Row(teams[k]);
          assert subs[0].status == AdminApproved && teams[k].id == subs[0].team;
        } else {
          assert row in rest;
          var j, k :| 0 <= j < |subs[1..]| && 0 <= k < |teams| && subs[1..][j].status == AdminApproved
            && teams[k].id == subs[1..][j].team && row == Row(teams[k]);
          assert subs[j + 1] == subs[1..][j];
        }
      }
      forall row | ApprovedLine(subs, teams, row)
        ensures row in Leaderboard(subs, teams)
      {
        var j, k :| 0 <= j < |subs| && 0 <= k < |teams| && subs[j].status == AdminApproved
          && teams[k].id == subs[j].team && row == Row(teams[k]);
        if j > 0 {
          assert subs[1..][j - 1] == subs[j];
          assert ApprovedLine(subs[1..], teams, row);
        }
      }
    }
  }

  /**
   * With unique team ids, the line of an approved submission reports the
   * same head score and count the bug handlers read and change.
   */
  lemma LeaderboardShowsLedger(teams: seq<TeamDoc>, k: nat)
    requires UniqueTeamIds(teams) && k < |teams|
    ensures Joined(teams, teams[k].id) == [LeaderRow(teams[k].name, ScoreOf(teams, teams[k].id), CountOf(teams, teams[k].id))]
  {
    JoinedUnique(teams, k);
    LedgerOfIsTeamById(teams, teams[k].id);
    assert TeamById(teams, teams[k].id) == Some(k);
  }
}
