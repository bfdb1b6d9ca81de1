/**
 * The team handlers of src/controllers/team.controller.ts: creating a team
 * (after its initial progress), leaving it, removing a member, the guards
 * and insert of `makeSubmission`, the status `getSubmission` shows, and the
 * progress label of `buildTeamResponse`. The `listTeams` window is
 * `Paging.ListTeamsWindow`.
 */
module TeamController {
  import opened Common
  import opened StageModel
  import opened ProgressModel
  import opened SubmissionModel
  import opened Store

  // ---------------------------------------------------------------------
  // createTeam
  // ---------------------------------------------------------------------

  /** `Team.findOne({ name: /^name$/i })`, with the name compared as text, case-insensitively. */
  function TeamNamed(teams: seq<TeamDoc>, name: string): (r: Option<nat>)
    ensures r.None? <==> forall j :: 0 <= j < |teams| ==> !EqualsIgnoreCase(teams[j].name, name)
  {
    First(teams, (t: TeamDoc) => EqualsIgnoreCase(t.name, name))
  }

  /** The new team: led by the caller, who is its only member, with the caller's college and empty ledgers. */
  function NewTeam(id: Id, name: string, leader: UserDoc): (t: TeamDoc)
    ensures t.members == [t.leader] && t.leader == leader.id && TeamWellFormed(t)
  {
    TeamDoc(id, name, [leader.id], leader.id, leader.college, leader.collegeOther, [], [], false)
  }

  /** The schema's `required` string fields refuse the empty string, so such a team is not saved. */
  predicate TeamSavable(t: TeamDoc) {
    t.name != "" && t.collegeOther != ""
  }

  /**
   * `createTeam`. The checks run in this order: the caller is already in a
   * team (409), the caller is unknown (409), the caller's college is unknown
   * (400), the name is taken (409). Then the initial progress is inserted,
   * and then the team: without an open submission window neither is, and a
   * team the schema refuses leaves the progress record behind.
   */
  method CreateTeam(db: Db, caller: Id, name: string, newId: Id, now: int) returns (r: Outcome)
    requires TeamById(db.teams, newId).None?
    modifies db`teams, db`progress
    ensures
      var found := UserById(db.users, caller);
      var init := InitialProgress(db.stages, newId, now);
      if TeamOfMember(old(db.teams), caller).Some? || found.None? then
        r == Fail(Conflict) && db.teams == old(db.teams) && db.progress == old(db.progress)
      else if db.users[found.value].college !in db.colleges then
        r == Fail(BadRequest) && db.teams == old(db.teams) && db.progress == old(db.progress)
      else if TeamNamed(old(db.teams), name).Some? then
        r == Fail(Conflict) && db.teams == old(db.teams) && db.progress == old(db.progress)
      else if init.Err? then
        r == Fail(Internal) && db.teams == old(db.teams) && db.progress == old(db.progress)
      else
        var team := NewTeam(newId, name, db.users[found.value]);
        db.progress == old(db.progress) + [init.value]
        && (r.Pass? <==> TeamSavable(team))
        && (TeamSavable(team) ==> db.teams == old(db.teams) + [team])
        && (!TeamSavable(team) ==> r == Fail(Internal) && db.teams == old(db.teams))
    ensures r.Pass? ==> db.users[UserById(db.users, caller).value].college in db.colleges
    ensures Membership(old(db.teams)) ==> Membership(db.teams)
  {
    if TeamOfMember(db.teams, caller).Some? {
      return Fail(Conflict);            // "User is already part of a team"
    }
    var found := UserById(db.users, caller);
    if found.None? {
      return Fail(Conflict);            // "User not found"
    }
    var user := db.users[found.value];
    if user.college !in db.colleges {
      return Fail(BadRequest);          // "User's college not found"
    }
    if TeamNamed(db.teams, name).Some? {
      return Fail(Conflict);            // "Team name has been taken"
    }
    var team := NewTeam(newId, name, user);
    r := db.CreateInitialProgress(newId, now);
    if r.Fail? {
      return;
    }
    if !TeamSavable(team) {
      return Fail(Internal);            // the schema's validation error
    }
    if Membership(db.teams) {
      AddTeamKeepsMembership(db.teams, team);
    }
    db.teams := db.teams + [team];
  }

  // ---------------------------------------------------------------------
  // leaveTeam / removeMember
  // ---------------------------------------------------------------------

  /**
   * `leaveTeam`: the caller's team loses every entry of the caller. The
   * leader cannot leave (400); a team left with fewer than two members while
   * it has a submission is a 409 and nothing is saved.
   */
  method LeaveTeam(db: Db, caller: Id) returns (r: Outcome)
    modifies db`teams
    ensures r.Fail? ==> db.teams == old(db.teams)
    ensures TeamOfMember(old(db.teams), caller).None? ==> r == Fail(BadRequest)
    ensures TeamOfMember(old(db.teams), caller).Some? ==>
      var i := TeamOfMember(old(db.teams), caller).value;
      var t := old(db.teams)[i];
      var rest := Without(t.members, caller);
      (t.leader == caller ==> r == Fail(BadRequest))
      && (t.leader != caller && |rest| < 2 && SubmissionOfTeam(db.submissions, t.id).Some? ==> r == Fail(Conflict))
      && (r.Pass? <==> t.leader != caller && (|rest| >= 2 || SubmissionOfTeam(db.submissions, t.id).None?))
      && (r.Pass? ==> db.teams == old(db.teams)[i := t.(members := rest)])
    ensures r.Pass? && Membership(old(db.teams)) ==> Membership(db.teams) && !InSomeTeam(db.teams, caller)
  {
    var found := TeamOfMember(db.teams, caller);
    if found.None? {
      return Fail(BadRequest);          // "User is not part of any team"
    }
    var i := found.value;
    var team := db.teams[i];
    if team.leader == caller {
      return Fail(BadRequest);          // "Team leader cannot leave the team"
    }
    var rest := Without(team.members, caller);
    if |rest| < 2 && SubmissionOfTeam(db.submissions, team.id).Some? {
      return Fail(Conflict);            // the minimum team size of a submitted team
    }
    if Membership(db.teams) {
      RemoveKeepsMembership(db.teams, i, caller);
      OnlyTeamOfMember(db.teams, i, caller);
    }
    db.teams := db.teams[i := team.(members := rest)];
    return Pass;
  }

  /** Under the invariant, a member of team `i` is a member of no other team. */
  lemma OnlyTeamOfMember(teams: seq<TeamDoc>, i: nat, u: Id)
    requires Membership(teams) && i < |teams| && u in teams[i].members
    ensures forall j :: 0 <= j < |teams| && j != i ==> u !in teams[j].members
  {
  }

  /**
   * `removeMember`: an unknown team, a caller who is not its leader, or the
   * leader as the member to remove are 400s; otherwise every entry of the
   * member is filtered out and the rest keep their order.
   */
  method RemoveMember(db: Db, caller: Id, teamId: Id, memberId: Id) returns (r: Outcome)
    modifies db`teams
    ensures r.Fail? ==> r.error == BadRequest && db.teams == old(db.teams)
    ensures r.Pass? <==>
      TeamById(old(db.teams), teamId).Some?
      && old(db.teams)[TeamById(old(db.teams), teamId).value].leader == caller
      && memberId != caller
    ensures r.Pass? ==>
      var i := TeamById(old(db.teams), teamId).value;
      db.teams == old(db.teams)[i := old(db.teams)[i].(members := Without(old(db.teams)[i].members, memberId))]
    ensures r.Pass? && Membership(old(db.teams)) ==>
      Membership(db.teams)
      && (memberId in old(db.teams)[TeamById(old(db.teams), teamId).value].members ==> !InSomeTeam(db.teams, memberId))
  {
    var found := TeamById(db.teams, teamId);
    if found.None? {
      return Fail(BadRequest);          // "Team not found"
    }
    var i := found.value;
    var team := db.teams[i];
    if team.leader != caller {
      return Fail(BadRequest);          // "User is not the team leader"
    }
    if team.leader == memberId {
      return Fail(BadRequest);          // "Team leader cannot be removed"
    }
    if Membership(db.teams) {
      RemoveKeepsMembership(db.teams, i, memberId);
      if memberId in team.members {
        OnlyTeamOfMember(db.teams, i, memberId);
      }
    }
    db.teams := db.teams[i := team.(members := Without(team.members, memberId))];
    return Pass;
  }

  // ---------------------------------------------------------------------
  // makeSubmission
  // ---------------------------------------------------------------------

  /** The schema's checks on a new submission: a file name, and a demo-video URL that the validator accepts. */
  predicate SubmissionSavable(s: SubmissionDoc) {
    s.fileName != "" && s.videoUrl.Some? && VideoUrlValid(s.videoUrl.value)
  }

  /**
   * `makeSubmission`. Every refusal is a 400 and creates nothing: the
   * caller is in no team or is not its leader, the team has fewer than two or
   * more than five members, it already has a submission, the problem is
   * unknown, or no file came. The uploads are outside the model: `pptUrl`
   * is the URL the upload returns and `videoUrl` the demo-video URL the
   * handler ends up with (the request's, or the upload's when a video file
   * came). A submission the schema refuses is not saved.
   */
  method MakeSubmission(db: Db, caller: Id, problem: Id, file: Option<string>, pptUrl: string,
                        videoUrl: Option<string>, newId: Id) returns (r: Outcome)
    modifies db`submissions
    ensures TeamOfMember(db.teams, caller).None? ==> r == Fail(BadRequest) && db.submissions == old(db.submissions)
    ensures TeamOfMember(db.teams, caller).Some? ==>
      var t := db.teams[TeamOfMember(db.teams, caller).value];
      if t.leader != caller || |t.members| < 2 || |t.members| > TeamLimit
         || SubmissionOfTeam(old(db.submissions), t.id).Some? || problem !in db.problems || file.None? then
        r == Fail(BadRequest) && db.submissions == old(db.submissions)
      else
        var doc := SubmissionDoc(newId, t.id, problem, Trim(file.value), Some(pptUrl), videoUrl, DefaultStatus);
        (r.Pass? <==> SubmissionSavable(doc))
        && (SubmissionSavable(doc) ==>
              db.submissions == old(db.submissions) + [doc]
              && SubmissionOfTeam(db.submissions, t.id) == Some(|old(db.submissions)|))
        && (!SubmissionSavable(doc) ==> r == Fail(Internal) && db.submissions == old(db.submissions))
    ensures r.Pass? ==> videoUrl.Some? && VideoUrlValid(videoUrl.value)
  {
    var found := TeamOfMember(db.teams, caller);
    if found.None? {
      return Fail(BadRequest);          // "User is not part of any team"
    }
    var team := db.teams[found.value];
    if team.leader != caller {
      return Fail(BadRequest);          // "Only team leader can make submissions"
    }
    if |team.members| < 2 {
      return Fail(BadRequest);          // "A team must have at least 2 members"
    } else if |team.members| > 5 {
      return Fail(BadRequest);          // "Teams cannot have more than 5 members"
    }
    if SubmissionOfTeam(db.submissions, team.id).Some? {
      return Fail(BadRequest);          // "Submission already exists"
    }
    if problem !in db.problems {
      return Fail(BadRequest);          // "Problem not found"
    }
    if file.None? {
      return Fail(BadRequest);          // "File not found"
    }
    var submission := SubmissionDoc(newId, team.id, problem, Trim(file.value), Some(pptUrl), videoUrl, DefaultStatus);
    if !SubmissionSavable(submission) {
      return Fail(Internal);            // the schema's validation error
    }
    var before := db.submissions;
    db.submissions := db.submissions + [submission];
    FirstAppend(before, submission, (s: SubmissionDoc) => s.team == team.id);
    return Pass;
  }

  // ---------------------------------------------------------------------
  // getSubmission and buildTeamResponse
  // ---------------------------------------------------------------------

  /**
   * The status `getSubmission` shows for a stored one, given the
   * `release_results` flag: "Under Evaluation" until results are released,
   * then "QUALIFIED" for an admin approval and "Not qualified" for anything
   * else.
   */
  function Displayed(released: bool, status: SubmissionStatus): (r: SubmissionStatus)
    ensures IsDisplay(r) && !IsStorable(r)
    ensures !released ==> r == DisplayUnderEval
    ensures r == DisplayQualified <==> released && status == AdminApproved
    ensures r == DisplayRejected <==> released && status != AdminApproved
  {
    if released then (if status == AdminApproved then DisplayQualified else DisplayRejected)
    else DisplayUnderEval
  }

  /**
   * `getSubmission`, which changes nothing: no team or no submission is a
   * 400, a missing `release_results` document a 409; otherwise the team's
   * first submission with its status replaced by the displayed one.
   */
  method GetSubmission(db: Db, caller: Id) returns (r: Result<SubmissionDoc>)
    ensures TeamOfMember(db.teams, caller).None? ==> r == Err(BadRequest)
    ensures TeamOfMember(db.teams, caller).Some? ==>
      var t := db.teams[TeamOfMember(db.teams, caller).value];
      match SubmissionOfTeam(db.submissions, t.id)
      case None => r == Err(BadRequest)
      case Some(k) =>
        match db.releaseResults
        case None => r == Err(Conflict)
        case Some(flag) => r == Ok(db.submissions[k].(status := Displayed(flag, db.submissions[k].status)))
  {
    var found := TeamOfMember(db.teams, caller);
    if found.None? {
      return Err(BadRequest);           // "User is not part of any team"
    }
    var team := db.teams[found.value];
    var k := SubmissionOfTeam(db.submissions, team.id);
    if k.None? {
      return Err(BadRequest);           // "Submission not found"
    }
    var submission := db.submissions[k.value];
    if db.releaseResults.None? {
      return Err(Conflict);             // "Config not found"
    }
    return Ok(submission.(status := Displayed(db.releaseResults.value, submission.status)));
  }

  /**
   * The `progress` label of `buildTeamResponse`: only an admin sees the
   * submission's state; everyone else, and an admin looking at a team
   * without a submission, sees "Registered".
   */
  function ProgressLabel(isAdmin: bool, submission: Option<SubmissionStatus>): (r: string)
    ensures !isAdmin || submission.None? ==> r == "Registered"
    ensures r == StatusName(DisplayQualified) <==> isAdmin && submission == Some(AdminApproved)
    ensures r == StatusName(DisplayRejected) <==> isAdmin && submission == Some(AdminRejected)
    ensures r == "Submitted" <==> isAdmin && submission == Some(SubmissionStatus.Pending)
    ensures r in {"Registered", "Submitted", StatusName(DisplayQualified), StatusName(DisplayRejected)}
  {
    if !isAdmin || submission.None? then "Registered"
    else match submission.value
      case AdminApproved => StatusName(DisplayQualified)
      case AdminRejected => StatusName(DisplayRejected)
      case Pending() => "Submitted"
      case _ => "Registered"
  }
}
