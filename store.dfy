/**
 * The document store: one value type per collection the core reads or
 * writes (teams, users, invites, submissions, bug reports, bug types,
 * colleges, problems, runtime configuration, stages, progress) and the class
 * `Db` whose fields hold the collections. Collections that the code queries
 * with `findOne` on a field other than the id are sequences in the store's
 * natural order, so that "the first match" is defined; the others are maps
 * keyed by id. Timestamps are milliseconds since the epoch.
 */
module Store {
  import opened Common
  import opened StageModel
  import opened ProgressModel
  import opened SubmissionModel

  /** `TEAM_LIMIT` of src/models/Team/team.ts. */
  const TeamLimit: nat := 5

  datatype Role = User | Admin | Judge

  /** One entry of a team's bug ledger; index 0 is the current head. */
  datatype BugRecord = BugRecord(score: int, bugCount: int, updatedAt: Option<int>)

  datatype CategoryScore = CategoryScore(category: string, score: int)
  datatype RoundScore = RoundScore(round: Id, categories: seq<CategoryScore>)
  datatype JudgeScore = JudgeScore(judge: Id, rounds: seq<RoundScore>)

  datatype TeamDoc = TeamDoc(
    id: Id,
    name: string,
    members: seq<Id>,
    leader: Id,
    college: Id,
    collegeOther: string,
    bugs: seq<BugRecord>,
    judgeScores: seq<JudgeScore>,
    deployed: bool)

  datatype UserDoc = UserDoc(
    id: Id,
    email: string,
    username: string,
    password: string,
    mobile: string,
    college: Id,
    collegeOther: string,
    gender: string,
    role: Role,
    problems: Option<seq<Id>>,
    verified: bool,
    otp: Option<string>,
    otpExpiresAt: Option<int>,
    token: Option<string>)

  datatype InviteType = Outgoing | Incoming
  datatype InviteDoc = InviteDoc(team: Id, user: Id, kind: InviteType)

  datatype SubmissionDoc = SubmissionDoc(
    id: Id,
    team: Id,
    problem: Id,
    fileName: string,
    url: Option<string>,
    videoUrl: Option<string>,
    status: SubmissionStatus)

  /**
   * The status word of a bug report (src/models/Leaderboard/bug.ts): the
   * three enum values, or any other word, which an edit can store because
   * `findByIdAndUpdate` does not run the enum validator.
   */
  datatype BugStatus = Valid | Invalid | Pending | Unlisted(word: string)

  datatype BugDoc = BugDoc(
    category: string,
    reporter: Id,
    foundIn: Id,
    status: BugStatus,
    points: int,
    notes: Option<string>)

  // ---------------------------------------------------------------------
  // Lookups: `findById` and `findOne` in natural order
  // ---------------------------------------------------------------------

  function TeamById(teams: seq<TeamDoc>, id: Id): (r: Option<nat>)
    ensures r.Some? ==> r.value < |teams| && teams[r.value].id == id
    ensures r.Some? ==> forall j :: 0 <= j < r.value ==> teams[j].id != id
    ensures r.None? <==> forall j :: 0 <= j < |teams| ==> teams[j].id != id
  {
    First(teams, (t: TeamDoc) => t.id == id)
  }

  /** `Team.findOne({ members: u })`. */
  function TeamOfMember(teams: seq<TeamDoc>, u: Id): (r: Option<nat>)
    ensures r.Some? ==> r.value < |teams| && u in teams[r.value].members
    ensures r.Some? ==> forall j :: 0 <= j < r.value ==> u !in teams[j].members
    ensures r.None? <==> forall j :: 0 <= j < |teams| ==> u !in teams[j].members
  {
    First(teams, (t: TeamDoc) => u in t.members)
  }

  /** `Team.findOne({ team_leader: u })`. */
  function TeamLedBy(teams: seq<TeamDoc>, u: Id): (r: Option<nat>)
    ensures r.Some? ==> r.value < |teams| && teams[r.value].leader == u
    ensures r.None? <==> forall j :: 0 <= j < |teams| ==> teams[j].leader != u
  {
    First(teams, (t: TeamDoc) => t.leader == u)
  }

  function UserById(users: seq<UserDoc>, id: Id): (r: Option<nat>)
    ensures r.Some? ==> r.value < |users| && users[r.value].id == id
    ensures r.None? <==> forall j :: 0 <= j < |users| ==> users[j].id != id
  {
    First(users, (u: UserDoc) => u.id == id)
  }

  /** `User.findOne({ email })`. */
  function UserByEmail(users: seq<UserDoc>, email: string): (r: Option<nat>)
    ensures r.Some? ==> r.value < |users| && users[r.value].email == email
    ensures r.None? <==> forall j :: 0 <= j < |users| ==> users[j].email != email
  {
    First(users, (u: UserDoc) => u.email == email)
  }

  function SubmissionById(subs: seq<SubmissionDoc>, id: Id): (r: Option<nat>)
    ensures r.Some? ==> r.value < |subs| && subs[r.value].id == id
    ensures r.None? <==> forall j :: 0 <= j < |subs| ==> subs[j].id != id
  {
    First(subs, (s: SubmissionDoc) => s.id == id)
  }

  /** `Submission.findOne({ team_id: t })`. */
  function SubmissionOfTeam(subs: seq<SubmissionDoc>, t: Id): (r: Option<nat>)
    ensures r.Some? ==> r.value < |subs| && subs[r.value].team == t
    ensures r.None? <==> forall j :: 0 <= j < |subs| ==> subs[j].team != t
  {
    First(subs, (s: SubmissionDoc) => s.team == t)
  }

  /** `Progress.findOne({ team: t })`, the record `Progress.updateOne({ team: t }, …)` changes. */
  function ProgressOfTeam(progress: seq<ProgressRec>, t: Id): (r: Option<nat>)
    ensures r.Some? ==> r.value < |progress| && progress[r.value].team == t
    ensures r.Some? ==> forall j :: 0 <= j < r.value ==> progress[j].team != t
    ensures r.None? <==> forall j :: 0 <= j < |progress| ==> progress[j].team != t
  {
    First(progress, (p: ProgressRec) => p.team == t)
  }

  /**
   * `Submission.findByIdAndUpdate(id, { status })`, and equally `findById`
   * followed by an assignment of `status` and `save()`: the first submission
   * with that id gets the new status whatever it had before; `None` when
   * there is no such submission.
   */
  function Restatus(subs: seq<SubmissionDoc>, id: Id, status: SubmissionStatus): (r: Option<seq<SubmissionDoc>>)
    ensures r.None? <==> forall j :: 0 <= j < |subs| ==> subs[j].id != id
    ensures r.Some? ==> |r.value| == |subs|
  {
    match SubmissionById(subs, id)
    case None => None
    case Some(i) => Some(subs[i := subs[i].(status := status)])
  }

  /**
   * After a status change the submission with that id is found at the same
   * place with the new status and every other field as it was, and every
   * other submission is unchanged.
   */
  lemma RestatusEffect(subs: seq<SubmissionDoc>, id: Id, status: SubmissionStatus)
    requires exists j :: 0 <= j < |subs| && subs[j].id == id
    ensures var r := Restatus(subs, id, status).value;
      var i := SubmissionById(subs, id).value;
      SubmissionById(r, id) == Some(i) && r[i] == subs[i].(status := status)
      && forall j :: 0 <= j < |subs| && j != i ==> r[j] == subs[j]
  {
    var r := Restatus(subs, id, status).value;
    var i := SubmissionById(subs, id).value;
    FirstIs(r, (s: SubmissionDoc) => s.id == id, Some(i));
  }

  /** `u` belongs to some team. */
  predicate InSomeTeam(teams: seq<TeamDoc>, u: Id) {
    exists j :: 0 <= j < |teams| && u in teams[j].members
  }

  // ---------------------------------------------------------------------
  // Membership invariants kept by the team and invite handlers
  // ---------------------------------------------------------------------

  /** Team ids are unique (they are `_id`s). */
  ghost predicate UniqueTeamIds(teams: seq<TeamDoc>) {
    forall i, j :: 0 <= i < |teams| && 0 <= j < |teams| && teams[i].id == teams[j].id ==> i == j
  }

  /** One team is well formed: within the cap, led by a member, no member twice. */
  ghost predicate TeamWellFormed(t: TeamDoc) {
    |t.members| <= TeamLimit && t.leader in t.members && NoDuplicates(t.members)
  }

  /** Every team is well formed and no user is a member of two teams. */
  ghost predicate Membership(teams: seq<TeamDoc>) {
    UniqueTeamIds(teams)
    && (forall i :: 0 <= i < |teams| ==> TeamWellFormed(teams[i]))
    && (forall i, j, u :: 0 <= i < |teams| && 0 <= j < |teams| && u in teams[i].members && u in teams[j].members ==> i == j)
  }

  /** Removing a value keeps a list free of repeats. */
  lemma {:induction false} WithoutNoDuplicates(s: seq<Id>, x: Id)
    requires NoDuplicates(s)
    ensures NoDuplicates(Without(s, x))
  {
    if |s| > 0 {
      assert NoDuplicates(s[1..]) by {
        forall i, j | 0 <= i < j < |s[1..]| ensures s[1..][i] != s[1..][j] {
          assert s[1..][i] == s[i + 1] && s[1..][j] == s[j + 1];
        }
      }
      WithoutNoDuplicates(s[1..], x);
      assert s[0] !in s[1..];
    }
  }

  /** A new team of one, led by a user in no team, keeps the membership invariant. */
  lemma AddTeamKeepsMembership(teams: seq<TeamDoc>, t: TeamDoc)
    requires Membership(teams)
    requires forall j :: 0 <= j < |teams| ==> teams[j].id != t.id
    requires !InSomeTeam(teams, t.leader) && t.members == [t.leader]
    ensures Membership(teams + [t])
  {
    var r := teams + [t];
    assert forall j :: 0 <= j < |teams| ==> r[j] == teams[j];
    assert TeamWellFormed(t);
  }

  /**
   * Filtering a user other than the leader out of one team keeps the
   * invariant, and that user is then in no team at that index.
   */
  lemma RemoveKeepsMembership(teams: seq<TeamDoc>, i: nat, x: Id)
    requires Membership(teams) && i < |teams| && x != teams[i].leader
    ensures var r := teams[i := teams[i].(members := Without(teams[i].members, x))];
      Membership(r) && x !in r[i].members
  {
    var m := Without(teams[i].members, x);
    WithoutNoDuplicates(teams[i].members, x);
    WithoutShorter(teams[i].members, x);
    var r := teams[i := teams[i].(members := m)];
    assert TeamWellFormed(r[i]);
    forall a, b, u | 0 <= a < |r| && 0 <= b < |r| && u in r[a].members && u in r[b].members
      ensures a == b
    {
      assert u in teams[a].members && u in teams[b].members;
    }
  }

  /** Appending a user in no team to a team below the cap keeps the invariant. */
  lemma JoinKeepsMembership(teams: seq<TeamDoc>, i: nat, u: Id)
    requires Membership(teams) && i < |teams| && |teams[i].members| < TeamLimit
    requires !InSomeTeam(teams, u)
    ensures var r := teams[i := teams[i].(members := teams[i].members + [u])];
      Membership(r) && |r[i].members| <= TeamLimit && u in r[i].members
  {
    var m := teams[i].members + [u];
    var r := teams[i := teams[i].(members := m)];
    assert u !in teams[i].members;
    assert NoDuplicates(m) by {
      forall a, b | 0 <= a < b < |m| ensures m[a] != m[b] {
        if b == |m| - 1 { assert m[a] in teams[i].members; }
      }
    }
    assert TeamWellFormed(r[i]);
    forall a, b, v | 0 <= a < |r| && 0 <= b < |r| && v in r[a].members && v in r[b].members
      ensures a == b
    {
      if v != u {
        assert v in teams[a].members && v in teams[b].members;
      }
    }
  }

  /** The unique index on `(team, user)` of src/models/Invite/index.ts. */
  ghost predicate UniqueInvitePairs(invites: map<Id, InviteDoc>) {
    forall a, b :: a in invites && b in invites && invites[a].team == invites[b].team && invites[a].user == invites[b].user ==> a == b
  }

  /** An invite exists for the pair. */
  predicate InviteExists(invites: map<Id, InviteDoc>, team: Id, user: Id) {
    exists k :: k in invites && invites[k].team == team && invites[k].user == user
  }

  /** The collections of the service, updated in place by the handlers. */
  class Db {
    var stages: seq<StageRec>
    var progress: seq<ProgressRec>
    var teams: seq<TeamDoc>
    var users: seq<UserDoc>
    var invites: map<Id, InviteDoc>
    var submissions: seq<SubmissionDoc>
    var bugs: map<Id, BugDoc>
    /** Bug type name to its default points (the name is a unique index). */
    var bugTypes: map<string, int>
    /** College id to its name. */
    var colleges: map<Id, string>
    var problems: set<Id>
    /** The `release_results` runtime flag, when the document exists. */
    var releaseResults: Option<bool>

    constructor ()
      ensures stages == [] && progress == [] && teams == [] && users == []
      ensures invites == map[] && submissions == [] && bugs == map[]
      ensures bugTypes == map[] && colleges == map[] && problems == {} && releaseResults == None
    {
      stages, progress, teams, users := [], [], [], [];
      invites, submissions, bugs := map[], [], map[];
      bugTypes, colleges, problems, releaseResults := map[], map[], {}, None;
    }

    /**
     * `Progress.createInitialProgress(team)`: inserts the record that
     * `InitialProgress` describes, or fails and inserts nothing.
     */
    method CreateInitialProgress(team: Id, now: int) returns (r: Outcome)
      modifies this`progress
      ensures r.Fail? <==> forall s :: s in stages ==> !WindowOpen(s, now)
      ensures r.Fail? ==> progress == old(progress) && r.error == Internal
      ensures r.Pass? ==> progress == old(progress) + [InitialProgress(stages, team, now).value]
    {
      var stage := OpenSubmissionStage(stages, now);
      if stage.None? {
        return Fail(Internal);
      }
      if stage.value.kind != Submission {
        return Fail(Internal);
      }
      progress := progress + [ProgressRec(team, stage.value.id, false, false)];
      return Pass;
    }
  }
}
