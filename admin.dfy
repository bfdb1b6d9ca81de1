/**
 * The admin handlers of src/controllers/admin.controller.ts that decide
 * something: the admin's verdict on a submission together with the move of
 * the team's progress to the next stage, promotion of a user to judge, the
 * judge's list of assigned problems, and the team → judges mapping.
 */
module AdminController {
  import opened Common
  import opened StageModel
  import opened ProgressModel
  import opened SubmissionModel
  import opened Store

  // ---------------------------------------------------------------------
  // adminApprove / adminReject
  // ---------------------------------------------------------------------

  /**
   * `Progress.updateOne({ team }, { stage })`: the first progress record of
   * the team is bound to `stage`; with no record nothing changes.
   */
  function Rebind(progress: seq<ProgressRec>, team: Id, stage: Id): (r: seq<ProgressRec>)
    ensures |r| == |progress|
    ensures ProgressOfTeam(progress, team).None? ==> r == progress
  {
    match ProgressOfTeam(progress, team)
    case None => progress
    case Some(i) => progress[i := progress[i].(stage := stage)]
  }

  /**
   * A rebind changes one field of one record: the team's first record
   * (still its first) gets the stage, keeps its flags, and every other
   * record, of this team or another, is as it was.
   */
  lemma RebindEffect(progress: seq<ProgressRec>, team: Id, stage: Id, j: nat)
    requires j < |progress|
    ensures var r := Rebind(progress, team, stage);
      ProgressOfTeam(r, team) == ProgressOfTeam(progress, team)
      && (if ProgressOfTeam(progress, team) == Some(j)
          then r[j] == ProgressRec(team, stage, progress[j].completed, progress[j].disqualified)
          else r[j] == progress[j])
  {
    match ProgressOfTeam(progress, team)
    case None =>
    case Some(i) =>
      FirstUpdate(progress, i, progress[i].(stage := stage), (p: ProgressRec) => p.team == team);
  }

  /**
   * The common shape of `adminApprove` and `adminReject`. Every failure is
   * the 400 of their `catch`. An unknown submission changes nothing; a
   * missing target stage fails after the new status has been saved; on
   * success the submission's team is rebound to the first stage of kind
   * `next`. The prior status is not consulted.
   */
  method AdminDecide(db: Db, submissionId: Id, status: SubmissionStatus, next: Kind) returns (r: Outcome)
    modifies db`submissions, db`progress
    ensures r.Fail? ==> r.error == BadRequest
    ensures SubmissionById(old(db.submissions), submissionId).None? ==>
      r.Fail? && db.submissions == old(db.submissions) && db.progress == old(db.progress)
    ensures SubmissionById(old(db.submissions), submissionId).Some? ==>
      db.submissions == Restatus(old(db.submissions), submissionId, status).value
    ensures SubmissionById(old(db.submissions), submissionId).Some? ==>
      var team := old(db.submissions)[SubmissionById(old(db.submissions), submissionId).value].team;
      match FindByKind(db.stages, next)
      case None => r.Fail? && db.progress == old(db.progress)
      case Some(s) => r.Pass? && db.progress == Rebind(old(db.progress), team, s.id)
  {
    var found := SubmissionById(db.submissions, submissionId);
    if found.None? {
      return Fail(BadRequest);          // "Submission not found"
    }
    var team := db.submissions[found.value].team;
    db.submissions := Restatus(db.submissions, submissionId, status).value;
    var stage := FindByKind(db.stages, next);
    if stage.None? {
      return Fail(BadRequest);          // "Next stage not found"
    }
    db.progress := Rebind(db.progress, team, stage.value.id);
    return Pass;
  }

  /** `adminApprove`: status "admin-ap", the team moves to the FINALS stage. */
  method AdminApprove(db: Db, submissionId: Id) returns (r: Outcome)
    modifies db`submissions, db`progress
    ensures r.Fail? ==> r.error == BadRequest
    ensures SubmissionById(old(db.submissions), submissionId).None? ==>
      r.Fail? && db.submissions == old(db.submissions) && db.progress == old(db.progress)
    ensures SubmissionById(old(db.submissions), submissionId).Some? ==>
      db.submissions == Restatus(old(db.submissions), submissionId, AdminApproved).value
    ensures SubmissionById(old(db.submissions), submissionId).Some? ==>
      var team := old(db.submissions)[SubmissionById(old(db.submissions), submissionId).value].team;
      match FindByKind(db.stages, Finals)
      case None => r.Fail? && db.progress == old(db.progress)
      case Some(s) => r.Pass? && db.progress == Rebind(old(db.progress), team, s.id)
  {
    r := AdminDecide(db, submissionId, AdminApproved, Finals);
  }

  /** `adminReject`: status "admin-rj", the team moves to the QUALIFIERS stage. */
  method AdminReject(db: Db, submissionId: Id) returns (r: Outcome)
    modifies db`submissions, db`progress
    ensures r.Fail? ==> r.error == BadRequest
    ensures SubmissionById(old(db.submissions), submissionId).None? ==>
      r.Fail? && db.submissions == old(db.submissions) && db.progress == old(db.progress)
    ensures SubmissionById(old(db.submissions), submissionId).Some? ==>
      db.submissions == Restatus(old(db.submissions), submissionId, AdminRejected).value
    ensures SubmissionById(old(db.submissions), submissionId).Some? ==>
      var team := old(db.submissions)[SubmissionById(old(db.submissions), submissionId).value].team;
      match FindByKind(db.stages, Qualifiers)
      case None => r.Fail? && db.progress == old(db.progress)
      case Some(s) => r.Pass? && db.progress == Rebind(old(db.progress), team, s.id)
  {
    r := AdminDecide(db, submissionId, AdminRejected, Qualifiers);
  }

  // ---------------------------------------------------------------------
  // makeJudge
  // ---------------------------------------------------------------------

  /** `makeJudge`: an unknown user is a plain `Error`; otherwise the role becomes judge and the problem list empty. */
  method MakeJudge(db: Db, userId: Id) returns (r: Outcome)
    modifies db`users
    ensures r.Fail? <==> UserById(old(db.users), userId).None?
    ensures r.Fail? ==> r.error == Internal && db.users == old(db.users)
    ensures r.Pass? ==>
      var i := UserById(old(db.users), userId).value;
      db.users == old(db.users)[i := old(db.users)[i].(role := Judge, problems := Some([]))]
  {
    var found := UserById(db.users, userId);
    if found.None? {
      return Fail(Internal);            // "User not found"
    }
    var i := found.value;
    db.users := db.users[i := db.users[i].(role := Judge, problems := Some([]))];
    return Pass;
  }

  // ---------------------------------------------------------------------
  // assignProblem / deassignProblem
  // ---------------------------------------------------------------------

  /** A user's problem list, an absent one read as empty (`problem_statement ?? []`). */
  function Assigned(u: UserDoc): seq<Id> {
    match u.problems case None => [] case Some(l) => l
  }

  /** `ids.filter(id => !have.includes(id))`: the requested ids not yet assigned, in request order. */
  function NewIds(ids: seq<Id>, have: seq<Id>): (r: seq<Id>)
    ensures forall x :: x in r <==> x in ids && x !in have
    ensures |r| <= |ids|
  {
    if |ids| == 0 then []
    else if ids[0] in have then NewIds(ids[1..], have)
    else [ids[0]] + NewIds(ids[1..], have)
  }

  /** The list `assignProblem` saves: the old list, then the new ids. */
  function Merged(have: seq<Id>, ids: seq<Id>): (r: seq<Id>)
    ensures |r| >= |have| && r[..|have|] == have
    ensures forall x :: x in r <==> x in have || x in ids
  {
    have + NewIds(ids, have)
  }

  /**
   * Nothing is left to assign exactly when the current list already holds
   * every requested id: the condition of the 400 "No new problems to assign".
   */
  lemma {:induction false} NewIdsCovered(ids: seq<Id>, have: seq<Id>)
    ensures NewIds(ids, have) == [] <==> forall x :: x in ids ==> x in have
  {
    if |ids| > 0 {
      NewIdsCovered(ids[1..], have);
      if ids[0] !in have {
        assert ids[0] in NewIds(ids, have);
      }
    }
  }

  /** Assigning the same problems twice is assigning them once. */
  lemma MergedIdempotent(have: seq<Id>, ids: seq<Id>)
    ensures Merged(Merged(have, ids), ids) == Merged(have, ids)
  {
    NewIdsCovered(ids, Merged(have, ids));
  }

  /** The new ids repeat only what the request repeats, and none is already assigned. */
  lemma {:induction false} NewIdsNoDuplicates(ids: seq<Id>, have: seq<Id>)
    requires NoDuplicates(ids)
    ensures NoDuplicates(NewIds(ids, have))
  {
    if |ids| > 0 {
      assert NoDuplicates(ids[1..]) by {
        forall i, j | 0 <= i < j < |ids[1..]| ensures ids[1..][i] != ids[1..][j] {
          assert ids[1..][i] == ids[i + 1] && ids[1..][j] == ids[j + 1];
        }
      }
      NewIdsNoDuplicates(ids[1..], have);
      assert ids[0] !in ids[1..];
    }
  }

  /** A list without repeats stays without repeats when a request without repeats is merged in. */
  lemma MergedNoDuplicates(have: seq<Id>, ids: seq<Id>)
    requires NoDuplicates(have) && NoDuplicates(ids)
    ensures NoDuplicates(Merged(have, ids))
  {
    var n := NewIds(ids, have);
    NewIdsNoDuplicates(ids, have);
    var r := have + n;
    forall i, j | 0 <= i < j < |r| ensures r[i] != r[j] {
      if j >= |have| && i < |have| {
        assert r[j] in n && r[i] in have;
      } else if i >= |have| {
        assert r[i] == n[i - |have|] && r[j] == n[j - |have|];
      }
    }
  }

  /** Deassigning a problem right after assigning it leaves the old list without that problem. */
  lemma AssignThenDeassign(have: seq<Id>, x: Id)
    ensures Without(Merged(have, [x]), x) == Without(have, x)
  {
    WithoutConcat(have, NewIds([x], have), x);
    assert Without(NewIds([x], have), x) == [] by {
      assert forall y :: y in NewIds([x], have) ==> y == x;
    }
  }

  /** `deassignProblem` reports "not assigned" exactly when filtering removes nothing. */
  lemma WithoutSameLength(s: seq<Id>, x: Id)
    ensures |Without(s, x)| == |s| <==> x !in s
  {
    if x in s {
      calc {
        |Without(s, x)|;
        == |multiset(Without(s, x))|;
        == |multiset(s)[x := 0]|;
        < |multiset(s)|;
        == |s|;
      }
    } else {
      WithoutAbsent(s, x);
    }
  }

  /**
   * `assignProblem`: an unknown user or a non-judge is a plain `Error`. An
   * absent list counts as empty. The merged list is saved in every other
   * case; when nothing new was requested the reply is the 400 "No new
   * problems to assign", sent before the save.
   */
  method AssignProblem(db: Db, userId: Id, problemIds: seq<Id>) returns (r: Outcome)
    modifies db`users
    ensures r.Fail? && r.error == Internal <==>
      UserById(old(db.users), userId).None? || old(db.users)[UserById(old(db.users), userId).value].role != Judge
    ensures r.Fail? && r.error == Internal ==> db.users == old(db.users)
    ensures !(r.Fail? && r.error == Internal) ==>
      var i := UserById(old(db.users), userId).value;
      var have := Assigned(old(db.users)[i]);
      db.users == old(db.users)[i := old(db.users)[i].(problems := Some(Merged(have, problemIds)))]
      && (r.Fail? <==> forall x :: x in problemIds ==> x in have)
      && (r.Fail? ==> r.error == BadRequest)
  {
    var found := UserById(db.users, userId);
    if found.None? {
      return Fail(Internal);            // "User not found"
    }
    var i := found.value;
    if db.users[i].role != Judge {
      return Fail(Internal);            // "User is not a judge"
    }
    var have := Assigned(db.users[i]);
    var added := NewIds(problemIds, have);
    if |added| > 0 {
      assert added[0] in added;
    }
    r := if |added| == 0 then Fail(BadRequest) else Pass;
    db.users := db.users[i := db.users[i].(problems := Some(have + added))];
  }

  /**
   * `deassignProblem`: an unknown user, a non-judge or a judge with no list
   * is a plain `Error`. Otherwise every occurrence of the id is removed and
   * the list saved; when none was there the reply is the 400 "Problem not
   * assigned to user", sent before the save.
   */
  method DeassignProblem(db: Db, userId: Id, problemId: Id) returns (r: Outcome)
    modifies db`users
    ensures r.Fail? && r.error == Internal <==>
      UserById(old(db.users), userId).None?
      || old(db.users)[UserById(old(db.users), userId).value].role != Judge
      || old(db.users)[UserById(old(db.users), userId).value].problems.None?
    ensures r.Fail? && r.error == Internal ==> db.users == old(db.users)
    ensures !(r.Fail? && r.error == Internal) ==>
      var i := UserById(old(db.users), userId).value;
      var have := old(db.users)[i].problems.value;
      db.users == old(db.users)[i := old(db.users)[i].(problems := Some(Without(have, problemId)))]
      && (r.Fail? <==> problemId !in have)
      && (r.Fail? ==> r.error == BadRequest)
  {
    var found := UserById(db.users, userId);
    if found.None? {
      return Fail(Internal);            // "User not found"
    }
    var i := found.value;
    if db.users[i].role != Judge {
      return Fail(Internal);            // "User is not a judge"
    }
    if db.users[i].problems.None? {
      return Fail(Internal);            // "User has no problems assigned"
    }
    var have := db.users[i].problems.value;
    var remaining := Without(have, problemId);
    WithoutSameLength(have, problemId);
    r := if |remaining| == |have| then Fail(BadRequest) else Pass;
    db.users := db.users[i := db.users[i].(problems := Some(remaining))];
  }

  // ---------------------------------------------------------------------
  // getTeamJudgeMapping
  // ---------------------------------------------------------------------

  /** `teamJudges[t].push(j)`, creating the entry when `t` is new. */
  function Push(m: map<Id, seq<Id>>, t: Id, j: Id): (r: map<Id, seq<Id>>)
    ensures t in r && r[t] == (if t in m then m[t] else []) + [j]
    ensures forall k :: k != t ==> (k in r <==> k in m) && (k in m ==> r[k] == m[k])
  {
    m[t := (if t in m then m[t] else []) + [j]]
  }

  /** The inner loop: the judge's id pushed for each submission, in order, whose problem is assigned to it. */
  function PushSubmissions(m: map<Id, seq<Id>>, judge: Id, problems: seq<Id>, subs: seq<SubmissionDoc>): map<Id, seq<Id>> {
    if |subs| == 0 then m
    else
      var s := subs[|subs| - 1];
      var before := PushSubmissions(m, judge, problems, subs[..|subs| - 1]);
      if s.problem in problems then Push(before, s.team, judge) else before
  }

  /** The outer loop over the users of role judge, in order. */
  function JudgeMapping(users: seq<UserDoc>, subs: seq<SubmissionDoc>): map<Id, seq<Id>> {
    if |users| == 0 then map[]
    else
      var u := users[|users| - 1];
      var before := JudgeMapping(users[..|users| - 1], subs);
      if u.role == Judge then PushSubmissions(before, u.id, Assigned(u), subs) else before
  }

  /** A judge matches a team when one of the team's submissions is on a problem assigned to the judge. */
  predicate Judges(u: UserDoc, s: SubmissionDoc) {
    u.role == Judge && s.problem in Assigned(u)
  }

  /** The inner loop adds `judge` under exactly the teams of matching submissions, and no empty entries. */
  lemma {:induction false} PushSubmissionsMembers(m: map<Id, seq<Id>>, judge: Id, problems: seq<Id>,
                                                 subs: seq<SubmissionDoc>, t: Id, j: Id)
    ensures var r := PushSubmissions(m, judge, problems, subs);
      (t in r && j in r[t]) <==>
        (t in m && j in m[t]) || (j == judge && exists b :: 0 <= b < |subs| && subs[b].team == t && subs[b].problem in problems)
  {
    if |subs| > 0 {
      var n := |subs| - 1;
      PushSubmissionsMembers(m, judge, problems, subs[..n], t, j);
      assert forall b :: 0 <= b < n ==> subs[..n][b] == subs[b];
    }
  }

  /**
   * The mapping lists judge `j` under team `t` exactly when `j` is the id of
   * a judge with a problem that one of `t`'s submissions is on; every key
   * has at least one judge.
   */
  lemma {:induction false} JudgeMappingMembers(users: seq<UserDoc>, subs: seq<SubmissionDoc>, t: Id, j: Id)
    ensures var r := JudgeMapping(users, subs);
      (t in r && j in r[t]) <==>
        exists a, b :: 0 <= a < |users| && 0 <= b < |subs| && users[a].id == j && subs[b].team == t && Judges(users[a], subs[b])
  {
    if |users| > 0 {
      var n := |users| - 1;
      var u := users[n];
      JudgeMappingMembers(users[..n], subs, t, j);
      assert forall a :: 0 <= a < n ==> users[..n][a] == users[a];
      if u.role == Judge {
        PushSubmissionsMembers(JudgeMapping(users[..n], subs), u.id, Assigned(u), subs, t, j);
      }
    }
  }

  /** No team is listed with an empty list of judges. */
  predicate NoEmptyEntries(m: map<Id, seq<Id>>) {
    forall t :: t in m ==> |m[t]| > 0
  }

  /** The inner loop never creates a key without a judge under it. */
  lemma {:induction false} PushSubmissionsNonEmpty(m: map<Id, seq<Id>>, judge: Id, problems: seq<Id>, subs: seq<SubmissionDoc>)
    requires NoEmptyEntries(m)
    ensures NoEmptyEntries(PushSubmissions(m, judge, problems, subs))
  {
    if |subs| > 0 {
      PushSubmissionsNonEmpty(m, judge, problems, subs[..|subs| - 1]);
    }
  }

  /** Every team in the mapping has at least one judge. */
  lemma {:induction false} JudgeMappingNonEmpty(users: seq<UserDoc>, subs: seq<SubmissionDoc>)
    ensures NoEmptyEntries(JudgeMapping(users, subs))
  {
    if |users| > 0 {
      var n := |users| - 1;
      JudgeMappingNonEmpty(users[..n], subs);
      if users[n].role == Judge {
        PushSubmissionsNonEmpty(JudgeMapping(users[..n], subs), users[n].id, Assigned(users[n]), subs);
      }
    }
  }

  /** The judges listed under `t`, or none when `t` has no entry. */
  function JudgesOf(m: map<Id, seq<Id>>, t: Id): seq<Id> {
    if t in m then m[t] else []
  }

  /** How many of `subs` are submissions of team `t` on one of `problems`. */
  function MatchCount(problems: seq<Id>, subs: seq<SubmissionDoc>, t: Id): nat {
    if |subs| == 0 then 0
    else
      var s := subs[|subs| - 1];
      MatchCount(problems, subs[..|subs| - 1], t) + (if s.team == t && s.problem in problems then 1 else 0)
  }

  /**
   * How many entries judge id `j` should have under team `t`: for every
   * user of role judge with that id, one per submission of `t` on one of
   * its problems.
   */
  function JudgeCount(users: seq<UserDoc>, subs: seq<SubmissionDoc>, t: Id, j: Id): nat {
    if |users| == 0 then 0
    else
      var u := users[|users| - 1];
      JudgeCount(users[..|users| - 1], subs, t, j) + (if u.role == Judge && u.id == j then MatchCount(Assigned(u), subs, t) else 0)
  }

  /** The inner loop adds `judge` under `t` once per matching submission, and nothing else. */
  lemma {:induction false} PushSubmissionsCount(m: map<Id, seq<Id>>, judge: Id, problems: seq<Id>,
                                               subs: seq<SubmissionDoc>, t: Id, j: Id)
    ensures multiset(JudgesOf(PushSubmissions(m, judge, problems, subs), t))[j]
         == multiset(JudgesOf(m, t))[j] + (if j == judge then MatchCount(problems, subs, t) else 0)
  {
    if |subs| > 0 {
      var n := |subs| - 1;
      var s := subs[n];
      var before := PushSubmissions(m, judge, problems, subs[..n]);
      PushSubmissionsCount(m, judge, problems, subs[..n], t, j);
      if s.problem in problems && s.team == t {
        assert JudgesOf(Push(before, s.team, judge), t) == JudgesOf(before, t) + [judge];
      }
    }
  }

  /**
   * The mapping lists judge id `j` under team `t` exactly as often as the
   * loops push it: once for every judge with that id and every submission
   * of `t` on one of that judge's problems.
   */
  lemma {:induction false} JudgeMappingCount(users: seq<UserDoc>, subs: seq<SubmissionDoc>, t: Id, j: Id)
    ensures multiset(JudgesOf(JudgeMapping(users, subs), t))[j] == JudgeCount(users, subs, t, j)
  {
    if |users| > 0 {
      var n := |users| - 1;
      JudgeMappingCount(users[..n], subs, t, j);
      if users[n].role == Judge {
        PushSubmissionsCount(JudgeMapping(users[..n], subs), users[n].id, Assigned(users[n]), subs, t, j);
      }
    }
  }

  /** With no user of id `j`, the expected count is zero. */
  lemma {:induction false} JudgeCountAbsent(users: seq<UserDoc>, subs: seq<SubmissionDoc>, t: Id, j: Id)
    requires forall b :: 0 <= b < |users| ==> users[b].id != j
    ensures JudgeCount(users, subs, t, j) == 0
  {
    if |users| > 0 {
      var n := |users| - 1;
      assert forall b :: 0 <= b < n ==> users[..n][b] == users[b];
      JudgeCountAbsent(users[..n], subs, t, j);
    }
  }

  /** With unique user ids, a judge's count is the number of that team's submissions on its problems. */
  lemma {:induction false} JudgeCountUnique(users: seq<UserDoc>, subs: seq<SubmissionDoc>, t: Id, a: nat)
    requires a < |users|
    requires forall b :: 0 <= b < |users| && users[b].id == users[a].id ==> b == a
    ensures JudgeCount(users, subs, t, users[a].id)
         == if users[a].role == Judge then MatchCount(Assigned(users[a]), subs, t) else 0
  {
    var n := |users| - 1;
    assert forall b :: 0 <= b < n ==> users[..n][b] == users[b];
    if a == n {
      JudgeCountAbsent(users[..n], subs, t, users[a].id);
    } else {
      JudgeCountUnique(users[..n], subs, t, a);
    }
  }

  /**
   * With unique user ids, each judge appears under team `t` once per
   * submission of `t` on one of its problems, and a user of another role
   * never appears.
   */
  lemma JudgeMappingPerSubmission(users: seq<UserDoc>, subs: seq<SubmissionDoc>, t: Id, a: nat)
    requires a < |users|
    requires forall b :: 0 <= b < |users| && users[b].id == users[a].id ==> b == a
    ensures multiset(JudgesOf(JudgeMapping(users, subs), t))[users[a].id]
         == if users[a].role == Judge then MatchCount(Assigned(users[a]), subs, t) else 0
  {
    JudgeMappingCount(users, subs, t, users[a].id);
    JudgeCountUnique(users, subs, t, a);
  }

  /**
   * `getTeamJudgeMapping`: for each judge in the store's order, and each
   * submission on one of its problems in the store's order, push the
   * judge's id under the submission's team.
   */
  method TeamJudgeMapping(db: Db) returns (teamJudges: map<Id, seq<Id>>)
    ensures teamJudges == JudgeMapping(db.users, db.submissions)
  {
    var users := db.users;
    var subs := db.submissions;
    teamJudges := map[];
    var i := 0;
    while i < |users|
      invariant 0 <= i <= |users|
      invariant teamJudges == JudgeMapping(users[..i], subs)
    {
      var u := users[i];
      assert users[..i + 1][..i] == users[..i];
      if u.role == Judge {
        var problems := Assigned(u);
        var start := teamJudges;
        var k := 0;
        while k < |subs|
          invariant 0 <= k <= |subs|
          invariant teamJudges == PushSubmissions(start, u.id, problems, subs[..k])
        {
          var s := subs[k];
          assert subs[..k + 1][..k] == subs[..k];
          if s.problem in problems {
            var t := s.team;
            var before := teamJudges;
            if t in teamJudges {
              teamJudges := teamJudges[t := teamJudges[t] + [u.id]];
            } else {
              teamJudges := teamJudges[t := [u.id]];
              assert [] + [u.id] == [u.id];
            }
            assert teamJudges == Push(before, t, u.id);
          }
          k := k + 1;
        }
        assert subs[..k] == subs;
      }
      i := i + 1;
    }
    assert users[..i] == users;
  }
}
