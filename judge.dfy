/**
 * The judging handlers of src/controllers/judge.controller.ts: the judge's
 * verdict on a submission, the per-round bug ledger entry and its restore,
 * and the judge → round → category score matrix of a team.
 */
module JudgeController {
  import opened Common
  import opened SubmissionModel
  import opened Store
  import opened BugsController

  // ---------------------------------------------------------------------
  // updateSubmissionStatus / RejectSubmissionStatus
  // ---------------------------------------------------------------------

  /**
   * `updateSubmissionStatus` and `RejectSubmissionStatus`: a missing
   * `submissionId` or an unknown one is a plain `Error`; otherwise the
   * submission gets `verdict` whatever its previous status was.
   */
  method SetJudgeVerdict(db: Db, submissionId: Option<Id>, verdict: SubmissionStatus) returns (r: Outcome)
    requires verdict == JudgeApproved || verdict == JudgeRejected
    modifies db`submissions
    ensures r.Fail? ==> r.error == Internal && db.submissions == old(db.submissions)
    ensures r.Pass? <==> submissionId.Some? && Restatus(old(db.submissions), submissionId.value, verdict).Some?
    ensures r.Pass? ==> db.submissions == Restatus(old(db.submissions), submissionId.value, verdict).value
  {
    if submissionId.None? {
      return Fail(Internal);            // "Submission ID is required"
    }
    var updated := Restatus(db.submissions, submissionId.value, verdict);
    if updated.None? {
      return Fail(Internal);            // "Submission not found"
    }
    db.submissions := updated.value;
    return Pass;
  }

  /** `updateSubmissionStatus`: the verdict "judge-ap". */
  method UpdateSubmissionStatus(db: Db, submissionId: Option<Id>) returns (r: Outcome)
    modifies db`submissions
    ensures r.Fail? ==> r.error == Internal && db.submissions == old(db.submissions)
    ensures r.Pass? <==> submissionId.Some? && exists j :: 0 <= j < |old(db.submissions)| && old(db.submissions)[j].id == submissionId.value
    ensures r.Pass? ==> db.submissions == Restatus(old(db.submissions), submissionId.value, JudgeApproved).value
  {
    r := SetJudgeVerdict(db, submissionId, JudgeApproved);
  }

  /** `RejectSubmissionStatus`: the verdict "judge-rj". */
  method RejectSubmissionStatus(db: Db, submissionId: Option<Id>) returns (r: Outcome)
    modifies db`submissions
    ensures r.Fail? ==> r.error == Internal && db.submissions == old(db.submissions)
    ensures r.Pass? <==> submissionId.Some? && exists j :: 0 <= j < |old(db.submissions)| && old(db.submissions)[j].id == submissionId.value
    ensures r.Pass? ==> db.submissions == Restatus(old(db.submissions), submissionId.value, JudgeRejected).value
  {
    r := SetJudgeVerdict(db, submissionId, JudgeRejected);
  }

  // ---------------------------------------------------------------------
  // updateBugRoundScore
  // ---------------------------------------------------------------------

  /**
   * `Array.prototype.slice(start)`: a negative start counts from the end and
   * stops at the front; a start past the end gives the empty list.
   */
  function JsSlice<T>(s: seq<T>, start: int): (r: seq<T>)
    ensures 0 <= start <= |s| ==> r == s[start..]
    ensures start > |s| ==> r == []
    ensures start < 0 ==> r == s[(if |s| + start < 0 then 0 else |s| + start)..]
  {
    if start < 0 then (if |s| + start < 0 then s else s[|s| + start..])
    else if start > |s| then []
    else s[start..]
  }

  /** The ledger after a restore to index `k`: -1 empties it, any other index keeps `bugs.slice(k)`. */
  function Restored(bugs: seq<BugRecord>, k: int): (r: seq<BugRecord>)
    ensures k == -1 ==> r == []
    ensures 0 <= k < |bugs| ==> r == bugs[k..]
    ensures k >= |bugs| ==> r == []
  {
    if k == -1 then [] else JsSlice(bugs, k)
  }

  /**
   * The ledger after a new round: one entry in front whose score is the
   * round's score added to the head score (just the round's score on an
   * empty ledger), whose count is the old length plus one and whose time is
   * `now`; the old entries follow.
   */
  function RoundPrepended(bugs: seq<BugRecord>, score: int, now: int): (r: seq<BugRecord>)
    ensures |r| == |bugs| + 1 && r[1..] == bugs
    ensures HeadScore(r) == score + HeadScore(bugs)
    ensures HeadCount(r) == |bugs| + 1 && r[0].updatedAt == Some(now)
  {
    var head := if |bugs| == 0 then score else score + bugs[0].score;
    [BugRecord(head, |bugs| + 1, Some(now))] + bugs
  }

  /** Restoring to index 1 undoes the latest round, and restoring to 0 keeps everything. */
  lemma RestoreUndoesRound(bugs: seq<BugRecord>, score: int, now: int)
    ensures Restored(RoundPrepended(bugs, score, now), 1) == bugs
    ensures Restored(bugs, 0) == bugs
  {
  }

  /** Each round raises the head count by exactly one, so after `n` rounds from empty it is `n`. */
  lemma {:induction false} RoundsCount(scores: seq<int>, now: int)
    ensures |Rounds([], scores, now)| == |scores|
    ensures |scores| > 0 ==> HeadCount(Rounds([], scores, now)) == |scores|
    ensures HeadScore(Rounds([], scores, now)) == Sum(scores)
  {
    if |scores| > 0 {
      var init, last := scores[..|scores| - 1], scores[|scores| - 1];
      RoundsCount(init, now);
      assert Rounds([], scores, now) == RoundPrepended(Rounds([], init, now), last, now);
      assert Sum(scores) == Sum(init) + last;
    }
  }

  /** The ledger after rounds with these scores, the last score in the list applied last. */
  function Rounds(bugs: seq<BugRecord>, scores: seq<int>, now: int): seq<BugRecord> {
    if |scores| == 0 then bugs
    else RoundPrepended(Rounds(bugs, scores[..|scores| - 1], now), scores[|scores| - 1], now)
  }

  function Sum(s: seq<int>): int {
    if |s| == 0 then 0 else Sum(s[..|s| - 1]) + s[|s| - 1]
  }

  /**
   * `updateBugRoundScore`: an unknown team is a plain `Error`. A
   * `restoreIdx` that parses as an integer truncates the ledger; without one
   * a new round is put in front.
   */
  method UpdateBugRoundScore(db: Db, teamId: Id, score: int, restoreIdx: Option<int>, now: int) returns (r: Outcome)
    modifies db`teams
    ensures r.Fail? <==> TeamById(old(db.teams), teamId).None?
    ensures r.Fail? ==> r.error == Internal && db.teams == old(db.teams)
    ensures r.Pass? ==>
      var i := TeamById(old(db.teams), teamId).value;
      var bugs := old(db.teams)[i].bugs;
      db.teams == old(db.teams)[i := old(db.teams)[i].(bugs :=
        if restoreIdx.Some? then Restored(bugs, restoreIdx.value) else RoundPrepended(bugs, score, now))]
  {
    var found := TeamById(db.teams, teamId);
    if found.None? {
      return Fail(Internal);            // "Team not found"
    }
    var i := found.value;
    var bugs := db.teams[i].bugs;
    var ledger;
    if restoreIdx.Some? {
      ledger := Restored(bugs, restoreIdx.value);
    } else {
      ledger := RoundPrepended(bugs, score, now);
    }
    db.teams := db.teams[i := db.teams[i].(bugs := ledger)];
    return Pass;
  }

  // ---------------------------------------------------------------------
  // updateTeamScore: judge → round → category, find-first on each level
  // ---------------------------------------------------------------------

  /** `team.judge_score.find(...)`: the first entry of the judge, none iff there is none. */
  function FindJudge(js: seq<JudgeScore>, judge: Id): (r: Option<nat>)
    ensures r.Some? ==> r.value < |js| && js[r.value].judge == judge
    ensures r.Some? ==> forall k :: 0 <= k < r.value ==> js[k].judge != judge
    ensures r.None? <==> forall k :: 0 <= k < |js| ==> js[k].judge != judge
  {
    First(js, (x: JudgeScore) => x.judge == judge)
  }

  /** `judgeScore.scores.find(...)`: the first entry of the round, none iff there is none. */
  function FindRound(rs: seq<RoundScore>, round: Id): (r: Option<nat>)
    ensures r.Some? ==> r.value < |rs| && rs[r.value].round == round
    ensures r.Some? ==> forall k :: 0 <= k < r.value ==> rs[k].round != round
    ensures r.None? <==> forall k :: 0 <= k < |rs| ==> rs[k].round != round
  {
    First(rs, (x: RoundScore) => x.round == round)
  }

  /** `roundScore.category_scores.find(...)`: the first entry of the category, none iff there is none. */
  function FindCategory(cs: seq<CategoryScore>, category: string): (r: Option<nat>)
    ensures r.Some? ==> r.value < |cs| && cs[r.value].category == category
    ensures r.Some? ==> forall k :: 0 <= k < r.value ==> cs[k].category != category
    ensures r.None? <==> forall k :: 0 <= k < |cs| ==> cs[k].category != category
  {
    First(cs, (x: CategoryScore) => x.category == category)
  }

  /** The score a reader finds for a category in one round's list, by find-first. */
  function CategoryCell(cs: seq<CategoryScore>, category: string): Option<int> {
    match FindCategory(cs, category)
    case None => None
    case Some(c) => Some(cs[c].score)
  }

  /** The score a reader finds for (round, category) in one judge's list of rounds. */
  function RoundCell(rs: seq<RoundScore>, round: Id, category: string): Option<int> {
    match FindRound(rs, round)
    case None => None
    case Some(b) => CategoryCell(rs[b].categories, category)
  }

  /** The score a reader finds for (judge, round, category) by the same find-first lookups. */
  function ScoreAt(js: seq<JudgeScore>, judge: Id, round: Id, category: string): Option<int> {
    match FindJudge(js, judge)
    case None => None
    case Some(a) => RoundCell(js[a].rounds, round, category)
  }

  /** The category level: overwrite the first entry for `category` in place, or append one. */
  function UpsertCategory(cs: seq<CategoryScore>, category: string, score: int): (r: seq<CategoryScore>)
    ensures |r| == |cs| + (if FindCategory(cs, category).None? then 1 else 0)
  {
    match FindCategory(cs, category)
    case None => cs + [CategoryScore(category, score)]
    case Some(c) => cs[c := cs[c].(score := score)]
  }

  /** The round level: descend into the first entry for `round`, or append a round holding one category. */
  function UpsertRound(rs: seq<RoundScore>, round: Id, category: string, score: int): (r: seq<RoundScore>)
    ensures |r| == |rs| + (if FindRound(rs, round).None? then 1 else 0)
  {
    match FindRound(rs, round)
    case None => rs + [RoundScore(round, [CategoryScore(category, score)])]
    case Some(b) => rs[b := rs[b].(categories := UpsertCategory(rs[b].categories, category, score))]
  }

  /** The judge level: descend into the first entry for `judge`, or append a judge holding one round. */
  function UpsertJudge(js: seq<JudgeScore>, judge: Id, round: Id, category: string, score: int): (r: seq<JudgeScore>)
    ensures |r| == |js| + (if FindJudge(js, judge).None? then 1 else 0)
  {
    match FindJudge(js, judge)
    case None => js + [JudgeScore(judge, [RoundScore(round, [CategoryScore(category, score)])])]
    case Some(a) => js[a := js[a].(rounds := UpsertRound(js[a].rounds, round, category, score))]
  }

  /** After an upsert of a category, its cell holds the new score and every other category reads as before. */
  lemma CategoryLookup(cs: seq<CategoryScore>, category: string, score: int, category': string)
    ensures CategoryCell(UpsertCategory(cs, category, score), category')
         == if category' == category then Some(score) else CategoryCell(cs, category')
  {
    var p := (x: CategoryScore) => x.category == category';
    match FindCategory(cs, category)
    case None =>
      FirstAppend(cs, CategoryScore(category, score), p);
    case Some(c) =>
      FirstUpdate(cs, c, cs[c].(score := score), p);
  }

  /** The round level of `UpsertLookup`. */
  lemma RoundLookup(rs: seq<RoundScore>, round: Id, category: string, score: int, round': Id, category': string)
    ensures RoundCell(UpsertRound(rs, round, category, score), round', category')
         == if round' == round && category' == category then Some(score) else RoundCell(rs, round', category')
  {
    var p := (x: RoundScore) => x.round == round';
    match FindRound(rs, round)
    case None =>
      FirstAppend(rs, RoundScore(round, [CategoryScore(category, score)]), p);
    case Some(b) =>
      var cs := rs[b].categories;
      FirstUpdate(rs, b, rs[b].(categories := UpsertCategory(cs, category, score)), p);
      if round' == round {
        CategoryLookup(cs, category, score, category');
      }
  }

  /**
   * The upsert writes exactly one cell of the matrix: the cell it names now
   * holds the new score, and every other (judge, round, category) reads as it
   * did before.
   */
  lemma UpsertLookup(js: seq<JudgeScore>, judge: Id, round: Id, category: string, score: int,
                     judge': Id, round': Id, category': string)
    ensures ScoreAt(UpsertJudge(js, judge, round, category, score), judge', round', category')
         == if judge' == judge && round' == round && category' == category then Some(score)
            else ScoreAt(js, judge', round', category')
  {
    var p := (x: JudgeScore) => x.judge == judge';
    match FindJudge(js, judge)
    case None =>
      FirstAppend(js, JudgeScore(judge, [RoundScore(round, [CategoryScore(category, score)])]), p);
    case Some(a) =>
      var rs := js[a].rounds;
      FirstUpdate(js, a, js[a].(rounds := UpsertRound(rs, round, category, score)), p);
      if judge' == judge {
        RoundLookup(rs, round, category, score, round', category');
      }
  }

  /** Writing the same category score twice is the same as writing it once. */
  lemma CategoryTwice(cs: seq<CategoryScore>, category: string, score: int)
    ensures UpsertCategory(UpsertCategory(cs, category, score), category, score) == UpsertCategory(cs, category, score)
  {
    var p := (x: CategoryScore) => x.category == category;
    var r := UpsertCategory(cs, category, score);
    match FindCategory(cs, category)
    case None =>
      FirstAppend(cs, CategoryScore(category, score), p);
      assert r[|cs| := r[|cs|].(score := score)] == r;
    case Some(c) =>
      FirstUpdate(cs, c, cs[c].(score := score), p);
  }

  /** The round level of `UpsertIdempotent`. */
  lemma RoundTwice(rs: seq<RoundScore>, round: Id, category: string, score: int)
    ensures UpsertRound(UpsertRound(rs, round, category, score), round, category, score) == UpsertRound(rs, round, category, score)
  {
    var p := (x: RoundScore) => x.round == round;
    var r := UpsertRound(rs, round, category, score);
    match FindRound(rs, round)
    case None =>
      var entry := RoundScore(round, [CategoryScore(category, score)]);
      FirstAppend(rs, entry, p);
      assert UpsertCategory(entry.categories, category, score) == entry.categories;
      assert r[|rs| := r[|rs|].(categories := UpsertCategory(r[|rs|].categories, category, score))] == r;
    case Some(b) =>
      var cs := rs[b].categories;
      FirstUpdate(rs, b, rs[b].(categories := UpsertCategory(cs, category, score)), p);
      CategoryTwice(cs, category, score);
  }

  /**
   * Saving the same score for the same (judge, round, category) again
   * changes nothing: the second call finds the entries the first one made or
   * overwrote, so no judge, round or category is ever entered twice.
   */
  lemma UpsertIdempotent(js: seq<JudgeScore>, judge: Id, round: Id, category: string, score: int)
    ensures UpsertJudge(UpsertJudge(js, judge, round, category, score), judge, round, category, score)
         == UpsertJudge(js, judge, round, category, score)
  {
    var p := (x: JudgeScore) => x.judge == judge;
    var r := UpsertJudge(js, judge, round, category, score);
    match FindJudge(js, judge)
    case None =>
      var entry := JudgeScore(judge, [RoundScore(round, [CategoryScore(category, score)])]);
      FirstAppend(js, entry, p);
      RoundTwice([], round, category, score);
      assert UpsertRound([], round, category, score) == entry.rounds;
      assert r[|js| := r[|js|].(rounds := UpsertRound(r[|js|].rounds, round, category, score))] == r;
    case Some(a) =>
      var rs := js[a].rounds;
      FirstUpdate(js, a, js[a].(rounds := UpsertRound(rs, round, category, score)), p);
      RoundTwice(rs, round, category, score);
  }

  /**
   * `updateTeamScore`: a negative score and an unknown team are plain
   * `Error`s; otherwise the team's score matrix gets the upsert and nothing
   * else about any team changes.
   */
  method UpdateTeamScore(db: Db, teamId: Id, judge: Id, round: Id, category: string, score: int) returns (r: Outcome)
    modifies db`teams
    ensures r.Fail? <==> score < 0 || TeamById(old(db.teams), teamId).None?
    ensures r.Fail? ==> r.error == Internal && db.teams == old(db.teams)
    ensures r.Pass? ==>
      var i := TeamById(old(db.teams), teamId).value;
      db.teams == old(db.teams)[i := old(db.teams)[i].(judgeScores :=
        UpsertJudge(old(db.teams)[i].judgeScores, judge, round, category, score))]
  {
    if score < 0 {
      return Fail(Internal);            // "Score must be a positive number"
    }
    var found := TeamById(db.teams, teamId);
    if found.None? {
      return Fail(Internal);            // "Team not found"
    }
    var i := found.value;
    db.teams := db.teams[i := db.teams[i].(judgeScores := UpsertJudge(db.teams[i].judgeScores, judge, round, category, score))];
    return Pass;
  }
}
