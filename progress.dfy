/**
 * Team progress (src/models/Progress/progress.ts): the stored record that
 * binds a team to a stage, the creation rule for the first record, and the
 * read-time derivation of the `completed` and `disqualified` flags.
 */
module ProgressModel {
  import opened Common
  import opened StageModel

  /** A stored progress document: the team, the id of its bound stage, and the stored flags. */
  datatype ProgressRec = ProgressRec(team: Id, stage: Id, completed: bool, disqualified: bool)

  /**
   * `createInitialProgress`: the record to insert for `team`, bound to the
   * first stage whose submission window is open at `now`, with both flags at
   * their schema default (false). Without such a stage nothing is created.
   */
  function InitialProgress(stages: seq<StageRec>, team: Id, now: int): (r: Result<ProgressRec>)
    ensures r.Err? <==> forall s :: s in stages ==> !WindowOpen(s, now)
    ensures r.Err? ==> r.error == Internal
    ensures r.Ok? ==> r.value.team == team && !r.value.completed && !r.value.disqualified
    ensures r.Ok? ==> exists s :: s in stages && s.id == r.value.stage && WindowOpen(s, now)
  {
    match OpenSubmissionStage(stages, now)
    case None => Err(Internal)                         // "No stage is ongoing"
    case Some(stage) =>
      if stage.kind != Submission then Err(Internal)   // "Submission stage is over"
      else Ok(ProgressRec(team, stage.id, false, false))
  }

  /**
   * The flags that `getProgress` derives for record `p` bound to `stage`.
   * `valueEquality` selects how line 53 compares the previous stage's id with
   * the bound id: by value (true), or by object identity as the running code
   * does (false), under which two separately loaded ids are never identical.
   */
  function DeriveProgress(stages: seq<StageRec>, p: ProgressRec, now: int, valueEquality: bool): (r: Result<ProgressRec>)
    ensures r.Err? <==> forall s :: s in stages ==> s.id != p.stage
    ensures r.Err? ==> r.error == Internal
    ensures r.Ok? ==> r.value == p.(completed := r.value.completed, disqualified := r.value.disqualified)
    ensures r.Ok? ==> !(r.value.completed && r.value.disqualified)
  {
    match FindById(stages, p.stage)
    case None => Err(Internal)                         // "Stage not found"
    case Some(stage) =>
      if stage.active then
        Ok(p.(completed := false, disqualified := false))
      else if stage.kind == Results && p.completed && stage.endDate < now then
        Ok(p.(completed := true, disqualified := false))
      else
        var previous := if stage.kind == Registration then Some(stage) else PreviousStage(stages, stage.kind);
        if previous.Some? && SameId(previous.value.id, p.stage, valueEquality) && previous.value.endDate < now then
          Ok(p.(completed := false, disqualified := true))
        else
          Ok(p.(completed := false, disqualified := false))
  }

  /** The id comparison of progress.ts:53 under the chosen notion of equality. */
  predicate SameId(a: Id, b: Id, valueEquality: bool) {
    valueEquality && a == b
  }

  /** `getProgress` with ids compared by value. */
  function GetProgress(stages: seq<StageRec>, p: ProgressRec, now: int): (r: Result<ProgressRec>)
    ensures r.Err? <==> forall s :: s in stages ==> s.id != p.stage
    ensures r.Ok? ==> r.value.team == p.team && r.value.stage == p.stage
    ensures r.Ok? ==> !(r.value.completed && r.value.disqualified)
  {
    DeriveProgress(stages, p, now, true)
  }

  /** `getProgress` as the running code evaluates it: `===` on two ObjectId objects. */
  function GetProgressAsWritten(stages: seq<StageRec>, p: ProgressRec, now: int): (r: Result<ProgressRec>)
    ensures r.Err? <==> forall s :: s in stages ==> s.id != p.stage
    ensures r.Ok? ==> r.value.team == p.team && r.value.stage == p.stage
  {
    DeriveProgress(stages, p, now, false)
  }

  /** While the bound stage is active the team is neither completed nor disqualified, whatever is stored. */
  lemma ActiveStageIsOngoing(stages: seq<StageRec>, p: ProgressRec, now: int)
    requires UniqueIds(stages)
    requires exists s :: s in stages && s.id == p.stage && s.active
    ensures GetProgress(stages, p, now) == Ok(p.(completed := false, disqualified := false))
  {
    var s :| s in stages && s.id == p.stage && s.active;
    var f := FindById(stages, p.stage).value;
    assert f == s by { UniqueIdsSame(stages, f, s); }
  }

  /** Two stored stages with the same id are the same record. */
  lemma UniqueIdsSame(stages: seq<StageRec>, a: StageRec, b: StageRec)
    requires UniqueIds(stages) && a in stages && b in stages && a.id == b.id
    ensures a == b
  {
    var i :| 0 <= i < |stages| && stages[i] == a;
    var j :| 0 <= j < |stages| && stages[j] == b;
  }

  /**
   * `completed` is derived true exactly when the bound stage is an inactive
   * results stage that ended before `now` and the stored flag is set.
   */
  lemma CompletedOnlyFromResults(stages: seq<StageRec>, p: ProgressRec, now: int, s: StageRec)
    requires UniqueIds(stages) && s in stages && s.id == p.stage
    ensures GetProgress(stages, p, now).Ok?
    ensures GetProgress(stages, p, now).value.completed
        <==> !s.active && s.kind == Results && p.completed && s.endDate < now
  {
    var f := FindById(stages, p.stage).value;
    UniqueIdsSame(stages, f, s);
  }

  /**
   * With ids compared by value, `disqualified` is derived true exactly for an
   * inactive REGISTRATION stage that ended before `now`: for every other kind
   * the previous stage has a different kind, hence a different id.
   */
  lemma DisqualifiedOnlyForRegistration(stages: seq<StageRec>, p: ProgressRec, now: int, s: StageRec)
    requires UniqueIds(stages) && s in stages && s.id == p.stage
    ensures GetProgress(stages, p, now).Ok?
    ensures GetProgress(stages, p, now).value.disqualified
        <==> !s.active && s.kind == Registration && s.endDate < now
  {
    var f := FindById(stages, p.stage).value;
    UniqueIdsSame(stages, f, s);
    assert FindById(stages, p.stage) == Some(s);
    if s.kind != Registration {
      PreviousNeverBound(stages, p, s);
    }
  }

  /** For a stage of any kind but REGISTRATION the previous stage is never the bound one. */
  lemma PreviousNeverBound(stages: seq<StageRec>, p: ProgressRec, s: StageRec)
    requires UniqueIds(stages) && s in stages && s.id == p.stage && s.kind != Registration
    ensures var previous := PreviousStage(stages, s.kind); !(previous.Some? && previous.value.id == p.stage)
  {
    PreviousStageOtherKind(stages, s.kind);
    var previous := PreviousStage(stages, s.kind);
    if previous.Some? {
      assert previous.value in stages;
    }
  }

  /** As written, the identity test always fails, so no team is ever reported disqualified. */
  lemma NeverDisqualifiedAsWritten(stages: seq<StageRec>, p: ProgressRec, now: int)
    ensures GetProgressAsWritten(stages, p, now).Ok? ==> !GetProgressAsWritten(stages, p, now).value.disqualified
  {
  }

  /** A registration stage that closed before `now` disqualifies a team still bound to it. */
  lemma RegistrationDeadlineDisqualifies()
    ensures GetProgress([StageRec(1, Registration, "r", "d", false, 0, 10)], ProgressRec(7, 1, false, false), 20)
         == Ok(ProgressRec(7, 1, false, true))
    ensures GetProgressAsWritten([StageRec(1, Registration, "r", "d", false, 0, 10)], ProgressRec(7, 1, false, false), 20)
         == Ok(ProgressRec(7, 1, false, false))
  {
    var stages := [StageRec(1, Registration, "r", "d", false, 0, 10)];
    assert FindById(stages, 1) == Some(stages[0]);
  }
}
