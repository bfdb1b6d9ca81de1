/**
 * The bug-bounty handlers of src/controllers/bugs.controller.ts. A team's
 * ledger is its `bugs` list with the current entry at index 0; reports,
 * edits and manual adjustments change that head entry in place with
 * `$inc` on `bugs.0.score` / `bugs.0.bug_count`, and never add an entry.
 */
module BugsController {
  import opened Common
  import opened Store

  // ---------------------------------------------------------------------
  // The head entry and `$inc` on it
  // ---------------------------------------------------------------------

  /** The head score a reader sees: the score of entry 0, or 0 for an empty ledger. */
  function HeadScore(bugs: seq<BugRecord>): int {
    if |bugs| == 0 then 0 else bugs[0].score
  }

  function HeadCount(bugs: seq<BugRecord>): int {
    if |bugs| == 0 then 0 else bugs[0].bugCount
  }

  /**
   * `$inc: { "bugs.0.score": ds, "bugs.0.bug_count": dc }`. On an empty list
   * the store creates entry 0 holding the increments (a field that is not
   * incremented is absent there and reads as 0 in this model).
   */
  function IncHead(bugs: seq<BugRecord>, ds: int, dc: int): (r: seq<BugRecord>)
    ensures |r| == if |bugs| == 0 then 1 else |bugs|
    ensures HeadScore(r) == HeadScore(bugs) + ds
    ensures HeadCount(r) == HeadCount(bugs) + dc
    ensures forall j :: 1 <= j < |bugs| ==> r[j] == bugs[j]
    ensures |bugs| > 0 ==> r[0].updatedAt == bugs[0].updatedAt
  {
    if |bugs| == 0 then [BugRecord(ds, dc, None)]
    else [bugs[0].(score := bugs[0].score + ds, bugCount := bugs[0].bugCount + dc)] + bugs[1..]
  }

  /** Two increments of the head are one increment by the sums. */
  lemma {:induction false} IncHeadTwice(bugs: seq<BugRecord>, ds1: int, dc1: int, ds2: int, dc2: int)
    ensures IncHead(IncHead(bugs, ds1, dc1), ds2, dc2) == IncHead(bugs, ds1 + ds2, dc1 + dc2)
  {
    var a := IncHead(IncHead(bugs, ds1, dc1), ds2, dc2);
    var b := IncHead(bugs, ds1 + ds2, dc1 + dc2);
    assert |a| == |b|;
    assert a[0] == b[0];
    forall j | 1 <= j < |a| ensures a[j] == b[j] { }
  }

  /** The ledger of the first team with id `x`, as `Team.findById(x)` reads it. */
  function LedgerOf(teams: seq<TeamDoc>, x: Id): (r: Option<seq<BugRecord>>)
  {
    if |teams| == 0 then None
    else if teams[0].id == x then Some(teams[0].bugs)
    else LedgerOf(teams[1..], x)
  }

  /** `LedgerOf` reads the team that the index lookup `TeamById` finds. */
  lemma {:induction false} LedgerOfIsTeamById(teams: seq<TeamDoc>, x: Id)
    ensures LedgerOf(teams, x) == match TeamById(teams, x) case None => None case Some(i) => Some(teams[i].bugs)
  {
    if |teams| > 0 && teams[0].id != x {
      LedgerOfIsTeamById(teams[1..], x);
      match TeamById(teams[1..], x)
      case None =>
      case Some(i) => assert TeamById(teams, x) == Some(i + 1);
    }
  }

  /** The head score of team `x`, or 0 when there is no such team. */
  function ScoreOf(teams: seq<TeamDoc>, x: Id): int {
    match LedgerOf(teams, x)
    case None => 0
    case Some(bugs) => HeadScore(bugs)
  }

  function CountOf(teams: seq<TeamDoc>, x: Id): int {
    match LedgerOf(teams, x)
    case None => 0
    case Some(bugs) => HeadCount(bugs)
  }

  predicate HasTeam(teams: seq<TeamDoc>, x: Id) {
    LedgerOf(teams, x).Some?
  }

  /**
   * `Team.findByIdAndUpdate(id, { $inc: … })`: the head of the first team
   * with id `id` is incremented; a missing team leaves the collection as it was.
   */
  function IncTeam(teams: seq<TeamDoc>, id: Id, ds: int, dc: int): (r: seq<TeamDoc>)
    ensures |r| == |teams|
    ensures !HasTeam(teams, id) ==> r == teams
  {
    if |teams| == 0 then []
    else if teams[0].id == id then [teams[0].(bugs := IncHead(teams[0].bugs, ds, dc))] + teams[1..]
    else [teams[0]] + IncTeam(teams[1..], id, ds, dc)
  }

  /** `IncTeam` is the update at the index that `TeamById` finds. */
  lemma {:induction false} IncTeamIsUpdateAtFirst(teams: seq<TeamDoc>, id: Id, ds: int, dc: int)
    ensures IncTeam(teams, id, ds, dc)
         == match TeamById(teams, id)
            case None => teams
            case Some(i) => teams[i := teams[i].(bugs := IncHead(teams[i].bugs, ds, dc))]
  {
    if |teams| > 0 && teams[0].id != id {
      IncTeamIsUpdateAtFirst(teams[1..], id, ds, dc);
      match TeamById(teams[1..], id)
      case None =>
      case Some(i) =>
        assert TeamById(teams, id) == Some(i + 1);
        ConsUpdate(teams, i, teams[i + 1].(bugs := IncHead(teams[i + 1].bugs, ds, dc)));
    }
  }

  /** Updating the tail of a sequence is updating the sequence one place further on. */
  lemma ConsUpdate<T>(s: seq<T>, i: nat, v: T)
    requires i + 1 < |s|
    ensures [s[0]] + s[1..][i := v] == s[i + 1 := v]
  {
  }

  /** An increment changes ledgers only: every other field of every team is as it was. */
  lemma {:induction false} IncTeamKeepsOtherFields(teams: seq<TeamDoc>, id: Id, ds: int, dc: int, j: nat)
    requires j < |teams|
    ensures IncTeam(teams, id, ds, dc)[j] == teams[j].(bugs := IncTeam(teams, id, ds, dc)[j].bugs)
  {
    if j > 0 && teams[0].id != id {
      IncTeamKeepsOtherFields(teams[1..], id, ds, dc, j - 1);
    }
  }

  /** After incrementing team `id`, its ledger is the incremented one and every other ledger is as it was. */
  lemma {:induction false} IncTeamLedger(teams: seq<TeamDoc>, id: Id, ds: int, dc: int, x: Id)
    ensures LedgerOf(IncTeam(teams, id, ds, dc), x)
         == if x == id && HasTeam(teams, id) then Some(IncHead(LedgerOf(teams, id).value, ds, dc)) else LedgerOf(teams, x)
  {
    if |teams| > 0 && teams[0].id != id {
      IncTeamLedger(teams[1..], id, ds, dc, x);
      var r := IncTeam(teams, id, ds, dc);
      assert r[1..] == IncTeam(teams[1..], id, ds, dc);
    }
  }

  /**
   * Incrementing team `id` moves the head score and count of `id` by the
   * increments and those of every other team by nothing.
   */
  lemma {:induction false} IncTeamEffect(teams: seq<TeamDoc>, id: Id, ds: int, dc: int, x: Id)
    ensures ScoreOf(IncTeam(teams, id, ds, dc), x) == ScoreOf(teams, x) + (if x == id && HasTeam(teams, id) then ds else 0)
    ensures CountOf(IncTeam(teams, id, ds, dc), x) == CountOf(teams, x) + (if x == id && HasTeam(teams, id) then dc else 0)
    ensures HasTeam(IncTeam(teams, id, ds, dc), x) == HasTeam(teams, x)
  {
    IncTeamLedger(teams, id, ds, dc, x);
  }

  // ---------------------------------------------------------------------
  // Points and the score effect of a status
  // ---------------------------------------------------------------------

  /**
   * The points of a new report: the `points_awarded` given, else the
   * default points of the category's bug type; an unknown category is a 400.
   */
  function ResolvePoints(given: Option<int>, category: string, bugTypes: map<string, int>): (r: Result<int>)
    ensures given.Some? ==> r == Ok(given.value)
    ensures given.None? && category in bugTypes ==> r == Ok(bugTypes[category])
    ensures given.None? && category !in bugTypes ==> r == Err(BadRequest)
  {
    if given.Some? then Ok(given.value)
    else if category in bugTypes then Ok(bugTypes[category])
    else Err(BadRequest)
  }

  /**
   * The status of a new report as the schema stores it: absent means
   * "pending"; a word outside the enum is refused.
   */
  function ReportStatus(status: Option<BugStatus>): (r: Option<BugStatus>)
    ensures r.Some? <==> status.None? || !status.value.Unlisted?
    ensures r.Some? ==> r.value == (if status.None? then Pending else status.value)
  {
    match status
    case None => Some(Pending)
    case Some(s) => if s.Unlisted? then None else Some(s)
  }

  /** What a report with this status and these points adds to the reporter's head score. */
  function ReporterEffect(status: BugStatus, p: int): int {
    if status == Valid then p else if status == Invalid then -p else 0
  }

  /** What it adds to the found-in team's head score. */
  function FoundInEffect(status: BugStatus, p: int): int {
    if status == Valid then -p else 0
  }

  // ---------------------------------------------------------------------
  // bugReport
  // ---------------------------------------------------------------------

  /**
   * The score updates that charge a report's status to its two teams with
   * points `p`, adding `dc` to the head count of each team charged: for
   * "valid" the reporter gains `p` and the found-in team loses it, for
   * "invalid" the reporter loses `p`; any other status charges nobody.
   */
  function Charge(teams: seq<TeamDoc>, reporter: Id, foundIn: Id, status: BugStatus, p: int, dc: int): (r: seq<TeamDoc>)
    ensures !(status == Valid || status == Invalid) ==> r == teams
  {
    if status == Valid then IncTeam(IncTeam(teams, reporter, p, dc), foundIn, -p, dc)
    else if status == Invalid then IncTeam(teams, reporter, -p, dc)
    else teams
  }

  function Indicator(b: bool, v: int): int { if b then v else 0 }

  /**
   * Charging moves each team's head score by the reporter's and the found-in
   * effect of the status and its head count by `dc` for each charge it takes.
   */
  lemma {:induction false} ChargeEffect(teams: seq<TeamDoc>, reporter: Id, foundIn: Id, status: BugStatus, p: int, dc: int, x: Id)
    ensures ScoreOf(Charge(teams, reporter, foundIn, status, p, dc), x)
         == ScoreOf(teams, x)
          + Indicator(x == reporter && HasTeam(teams, reporter), ReporterEffect(status, p))
          + Indicator(x == foundIn && HasTeam(teams, foundIn), FoundInEffect(status, p))
    ensures CountOf(Charge(teams, reporter, foundIn, status, p, dc), x)
         == CountOf(teams, x)
          + Indicator(x == reporter && HasTeam(teams, reporter) && (status == Valid || status == Invalid), dc)
          + Indicator(x == foundIn && HasTeam(teams, foundIn) && status == Valid, dc)
    ensures dc == 0 ==> CountOf(Charge(teams, reporter, foundIn, status, p, dc), x) == CountOf(teams, x)
    ensures HasTeam(Charge(teams, reporter, foundIn, status, p, dc), x) == HasTeam(teams, x)
  {
    if status == Valid {
      var t1 := IncTeam(teams, reporter, p, dc);
      IncTeamEffect(teams, reporter, p, dc, x);
      IncTeamEffect(teams, reporter, p, dc, foundIn);
      IncTeamEffect(t1, foundIn, -p, dc, x);
    } else if status == Invalid {
      IncTeamEffect(teams, reporter, -p, dc, x);
    }
  }

  /** The team collection after a new report (bugs.controller.ts:34-48): one charge with a count of 1. */
  function ReportTeams(teams: seq<TeamDoc>, reporter: Id, foundIn: Id, status: BugStatus, p: int): seq<TeamDoc> {
    Charge(teams, reporter, foundIn, status, p, 1)
  }

  /**
   * A report moves each team's head score by the reporter's and the
   * found-in effect of its status, and adds one to the head count of each
   * team it charges: both teams for "valid", the reporter only for "invalid".
   * A "pending" report changes no team.
   */
  lemma {:induction false} ReportEffect(teams: seq<TeamDoc>, reporter: Id, foundIn: Id, status: BugStatus, p: int, x: Id)
    ensures ScoreOf(ReportTeams(teams, reporter, foundIn, status, p), x)
         == ScoreOf(teams, x)
          + Indicator(x == reporter && HasTeam(teams, reporter), ReporterEffect(status, p))
          + Indicator(x == foundIn && HasTeam(teams, foundIn), FoundInEffect(status, p))
    ensures CountOf(ReportTeams(teams, reporter, foundIn, status, p), x)
         == CountOf(teams, x)
          + Indicator(x == reporter && HasTeam(teams, reporter) && (status == Valid || status == Invalid), 1)
          + Indicator(x == foundIn && HasTeam(teams, foundIn) && status == Valid, 1)
    ensures status == Pending ==> ReportTeams(teams, reporter, foundIn, status, p) == teams
  {
    ChargeEffect(teams, reporter, foundIn, status, p, 1, x);
  }

  /**
   * `bugReport`: resolves the points, stores the report under the new id
   * `bugId`, and then applies the report's effect to the teams. Every
   * failure happens before anything is written.
   */
  method BugReport(db: Db, category: string, reporter: Id, foundIn: Id, status: Option<BugStatus>,
                   pointsAwarded: Option<int>, notes: Option<string>, bugId: Id) returns (r: Outcome)
    requires bugId !in db.bugs
    modifies db`bugs, db`teams
    ensures r.Fail? ==> r.error == BadRequest && db.bugs == old(db.bugs) && db.teams == old(db.teams)
    ensures r.Pass? <==> ResolvePoints(pointsAwarded, category, old(db.bugTypes)).Ok?
                         && ReportStatus(status).Some? && category != ""
    ensures r.Pass? ==>
      var p := ResolvePoints(pointsAwarded, category, db.bugTypes).value;
      var s := ReportStatus(status).value;
      db.bugs == old(db.bugs)[bugId := BugDoc(category, reporter, foundIn, s, p, notes)]
      && db.teams == ReportTeams(old(db.teams), reporter, foundIn, s, p)
  {
    var points := ResolvePoints(pointsAwarded, category, db.bugTypes);
    if points.Err? {
      return Fail(BadRequest);
    }
    var p := points.value;
    // Bug.create: the schema requires a category and an enum status.
    var s := ReportStatus(status);
    if s.None? || category == "" {
      return Fail(BadRequest);
    }
    db.bugs := db.bugs[bugId := BugDoc(category, reporter, foundIn, s.value, p, notes)];
    if s.value == Valid {
      db.teams := IncTeam(db.teams, reporter, p, 1);
      db.teams := IncTeam(db.teams, foundIn, -p, 1);
    } else if s.value == Invalid {
      db.teams := IncTeam(db.teams, reporter, -p, 1);
    }
    return Pass;
  }

  // ---------------------------------------------------------------------
  // editBugReport
  // ---------------------------------------------------------------------

  /** The fields an edit request may carry; an absent field keeps the stored value. */
  datatype BugUpdate = BugUpdate(
    category: Option<string>,
    status: Option<BugStatus>,
    points: Option<int>,
    reporter: Option<Id>,
    foundIn: Option<Id>,
    notes: Option<string>)

  function OrElse<T>(o: Option<T>, d: T): (r: T)
    ensures o.Some? ==> r == o.value
    ensures o.None? ==> r == d
  {
    if o.Some? then o.value else d
  }

  /**
   * The points of an edited report, in order of precedence: the points given;
   * else, when a non-empty category is given, that category's default (a 400
   * when it is unknown); else the stored points.
   */
  function EditPoints(upd: BugUpdate, stored: BugDoc, bugTypes: map<string, int>): (r: Result<int>)
    ensures upd.points.Some? ==> r == Ok(upd.points.value)
    ensures upd.points.None? && upd.category.Some? && upd.category.value != "" ==>
      r == (if upd.category.value in bugTypes then Ok(bugTypes[upd.category.value]) else Err(BadRequest))
    ensures upd.points.None? && (upd.category.None? || upd.category.value == "") ==> r == Ok(stored.points)
  {
    if upd.points.Some? then Ok(upd.points.value)
    else if upd.category.Some? && upd.category.value != "" then
      ResolvePoints(None, upd.category.value, bugTypes)
    else Ok(stored.points)
  }

  /**
   * The report an edit saves: each field given replaces the stored one and
   * the points are those `EditPoints` chose.
   */
  function Edited(stored: BugDoc, upd: BugUpdate, p: int): (r: BugDoc)
    ensures r.points == p
    ensures r.category == OrElse(upd.category, stored.category) && r.status == OrElse(upd.status, stored.status)
    ensures r.reporter == OrElse(upd.reporter, stored.reporter) && r.foundIn == OrElse(upd.foundIn, stored.foundIn)
    ensures r.notes == if upd.notes.Some? then upd.notes else stored.notes
  {
    BugDoc(OrElse(upd.category, stored.category), OrElse(upd.reporter, stored.reporter),
           OrElse(upd.foundIn, stored.foundIn), OrElse(upd.status, stored.status), p,
           if upd.notes.Some? then upd.notes else stored.notes)
  }

  /**
   * The score updates of an edit (bugs.controller.ts:90-104): undoing the
   * stored status is charging it with the negated stored points, and then the
   * new status is charged with the new points; neither touches a count.
   */
  function EditTeams(teams: seq<TeamDoc>, reporter: Id, foundIn: Id, oldStatus: BugStatus, oldPoints: int,
                     newStatus: BugStatus, newPoints: int): seq<TeamDoc> {
    Charge(Charge(teams, reporter, foundIn, oldStatus, -oldPoints, 0), reporter, foundIn, newStatus, newPoints, 0)
  }

  /**
   * An edit moves each team's head score by the new effect minus the old
   * effect of the report on it, and leaves every head count as it was.
   */
  lemma {:induction false} EditEffect(teams: seq<TeamDoc>, rep: Id, fnd: Id, oldStatus: BugStatus, oldPoints: int,
                                      newStatus: BugStatus, newPoints: int, x: Id)
    ensures ScoreOf(EditTeams(teams, rep, fnd, oldStatus, oldPoints, newStatus, newPoints), x)
         == ScoreOf(teams, x)
          + Indicator(x == rep && HasTeam(teams, rep), ReporterEffect(newStatus, newPoints) - ReporterEffect(oldStatus, oldPoints))
          + Indicator(x == fnd && HasTeam(teams, fnd), FoundInEffect(newStatus, newPoints) - FoundInEffect(oldStatus, oldPoints))
    ensures CountOf(EditTeams(teams, rep, fnd, oldStatus, oldPoints, newStatus, newPoints), x) == CountOf(teams, x)
  {
    ChargeEffect(teams, rep, fnd, oldStatus, -oldPoints, 0, x);
    ChargeEffect(teams, rep, fnd, oldStatus, -oldPoints, 0, rep);
    ChargeEffect(teams, rep, fnd, oldStatus, -oldPoints, 0, fnd);
    ChargeEffect(Charge(teams, rep, fnd, oldStatus, -oldPoints, 0), rep, fnd, newStatus, newPoints, 0, x);
  }

  /** Re-saving a report with its stored status and points leaves every head score as it was. */
  lemma {:induction false} EditWithoutChangeKeepsScores(teams: seq<TeamDoc>, rep: Id, fnd: Id, status: BugStatus, p: int, x: Id)
    ensures ScoreOf(EditTeams(teams, rep, fnd, status, p, status, p), x) == ScoreOf(teams, x)
  {
    EditEffect(teams, rep, fnd, status, p, status, p, x);
  }

  /**
   * `editBugReport`: a missing report is a 404 and an unknown new category a
   * 400, both before any write; otherwise the scores are corrected from the
   * stored status and points to the new ones, against the STORED teams, and
   * the report is saved with the merged fields.
   */
  method EditBugReport(db: Db, id: Id, upd: BugUpdate) returns (r: Outcome)
    modifies db`bugs, db`teams
    ensures id !in old(db.bugs) ==> r == Fail(NotFound)
    ensures id in old(db.bugs) ==> (r.Fail? <==> EditPoints(upd, old(db.bugs)[id], db.bugTypes).Err?)
    ensures id in old(db.bugs) && EditPoints(upd, old(db.bugs)[id], db.bugTypes).Err? ==> r == Fail(BadRequest)
    ensures r.Fail? ==> db.bugs == old(db.bugs) && db.teams == old(db.teams)
    ensures r.Pass? ==>
      var b := old(db.bugs)[id];
      var s := OrElse(upd.status, b.status);
      var p := EditPoints(upd, b, db.bugTypes).value;
      db.teams == EditTeams(old(db.teams), b.reporter, b.foundIn, b.status, b.points, s, p)
      && db.bugs == old(db.bugs)[id := Edited(b, upd, p)]
  {
    if id !in db.bugs {
      return Fail(NotFound);
    }
    var original := db.bugs[id];
    var newStatus := OrElse(upd.status, original.status);
    var newPoints := EditPoints(upd, original, db.bugTypes);
    if newPoints.Err? {
      return Fail(BadRequest);
    }
    var p := newPoints.value;
    var teams := EditTeams(db.teams, original.reporter, original.foundIn, original.status, original.points, newStatus, p);
    db.teams := teams;
    db.bugs := db.bugs[id := Edited(original, upd, p)];
    return Pass;
  }

  // ---------------------------------------------------------------------
  // editTeamPoints
  // ---------------------------------------------------------------------

  /** `editTeamPoints`: adds `points` to the head score of team `id`; a missing team is a 404. */
  method EditTeamPoints(db: Db, id: Id, points: int) returns (r: Outcome)
    modifies db`teams
    ensures r.Fail? <==> !HasTeam(old(db.teams), id)
    ensures r.Fail? ==> r.error == NotFound && db.teams == old(db.teams)
    ensures db.teams == IncTeam(old(db.teams), id, points, 0)
    ensures forall x :: ScoreOf(db.teams, x) == ScoreOf(old(db.teams), x) + Indicator(x == id && r.Pass?, points)
    ensures forall x :: CountOf(db.teams, x) == CountOf(old(db.teams), x)
  {
    var before := db.teams;
    db.teams := IncTeam(db.teams, id, points, 0);
    forall x ensures ScoreOf(db.teams, x) == ScoreOf(before, x) + Indicator(x == id && HasTeam(before, id), points)
                 && CountOf(db.teams, x) == CountOf(before, x) {
      IncTeamEffect(before, id, points, 0, x);
    }
    if !HasTeam(before, id) {
      return Fail(NotFound);
    }
    return Pass;
  }
}
