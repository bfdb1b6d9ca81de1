# m-hash-backend core, modelled in Dafny

This project models the decision logic and in-place updates of the
m-hash-backend hackathon server, which is an Express/Mongoose REST API.
The model covers:

- the stage registry and the derived team progress;
- the bug-bounty ledger and the judge score matrix;
- the submission lifecycle;
- team membership and invites;
- the judge problem-assignment lists;
- the role gates;
- the one-time e-mail code and the reset token;
- the list pagination clamp;
- the registration field validators.

The document collections are modelled as one class, `Store.Db`:

- sequences of value-typed documents, read in natural order, so that `findOne`/`findById` return the first match;
- maps for invites and bugs.

Each handler that changes documents is a method on a `Db`. Its contract states, case by case:

- its result, as an `Outcome` or `Result` with the HTTP error kind;
- the whole new state.

Read-only logic is made of functions, and lemmas state what those functions promise.

Those promises include:

- the previous-stage query;
- the disqualification rule;
- the ledger arithmetic;
- the idempotent score upsert;
- the membership invariant (at most 5 members, one team per user);
- the single-use reset token;
- the equivalence of each validator regex with a plain description of what it accepts.

Several inputs are parameters rather than computed:

- time: `now`, in milliseconds;
- newly generated ObjectIds;
- bcrypt's comparison (`matches`);
- `jwt.verify` (`verify`);
- the password digest (`hashed`);
- the list of validation errors that express-validator collected.

A module per source file:

- `Common`: Option/Result, JS character classes, `trim`, find-first;
- `StageModel` (stage.ts);
- `ProgressModel` (progress.ts);
- `SubmissionModel` (submission.ts);
- `Paging` (the limit/offset clamp shared by `listTeams` and `listUsers`);
- `Store` (documents and membership invariants);
- `BugsController`;
- `JudgeController`;
- `AdminController`;
- `TeamController`;
- `InviteController`;
- `AuthMiddleware`;
- `RegistrationGate`;
- `AuthController`;
- `Validators`.

In four places the code behaves otherwise than its surroundings suggest; the model follows the code:

- **Bug events.** A ledger of dated entries suggests that bug reports, edits and manual adjustments each *prepend* an entry. The code increments `bugs.0.score`/`bugs.0.bug_count` in place (`$inc`). Only `updateBugRoundScore` prepends an entry.
- **Rejection.** Rejecting a submission might be expected to send the team back to the SUBMISSION stage. `adminReject` rebinds its progress to the QUALIFIERS stage.
- **Stage order.** The `Stages` enum declares the stages in the order the event runs them. `getPreviousStage` compares the enum strings with `$lt` and sorts on them, which is lexical order: finals < qualifiers < registration < results < submission.
- **Team creation.** A team and its progress record belong together. `createTeam` creates the progress record first. If the team save then fails, that record stays.

## Model

| member | source | states |
|---|---|---|
| Common.First | src/controllers/team.controller.ts:59 | `findOne` in natural order: the index of the first match, none iff nothing matches |
| Common.Trim | src/models/User/Validators/Validators.ts:6 | the trimmed text has no whitespace at either end and is no longer than the input |
| Common.Without | src/controllers/team.controller.ts:150-152 | `filter(e => e !== x)`, here and at team.controller.ts:258-260 and admin.controller.ts:551: no occurrence of `x` is left, every other element stays with its multiplicity |
| Store.Membership | src/models/Team/team.ts:3 | unique team ids, at most `TEAM_LIMIT` = 5 duplicate-free members with the leader among them, and no user in two teams (a definition; kept by every handler that changes teams) |
| Store.UniqueInvitePairs | src/models/Invite/index.ts:31 | the unique index on `(team, user)`: no two invites share a pair (a definition; every invite handler preserves it) |
| Store.InviteExists | src/controllers/invite.controller.ts:51 | `Invite.findOne({ team, user })`, here and at invite.controller.ts:137-140, finds something (a definition; the 409 cases of `InviteUser` and `SendJoinRequest` use it) |
| StageModel.ParseKind | src/models/Stage/stage.ts:25-35 | the schema accepts a stage string exactly when it is the name of one of the five kinds |
| StageModel.KindName | src/models/Stage/stage.ts:3-9 | the string stored for each kind (a definition; `ParseKindName` and `KindOrder` characterise it) |
| StageModel.ParseKindName | src/models/Stage/stage.ts:3-9 | parsing the stored name of each kind gives that kind back |
| StageModel.NewStage | src/models/Stage/stage.ts:36-40 | a new stage is inactive by default and keeps its kind, id and dates |
| StageModel.KindBelowIsLexRank | src/models/Stage/stage.ts:50-51 | the `$lt` order on kinds is the lexical order finals < qualifiers < registration < results < submission |
| StageModel.KindOrder | src/models/Stage/stage.ts:50-51 | the same, for all pairs of kinds at once |
| StageModel.StringLessIrreflexive | src/models/Stage/stage.ts:50 | no kind string is strictly below itself |
| StageModel.WindowOpen | src/models/Progress/progress.ts:30 | the query `{ stage: SUBMISSION, end_date: { $gte: now } }` as a predicate (a definition; `OpenSubmissionStage` and `InitialProgress` state what depends on it) |
| StageModel.FindById | src/models/Progress/progress.ts:42 | the stage found is stored and has the id; none is found iff no stage has it |
| StageModel.FindByKind | src/controllers/admin.controller.ts:228 | the stage found is stored and of that kind; none is found iff no stage is |
| StageModel.OpenSubmissionStage | src/models/Progress/progress.ts:30 | the query, here and at registrationStopped.middleware.ts:11: the stage found is a stored submission stage with end date >= now; none is found iff there is no such stage |
| StageModel.PreviousStage | src/models/Stage/stage.ts:45-53 | none iff no stored kind is strictly below; otherwise a stored stage strictly below, and no stored stage lies strictly between |
| StageModel.PreviousStageOtherKind | src/models/Stage/stage.ts:50 | the previous stage is never of the receiver's own kind |
| StageModel.FinalsHasNoPredecessor | src/models/Stage/stage.ts:3-9 | a finals stage has no previous stage |
| StageModel.SubmissionPredecessorIsResults | src/models/Stage/stage.ts:50-51 | with a results stage stored, the previous stage of submission is a results stage |
| StageModel.RegistrationPredecessor | src/models/Stage/stage.ts:50-51 | with a qualifiers stage stored, the previous stage of registration is a qualifiers stage |
| ProgressModel.InitialProgress | src/models/Progress/progress.ts:29-38 | fails iff no stage is an open submission window; otherwise the record is for the team, bound to an open stage, with both flags false |
| ProgressModel.DeriveProgress | src/models/Progress/progress.ts:40-57 | fails iff the bound stage is missing; otherwise only the two flags may change, and never both are true |
| ProgressModel.GetProgress | src/models/Progress/progress.ts:40-57 | with ids compared by value: team and stage are kept, and the result is never both completed and disqualified |
| ProgressModel.GetProgressAsWritten | src/models/Progress/progress.ts:40-57 | with `===` on ObjectIds: it fails iff the stage is missing, and keeps team and stage |
| ProgressModel.ActiveStageIsOngoing | src/models/Progress/progress.ts:46-48 | an active bound stage gives completed = disqualified = false, whatever is stored |
| ProgressModel.UniqueIdsSame | src/models/Progress/progress.ts:42 | with unique stage ids, two stages with one id are the same stage |
| ProgressModel.CompletedOnlyFromResults | src/models/Progress/progress.ts:49-51 | completed iff the stage is inactive, of kind results, ended before now, and the stored completed flag is set |
| ProgressModel.DisqualifiedOnlyForRegistration | src/models/Progress/progress.ts:52-55 | with value ids: disqualified iff the bound stage is an inactive registration stage that ended before now |
| ProgressModel.PreviousNeverBound | src/models/Progress/progress.ts:52-53 | for a stage other than registration, the previous stage is never the bound stage |
| ProgressModel.NeverDisqualifiedAsWritten | src/models/Progress/progress.ts:53 | as written (`===` on ObjectIds) no team is ever reported disqualified |
| ProgressModel.RegistrationDeadlineDisqualifies | src/models/Progress/progress.ts:52-55 | a concrete input: an ended registration stage disqualifies by value, but not as written |
| Store.Db.CreateInitialProgress | src/models/Progress/progress.ts:29-38 | it fails with nothing stored iff no open window exists; otherwise it appends exactly the initial record |
| Store.TeamById | src/controllers/bugs.controller.ts:35-41 | the first team with the id, or none iff no team has it |
| Store.TeamOfMember | src/controllers/team.controller.ts:59 | the first team listing the user as a member, or none |
| Store.TeamLedBy | src/controllers/invite.controller.ts:363-366 | a team led by the user, or none iff no team is led by them |
| Store.UserById | src/middlewares/auth.middleware.ts:45 | the user with the id, or none iff there is none |
| Store.UserByEmail | src/controllers/auth.controller.ts:334 | the user with the address, or none iff there is none |
| Store.SubmissionById | src/controllers/judge.controller.ts:32-33 | the submission with the id, or none iff there is none |
| Store.SubmissionOfTeam | src/controllers/team.controller.ts:330 | the team's submission, or none iff the team has none |
| Store.ProgressOfTeam | src/controllers/admin.controller.ts:233-234 | the first progress record of the team, or none |
| Store.Restatus | src/controllers/judge.controller.ts:31-38 | none iff no submission has the id; otherwise the collection keeps its length |
| Store.RestatusEffect | src/controllers/judge.controller.ts:31-38 | only the found submission's status changes, whatever it was before |
| Store.AddTeamKeepsMembership | src/controllers/team.controller.ts:82-91 | adding a team whose unaffiliated leader is its only member keeps every team at 5 or fewer, duplicate-free members and each user in at most one team |
| Store.RemoveKeepsMembership | src/controllers/team.controller.ts:150-152 | removing a non-leader keeps the membership invariant and leaves that user out of the team |
| Store.JoinKeepsMembership | src/controllers/invite.controller.ts:217-222 | appending an unaffiliated user to a team below 5 members keeps the membership invariant |
| SubmissionModel.ParseStoredStatus | src/models/Submission/submission.ts:45-54 | the stored-status enum accepts exactly the names of pending, admin-ap, admin-rj, judge-ap and judge-rj |
| SubmissionModel.StatusName | src/models/Submission/submission.ts:3-12 | the string of each enum member (a definition; `StatusNameInjective` characterises it) |
| SubmissionModel.StatusNameInjective | src/models/Submission/submission.ts:3-12 | the eight status names are pairwise distinct |
| SubmissionModel.DisplayNotStorable | src/models/Submission/submission.ts:3-12 | the three display values are not storable, and each stored value parses back to itself |
| SubmissionModel.AfterScheme | src/models/Submission/submission.ts:39 | there is a rest iff the URL starts with `http://` or `https://` in any case, and the rest is a proper suffix |
| SubmissionModel.VideoUrlShape | src/models/Submission/submission.ts:38-41 | an accepted video URL has at least 9 characters and no line terminator |
| SubmissionModel.HostStart | src/models/Submission/submission.ts:39 | the class `[^\s$.?#]`: no whitespace, `$`, `.`, `?` or `#` (a definition; `HostStartRequired` states its role) |
| SubmissionModel.VideoUrlValid | src/models/Submission/submission.ts:39-40 | the regex as a predicate: scheme, a host-start character, any non-line-terminator, then non-whitespace to the end (a definition; `VideoUrlShape`, `SchemeCaseIgnored` and `HostStartRequired` state its properties) |
| SubmissionModel.SchemeCaseIgnored | src/models/Submission/submission.ts:39 | for every rest, the upper-case schemes `HTTP://` and `HTTPS://` leave the same rest and accept exactly what the lower-case ones do |
| SubmissionModel.HostStartRequired | src/models/Submission/submission.ts:39 | for every character and tail, a URL accepted after `http://` or `https://` starts its rest with a `[^\s$.?#]` character |
| Paging.IntOr | src/controllers/auth.controller.ts:474-475 | `parseInt(p) \|\| d`: a non-zero integer is kept; absent, NaN or 0 gives the default |
| Paging.ClampOffset | src/controllers/team.controller.ts:205-208 | an offset inside `[0, total]` is kept; any other becomes `limit > total ? 0 : total - limit`; the result lies in `[0, total]` |
| Paging.ListWindow | src/controllers/team.controller.ts:177-226 | a 400 iff the limit is outside `[0, max]`; otherwise the clamped offset, and `hasMore` iff offset + limit < total |
| Paging.ListTeamsWindow | src/controllers/team.controller.ts:177-181 | `listTeams` refuses a limit outside `[0, 1000]` |
| Paging.ListUsersWindow | src/controllers/auth.controller.ts:478-480 | `listUsers` refuses a limit outside `[0, 3000]` |
| Paging.DefaultsAndLastPage | src/controllers/team.controller.ts:177-226 | an absent, zero or non-numeric limit means 10; an inside offset is kept; the last page has no more |
| Paging.PastEndShowsLastPage | src/controllers/team.controller.ts:205-208 | an offset past the end shows the last full page, and that page has no more after it |
| BugsController.IncHead | src/controllers/bugs.controller.ts:37 | `$inc` on `bugs.0` adds to the head score and count only; later entries and the time stamp are kept |
| BugsController.IncHeadTwice | src/controllers/bugs.controller.ts:91-104 | two head increments are one increment by the sums |
| BugsController.LedgerOfIsTeamById | src/controllers/bugs.controller.ts:35-41 | the ledger read is that of the team `findByIdAndUpdate` finds |
| BugsController.IncTeam | src/controllers/bugs.controller.ts:35-41 | an update of a missing team changes nothing |
| BugsController.IncTeamIsUpdateAtFirst | src/controllers/bugs.controller.ts:35-41 | the update rewrites exactly the first team with that id |
| BugsController.IncTeamKeepsOtherFields | src/controllers/bugs.controller.ts:35-41 | the update changes only `bugs` |
| BugsController.IncTeamLedger | src/controllers/bugs.controller.ts:35-41 | only the target's ledger changes, and only by the head increment |
| BugsController.IncTeamEffect | src/controllers/bugs.controller.ts:35-41 | the target's head score and count move by the deltas; every other team's are unchanged |
| BugsController.ResolvePoints | src/controllers/bugs.controller.ts:16-21 | explicit points win; otherwise the category default; an unknown category is a 400 |
| BugsController.ReportStatus | src/controllers/bugs.controller.ts:24-31 | an absent status stores pending; a value outside the enum fails the create |
| BugsController.Charge | src/controllers/bugs.controller.ts:33-49 | a status other than valid or invalid changes no team |
| BugsController.ChargeEffect | src/controllers/bugs.controller.ts:33-49 | valid: reporter +p and found-in −p; invalid: reporter −p; each charged team's count goes up by dc |
| BugsController.ReportEffect | src/controllers/bugs.controller.ts:33-49 | a report moves head scores by the status effect and counts by 1 for each charged team; pending changes nothing |
| BugsController.BugReport | src/controllers/bugs.controller.ts:12-54 | a 400, with nothing changed, iff the points cannot be resolved or the create refuses the status or an empty category; otherwise the bug is stored and the teams are charged |
| BugsController.OrElse | src/controllers/bugs.controller.ts:68-69 | `??`: the update when given, otherwise the stored value |
| BugsController.EditPoints | src/controllers/bugs.controller.ts:72-82 | explicit points; else the changed category's default (a 400 if unknown); else the old points |
| BugsController.Edited | src/controllers/bugs.controller.ts:108-117 | the stored bug takes the merged category, status, teams, notes and the resolved points |
| BugsController.EditEffect | src/controllers/bugs.controller.ts:90-104 | each head score moves by (new effect − old effect), and no count changes |
| BugsController.EditWithoutChangeKeepsScores | src/controllers/bugs.controller.ts:90-104 | an edit that keeps status and points leaves every head score unchanged |
| BugsController.EditBugReport | src/controllers/bugs.controller.ts:58-123 | a missing bug is a 404 and an unresolvable category is a 400, both with no change; otherwise the undo and redo are applied and the bug is stored |
| BugsController.EditTeamPoints | src/controllers/bugs.controller.ts:185-195 | adds the points to the head score only; a missing team is a 404 |
| JudgeController.SetJudgeVerdict | src/controllers/judge.controller.ts:20-74 | a missing id or submission is an error with no change; otherwise only that status is overwritten, whatever it was |
| JudgeController.UpdateSubmissionStatus | src/controllers/judge.controller.ts:20-46 | judge approval sets judge-ap on the found submission |
| JudgeController.RejectSubmissionStatus | src/controllers/judge.controller.ts:48-74 | judge rejection sets judge-rj on the found submission |
| JudgeController.JsSlice | src/controllers/judge.controller.ts:257 | `slice(k)` keeps `s[k..]` for k in range, nothing past the end, and counts a negative k from the end |
| JudgeController.Restored | src/controllers/judge.controller.ts:248-257 | −1 empties the ledger; k >= 0 keeps exactly `bugs[k..]`, or nothing past the end |
| JudgeController.RoundPrepended | src/controllers/judge.controller.ts:261-276 | one entry in front: score s plus the old head score, count = old length + 1; old entries follow unchanged |
| JudgeController.RestoreUndoesRound | src/controllers/judge.controller.ts:248-276 | restoring to index 1 undoes a round, and restoring to 0 keeps everything |
| JudgeController.RoundsCount | src/controllers/judge.controller.ts:261-276 | n rounds from an empty ledger give n entries, head count n and head score the sum of the round scores |
| JudgeController.UpdateBugRoundScore | src/controllers/judge.controller.ts:236-285 | an error iff the team is missing, with no change; otherwise only that team's ledger is restored or prepended |
| JudgeController.UpsertCategory | src/controllers/judge.controller.ts:393-401 | an existing category's score is overwritten in place; otherwise it is appended |
| JudgeController.FindJudge | src/controllers/judge.controller.ts:372-374 | the first entry of the judge, and none iff no entry is the judge's |
| JudgeController.FindRound | src/controllers/judge.controller.ts:383-385 | the first entry of the round, and none iff no entry is the round's |
| JudgeController.FindCategory | src/controllers/judge.controller.ts:393-395 | the first entry of the category, and none iff no entry is the category's |
| JudgeController.UpsertRound | src/controllers/judge.controller.ts:383-391 | an unknown round is appended holding one category; a known one gets its categories upserted |
| JudgeController.UpsertJudge | src/controllers/judge.controller.ts:372-381 | an unknown judge is appended holding one round with one category; a known one gets its rounds upserted |
| JudgeController.CategoryLookup | src/controllers/judge.controller.ts:393-401 | after the upsert, the cell reads the new score and every other category reads as before |
| JudgeController.RoundLookup | src/controllers/judge.controller.ts:383-401 | after the upsert, the (round, category) cell reads the new score and every other cell as before |
| JudgeController.UpsertLookup | src/controllers/judge.controller.ts:372-401 | after the upsert, the (judge, round, category) cell reads the new score and every other cell as before |
| JudgeController.CategoryTwice | src/controllers/judge.controller.ts:393-401 | repeating a category upsert changes nothing |
| JudgeController.RoundTwice | src/controllers/judge.controller.ts:383-401 | repeating a round upsert changes nothing |
| JudgeController.UpsertIdempotent | src/controllers/judge.controller.ts:372-401 | repeating the whole upsert changes nothing and never duplicates an entry |
| JudgeController.UpdateTeamScore | src/controllers/judge.controller.ts:348-410 | a negative score or a missing team is an error with no change; otherwise only that team's judge scores become the upsert |
| AdminController.Rebind | src/controllers/admin.controller.ts:231-236 | only the first progress record of the team changes, and only its stage |
| AdminController.RebindEffect | src/controllers/admin.controller.ts:231-236 | each record after the rebind is the old one, except the team's first, whose stage is the target; no flag changes |
| AdminController.AdminDecide | src/controllers/admin.controller.ts:215-271 | a missing submission is an error with no change; otherwise the status is set whatever it was; a missing target stage then fails with progress unchanged |
| AdminController.AdminApprove | src/controllers/admin.controller.ts:215-242 | admin-ap, then the team's progress is rebound to the finals stage |
| AdminController.AdminReject | src/controllers/admin.controller.ts:244-271 | admin-rj, then the team's progress is rebound to the qualifiers stage |
| AdminController.MakeJudge | src/controllers/admin.controller.ts:95-113 | a missing user is an error; otherwise the role becomes judge and the problem list is emptied |
| AdminController.NewIds | src/controllers/admin.controller.ts:518-521 | exactly the input ids not already held, in input order |
| AdminController.Merged | src/controllers/admin.controller.ts:518-524 | the old list followed by the new ids |
| AdminController.NewIdsCovered | src/controllers/admin.controller.ts:520-525 | nothing is new, the condition of the 400, exactly when the current list already holds every requested id |
| AdminController.MergedIdempotent | src/controllers/admin.controller.ts:518-524 | assigning the same ids twice is assigning them once |
| AdminController.MergedNoDuplicates | src/controllers/admin.controller.ts:518-524 | a duplicate-free list stays duplicate-free as long as the input ids are distinct |
| AdminController.AssignThenDeassign | src/controllers/admin.controller.ts:503-561 | deassigning a just-assigned id leaves the list as deassigning it would have before |
| AdminController.WithoutSameLength | src/controllers/admin.controller.ts:547-551 | removing an id keeps the length iff the id was not held |
| AdminController.AssignProblem | src/controllers/admin.controller.ts:503-532 | a missing user or non-judge is an error; otherwise saves the merged list, and a 400 iff nothing was new |
| AdminController.DeassignProblem | src/controllers/admin.controller.ts:534-561 | a missing user, a non-judge or no list is an error; otherwise saves the list without every occurrence; a 400 iff it was not held |
| AdminController.Push | src/controllers/admin.controller.ts:580-584 | appends the judge to the team's list, creating the list when absent |
| AdminController.PushSubmissions | src/controllers/admin.controller.ts:573-588 | the inner loop over the submissions for one judge (a definition; `PushSubmissionsMembers` characterises it) |
| AdminController.JudgeMapping | src/controllers/admin.controller.ts:563-595 | the outer loop over the users (a definition; `JudgeMappingMembers`, `JudgeMappingPerSubmission` and `JudgeMappingNonEmpty` characterise it) |
| AdminController.PushSubmissionsCount | src/controllers/admin.controller.ts:573-588 | the inner loop adds the judge under a team once per submission of that team on one of its problems, and changes no other count |
| AdminController.JudgeMappingCount | src/controllers/admin.controller.ts:563-595 | an id appears under team t as often as there are pairs of a judge with that id and a submission of t on one of that judge's problems |
| AdminController.JudgeMappingPerSubmission | src/controllers/admin.controller.ts:563-595 | with unique user ids, a judge appears under t once per submission of t on its problems, and a user of another role never appears |
| AdminController.PushSubmissionsMembers | src/controllers/admin.controller.ts:573-588 | a team gets a judge iff it had it or some submission of it is for a problem in the judge's list |
| AdminController.JudgeMappingMembers | src/controllers/admin.controller.ts:563-595 | j is listed for team t iff j is a judge with a submission of t whose problem is in j's list |
| AdminController.JudgeMappingNonEmpty | src/controllers/admin.controller.ts:563-595 | no team is mapped to an empty list |
| AdminController.TeamJudgeMapping | src/controllers/admin.controller.ts:563-595 | the nested loops build exactly the judge mapping of the users and submissions |
| TeamController.TeamNamed | src/controllers/team.controller.ts:73-80 | no team is found iff no stored name equals the name case-insensitively |
| TeamController.NewTeam | src/controllers/team.controller.ts:82-88 | members = [caller], and the caller is the leader |
| TeamController.TeamSavable | src/models/Team/team.ts:58-62 | the `required` string fields `name` and `collegeOther` are non-empty (a definition; `CreateTeam` states its role) |
| TeamController.CreateTeam | src/controllers/team.controller.ts:51-97 | case by case in the code's order: already in a team or unknown user is a 409, an unknown college a 400, a taken name a 409, no open window a failure, each with nothing stored; otherwise the initial progress is stored, and the team is appended iff the schema accepts it, else a failure that leaves the progress behind; a created team's leader has a known college; membership is kept |
| TeamController.LeaveTeam | src/controllers/team.controller.ts:133-169 | a caller with no team, or the leader, is a 400; fewer than 2 left with a submission is a 409, not saved; otherwise only the caller's entries are removed |
| TeamController.OnlyTeamOfMember | src/controllers/team.controller.ts:244-260 | under the membership invariant, a member's team is the only team listing them |
| TeamController.RemoveMember | src/controllers/team.controller.ts:233-268 | only the leader may remove, and not themself; all entries of the member are removed in order; membership is kept |
| TeamController.SubmissionSavable | src/models/Submission/submission.ts:30-44 | a file name, and a video URL that is present and passes the validator (a definition; `MakeSubmission` states its role) |
| TeamController.MakeSubmission | src/controllers/team.controller.ts:306-387 | no team, not the leader, fewer than 2 or more than 5 members, a prior submission, an unknown problem or no file is a 400 with nothing stored; otherwise it succeeds iff the schema accepts the new pending submission, which is then appended and is the team's submission, and fails with nothing stored otherwise; a success always has a valid video URL |
| TeamController.Displayed | src/controllers/team.controller.ts:498-510 | with the flag off everything shows Under Evaluation; with it on, admin-ap shows QUALIFIED and everything else Not qualified |
| TeamController.GetSubmission | src/controllers/team.controller.ts:460-516 | no team or no submission is a 400, a missing config a 409; otherwise the display status |
| TeamController.ProgressLabel | src/controllers/team.controller.ts:518-545 | the label of `buildTeamResponse` for each submission state and role |
| InviteController.DropInvitesOf | src/controllers/invite.controller.ts:224 | exactly the invites of other users remain, unchanged |
| InviteController.InviteUser | src/controllers/invite.controller.ts:13-68 | in the code's order: no team or not its leader 403, a full team 403, an unknown inviter or invitee 400, different colleges 403, an invitee in a team or an existing invite for the pair 409, each with nothing stored; otherwise exactly one outgoing invite is added; unique pairs are kept |
| InviteController.SendJoinRequest | src/controllers/invite.controller.ts:101-156 | in the code's order: an unknown team 400, a full team 403, an unknown caller 400, another college 403, a caller in a team or an existing invite for the pair 409, each with nothing stored; otherwise exactly one incoming invite is added |
| InviteController.CancelInvite | src/controllers/invite.controller.ts:70-99 | a missing or incoming invite is a 400 and a caller who does not lead its team a 403, both with nothing deleted; otherwise exactly that invite is deleted |
| InviteController.RejectInvite | src/controllers/invite.controller.ts:232-259 | the invitee deletes exactly that outgoing invite |
| InviteController.CancelJoinRequest | src/controllers/invite.controller.ts:158-185 | the requester deletes exactly that incoming invite |
| InviteController.RejectJoinRequest | src/controllers/invite.controller.ts:305-336 | the leader deletes exactly that incoming invite |
| InviteController.AcceptInvite | src/controllers/invite.controller.ts:187-230 | in the code's order: not the caller's outgoing invite 400, a caller in a team 409, an unknown team 400, a full team 403, each with nothing changed; otherwise the caller joins the team and all their invites go; membership and unique pairs are kept |
| InviteController.AcceptJoinRequest | src/controllers/invite.controller.ts:261-303 | in the code's order: a missing or outgoing invite 400, no team or not its leader 400, a full team 403, a requester in a team 409, each with nothing changed; otherwise the requester joins and all the requester's invites go |
| InviteController.InvitesOfUser | src/controllers/invite.controller.ts:338-355 | exactly the invites addressed to the user |
| InviteController.InvitesOfTeam | src/controllers/invite.controller.ts:357-379 | exactly the invites of the team |
| InviteController.GetInvites | src/controllers/invite.controller.ts:338-355 | the caller's invites |
| InviteController.GetTeamInvites | src/controllers/invite.controller.ts:357-379 | a 400 iff the caller leads no team; otherwise exactly the invites of the team the caller leads, each with its stored document |
| AuthMiddleware.SessionUser | src/middlewares/auth.middleware.ts:42-51 | a 403 with no session, an unknown user or an unverified user; otherwise that user |
| AuthMiddleware.ValidationGate | src/middlewares/auth.middleware.ts:28-38 | passes iff there are no validation errors; otherwise a 422 |
| AuthMiddleware.RegisterGate | src/middlewares/auth.middleware.ts:7-26 | a 422 on validation errors, a 400 for a known address, otherwise passes |
| AuthMiddleware.AuthRequired | src/middlewares/auth.middleware.ts:40-56 | passes iff there is a verified session user |
| AuthMiddleware.AdminRequired | src/middlewares/auth.middleware.ts:58-77 | additionally requires role admin |
| AuthMiddleware.JudgeRequired | src/middlewares/auth.middleware.ts:79-98 | admits exactly the roles judge and admin |
| AuthMiddleware.GatesNested | src/middlewares/auth.middleware.ts:58-98 | passing the admin gate implies the judge and auth gates; a plain user fails the judge gate |
| RegistrationGate.RegistrationGate | src/middlewares/registrationStopped.middleware.ts:6-22 | GET in any case passes; otherwise passes iff a submission stage is open, else a 403 |
| RegistrationGate.ReadsPass | src/middlewares/registrationStopped.middleware.ts:8-9 | the lower-cased method is "get" exactly for the eight case variants of GET, and each of them passes whatever the stages |
| RegistrationGate.GateAgreesWithInitialProgress | src/middlewares/registrationStopped.middleware.ts:11 | a non-GET passes exactly when initial-progress creation would find a stage |
| AuthController.VerifyEmail | src/controllers/auth.controller.ts:327-375 | a 400 without fields; a 401 for an unknown user; success unchanged if verified; a 401 with no code; an expired code is cleared then a 401; a mismatch is a 401 unchanged; a match verifies and clears; verified never reverts |
| AuthController.ResetTarget | src/controllers/auth.controller.ts:439-458 | a user is unlocked iff the token verifies, has type forgot, names a stored address, and equals that user's non-empty stored token |
| AuthController.HoldsToken | src/controllers/auth.controller.ts:456 | a stored token is set and equals the presented one (a definition; `TokenSingleUse` uses it) |
| AuthController.ResetPassword | src/controllers/auth.controller.ts:436-466 | a 401 unless the token unlocks a user; an empty password fails the save; otherwise the password becomes the digest and the token is cleared |
| AuthController.TokenSingleUse | src/controllers/auth.controller.ts:456-461 | after a reset the same token unlocks nobody |
| AuthController.Listed | src/controllers/auth.controller.ts:494-502 | the counted users are never more than the stored ones |
| AuthController.ListedMembers | src/controllers/auth.controller.ts:494-502 | a user is counted iff verified and, for a user-role session, of the caller's college |
| AuthController.ListUsers | src/controllers/auth.controller.ts:468-516 | a 400 for a limit outside `[0, 3000]`, a 409 without a session user; then, for an admin session, a 400 iff a user on the page has a college that is not stored; otherwise the window on the listed users, a contiguous page of at most `limit` from the clamped offset |
| AuthController.PageIsScoped | src/controllers/auth.controller.ts:494-508 | everyone on a page is verified, and a user-role caller sees only their college |
| AuthController.Row | src/controllers/auth.controller.ts:620-624 | score = bugs[0].score and bugs = bugs[0].bug_count, or 0 and 0 for an empty ledger |
| AuthController.Joined | src/controllers/auth.controller.ts:593-611 | `$lookup` and `$unwind` give at most one row per stored team |
| AuthController.JoinedMembers | src/controllers/auth.controller.ts:593-611 | a row is joined iff some team has the submission's team id and the row is that team's |
| AuthController.JoinedUnique | src/controllers/auth.controller.ts:593-611 | with unique team ids, a submission joins exactly its team |
| AuthController.JoinedAbsent | src/controllers/auth.controller.ts:607-609 | a submission whose team is not stored joins no row, so `$unwind` drops it |
| AuthController.Leaderboard | src/controllers/auth.controller.ts:587-631 | the pipeline: admin-approved submissions in store order, each joined to its team (a definition; `LeaderboardMembers` and `LeaderboardShowsLedger` state its properties) |
| AuthController.LeaderboardMembers | src/controllers/auth.controller.ts:587-631 | a line is on the leaderboard iff it is the row of a team of some admin-approved submission |
| AuthController.LeaderboardShowsLedger | src/controllers/auth.controller.ts:620-624 | the line shows the same head score and count the bug handlers change |
| Validators.IsLengthOf | src/models/User/Validators/Validators.ts:7-8 | the length `isLength` measures is the number of characters other than the variation selectors U+FE0E and U+FE0F |
| Validators.VariationSelectorsNotCounted | src/models/User/Validators/Validators.ts:13 | appending a variation selector leaves the measured length unchanged, and it never exceeds the character count |
| Validators.IsLengthConcat | src/models/User/Validators/Validators.ts:13 | the measured length of a concatenation is the sum of the parts' |
| Validators.TrimShortens | src/models/User/Validators/Validators.ts:12-13 | trimming never increases the measured length |
| Validators.UsernameValid | src/models/User/Validators/Validators.ts:6-11 | the username chain: trim, not empty, `isLength` 3 to 200, `^[a-zA-Z0-9_ ]+$` (a definition; `UsernameShape` characterises it) |
| Validators.PasswordValid | src/models/User/Validators/Validators.ts:12-17 | the password chain: trim, not empty, `isLength` at least 8, and the four class searches (a definition; `PasswordShape` characterises it) |
| Validators.MobileValid | src/models/User/Validators/Validators.ts:18-22 | the mobile chain: trim, not empty, `^\+(?:[0-9] ?){6,14}[0-9]$` (a definition; `MobileShape` characterises it) |
| Validators.GenderValid | src/models/User/Validators/Validators.ts:25-26 | the gender chain: trim, not empty, one of Male, Female, Other (a definition; `GenderExact` characterises it) |
| Validators.ListBoundsValid | src/models/User/Validators/Validators.ts:60-65 | the list query rules: an absent or 1..3000 limit and an absent or non-negative offset (a definition; `ListBoundsAdmitted` relates it to the handler) |
| Validators.ClassPlusIsAll | src/models/User/Validators/Validators.ts:9-11 | the anchored `^[…]+$` matches iff the text is non-empty and every character is in the class |
| Validators.UsernameShape | src/models/User/Validators/Validators.ts:6-11 | the trimmed name has 3 to 200 characters from `[a-zA-Z0-9_ ]`, with no space at either end |
| Validators.PasswordShape | src/models/User/Validators/Validators.ts:12-17 | the trimmed password has at least 8 characters besides variation selectors, and an upper, a lower, a digit and a non-alphanumeric character |
| Validators.SelectorPaddedPasswordRefused | src/models/User/Validators/Validators.ts:13 | any password of at most 4 characters padded with four U+FE0F is 8 characters long yet refused |
| Validators.ShortPasswordRefused | src/models/User/Validators/Validators.ts:13 | every password under 8 characters after trimming is refused, including a 6-character one, the length the message names |
| Validators.GroupsAreSpacedDigits | src/models/User/Validators/Validators.ts:20-21 | k regex groups and a last digit spell digits with single spaces, and k + 1 digits |
| Validators.SpacedDigitsAreGroups | src/models/User/Validators/Validators.ts:20-21 | conversely, such text with k + 1 digits matches k groups |
| Validators.MobileShape | src/models/User/Validators/Validators.ts:18-22 | accepted iff "+" and then 7 to 15 digits, each space following a digit other than the last |
| Validators.GenderExact | src/models/User/Validators/Validators.ts:25-26 | after trimming, exactly Male, Female or Other |
| Validators.StoredValuesRevalidate | src/models/User/Validators/Validators.ts:6-26 | the stored, trimmed values pass the same rules again |
| Validators.RegisterFieldsValid | src/models/User/Validators/Validators.ts:3-27 | `registerValidator` on username, password, mobile and gender: all four rules hold (a definition; `StoredValuesRevalidate` is stated on it) |
| Validators.ResetFieldsValid | src/models/User/Validators/Validators.ts:50-58 | `resetPasswordValidator`: the registration password rules and a non-blank token (a definition) |
| Validators.ListBoundsAdmitted | src/models/User/Validators/Validators.ts:60-65 | a limit in 1..3000 and an offset >= 0 are never refused by the handler; an offset inside the collection is kept |

## Left out

- Mail, templates, OTP generation (`Math.random`), CAPTCHA calls, S3 and Cloudinary uploads, Excel export and the statistics pipelines: these are I/O or reporting. `matches`/`verify`/`hashed` stand for bcrypt and jwt.
- Concurrency: each handler is one request on its own, and no two requests interleave, although the code has no transactions.
- Routing: src/routes/router.ts mounts only the auth routes; the model treats every handler as reachable.
- Trivial CRUD handlers (tickets, problems, colleges, bug types, deleteTeam, listBugReports) and the response shaping of `listUsers` (stripping credentials, the `collegeState` field added for admins).
- AuthController.ListUsers: the `$regex` search filters on username and email are not modelled; this is the listing without search terms.
- TeamController.TeamNamed: the unescaped regex `^name$` with flag `i` is modelled as case-insensitive equality of text. A name containing regex metacharacters therefore behaves differently in the running code.
- Common.IsJsSpace, SubmissionModel.VideoUrlValid: a Dafny `char` is a Unicode scalar value, while a JavaScript regex without the `u` flag runs over UTF-16 code units. A character outside the Basic Multilingual Plane is one `char` here but two code units there, so the model refuses `http://😀`, which the running regex accepts (the high surrogate matches `[^\s$.?#]` and the low one `.`).
- Common.Lower: `toLowerCase`/`toLocaleLowerCase` are modelled on ASCII letters only.
- JavaScript coercions: request-body numbers are integers. The string concatenation `score + bugs[0].score`, which happens when a score arrives as a string, is not modelled. The same goes for `slice` applied to the raw `restoreIdx` string: a `restoreIdx` that is not an integer is treated as absent.
- BugsController.IncHead: `$inc` on `bugs.0` of an empty ledger is modelled as creating an entry that holds the increments. The store's padding and defaulting of missing fields is not modelled.
- Mongoose arrays are never absent in stored documents. `problems: None` stands for a `problem_statement` field read back as missing.
- AdminController.AssignProblem, AdminController.DeassignProblem: after the 400 the code goes on to save the list and to send a second reply on the same response. The model keeps the save and reports the 400; the second reply is not modelled.
- InviteController.AcceptInvite, InviteController.AcceptJoinRequest, JudgeController.UpdateTeamScore, TeamController.RemoveMember, TeamController.LeaveTeam: the schema validation of the team save is not modelled; a stored team is assumed to be valid, so the save does not fail.
- AdminController.MakeJudge, AdminController.AssignProblem, AdminController.DeassignProblem, AuthController.VerifyEmail, AuthController.ResetPassword: the schema validation of the user save is not modelled (beyond the empty password of `ResetPassword`); a stored user is assumed to be valid, so the save does not fail.
- AuthController.ResetPassword: an empty password fails the save (`required`). The `.trim()` sanitiser of the validator chain has already been applied to the password the handler receives.
- AuthController.ResetTarget: a token payload without an e-mail (`findOne({ email: undefined })` matches any user) is not modelled; claims always carry an address.
- Express-validator's `isEmail`, `normalizeEmail`, `isMongoId` and the college / e-mail rules of `registerValidator` are not modelled.

## Findings

| source | as written | input that shows it | evidently intended | confidence | as-written member | corrected member |
|---|---|---|---|---|---|---|
| src/models/Progress/progress.ts:53 | `previousStage._id === progress.stage` compares two ObjectId objects by reference, which is always false, so no team is ever reported disqualified | a registration stage with id 1 and end date 10, a progress record bound to it, now = 20: as written the team is not disqualified; with value equality it is | compare the ids by value (`.equals`), so that a team bound to an ended registration stage is disqualified | not executed | ProgressModel.NeverDisqualifiedAsWritten | ProgressModel.DisqualifiedOnlyForRegistration |
