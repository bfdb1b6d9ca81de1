/**
 * The invite handlers of src/controllers/invite.controller.ts: a team
 * leader's OUTGOING invite to a user, a user's INCOMING join request to a
 * team, and the accepting, rejecting, cancelling and listing of both. Each
 * handler keeps the membership invariant (`Store.Membership`) and the unique
 * `(team, user)` index (`Store.UniqueInvitePairs`).
 */
module InviteController {
  import opened Common
  import opened Store

  /** `Invite.deleteMany({ user: u })`. */
  function DropInvitesOf(invites: map<Id, InviteDoc>, u: Id): (r: map<Id, InviteDoc>)
    ensures forall k :: k in r <==> k in invites && invites[k].user != u
    ensures forall k :: k in r ==> r[k] == invites[k]
  {
    map k | k in invites && invites[k].user != u :: invites[k]
  }

  // ---------------------------------------------------------------------
  // inviteUser / sendJoinRequest
  // ---------------------------------------------------------------------

  /**
   * `inviteUser`: the caller must lead the team (403), the team must be
   * below the cap (403), both users must exist (400) and share a college
   * (403), the invitee must be in no team (409), and the pair must have no
   * invite yet, of either type (409). Then one OUTGOING invite is created.
   */
  method InviteUser(db: Db, caller: Id, teamId: Id, userId: Id, newId: Id) returns (r: Outcome)
    requires newId !in db.invites
    modifies db`invites
    ensures r.Fail? ==> db.invites == old(db.invites)
    ensures
      var found := TeamById(db.teams, teamId);
      var current := UserById(db.users, caller);
      var invitee := UserById(db.users, userId);
      if found.None? || db.teams[found.value].leader != caller then r == Fail(Forbidden)
      else if |db.teams[found.value].members| >= TeamLimit then r == Fail(Forbidden)
      else if current.None? || invitee.None? then r == Fail(BadRequest)
      else if db.users[current.value].college != db.users[invitee.value].college then r == Fail(Forbidden)
      else if InSomeTeam(db.teams, userId) || InviteExists(old(db.invites), teamId, userId) then r == Fail(Conflict)
      else r == Pass && db.invites == old(db.invites)[newId := InviteDoc(teamId, userId, Outgoing)]
    ensures UniqueInvitePairs(old(db.invites)) ==> UniqueInvitePairs(db.invites)
  {
    var found := TeamById(db.teams, teamId);
    if found.None? || db.teams[found.value].leader != caller {
      return Fail(Forbidden);           // "Team not found, or user is not the team leader"
    }
    var team := db.teams[found.value];
    if |team.members| >= TeamLimit {
      return Fail(Forbidden);           // "Team is full"
    }
    var current := UserById(db.users, caller);
    if current.None? {
      return Fail(BadRequest);          // "User not found"
    }
    var invitee := UserById(db.users, userId);
    if invitee.None? {
      return Fail(BadRequest);          // "User to be invited not found"
    }
    if db.users[current.value].college != db.users[invitee.value].college {
      return Fail(Forbidden);           // "Both users must be from same college"
    }
    if TeamOfMember(db.teams, userId).Some? {
      return Fail(Conflict);            // "User is already part of a team"
    }
    if InviteExists(db.invites, teamId, userId) {
      return Fail(Conflict);            // "Invite already exists"
    }
    db.invites := db.invites[newId := InviteDoc(teamId, userId, Outgoing)];
    return Pass;
  }

  /**
   * `sendJoinRequest`: the team must exist (400) and be below the cap
   * (403), the caller must exist (400) and be of the team's college (403),
   * be in no team (409), and have no invite for the pair yet (409). Then one
   * INCOMING invite is created.
   */
  method SendJoinRequest(db: Db, caller: Id, teamId: Id, newId: Id) returns (r: Outcome)
    requires newId !in db.invites
    modifies db`invites
    ensures r.Fail? ==> db.invites == old(db.invites)
    ensures
      var found := TeamById(db.teams, teamId);
      var current := UserById(db.users, caller);
      if found.None? then r == Fail(BadRequest)
      else if |db.teams[found.value].members| >= TeamLimit then r == Fail(Forbidden)
      else if current.None? then r == Fail(BadRequest)
      else if db.users[current.value].college != db.teams[found.value].college then r == Fail(Forbidden)
      else if InSomeTeam(db.teams, caller) || InviteExists(old(db.invites), teamId, caller) then r == Fail(Conflict)
      else r == Pass && db.invites == old(db.invites)[newId := InviteDoc(teamId, caller, Incoming)]
    ensures UniqueInvitePairs(old(db.invites)) ==> UniqueInvitePairs(db.invites)
  {
    var found := TeamById(db.teams, teamId);
    if found.None? {
      return Fail(BadRequest);          // "Team not found"
    }
    var team := db.teams[found.value];
    if |team.members| >= TeamLimit {
      return Fail(Forbidden);           // "Team is full"
    }
    var current := UserById(db.users, caller);
    if current.None? {
      return Fail(BadRequest);          // "User not found" (looked up twice)
    }
    if db.users[current.value].college != team.college {
      return Fail(Forbidden);           // "Both users must be from same college"
    }
    if TeamOfMember(db.teams, caller).Some? {
      return Fail(Conflict);            // "User is already part of a team"
    }
    if InviteExists(db.invites, teamId, caller) {
      return Fail(Conflict);            // "Invite already exists"
    }
    db.invites := db.invites[newId := InviteDoc(teamId, caller, Incoming)];
    return Pass;
  }

  // ---------------------------------------------------------------------
  // cancelInvite / rejectInvite / cancelJoinRequest / rejectJoinRequest
  // ---------------------------------------------------------------------

  /**
   * `cancelInvite`: the invite must exist and be OUTGOING (400), and the
   * caller must lead its team (403). Exactly that invite is deleted.
   */
  method CancelInvite(db: Db, caller: Id, inviteId: Id) returns (r: Outcome)
    modifies db`invites
    ensures r.Fail? ==> db.invites == old(db.invites)
    ensures
      if inviteId !in old(db.invites) || old(db.invites)[inviteId].kind != Outgoing then r == Fail(BadRequest)
      else
        var found := TeamById(db.teams, old(db.invites)[inviteId].team);
        if found.None? || db.teams[found.value].leader != caller then r == Fail(Forbidden)
        else r == Pass && db.invites == old(db.invites) - {inviteId}
    ensures UniqueInvitePairs(old(db.invites)) ==> UniqueInvitePairs(db.invites)
  {
    if inviteId !in db.invites {
      return Fail(BadRequest);          // "Invite not found."
    }
    var invite := db.invites[inviteId];
    if invite.kind != Outgoing {
      return Fail(BadRequest);          // "Invite is not an outgoing invite"
    }
    var found := TeamById(db.teams, invite.team);
    if found.None? || db.teams[found.value].leader != caller {
      return Fail(Forbidden);           // "Team not found, or user is not the team leader"
    }
    db.invites := db.invites - {inviteId};
    return Pass;
  }

  /**
   * `rejectInvite`: the invite must exist, name the caller and be OUTGOING
   * (400). Exactly that invite is deleted.
   */
  method RejectInvite(db: Db, caller: Id, inviteId: Id) returns (r: Outcome)
    modifies db`invites
    ensures r.Fail? ==> r.error == BadRequest && db.invites == old(db.invites)
    ensures r.Pass? <==>
      inviteId in old(db.invites) && old(db.invites)[inviteId].user == caller && old(db.invites)[inviteId].kind == Outgoing
    ensures r.Pass? ==> db.invites == old(db.invites) - {inviteId}
    ensures UniqueInvitePairs(old(db.invites)) ==> UniqueInvitePairs(db.invites)
  {
    if inviteId !in db.invites || db.invites[inviteId].user != caller {
      return Fail(BadRequest);          // "Invite not found, or user is not the invitee"
    }
    if db.invites[inviteId].kind != Outgoing {
      return Fail(BadRequest);          // "Invite is not an outgoing invite"
    }
    db.invites := db.invites - {inviteId};
    return Pass;
  }

  /**
   * `cancelJoinRequest`: the invite must exist, name the caller and be
   * INCOMING (400). Exactly that invite is deleted.
   */
  method CancelJoinRequest(db: Db, caller: Id, inviteId: Id) returns (r: Outcome)
    modifies db`invites
    ensures r.Fail? ==> r.error == BadRequest && db.invites == old(db.invites)
    ensures r.Pass? <==>
      inviteId in old(db.invites) && old(db.invites)[inviteId].user == caller && old(db.invites)[inviteId].kind == Incoming
    ensures r.Pass? ==> db.invites == old(db.invites) - {inviteId}
    ensures UniqueInvitePairs(old(db.invites)) ==> UniqueInvitePairs(db.invites)
  {
    if inviteId !in db.invites || db.invites[inviteId].user != caller {
      return Fail(BadRequest);          // "Invite not found, or user is not the requester"
    }
    if db.invites[inviteId].kind != Incoming {
      return Fail(BadRequest);          // "Invite is not an incoming invite"
    }
    db.invites := db.invites - {inviteId};
    return Pass;
  }

  /**
   * `rejectJoinRequest`: the invite must exist and be INCOMING, and the
   * caller must lead its team (all 400). Exactly that invite is deleted.
   */
  method RejectJoinRequest(db: Db, caller: Id, inviteId: Id) returns (r: Outcome)
    modifies db`invites
    ensures r.Fail? ==> r.error == BadRequest && db.invites == old(db.invites)
    ensures r.Pass? <==>
      inviteId in old(db.invites) && old(db.invites)[inviteId].kind == Incoming
      && TeamById(db.teams, old(db.invites)[inviteId].team).Some?
      && db.teams[TeamById(db.teams, old(db.invites)[inviteId].team).value].leader == caller
    ensures r.Pass? ==> db.invites == old(db.invites) - {inviteId}
    ensures UniqueInvitePairs(old(db.invites)) ==> UniqueInvitePairs(db.invites)
  {
    if inviteId !in db.invites {
      return Fail(BadRequest);          // "Invite not found, or user is not the invitee"
    }
    var invite := db.invites[inviteId];
    if invite.kind != Incoming {
      return Fail(BadRequest);          // "Invite is not an incoming invite"
    }
    var found := TeamById(db.teams, invite.team);
    if found.None? || db.teams[found.value].leader != caller {
      return Fail(BadRequest);          // "Team not found, or user is not the team leader"
    }
    db.invites := db.invites - {inviteId};
    return Pass;
  }

  // ---------------------------------------------------------------------
  // acceptInvite / acceptJoinRequest
  // ---------------------------------------------------------------------

  /**
   * `acceptInvite`: the invite must exist, name the caller and be OUTGOING
   * (400); the caller must be in no team (409); the team must exist (400)
   * and be below the cap (403). The caller is appended to the members and
   * every invite of the caller, to any team, is deleted.
   */
  method AcceptInvite(db: Db, caller: Id, inviteId: Id) returns (r: Outcome)
    modifies db`teams, db`invites
    ensures r.Fail? ==> db.teams == old(db.teams) && db.invites == old(db.invites)
    ensures
      if inviteId !in old(db.invites) || old(db.invites)[inviteId].user != caller
         || old(db.invites)[inviteId].kind != Outgoing then r == Fail(BadRequest)
      else if InSomeTeam(old(db.teams), caller) then r == Fail(Conflict)
      else
        var found := TeamById(old(db.teams), old(db.invites)[inviteId].team);
        if found.None? then r == Fail(BadRequest)
        else if |old(db.teams)[found.value].members| >= TeamLimit then r == Fail(Forbidden)
        else
          var i := found.value;
          r == Pass
          && db.teams == old(db.teams)[i := old(db.teams)[i].(members := old(db.teams)[i].members + [caller])]
          && db.invites == DropInvitesOf(old(db.invites), caller)
    ensures r.Pass? ==> forall k :: k in db.invites ==> db.invites[k].user != caller
    ensures Membership(old(db.teams)) ==> Membership(db.teams)
    ensures UniqueInvitePairs(old(db.invites)) ==> UniqueInvitePairs(db.invites)
  {
    if inviteId !in db.invites || db.invites[inviteId].user != caller {
      return Fail(BadRequest);          // "Invite not found, or user is not the invitee"
    }
    var invite := db.invites[inviteId];
    if invite.kind != Outgoing {
      return Fail(BadRequest);          // "Invite is not an outgoing invite"
    }
    if TeamOfMember(db.teams, caller).Some? {
      return Fail(Conflict);            // "User is already part of a team"
    }
    var found := TeamById(db.teams, invite.team);
    if found.None? {
      return Fail(BadRequest);          // "Team not found"
    }
    var i := found.value;
    if |db.teams[i].members| >= TeamLimit {
      return Fail(Forbidden);           // "Team is full"
    }
    if Membership(db.teams) {
      JoinKeepsMembership(db.teams, i, caller);
    }
    db.teams := db.teams[i := db.teams[i].(members := db.teams[i].members + [caller])];
    db.invites := DropInvitesOf(db.invites, caller);
    return Pass;
  }

  /**
   * `acceptJoinRequest`: the invite must exist and be INCOMING (400), the
   * caller must lead its team (400), the team must be below the cap (403)
   * and the requester in no team (409). The requester is appended to the
   * members and every invite of the requester is deleted.
   */
  method AcceptJoinRequest(db: Db, caller: Id, inviteId: Id) returns (r: Outcome)
    modifies db`teams, db`invites
    ensures r.Fail? ==> db.teams == old(db.teams) && db.invites == old(db.invites)
    ensures
      if inviteId !in old(db.invites) || old(db.invites)[inviteId].kind != Incoming then r == Fail(BadRequest)
      else
        var u := old(db.invites)[inviteId].user;
        var found := TeamById(old(db.teams), old(db.invites)[inviteId].team);
        if found.None? || old(db.teams)[found.value].leader != caller then r == Fail(BadRequest)
        else if |old(db.teams)[found.value].members| >= TeamLimit then r == Fail(Forbidden)
        else if InSomeTeam(old(db.teams), u) then r == Fail(Conflict)
        else
          var i := found.value;
          r == Pass
          && db.teams == old(db.teams)[i := old(db.teams)[i].(members := old(db.teams)[i].members + [u])]
          && db.invites == DropInvitesOf(old(db.invites), u)
    ensures r.Pass? ==> forall k :: k in db.invites ==> db.invites[k].user != old(db.invites)[inviteId].user
    ensures Membership(old(db.teams)) ==> Membership(db.teams)
    ensures UniqueInvitePairs(old(db.invites)) ==> UniqueInvitePairs(db.invites)
  {
    if inviteId !in db.invites {
      return Fail(BadRequest);          // "Invite not found, or user is not the invitee"
    }
    var invite := db.invites[inviteId];
    if invite.kind != Incoming {
      return Fail(BadRequest);          // "Invite is not an incoming invite"
    }
    var found := TeamById(db.teams, invite.team);
    if found.None? || db.teams[found.value].leader != caller {
      return Fail(BadRequest);          // "Team not found, or user is not the team leader"
    }
    var i := found.value;
    if |db.teams[i].members| >= TeamLimit {
      return Fail(Forbidden);           // "Team is full"
    }
    if TeamOfMember(db.teams, invite.user).Some? {
      return Fail(Conflict);            // "User is already part of a team"
    }
    if Membership(db.teams) {
      JoinKeepsMembership(db.teams, i, invite.user);
    }
    db.teams := db.teams[i := db.teams[i].(members := db.teams[i].members + [invite.user])];
    db.invites := DropInvitesOf(db.invites, invite.user);
    return Pass;
  }

  // ---------------------------------------------------------------------
  // getInvites / getTeamInvites
  // ---------------------------------------------------------------------

  /** `Invite.find({ user: u })`. */
  function InvitesOfUser(invites: map<Id, InviteDoc>, u: Id): (r: map<Id, InviteDoc>)
    ensures forall k :: k in r <==> k in invites && invites[k].user == u
    ensures forall k :: k in r ==> r[k] == invites[k]
  {
    map k | k in invites && invites[k].user == u :: invites[k]
  }

  /** `Invite.find({ team: t })`. */
  function InvitesOfTeam(invites: map<Id, InviteDoc>, t: Id): (r: map<Id, InviteDoc>)
    ensures forall k :: k in r <==> k in invites && invites[k].team == t
    ensures forall k :: k in r ==> r[k] == invites[k]
  {
    map k | k in invites && invites[k].team == t :: invites[k]
  }

  /** `getInvites`, which changes nothing: every invite naming the caller, of either type. */
  method GetInvites(db: Db, caller: Id) returns (r: map<Id, InviteDoc>)
    ensures forall k :: k in r <==> k in db.invites && db.invites[k].user == caller
    ensures forall k :: k in r ==> r[k] == db.invites[k]
  {
    return InvitesOfUser(db.invites, caller);
  }

  /**
   * `getTeamInvites`, which changes nothing: the invites of the first team
   * the caller leads; a caller who leads no team gets a 400.
   */
  method GetTeamInvites(db: Db, caller: Id) returns (r: Result<map<Id, InviteDoc>>)
    ensures r.Err? <==> TeamLedBy(db.teams, caller).None?
    ensures r.Err? ==> r.error == BadRequest
    ensures r.Ok? ==> var t := db.teams[TeamLedBy(db.teams, caller).value];
      t.leader == caller
      && (forall k :: k in r.value <==> k in db.invites && db.invites[k].team == t.id)
      && (forall k :: k in r.value ==> r.value[k] == db.invites[k])
  {
    var found := TeamLedBy(db.teams, caller);
    if found.None? {
      return Err(BadRequest);           // "Team not found or user is not the team leader"
    }
    return Ok(InvitesOfTeam(db.invites, db.teams[found.value].id));
  }
}
