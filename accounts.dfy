/**
 * The account documents: invites (`user_invites`), user profiles (`users`)
 * and roles (`user_roles`), each collection a map from document id to
 * document, and the reads and writes of the admin and Firestore helpers.
 * `now` stands for the server timestamp of a write.
 */
module Accounts {
  import opened Common

  /** A `user_invites` document, stored under its invite code. */
  datatype Invite = Invite(
    email: string,
    role: string,
    createdByAdminId: string,
    createdAt: int,
    used: bool,
    usedBy: Option<string>,
    usedAt: Option<int>)

  /** A `users` document, stored under the user's id. */
  datatype UserDoc = UserDoc(email: string, displayName: string, photoUrl: Option<string>, createdAt: int)

  /** A `user_roles` document, stored under the user's id. */
  datatype RoleDoc = RoleDoc(role: string, createdAt: Option<int>, updatedAt: Option<int>)

  /** An invite that can still be accepted: it exists and is not used. */
  predicate Usable(invites: map<string, Invite>, code: string) {
    code in invites && !invites[code].used
  }

  /** `getInvite(code)`: the invite when it exists and is unused, `None` (null) otherwise. */
  function GetInvite(invites: map<string, Invite>, code: string): (r: Option<Invite>)
    ensures r.Some? <==> Usable(invites, code)
    ensures r.Some? ==> r.value == invites[code] && !r.value.used
  {
    if code in invites && !invites[code].used then Some(invites[code]) else None
  }

  /** An entry of `getPendingInvites()`: `{ id, ...data }`. */
  datatype PendingInvite = PendingInvite(id: string, invite: Invite)

  /**
   * `getPendingInvites()` over the invite codes `listing` in the order the
   * query returns them: the unused invites, each with its code.
   */
  function PendingInvites(invites: map<string, Invite>, listing: seq<string>): (r: seq<PendingInvite>)
    ensures |r| <= |listing|
    ensures forall i | 0 <= i < |r| :: Usable(invites, r[i].id) && r[i].invite == invites[r[i].id] && r[i].id in listing
    ensures forall i | 0 <= i < |listing| && Usable(invites, listing[i]) ::
      PendingInvite(listing[i], invites[listing[i]]) in r
  {
    if listing == [] then []
    else
      var code := listing[0];
      (if Usable(invites, code) then [PendingInvite(code, invites[code])] else [])
        + PendingInvites(invites, listing[1..])
  }

  /** With each code listed once, each pending invite is listed once. */
  lemma {:induction false} PendingInvitesDistinct(invites: map<string, Invite>, listing: seq<string>)
    requires Distinct(listing)
    ensures Distinct(PendingInvites(invites, listing))
  {
    if listing != [] {
      var rest := PendingInvites(invites, listing[1..]);
      PendingInvitesDistinct(invites, listing[1..]);
      if Usable(invites, listing[0]) {
        var first := PendingInvite(listing[0], invites[listing[0]]);
        DistinctCons(first, rest);
      }
    }
  }

  /**
   * `getUserRole(userId)`: the role of the user's role document, or `None`
   * (null) when the document is missing or its role is empty.
   */
  function GetUserRole(roles: map<string, RoleDoc>, userId: string): (r: Option<string>)
    ensures r.Some? <==> userId in roles && roles[userId].role != ""
    ensures r.Some? ==> r.value == roles[userId].role
  {
    if userId in roles && roles[userId].role != "" then Some(roles[userId].role) else None
  }

  /** `isUserAdmin(userId)`: the role is `"admin"`. */
  function IsUserAdmin(roles: map<string, RoleDoc>, userId: string): (b: bool)
    ensures b <==> userId in roles && roles[userId].role == "admin"
  {
    GetUserRole(roles, userId) == Some("admin")
  }

  /** An entry of `getAllUsersWithRoles()`. */
  datatype UserWithRole = UserWithRole(userId: string, email: string, displayName: string, role: string)

  /** The entry of one user document: its role, or `"user"` when it has no role document. */
  function EntryFor(users: map<string, UserDoc>, roles: map<string, RoleDoc>, id: string): (e: UserWithRole)
    requires id in users
    ensures e.userId == id && e.email == users[id].email && e.displayName == users[id].displayName
    ensures id in roles ==> e.role == roles[id].role
    ensures id !in roles ==> e.role == "user"
  {
    UserWithRole(id, users[id].email, users[id].displayName, if id in roles then roles[id].role else "user")
  }

  /**
   * `getAllUsersWithRoles()` over the user ids `listing` in the order the
   * query returns them: one entry per user document.
   */
  function UsersWithRoles(users: map<string, UserDoc>, roles: map<string, RoleDoc>, listing: seq<string>)
    : (r: seq<UserWithRole>)
    ensures |r| <= |listing|
    ensures forall i | 0 <= i < |r| :: r[i].userId in users && r[i] == EntryFor(users, roles, r[i].userId)
    ensures forall i | 0 <= i < |listing| && listing[i] in users :: EntryFor(users, roles, listing[i]) in r
  {
    if listing == [] then []
    else
      (if listing[0] in users then [EntryFor(users, roles, listing[0])] else [])
        + UsersWithRoles(users, roles, listing[1..])
  }

  /**
   * When `listing` names exactly the user documents, each once, there is one
   * entry per user document, in listing order.
   */
  lemma {:induction false} OneEntryPerUser(users: map<string, UserDoc>, roles: map<string, RoleDoc>, listing: seq<string>)
    requires forall i | 0 <= i < |listing| :: listing[i] in users
    ensures |UsersWithRoles(users, roles, listing)| == |listing|
    ensures forall i | 0 <= i < |listing| :: UsersWithRoles(users, roles, listing)[i] == EntryFor(users, roles, listing[i])
  {
    if listing != [] {
      OneEntryPerUser(users, roles, listing[1..]);
    }
  }

  /** The three collections. */
  class DocStore {
    var invites: map<string, Invite>
    var users: map<string, UserDoc>
    var roles: map<string, RoleDoc>

    constructor ()
      ensures invites == map[] && users == map[] && roles == map[]
    {
      invites, users, roles := map[], map[], map[];
    }

    /**
     * `createUserInvite(email, role, admin)`, `code` being the generated
     * code: an unused invite is written under the code, replacing any
     * document already there, and the code is returned.
     */
    method CreateUserInvite(code: string, email: string, role: string, admin: string, now: int)
      returns (inviteCode: string)
      modifies this
      ensures inviteCode == code
      ensures invites == old(invites)[code := Invite(email, role, admin, now, false, None, None)]
      ensures users == old(users) && roles == old(roles)
      ensures GetInvite(invites, code) == Some(Invite(email, role, admin, now, false, None, None))
    {
      invites := invites[code := Invite(email, role, admin, now, false, None, None)];
      inviteCode := code;
    }

    /**
     * `markInviteAsUsed(code, userId)`: an update, so it fails (`ok` false,
     * nothing written) when there is no invite under the code. Afterwards
     * the invite can no longer be accepted.
     */
    method MarkInviteAsUsed(code: string, userId: string, now: int) returns (ok: bool)
      modifies this
      ensures ok <==> code in old(invites)
      ensures ok ==> invites == old(invites)[code := old(invites)[code].(used := true, usedBy := Some(userId), usedAt := Some(now))]
      ensures !ok ==> invites == old(invites)
      ensures users == old(users) && roles == old(roles)
      ensures GetInvite(invites, code).None?
    {
      if code !in invites {
        return false;
      }
      invites := invites[code := invites[code].(used := true, usedBy := Some(userId), usedAt := Some(now))];
      ok := true;
    }

    /**
     * `setUserRole(userId, role)`: a merge into the user's role document,
     * so a `createdAt` already there is kept.
     */
    method SetUserRole(userId: string, role: string, now: int)
      modifies this
      ensures userId in roles && roles[userId].role == role && roles[userId].updatedAt == Some(now)
      ensures roles[userId].createdAt == if userId in old(roles) then old(roles)[userId].createdAt else None
      ensures forall id | id in old(roles) && id != userId :: id in roles && roles[id] == old(roles)[id]
      ensures roles.Keys == old(roles).Keys + {userId}
      ensures invites == old(invites) && users == old(users)
      ensures GetUserRole(roles, userId) == if role == "" then None else Some(role)
      ensures IsUserAdmin(roles, userId) <==> role == "admin"
    {
      var createdAt := if userId in roles then roles[userId].createdAt else None;
      roles := roles[userId := RoleDoc(role, createdAt, Some(now))];
    }

    /**
     * `createUserDocument(userId, email, displayName, photoUrl)`: the user
     * document, with the photo only when it is non-empty, then a fresh role
     * document with role `"user"`, replacing any role the user had. The new
     * user is therefore not an admin.
     */
    method CreateUserDocument(userId: string, email: string, displayName: string, photoUrl: Option<string>, now: int)
      modifies this
      ensures users == old(users)[userId := UserDoc(email, displayName, if photoUrl == Some("") then None else photoUrl, now)]
      ensures roles == old(roles)[userId := RoleDoc("user", Some(now), None)]
      ensures invites == old(invites)
      ensures GetUserRole(roles, userId) == Some("user") && !IsUserAdmin(roles, userId)
    {
      var photo := if photoUrl == Some("") then None else photoUrl;
      users := users[userId := UserDoc(email, displayName, photo, now)];
      roles := roles[userId := RoleDoc("user", Some(now), None)];
    }
  }
}
