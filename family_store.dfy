/**
 * The tables the membership and invite handlers read and write through the
 * hosted database client: `users` (one row per identity, holding the single
 * `family_id` pointer), `families`, `family_members` (personas),
 * `family_invites` (used by the API routes) and `family_invitations` (used
 * by the signup completion handler).
 */
module FamilyStore {
  import opened Wrappers
  import opened Tables
  import opened Bearer

  datatype UserRec = UserRec(id: Id, email: Option<string>, fullName: Option<string>, role: string, familyId: Option<Id>)

  datatype FamilyRec = FamilyRec(id: Id, name: string, createdBy: Option<Id>)

  /** A persona row; `createdAt` is the insertion time the database stamps. */
  datatype PersonaRec = PersonaRec(familyId: Id, name: string, role: string, email: Option<string>,
                                   addedBy: Option<Id>, avatarUrl: Option<string>, createdAt: int)

  /** A row of `family_invites`; times are milliseconds since the epoch. */
  datatype InviteRec = InviteRec(familyId: Id, email: string, token: string, invitedBy: Id,
                                 expiresAt: int, accepted: bool, acceptedAt: Option<int>)

  /** A row of `family_invitations`. */
  datatype InvitationRec = InvitationRec(id: Id, familyId: Id, email: string, token: string,
                                         expiresAt: int, acceptedAt: Option<int>)

  /** The whole store as a value: users and families keyed by primary key, the other tables in insertion order. */
  datatype Db = Db(users: map<Id, UserRec>, families: map<Id, FamilyRec>, personas: seq<PersonaRec>,
                   invites: seq<InviteRec>, invitations: seq<InvitationRec>)

  /** The database writes a handler performs; a handler is given the set of writes the database rejects. */
  datatype Write = InsertUser | UpdateUser | InsertFamily | InsertPersonas | InsertInvite | UpdateInvite

  /** Each keyed row is stored under its own id. */
  ghost predicate Keyed(db: Db) {
    && (forall id :: id in db.users ==> db.users[id].id == id)
    && (forall id :: id in db.families ==> db.families[id].id == id)
  }

  /** `update users set ... where id = userId`: no row matched is not an error, and nothing changes. */
  function UpdateUserRow(db: Db, userId: Id, f: UserRec -> UserRec): (db': Db)
    ensures db' == db.(users := db'.users)
    ensures userId !in db.users ==> db' == db
    ensures userId in db.users ==> db'.users == db.users[userId := f(db.users[userId])]
  {
    if userId in db.users then db.(users := db.users[userId := f(db.users[userId])]) else db
  }

  /** The routes' invite lookup: token matches, not accepted, and `expires_at >= now`. */
  predicate InvitePending(i: InviteRec, token: string, now: int) {
    i.token == token && !i.accepted && i.expiresAt >= now
  }

  /** `select * from family_invites where token = t and accepted = false and expires_at >= now` with `.single()`. */
  function PendingInvite(db: Db, token: string, now: int): (r: Option<InviteRec>)
    ensures r.Some? ==> r.value in db.invites && InvitePending(r.value, token, now)
    ensures r.Some? ==> forall i :: i in db.invites && InvitePending(i, token, now) ==> i == r.value
    ensures (forall i :: i in db.invites ==> !InvitePending(i, token, now)) ==> r.None?
    ensures forall k :: SoleInvite(db.invites, token, now, k) ==> r == Some(db.invites[k])
  {
    var p := (i: InviteRec) => InvitePending(i, token, now);
    assert forall k :: SoleInvite(db.invites, token, now, k) ==> OnlyMatch(db.invites, p, k);
    Single(db.invites, p)
  }

  /** Row `k` is the only pending invite for the token. */
  predicate SoleInvite(invites: seq<InviteRec>, token: string, now: int, k: int) {
    0 <= k < |invites| && InvitePending(invites[k], token, now)
    && forall j :: 0 <= j < |invites| && InvitePending(invites[j], token, now) ==> j == k
  }

  /** The signup handler's intended filter: token matches, `accepted_at` is null, and `expires_at > now`. */
  predicate InvitationPending(i: InvitationRec, token: string, now: int) {
    i.token == token && i.acceptedAt.None? && i.expiresAt > now
  }

  /**
   * `select * from family_invitations where token = t and accepted_at is null
   * and expires_at > now` with `.single()`. The handler writes the null test
   * as `.eq('accepted_at', null)`; this is the lookup it evidently intends,
   * and `CompleteSignup.PendingInvitationAsWritten` is the one it performs.
   */
  function PendingInvitation(db: Db, token: string, now: int): (r: Option<InvitationRec>)
    ensures r.Some? ==> r.value in db.invitations && InvitationPending(r.value, token, now)
    ensures r.Some? ==> forall i :: i in db.invitations && InvitationPending(i, token, now) ==> i == r.value
    ensures (forall i :: i in db.invitations ==> !InvitationPending(i, token, now)) ==> r.None?
    ensures forall k :: SoleInvitation(db.invitations, token, now, k) ==> r == Some(db.invitations[k])
  {
    var p := (i: InvitationRec) => InvitationPending(i, token, now);
    assert forall k :: SoleInvitation(db.invitations, token, now, k) ==> OnlyMatch(db.invitations, p, k);
    Single(db.invitations, p)
  }

  /** Row `k` is the only pending invitation for the token. */
  predicate SoleInvitation(invitations: seq<InvitationRec>, token: string, now: int, k: int) {
    0 <= k < |invitations| && InvitationPending(invitations[k], token, now)
    && forall j :: 0 <= j < |invitations| && InvitationPending(invitations[j], token, now) ==> j == k
  }

  /** The two lookups disagree only at the instant of expiry: a routes invite is still valid then, a signup invitation is not. */
  lemma ExpiryBoundary(inv: InviteRec, invitation: InvitationRec, now: int)
    requires inv.expiresAt == now && !inv.accepted
    requires invitation.expiresAt == now && invitation.acceptedAt.None?
    ensures InvitePending(inv, inv.token, now)
    ensures !InvitationPending(invitation, invitation.token, now)
  {
  }

  /** The store, updated in place by the handlers. */
  class Store {
    var users: map<Id, UserRec>
    var families: map<Id, FamilyRec>
    var personas: seq<PersonaRec>
    var invites: seq<InviteRec>
    var invitations: seq<InvitationRec>

    function State(): Db
      reads this
    {
      Db(users, families, personas, invites, invitations)
    }

    constructor (db: Db)
      ensures State() == db
    {
      users, families, personas, invites, invitations := db.users, db.families, db.personas, db.invites, db.invitations;
    }
  }
}
