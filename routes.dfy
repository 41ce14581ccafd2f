/**
 * The authenticated API handlers of `server/routes.ts` that manage family
 * membership and invites. Each handler is a function from the store (and the
 * request, the clock, the identity provider's answer, freshly generated ids
 * and the set of writes the database rejects) to the new store and the HTTP
 * reply; a method per state-changing handler performs the same writes in
 * place on a `Store`, one write at a time and without rollback.
 */
module Routes {
  import opened Wrappers
  import opened Js
  import opened Tables
  import opened Bearer
  import opened FamilyStore

  /** An element of the `/api/families` reply. */
  datatype FamilyWithRole = FamilyWithRole(family: FamilyRec, role: string)

  /** One entry of the onboarding request's `familyMembers`. */
  datatype MemberInput = MemberInput(name: string, role: string, email: Option<string>)

  const Day: int := 24 * 60 * 60 * 1000
  const InviteLifetime: int := 7 * Day

  /** The profile created for a signed-in user who has no `users` row yet. */
  function NewProfile(userId: Id, au: AuthUser): (u: UserRec)
    ensures u.id == userId && u.role == "parent" && u.familyId.None?
    ensures u.email == au.email
    ensures Truthy(au.fullName) ==> u.fullName == au.fullName
    ensures !Truthy(au.fullName) ==> u.fullName == au.email
  {
    UserRec(userId, au.email, Or(au.fullName, au.email), "parent", None)
  }

  /** The family created for a user who has none: named after the user's name, else their e-mail. */
  function DefaultFamily(familyId: Id, u: UserRec): (f: FamilyRec)
    ensures f.id == familyId && f.createdBy.None?
    ensures Truthy(u.fullName) ==> f.name == u.fullName.value + "'s Family"
    ensures !Truthy(u.fullName) && u.email.Some? ==> f.name == u.email.value + "'s Family"
    ensures !Truthy(u.fullName) && u.email.None? ==> f.name == "null's Family"
  {
    FamilyRec(familyId, Render(Or(u.fullName, u.email)) + "'s Family", None)
  }

  /** The persona recorded for the user of a default family. */
  function AdminPersona(familyId: Id, u: UserRec, now: int): (p: PersonaRec)
    ensures p.familyId == familyId && p.role == "parent" && p.name != ""
    ensures p.email.None? && p.addedBy.None? && p.avatarUrl.None? && p.createdAt == now
    ensures Truthy(u.fullName) ==> p.name == u.fullName.value
    ensures !Truthy(u.fullName) && Truthy(u.email) ==> p.name == u.email.value
    ensures !Truthy(u.fullName) && !Truthy(u.email) ==> p.name == "Family Admin"
  {
    PersonaRec(familyId, OrElse(Or(u.fullName, u.email), "Family Admin"), "parent", None, None, None, now)
  }

  /**
   * `GET /api/families`: create the caller's profile if it is missing (and
   * reply with no families), create and assign a default family if the
   * profile has none, and otherwise reply with the family it points to.
   */
  function GetFamilies(db: Db, userId: Id, authUser: Option<AuthUser>, newFamilyId: Id, now: int,
                       failing: set<Write>): (res: (Db, Reply<seq<FamilyWithRole>>))
    ensures res.1.Ok? ==> |res.1.body| <= 1
    ensures res.1 == Ok([]) <==> userId !in db.users && authUser.Some? && InsertUser !in failing
    ensures res.0.users.Keys <= db.users.Keys + {userId}
    ensures userId in db.users ==> res.0.users.Keys == db.users.Keys
    ensures res.1.Ok? && res.1.body != [] ==>
              var fam := res.1.body[0].family;
              && userId in db.users && userId in res.0.users && res.1.body[0].role == db.users[userId].role
              && res.0.users[userId].familyId.Some?
              && res.0.users[userId].familyId.value in res.0.families
              && res.0.families[res.0.users[userId].familyId.value] == fam
    ensures res.1 == Ok([]) ==> res.0 == db.(users := db.users[userId := NewProfile(userId, authUser.value)])
    ensures userId !in db.users && res.1.Err? ==> res.0 == db
    ensures userId in db.users && db.users[userId].familyId.Some? ==>
              && res.0 == db
              && (res.1.Ok? <==> db.users[userId].familyId.value in db.families)
    ensures userId in db.users && db.users[userId].familyId.None? ==>
              (res.1.Ok? <==> InsertFamily !in failing && newFamilyId !in db.families && UpdateUser !in failing)
    ensures userId in db.users && db.users[userId].familyId.None? && res.1.Ok? ==>
              var user := db.users[userId];
              var family := DefaultFamily(newFamilyId, user);
              && res.1.body == [FamilyWithRole(family, user.role)]
              && res.0.families == db.families[newFamilyId := family]
              && res.0.users == db.users[userId := user.(familyId := Some(newFamilyId))]
              && res.0.personas == if InsertPersonas in failing then db.personas
                                   else db.personas + [AdminPersona(newFamilyId, user, now)]
    ensures userId in db.users && db.users[userId].familyId.None? && (InsertFamily in failing || newFamilyId in db.families) ==>
              res == (db, Err(ServerError))
    ensures userId in db.users && db.users[userId].familyId.None? && InsertFamily !in failing && newFamilyId !in db.families
            && UpdateUser in failing ==>
              res == (db.(families := db.families[newFamilyId := DefaultFamily(newFamilyId, db.users[userId])]), Err(ServerError))
    ensures res.0.invites == db.invites && res.0.invitations == db.invitations
  {
    if userId !in db.users then
      if authUser.None? || InsertUser in failing then (db, Err(ServerError))
      else (db.(users := db.users[userId := NewProfile(userId, authUser.value)]), Ok([]))
    else
      var user := db.users[userId];
      if user.familyId.None? then
        if InsertFamily in failing || newFamilyId in db.families then (db, Err(ServerError))
        else
          var family := DefaultFamily(newFamilyId, user);
          var db1 := db.(families := db.families[newFamilyId := family]);
          if UpdateUser in failing then (db1, Err(ServerError))
          else
            var db2 := db1.(users := db1.users[userId := user.(familyId := Some(newFamilyId))]);
            var db3 := if InsertPersonas in failing then db2
                       else db2.(personas := db2.personas + [AdminPersona(newFamilyId, user, now)]);
            (db3, Ok([FamilyWithRole(family, user.role)]))
      else if user.familyId.value in db.families then
        (db, Ok([FamilyWithRole(db.families[user.familyId.value], user.role)]))
      else
        (db, Err(ServerError))
  }

  method HandleGetFamilies(st: Store, userId: Id, authUser: Option<AuthUser>, newFamilyId: Id, now: int,
                           failing: set<Write>) returns (r: Reply<seq<FamilyWithRole>>)
    modifies st
    ensures (st.State(), r) == GetFamilies(old(st.State()), userId, authUser, newFamilyId, now, failing)
  {
    if userId !in st.users {
      if authUser.None? || InsertUser in failing {
        return Err(ServerError);
      }
      st.users := st.users[userId := NewProfile(userId, authUser.value)];
      return Ok([]);
    }
    var user := st.users[userId];
    if user.familyId.None? {
      if InsertFamily in failing || newFamilyId in st.families {
        return Err(ServerError);
      }
      var family := DefaultFamily(newFamilyId, user);
      st.families := st.families[newFamilyId := family];
      if UpdateUser in failing {
        return Err(ServerError);
      }
      st.users := st.users[userId := user.(familyId := Some(newFamilyId))];
      if InsertPersonas !in failing {
        st.personas := st.personas + [AdminPersona(newFamilyId, user, now)];
      }
      return Ok([FamilyWithRole(family, user.role)]);
    }
    if user.familyId.value in st.families {
      return Ok([FamilyWithRole(st.families[user.familyId.value], user.role)]);
    }
    return Err(ServerError);
  }

  /** Calling `GET /api/families` again never creates a second profile nor a second family. */
  lemma GetFamiliesSettles(db: Db, userId: Id, authUser: Option<AuthUser>, newFamilyId: Id, now: int,
                           failing: set<Write>, authUser2: Option<AuthUser>, newFamilyId2: Id, now2: int)
    requires GetFamilies(db, userId, authUser, newFamilyId, now, failing).1.Ok?
    requires GetFamilies(db, userId, authUser, newFamilyId, now, failing).1.body != []
    ensures var db' := GetFamilies(db, userId, authUser, newFamilyId, now, failing).0;
            GetFamilies(db', userId, authUser2, newFamilyId2, now2, failing)
              == (db', GetFamilies(db, userId, authUser, newFamilyId, now, failing).1)
  {
  }

  /** A failed persona insert does not change the reply of `GET /api/families`. */
  lemma GetFamiliesPersonaBestEffort(db: Db, userId: Id, authUser: Option<AuthUser>, newFamilyId: Id, now: int,
                                     failing: set<Write>)
    ensures GetFamilies(db, userId, authUser, newFamilyId, now, failing + {InsertPersonas}).1
         == GetFamilies(db, userId, authUser, newFamilyId, now, failing - {InsertPersonas}).1
  {
  }

  /**
   * `GET /api/family-members`: 404 unless the caller's profile points to a
   * family; otherwise exactly that family's personas, oldest first.
   */
  function FamilyMembers(db: Db, userId: Id): (r: Reply<seq<PersonaRec>>)
    ensures r.Err? <==> userId !in db.users || db.users[userId].familyId.None?
    ensures r.Err? ==> r.status == NotFound
    ensures r.Ok? ==> forall p :: p in r.body <==> p in db.personas && Some(p.familyId) == db.users[userId].familyId
    ensures r.Ok? ==> SortedBy(r.body, (p: PersonaRec) => p.createdAt)
    ensures r.Ok? ==> forall p :: multiset(r.body)[p] == if Some(p.familyId) == db.users[userId].familyId
                                                      then multiset(db.personas)[p] else 0
  {
    if userId !in db.users || db.users[userId].familyId.None? then Err(NotFound)
    else
      var familyId := db.users[userId].familyId.value;
      var r := SortBy(Filter(db.personas, (p: PersonaRec) => p.familyId == familyId), (p: PersonaRec) => p.createdAt);
      assert forall p :: p in r <==> p in multiset(r);
      Ok(r)
  }

  /** After a default family is created, its admin persona is listed among the members. */
  lemma DefaultFamilyListsAdmin(db: Db, userId: Id, authUser: Option<AuthUser>, newFamilyId: Id, now: int,
                                failing: set<Write>)
    requires userId in db.users && db.users[userId].familyId.None?
    requires InsertFamily !in failing && UpdateUser !in failing && InsertPersonas !in failing
    requires newFamilyId !in db.families
    ensures var db' := GetFamilies(db, userId, authUser, newFamilyId, now, failing).0;
            FamilyMembers(db', userId).Ok? &&
            AdminPersona(newFamilyId, db.users[userId], now) in FamilyMembers(db', userId).body
  {
    var db' := GetFamilies(db, userId, authUser, newFamilyId, now, failing).0;
    assert AdminPersona(newFamilyId, db.users[userId], now) in db'.personas;
  }

  /** The persona rows for the onboarding request's members; `email || null`. */
  function MemberRows(members: seq<MemberInput>, familyId: Id, addedBy: Id, now: int): (rows: seq<PersonaRec>)
    ensures |rows| == |members|
    ensures forall i :: 0 <= i < |members| ==>
              && rows[i].familyId == familyId && rows[i].addedBy == Some(addedBy)
              && rows[i].name == members[i].name && rows[i].role == members[i].role
              && (Truthy(members[i].email) <==> rows[i].email.Some?)
              && (Truthy(members[i].email) ==> rows[i].email == members[i].email)
  {
    seq(|members|, i requires 0 <= i < |members| =>
      PersonaRec(familyId, members[i].name, members[i].role, Or(members[i].email, None), Some(addedBy), None, now))
  }

  /**
   * `POST /api/auth/complete-onboarding`: 400 without a family name;
   * otherwise create the family, point the caller's profile at it as a
   * parent, and insert the listed members in one statement. Each failure is
   * a 500 that leaves the earlier writes in place.
   */
  function CompleteOnboarding(db: Db, userId: Id, familyName: Option<string>, members: seq<MemberInput>,
                              newFamilyId: Id, now: int, failing: set<Write>): (res: (Db, Reply<FamilyRec>))
    ensures !Truthy(familyName) <==> res.1 == Err(BadRequest)
    ensures res.1 == Err(BadRequest) ==> res.0 == db
    ensures res.1.Err? ==> res.1.status in {BadRequest, ServerError}
    ensures res.1.Ok? <==>
              && Truthy(familyName) && InsertFamily !in failing && newFamilyId !in db.families
              && UpdateUser !in failing && (members == [] || InsertPersonas !in failing)
    ensures Truthy(familyName) && (InsertFamily in failing || newFamilyId in db.families) ==> res == (db, Err(ServerError))
    ensures res.1.Err? ==> res.0.personas == db.personas
    ensures Truthy(familyName) && InsertFamily !in failing && newFamilyId !in db.families && UpdateUser in failing ==>
              res == (db.(families := db.families[newFamilyId := FamilyRec(newFamilyId, familyName.value, Some(userId))]), Err(ServerError))
    ensures Truthy(familyName) && InsertFamily !in failing && newFamilyId !in db.families && UpdateUser !in failing
            && members != [] && InsertPersonas in failing ==>
              res == (UpdateUserRow(db.(families := db.families[newFamilyId := FamilyRec(newFamilyId, familyName.value, Some(userId))]),
                                    userId, (u: UserRec) => u.(familyId := Some(newFamilyId), role := "parent")),
                      Err(ServerError))
    ensures res.1.Ok? ==>
              var fam := res.1.body;
              && fam == FamilyRec(newFamilyId, familyName.value, Some(userId))
              && newFamilyId !in db.families && res.0.families == db.families[newFamilyId := fam]
              && res.0 == UpdateUserRow(db, userId, (u: UserRec) => u.(familyId := Some(newFamilyId), role := "parent"))
                            .(families := res.0.families, personas := db.personas + MemberRows(members, newFamilyId, userId, now))
    ensures res.0.invites == db.invites && res.0.invitations == db.invitations
  {
    if !Truthy(familyName) then (db, Err(BadRequest))
    else if InsertFamily in failing || newFamilyId in db.families then (db, Err(ServerError))
    else
      var family := FamilyRec(newFamilyId, familyName.value, Some(userId));
      var db1 := db.(families := db.families[newFamilyId := family]);
      if UpdateUser in failing then (db1, Err(ServerError))
      else
        var db2 := UpdateUserRow(db1, userId, (u: UserRec) => u.(familyId := Some(newFamilyId), role := "parent"));
        if |members| > 0 && InsertPersonas in failing then (db2, Err(ServerError))
        else
          var db3 := db2.(personas := db2.personas + MemberRows(members, newFamilyId, userId, now));
          (db3, Ok(family))
  }

  method HandleCompleteOnboarding(st: Store, userId: Id, familyName: Option<string>, members: seq<MemberInput>,
                                  newFamilyId: Id, now: int, failing: set<Write>) returns (r: Reply<FamilyRec>)
    modifies st
    ensures (st.State(), r) == CompleteOnboarding(old(st.State()), userId, familyName, members, newFamilyId, now, failing)
  {
    if !Truthy(familyName) {
      return Err(BadRequest);
    }
    if InsertFamily in failing || newFamilyId in st.families {
      return Err(ServerError);
    }
    var family := FamilyRec(newFamilyId, familyName.value, Some(userId));
    st.families := st.families[newFamilyId := family];
    if UpdateUser in failing {
      return Err(ServerError);
    }
    if userId in st.users {
      st.users := st.users[userId := st.users[userId].(familyId := Some(newFamilyId), role := "parent")];
    }
    if |members| > 0 {
      if InsertPersonas in failing {
        return Err(ServerError);
      }
      st.personas := st.personas + MemberRows(members, newFamilyId, userId, now);
    } else {
      assert st.personas + MemberRows(members, newFamilyId, userId, now) == st.personas;
    }
    return Ok(family);
  }

  /** A failed member insert is reported as 500, yet the family exists and the caller already points to it. */
  lemma OnboardingHasNoRollback(db: Db, userId: Id, familyName: Option<string>, members: seq<MemberInput>,
                                newFamilyId: Id, now: int, failing: set<Write>)
    requires Truthy(familyName) && members != []
    requires InsertFamily !in failing && UpdateUser !in failing && InsertPersonas in failing
    requires newFamilyId !in db.families && userId in db.users
    requires forall p :: p in db.personas ==> p.familyId in db.families
    ensures var res := CompleteOnboarding(db, userId, familyName, members, newFamilyId, now, failing);
            && res.1 == Err(ServerError)
            && newFamilyId in res.0.families
            && res.0.users[userId].familyId == Some(newFamilyId)
            && FamilyMembers(res.0, userId) == Ok([])
  {
    var res := CompleteOnboarding(db, userId, familyName, members, newFamilyId, now, failing);
    var d := res.0;
    assert d.personas == db.personas;
    assert d.users[userId].familyId == Some(newFamilyId);
    var r := FamilyMembers(d, userId);
    assert multiset(r.body) == multiset{} by {
      assert forall p :: p in d.personas ==> p.familyId != newFamilyId;
    }
  }

  /**
   * `POST /api/invites`: 400 unless both the family id and the e-mail are
   * given, 403 unless the caller's profile points to that family; otherwise a
   * new pending invite with a fresh token that expires seven days from now.
   */
  function CreateInvite(db: Db, userId: Id, familyId: Option<string>, email: Option<string>, token: string,
                        now: int, failing: set<Write>): (res: (Db, Reply<InviteRec>))
    ensures res.1 == Err(BadRequest) <==> !Truthy(familyId) || !Truthy(email)
    ensures res.1 == Err(Forbidden) <==>
              Truthy(familyId) && Truthy(email) &&
              (userId !in db.users || db.users[userId].familyId != familyId)
    ensures res.1.Ok? <==>
              && Truthy(familyId) && Truthy(email) && userId in db.users && db.users[userId].familyId == familyId
              && InsertInvite !in failing
    ensures res.1.Ok? ==>
              && res.1.body == InviteRec(familyId.value, email.value, token, userId, now + InviteLifetime, false, None)
              && res.0 == db.(invites := db.invites + [res.1.body])
    ensures res.1.Err? ==> res.0 == db
  {
    if !Truthy(familyId) || !Truthy(email) then (db, Err(BadRequest))
    else if userId !in db.users || db.users[userId].familyId != familyId then (db, Err(Forbidden))
    else if InsertInvite in failing then (db, Err(ServerError))
    else
      var invite := InviteRec(familyId.value, email.value, token, userId, now + InviteLifetime, false, None);
      (db.(invites := db.invites + [invite]), Ok(invite))
  }

  method HandleCreateInvite(st: Store, userId: Id, familyId: Option<string>, email: Option<string>, token: string,
                            now: int, failing: set<Write>) returns (r: Reply<InviteRec>)
    modifies st
    ensures (st.State(), r) == CreateInvite(old(st.State()), userId, familyId, email, token, now, failing)
  {
    if !Truthy(familyId) || !Truthy(email) {
      return Err(BadRequest);
    }
    if userId !in st.users || st.users[userId].familyId != familyId {
      return Err(Forbidden);
    }
    if InsertInvite in failing {
      return Err(ServerError);
    }
    var invite := InviteRec(familyId.value, email.value, token, userId, now + InviteLifetime, false, None);
    st.invites := st.invites + [invite];
    return Ok(invite);
  }

  /**
   * `GET /api/invites/:token`: 400 for an empty token, 404 unless exactly one
   * pending, unexpired invite carries it; otherwise the invite and its family
   * (absent if the family row is gone).
   */
  function ResolveInvite(db: Db, token: string, now: int): (r: Reply<(InviteRec, Option<FamilyRec>)>)
    ensures r == Err(BadRequest) <==> token == ""
    ensures r.Err? ==> r.status in {BadRequest, NotFound}
    ensures r.Ok? <==> token != "" && PendingInvite(db, token, now).Some?
    ensures r.Ok? ==> Some(r.body.0) == PendingInvite(db, token, now)
    ensures r.Ok? ==> (r.body.1.Some? <==> r.body.0.familyId in db.families)
    ensures r.Ok? && r.body.1.Some? ==> r.body.1.value == db.families[r.body.0.familyId]
  {
    if token == "" then Err(BadRequest)
    else
      match PendingInvite(db, token, now)
      case None => Err(NotFound)
      case Some(invite) =>
        Ok((invite, if invite.familyId in db.families then Some(db.families[invite.familyId]) else None))
  }

  /**
   * A freshly created invite (its token unused so far) resolves from the
   * moment it is created until its expiry instant inclusive, and not after.
   */
  lemma {:induction false} NewInviteResolvesForAWeek(db: Db, userId: Id, familyId: Option<string>, email: Option<string>,
                                   token: string, now: int, failing: set<Write>, later: int)
    requires token != ""
    requires forall i :: i in db.invites ==> i.token != token
    requires CreateInvite(db, userId, familyId, email, token, now, failing).1.Ok?
    ensures var res := CreateInvite(db, userId, familyId, email, token, now, failing);
            && (now <= later <= now + InviteLifetime ==>
                  ResolveInvite(res.0, token, later).Ok? && ResolveInvite(res.0, token, later).body.0 == res.1.body)
            && (later > now + InviteLifetime ==> ResolveInvite(res.0, token, later) == Err(NotFound))
  {
    var res := CreateInvite(db, userId, familyId, email, token, now, failing);
    var invite := res.1.body;
    if now <= later <= now + InviteLifetime {
      SingleOfAppend(db.invites, invite, i => InvitePending(i, token, later));
    }
    if later > now + InviteLifetime {
      assert forall i :: i in res.0.invites ==> !InvitePending(i, token, later) by {
        forall i | i in res.0.invites ensures !InvitePending(i, token, later) {
          if i != invite {
            assert i in db.invites;
          }
        }
      }
    }
  }

  /** The persona recorded for a user who accepts an invite. */
  function InvitedPersona(familyId: Id, au: AuthUser, now: int): (p: PersonaRec)
    ensures p.familyId == familyId && p.role == "parent" && p.name != ""
    ensures p.email.None? && p.addedBy.None? && p.createdAt == now
    ensures Truthy(au.fullName) ==> p.name == au.fullName.value
    ensures !Truthy(au.fullName) && Truthy(au.email) ==> p.name == au.email.value
    ensures !Truthy(au.fullName) && !Truthy(au.email) ==> p.name == "New Member"
    ensures Truthy(au.avatarUrl) <==> p.avatarUrl.Some?
    ensures Truthy(au.avatarUrl) ==> p.avatarUrl == au.avatarUrl
  {
    PersonaRec(familyId, OrElse(Or(au.fullName, au.email), "New Member"), "parent", None, None, Or(au.avatarUrl, None), now)
  }

  /** Marks every invite with the token as accepted at `now`. */
  function MarkAccepted(invites: seq<InviteRec>, token: string, now: int): (r: seq<InviteRec>)
    ensures |r| == |invites|
    ensures forall i :: 0 <= i < |r| ==> r[i].token == invites[i].token
    ensures forall i :: 0 <= i < |r| && invites[i].token == token ==>
              r[i] == invites[i].(accepted := true, acceptedAt := Some(now))
    ensures forall i :: 0 <= i < |r| && invites[i].token != token ==> r[i] == invites[i]
  {
    MapWhere(invites, (i: InviteRec) => i.token == token, (i: InviteRec) => i.(accepted := true, acceptedAt := Some(now)))
  }

  /**
   * `POST /api/invites/:token/accept`: 400 for an empty token, 404 unless the
   * invite is pending, 403 when the request names an e-mail other than the
   * invite's, 404 when the identity provider does not know the caller; then
   * point the caller's profile at the invite's family (whatever it pointed
   * to before), record a persona on a best-effort basis, and mark every
   * invite with the token accepted.
   */
  function AcceptInvite(db: Db, userId: Id, token: string, email: Option<string>, authUser: Option<AuthUser>,
                        now: int, failing: set<Write>): (res: (Db, Reply<()>))
    ensures res.1 == Err(BadRequest) <==> token == ""
    ensures token != "" && PendingInvite(db, token, now).None? ==> res == (db, Err(NotFound))
    ensures res.1 == Err(Forbidden) <==>
              token != "" && PendingInvite(db, token, now).Some? && Truthy(email) &&
              PendingInvite(db, token, now).value.email != email.value
    ensures res.1.Ok? <==>
              && token != "" && PendingInvite(db, token, now).Some?
              && (Truthy(email) ==> email.value == PendingInvite(db, token, now).value.email)
              && authUser.Some? && UpdateUser !in failing && UpdateInvite !in failing
    ensures token != "" && PendingInvite(db, token, now).Some? && authUser.None?
            && (Truthy(email) ==> email.value == PendingInvite(db, token, now).value.email) ==>
              res == (db, Err(NotFound))
    ensures res.1.Ok? ==>
              var invite := PendingInvite(db, token, now).value;
              && res.0.users == UpdateUserRow(db, userId, (u: UserRec) => u.(familyId := Some(invite.familyId))).users
              && res.0.invites == MarkAccepted(db.invites, token, now)
              && res.0.personas == if InsertPersonas in failing then db.personas
                                   else db.personas + [InvitedPersona(invite.familyId, authUser.value, now)]
    ensures token != "" && PendingInvite(db, token, now).Some? && authUser.Some?
            && (Truthy(email) ==> email.value == PendingInvite(db, token, now).value.email) && UpdateUser in failing ==>
              res == (db, Err(ServerError))
    ensures token != "" && PendingInvite(db, token, now).Some? && authUser.Some?
            && (Truthy(email) ==> email.value == PendingInvite(db, token, now).value.email)
            && UpdateUser !in failing && UpdateInvite in failing ==>
              var invite := PendingInvite(db, token, now).value;
              && res.1 == Err(ServerError)
              && res.0.users == UpdateUserRow(db, userId, (u: UserRec) => u.(familyId := Some(invite.familyId))).users
              && res.0.invites == db.invites
              && res.0.personas == if InsertPersonas in failing then db.personas
                                   else db.personas + [InvitedPersona(invite.familyId, authUser.value, now)]
    ensures res.1.Err? && res.1.status != ServerError ==> res.0 == db
    ensures res.0.families == db.families && res.0.invitations == db.invitations
  {
    if token == "" then (db, Err(BadRequest))
    else
      match PendingInvite(db, token, now)
      case None => (db, Err(NotFound))
      case Some(invite) =>
        if Truthy(email) && invite.email != email.value then (db, Err(Forbidden))
        else if authUser.None? then (db, Err(NotFound))
        else if UpdateUser in failing then (db, Err(ServerError))
        else
          var db1 := UpdateUserRow(db, userId, (u: UserRec) => u.(familyId := Some(invite.familyId)));
          var db2 := if InsertPersonas in failing then db1
                     else db1.(personas := db1.personas + [InvitedPersona(invite.familyId, authUser.value, now)]);
          if UpdateInvite in failing then (db2, Err(ServerError))
          else (db2.(invites := MarkAccepted(db2.invites, token, now)), Ok(()))
  }

  method HandleAcceptInvite(st: Store, userId: Id, token: string, email: Option<string>, authUser: Option<AuthUser>,
                            now: int, failing: set<Write>) returns (r: Reply<()>)
    modifies st
    ensures (st.State(), r) == AcceptInvite(old(st.State()), userId, token, email, authUser, now, failing)
  {
    if token == "" {
      return Err(BadRequest);
    }
    var found := PendingInvite(st.State(), token, now);
    if found.None? {
      return Err(NotFound);
    }
    var invite := found.value;
    if Truthy(email) && invite.email != email.value {
      return Err(Forbidden);
    }
    if authUser.None? {
      return Err(NotFound);
    }
    if UpdateUser in failing {
      return Err(ServerError);
    }
    if userId in st.users {
      st.users := st.users[userId := st.users[userId].(familyId := Some(invite.familyId))];
    }
    if InsertPersonas !in failing {
      st.personas := st.personas + [InvitedPersona(invite.familyId, authUser.value, now)];
    }
    if UpdateInvite in failing {
      return Err(ServerError);
    }
    st.invites := MarkAccepted(st.invites, token, now);
    return Ok(());
  }

  /** Once accepted, a token never resolves again: a second accept or lookup is a 404 at any later time. */
  lemma {:induction false} AcceptIsSingleUse(db: Db, userId: Id, token: string, email: Option<string>,
                                             authUser: Option<AuthUser>, now: int, failing: set<Write>,
                                             userId2: Id, email2: Option<string>, authUser2: Option<AuthUser>,
                                             later: int, failing2: set<Write>)
    requires AcceptInvite(db, userId, token, email, authUser, now, failing).1.Ok?
    ensures var db' := AcceptInvite(db, userId, token, email, authUser, now, failing).0;
            && PendingInvite(db', token, later).None?
            && ResolveInvite(db', token, later) == Err(NotFound)
            && AcceptInvite(db', userId2, token, email2, authUser2, later, failing2) == (db', Err(NotFound))
  {
    var db' := AcceptInvite(db, userId, token, email, authUser, now, failing).0;
    var invites := db'.invites;
    assert forall i :: i in invites ==> !InvitePending(i, token, later) by {
      forall i | i in invites ensures !InvitePending(i, token, later) {
        var k :| 0 <= k < |invites| && invites[k] == i;
        assert invites[k].token == db.invites[k].token;
      }
    }
  }

  /** An e-mail in the request body can only narrow who may accept; omitting it skips the check. */
  lemma AcceptWithoutEmailIsNeverForbidden(db: Db, userId: Id, token: string, authUser: Option<AuthUser>,
                                           now: int, failing: set<Write>)
    ensures AcceptInvite(db, userId, token, None, authUser, now, failing).1 != Err(Forbidden)
  {
  }

  /** Accepting moves a caller who already belongs to another family: there is no conflict check. */
  lemma AcceptOverwritesFamily(db: Db, userId: Id, token: string, email: Option<string>, authUser: Option<AuthUser>,
                               now: int, failing: set<Write>)
    requires userId in db.users && db.users[userId].familyId.Some?
    requires AcceptInvite(db, userId, token, email, authUser, now, failing).1.Ok?
    ensures var db' := AcceptInvite(db, userId, token, email, authUser, now, failing).0;
            db'.users[userId] == db.users[userId].(familyId := Some(PendingInvite(db, token, now).value.familyId))
  {
  }

  /** A failed persona insert does not change the reply of an accept, nor the profile and invite rows it writes. */
  lemma AcceptPersonaBestEffort(db: Db, userId: Id, token: string, email: Option<string>, authUser: Option<AuthUser>,
                                now: int, failing: set<Write>)
    ensures var a := AcceptInvite(db, userId, token, email, authUser, now, failing + {InsertPersonas});
            var b := AcceptInvite(db, userId, token, email, authUser, now, failing - {InsertPersonas});
            a.1 == b.1 && a.0.users == b.0.users && a.0.invites == b.0.invites
  {
    var with, without := failing + {InsertPersonas}, failing - {InsertPersonas};
    assert (UpdateUser in with) == (UpdateUser in without);
    assert (UpdateInvite in with) == (UpdateInvite in without);
  }

  /**
   * A failed invite update is a 500 after the caller has already moved to the
   * invite's family, and the invite stays pending: the same request, once the
   * update goes through, accepts it.
   */
  lemma AcceptInviteFailureLeavesPending(db: Db, userId: Id, token: string, email: Option<string>,
                                         authUser: Option<AuthUser>, now: int, failing: set<Write>)
    requires token != "" && PendingInvite(db, token, now).Some? && authUser.Some?
    requires Truthy(email) ==> email.value == PendingInvite(db, token, now).value.email
    requires UpdateUser !in failing && UpdateInvite in failing
    ensures var res := AcceptInvite(db, userId, token, email, authUser, now, failing);
            && res.1 == Err(ServerError)
            && (userId in db.users ==> res.0.users[userId].familyId == Some(PendingInvite(db, token, now).value.familyId))
            && PendingInvite(res.0, token, now) == PendingInvite(db, token, now)
            && AcceptInvite(res.0, userId, token, email, authUser, now, failing - {UpdateInvite}).1.Ok?
  {
    var res := AcceptInvite(db, userId, token, email, authUser, now, failing);
    assert res.0.invites == db.invites;
    assert PendingInvite(res.0, token, now) == PendingInvite(db, token, now);
  }
}
