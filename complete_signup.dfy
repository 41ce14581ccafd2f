/**
 * The signup completion handler (`server/routes/auth/complete-signup.js`):
 * after the client has signed the user up with the identity provider, it
 * either founds a new family for them or lets them join through a
 * `family_invitations` token. Writes go one at a time; the first failure
 * ends the request with 500 and leaves the earlier writes in place.
 */
module CompleteSignup {
  import opened Wrappers
  import opened Js
  import opened Tables
  import opened Bearer
  import opened FamilyStore

  /** The JSON body; every field may be absent. */
  datatype SignupBody = SignupBody(userId: Option<Id>, familyName: Option<string>, email: Option<string>,
                                   isNewFamily: bool, inviteToken: Option<string>)

  /** The success reply: the family joined, and its name when joined through an invitation. */
  datatype Joined = Joined(familyId: Id, familyName: Option<string>)

  const AdminSuffix: string := " Admin"

  /** `req.headers.authorization?.split(' ')[1]`: the second space-separated field, if any. */
  function AuthToken(authorization: Option<string>): (t: Option<string>)
    ensures authorization.None? ==> t.None?
    ensures authorization.Some? ==> (t.Some? <==> ' ' in authorization.value)
    ensures t.Some? ==> IsSecondField(authorization.value, ' ', t.value)
  {
    if authorization.Some? then
      SecondField(authorization.value, ' ');
      Field(authorization.value, ' ', 1)
    else None
  }

  /** Only the header's shape is looked at: any scheme followed by any non-empty word gets past the check. */
  lemma SchemeIsNotChecked(scheme: string, token: string)
    requires ' ' !in scheme && ' ' !in token
    ensures AuthToken(Some(scheme + " " + token)) == Some(token)
  {
    SplitJoin([scheme, token], ' ');
    assert Join([scheme, token], ' ') == scheme + " " + token;
  }

  /** A header without a space, a bare scheme, is refused. */
  lemma OneWordHeaderRefused(header: string)
    requires ' ' !in header
    ensures AuthToken(Some(header)).None?
  {
    assert IndexOf(header, ' ') == |header|;
  }

  /** The user row inserted for an invited user: named after the e-mail's local part. */
  function InvitedUser(userId: Id, email: string, familyId: Id): (u: UserRec)
    ensures u.id == userId && u.email == Some(email) && u.familyId == Some(familyId) && u.role == "parent"
    ensures u.fullName.Some? && StartsWith(email, u.fullName.value)
    ensures '@' !in u.fullName.value
    ensures |u.fullName.value| == |email| || email[|u.fullName.value|] == '@'
  {
    var name := BeforeFirst(email, '@');
    UserRec(userId, Some(email), Some(name), "parent", Some(familyId))
  }

  /** Sets `accepted_at` on the invitation with the given id. */
  function MarkAcceptedById(invitations: seq<InvitationRec>, id: Id, now: int): (r: seq<InvitationRec>)
    ensures |r| == |invitations|
    ensures forall k :: 0 <= k < |r| && invitations[k].id == id ==> r[k] == invitations[k].(acceptedAt := Some(now))
    ensures forall k :: 0 <= k < |r| && invitations[k].id != id ==> r[k] == invitations[k]
  {
    MapWhere(invitations, (i: InvitationRec) => i.id == id, (i: InvitationRec) => i.(acceptedAt := Some(now)))
  }

  /** SQL's three-valued `=` on a nullable timestamp: unknown (`None`) when either side is null. */
  function SqlEquals(a: Option<int>, b: Option<int>): (r: Option<bool>)
    ensures r.None? <==> a.None? || b.None?
    ensures r.Some? ==> (r.value <==> a == b)
  {
    if a.None? || b.None? then None else Some(a == b)
  }

  /**
   * The invitation filter as the handler writes it: `.eq('accepted_at', null)`
   * is an equality test against null rather than an `is null` test, so the
   * row is kept only if that comparison is true.
   */
  predicate InvitationMatchesAsWritten(i: InvitationRec, token: string, now: int) {
    i.token == token && SqlEquals(i.acceptedAt, None) == Some(true) && i.expiresAt > now
  }

  function PendingInvitationAsWritten(db: Db, token: string, now: int): (r: Option<InvitationRec>)
    ensures r.Some? ==> r.value in db.invitations && InvitationMatchesAsWritten(r.value, token, now)
  {
    Single(db.invitations, (i: InvitationRec) => InvitationMatchesAsWritten(i, token, now))
  }

  /** As written, the lookup matches no row at all, so every invitation signup is refused with 400. */
  lemma AsWrittenInvitationNeverFound(db: Db, token: string, now: int, body: SignupBody, failing: set<Write>)
    ensures PendingInvitationAsWritten(db, token, now).None?
    ensures JoinByInvitation(db, PendingInvitationAsWritten(db, token, now), body, now, failing) == (db, Err(BadRequest))
  {
    assert forall i :: i in db.invitations ==> !InvitationMatchesAsWritten(i, token, now);
  }

  /** With `accepted_at is null`, a fresh, sole invitation for a token is found until its expiry instant, exclusive. */
  lemma {:induction false} PendingInvitationFindsFresh(db: Db, invitation: InvitationRec, now: int)
    requires forall i :: i in db.invitations ==> i.token != invitation.token
    requires invitation.acceptedAt.None? && invitation.expiresAt > now
    ensures PendingInvitation(db.(invitations := db.invitations + [invitation]), invitation.token, now) == Some(invitation)
  {
    SingleOfAppend(db.invitations, invitation, (i: InvitationRec) => InvitationPending(i, invitation.token, now));
  }

  /**
   * The new-family branch: insert the family (its name is required), the
   * caller's user row as its parent admin, and the admin persona.
   */
  function FoundFamily(db: Db, body: SignupBody, newFamilyId: Id, now: int, failing: set<Write>): (res: (Db, Reply<Joined>))
    ensures res.1.Err? ==> res.1.status == ServerError
    ensures res.1.Ok? <==>
              && body.familyName.Some? && body.userId.Some?
              && newFamilyId !in db.families && body.userId.value !in db.users
              && InsertFamily !in failing && InsertUser !in failing && InsertPersonas !in failing
    ensures body.familyName.None? || InsertFamily in failing || newFamilyId in db.families ==> res == (db, Err(ServerError))
    ensures res.1.Err? ==> res.0.personas == db.personas
    ensures body.familyName.Some? && InsertFamily !in failing && newFamilyId !in db.families
            && (body.userId.None? || body.userId.value in db.users || InsertUser in failing) ==>
              res == (db.(families := db.families[newFamilyId := FamilyRec(newFamilyId, body.familyName.value, None)]), Err(ServerError))
    ensures body.familyName.Some? && InsertFamily !in failing && newFamilyId !in db.families
            && body.userId.Some? && body.userId.value !in db.users && InsertUser !in failing && InsertPersonas in failing ==>
              var name := body.familyName.value + AdminSuffix;
              res == (db.(families := db.families[newFamilyId := FamilyRec(newFamilyId, body.familyName.value, None)],
                          users := db.users[body.userId.value := UserRec(body.userId.value, body.email, Some(name), "parent", Some(newFamilyId))]),
                      Err(ServerError))
    ensures res.1.Ok? ==>
              && body.familyName.Some? && body.userId.Some?
              && newFamilyId !in db.families && body.userId.value !in db.users
              && res.1.body == Joined(newFamilyId, None)
              && var name := body.familyName.value + AdminSuffix;
                 res.0 == db.(families := db.families[newFamilyId := FamilyRec(newFamilyId, body.familyName.value, None)],
                              users := db.users[body.userId.value := UserRec(body.userId.value, body.email, Some(name), "parent", Some(newFamilyId))],
                              personas := db.personas + [PersonaRec(newFamilyId, name, "parent", None, None, None, now)])
    ensures res.0.invites == db.invites && res.0.invitations == db.invitations
  {
    if body.familyName.None? || InsertFamily in failing || newFamilyId in db.families then (db, Err(ServerError))
    else
      var db1 := db.(families := db.families[newFamilyId := FamilyRec(newFamilyId, body.familyName.value, None)]);
      var name := body.familyName.value + AdminSuffix;
      if body.userId.None? || body.userId.value in db1.users || InsertUser in failing then (db1, Err(ServerError))
      else
        var db2 := db1.(users := db1.users[body.userId.value := UserRec(body.userId.value, body.email, Some(name), "parent", Some(newFamilyId))]);
        if InsertPersonas in failing then (db2, Err(ServerError))
        else (db2.(personas := db2.personas + [PersonaRec(newFamilyId, name, "parent", None, None, None, now)]), Ok(Joined(newFamilyId, None)))
  }

  /**
   * The invitation branch, given what the lookup found: 400 without an
   * invitation; otherwise insert the caller's user row in the invitation's
   * family, set the invitation's `accepted_at`, and reply with the family's
   * name, which fails with 500 after the writes if the family row is gone.
   */
  function JoinByInvitation(db: Db, found: Option<InvitationRec>, body: SignupBody, now: int,
                            failing: set<Write>): (res: (Db, Reply<Joined>))
    ensures found.None? <==> res == (db, Err(BadRequest))
    ensures res.1.Err? ==> res.1.status in {BadRequest, ServerError}
    ensures res.1.Ok? <==>
              && found.Some? && body.email.Some? && body.userId.Some? && body.userId.value !in db.users
              && found.value.familyId in db.families && InsertUser !in failing && UpdateInvite !in failing
    ensures res.1.Ok? ==>
              && found.Some? && body.email.Some? && body.userId.Some? && body.userId.value !in db.users
              && found.value.familyId in db.families
              && res.1.body == Joined(found.value.familyId, Some(db.families[found.value.familyId].name))
              && res.0 == db.(users := db.users[body.userId.value := InvitedUser(body.userId.value, body.email.value, found.value.familyId)],
                              invitations := MarkAcceptedById(db.invitations, found.value.id, now))
    ensures res.0.families == db.families && res.0.personas == db.personas && res.0.invites == db.invites
  {
    match found
    case None => (db, Err(BadRequest))
    case Some(invitation) =>
      if body.email.None? then (db, Err(ServerError))
      else if body.userId.None? || body.userId.value in db.users || InsertUser in failing then (db, Err(ServerError))
      else
        var db1 := db.(users := db.users[body.userId.value := InvitedUser(body.userId.value, body.email.value, invitation.familyId)]);
        if UpdateInvite in failing then (db1, Err(ServerError))
        else
          var db2 := db1.(invitations := MarkAcceptedById(db1.invitations, invitation.id, now));
          if invitation.familyId !in db2.families then (db2, Err(ServerError))
          else (db2, Ok(Joined(invitation.familyId, Some(db2.families[invitation.familyId].name))))
  }

  /**
   * The whole handler: 405 for any method but POST, 401 without a second
   * header field, then the new-family branch if the flag is set, else the
   * invitation branch if a token is given, else 400.
   */
  function Signup(db: Db, verb: string, authorization: Option<string>, body: SignupBody, newFamilyId: Id,
                  now: int, failing: set<Write>): (res: (Db, Reply<Joined>))
    ensures verb != "POST" ==> res == (db, Err(MethodNotAllowed))
    ensures verb == "POST" && !Truthy(AuthToken(authorization)) ==> res == (db, Err(Unauthorized))
    ensures verb == "POST" && Truthy(AuthToken(authorization)) && body.isNewFamily ==>
              res == FoundFamily(db, body, newFamilyId, now, failing)
    ensures verb == "POST" && Truthy(AuthToken(authorization)) && !body.isNewFamily && !Truthy(body.inviteToken) ==>
              res == (db, Err(BadRequest))
    ensures verb == "POST" && Truthy(AuthToken(authorization)) && !body.isNewFamily && Truthy(body.inviteToken) ==>
              res == JoinByInvitation(db, PendingInvitation(db, body.inviteToken.value, now), body, now, failing)
    ensures res.1.Ok? && !body.isNewFamily ==>
              var found := PendingInvitation(db, body.inviteToken.value, now);
              && Truthy(body.inviteToken) && found.Some? && found.value.expiresAt > now && found.value.acceptedAt.None?
              && res == JoinByInvitation(db, found, body, now, failing)
  {
    if verb != "POST" then (db, Err(MethodNotAllowed))
    else if !Truthy(AuthToken(authorization)) then (db, Err(Unauthorized))
    else if body.isNewFamily then FoundFamily(db, body, newFamilyId, now, failing)
    else if Truthy(body.inviteToken) then
      JoinByInvitation(db, PendingInvitation(db, body.inviteToken.value, now), body, now, failing)
    else (db, Err(BadRequest))
  }

  method HandleSignup(st: Store, verb: string, authorization: Option<string>, body: SignupBody, newFamilyId: Id,
                      now: int, failing: set<Write>) returns (r: Reply<Joined>)
    modifies st
    ensures (st.State(), r) == Signup(old(st.State()), verb, authorization, body, newFamilyId, now, failing)
  {
    if verb != "POST" {
      return Err(MethodNotAllowed);
    }
    if !Truthy(AuthToken(authorization)) {
      return Err(Unauthorized);
    }
    if body.isNewFamily {
      if body.familyName.None? || InsertFamily in failing || newFamilyId in st.families {
        return Err(ServerError);
      }
      st.families := st.families[newFamilyId := FamilyRec(newFamilyId, body.familyName.value, None)];
      var name := body.familyName.value + AdminSuffix;
      if body.userId.None? || body.userId.value in st.users || InsertUser in failing {
        return Err(ServerError);
      }
      st.users := st.users[body.userId.value := UserRec(body.userId.value, body.email, Some(name), "parent", Some(newFamilyId))];
      if InsertPersonas in failing {
        return Err(ServerError);
      }
      st.personas := st.personas + [PersonaRec(newFamilyId, name, "parent", None, None, None, now)];
      return Ok(Joined(newFamilyId, None));
    } else if Truthy(body.inviteToken) {
      var found := PendingInvitation(st.State(), body.inviteToken.value, now);
      if found.None? {
        return Err(BadRequest);
      }
      var invitation := found.value;
      if body.email.None? {
        return Err(ServerError);
      }
      if body.userId.None? || body.userId.value in st.users || InsertUser in failing {
        return Err(ServerError);
      }
      st.users := st.users[body.userId.value := InvitedUser(body.userId.value, body.email.value, invitation.familyId)];
      if UpdateInvite in failing {
        return Err(ServerError);
      }
      st.invitations := MarkAcceptedById(st.invitations, invitation.id, now);
      if invitation.familyId !in st.families {
        return Err(ServerError);
      }
      return Ok(Joined(invitation.familyId, Some(st.families[invitation.familyId].name)));
    } else {
      return Err(BadRequest);
    }
  }

  /** The new-family branch wins even when an invitation token is also given: invitations are untouched. */
  lemma NewFamilyTakesPrecedence(db: Db, verb: string, authorization: Option<string>, body: SignupBody,
                                 newFamilyId: Id, now: int, failing: set<Write>)
    requires body.isNewFamily
    ensures Signup(db, verb, authorization, body, newFamilyId, now, failing).0.invitations == db.invitations
  {
  }

  /**
   * Unlike the API routes, the persona insert is fatal here: when it fails
   * the reply is 500, yet the family and the user row stay written.
   */
  lemma PersonaFailureIsFatal(db: Db, authorization: Option<string>, body: SignupBody, newFamilyId: Id,
                              now: int, failing: set<Write>)
    requires Truthy(AuthToken(authorization)) && body.isNewFamily
    requires body.familyName.Some? && body.userId.Some? && body.userId.value !in db.users
    requires newFamilyId !in db.families
    requires InsertFamily !in failing && InsertUser !in failing && InsertPersonas in failing
    ensures var res := Signup(db, "POST", authorization, body, newFamilyId, now, failing);
            && res.1 == Err(ServerError)
            && newFamilyId in res.0.families
            && res.0.users[body.userId.value].familyId == Some(newFamilyId)
            && res.0.personas == db.personas
  {
  }

  /**
   * An invitation admits one signup: after a successful join through a
   * token, the same token is refused with 400 at any later time.
   */
  lemma {:induction false} InvitationIsSingleUse(db: Db, authorization: Option<string>, body: SignupBody,
                                                 newFamilyId: Id, now: int, failing: set<Write>,
                                                 authorization2: Option<string>, body2: SignupBody, newFamilyId2: Id,
                                                 later: int, failing2: set<Write>)
    requires !body.isNewFamily && Signup(db, "POST", authorization, body, newFamilyId, now, failing).1.Ok?
    requires body2.inviteToken == body.inviteToken && !body2.isNewFamily && Truthy(AuthToken(authorization2))
    requires later >= now
    ensures var db' := Signup(db, "POST", authorization, body, newFamilyId, now, failing).0;
            && PendingInvitation(db', body.inviteToken.value, later).None?
            && Signup(db', "POST", authorization2, body2, newFamilyId2, later, failing2) == (db', Err(BadRequest))
  {
    var token := body.inviteToken.value;
    var found := PendingInvitation(db, token, now);
    var invitation := found.value;
    var db' := Signup(db, "POST", authorization, body, newFamilyId, now, failing).0;
    assert db'.invitations == MarkAcceptedById(db.invitations, invitation.id, now);
    assert forall i :: i in db'.invitations ==> !InvitationPending(i, token, later) by {
      forall i | i in db'.invitations ensures !InvitationPending(i, token, later) {
        var k :| 0 <= k < |db'.invitations| && db'.invitations[k] == i;
        assert db.invitations[k] in db.invitations;
      }
    }
  }

  /** The invitation branch names the new user after the part of the e-mail before `@`. */
  lemma InvitedUserName(userId: Id, local: string, domain: string, familyId: Id)
    requires '@' !in local
    ensures InvitedUser(userId, local + "@" + domain, familyId).fullName == Some(local)
  {
    var email := local + "@" + domain;
    assert IndexOf(email, '@') == |local| by {
      assert email[|local|] == '@';
      assert forall k :: 0 <= k < |local| ==> email[k] == local[k];
    }
    assert email[..|local|] == local;
  }
}
