/**
 * The statements `server/storage.ts` issues against the schema, as functions
 * from the database to the new database and the value returned: queries
 * (`select ... where ... [order by] [limit 1]`), inserts with their key,
 * unique and foreign-key checks, partial updates by id, and deletes by id
 * with their cascade or restrict behaviour. A violated constraint is the
 * error the database raises, and the statement then changes nothing.
 */
module StorageOps {
  import opened Wrappers
  import opened Tables
  import opened Schema

  /** Why the database rejects a statement; drizzle's refusal of an empty `set` is one more. */
  datatype Constraint = DuplicateKey | DuplicateInviteCode | MissingReference | StillReferenced | NoValuesToSet

  datatype Outcome<+T> = Done(value: T) | Violated(constraint: Constraint)

  // Row selectors

  function UserIdIs(id: Id): User -> bool { (u: User) => u.id == id }
  function FamilyIdIs(id: Id): Family -> bool { (f: Family) => f.id == id }
  function MemberIdIs(id: Id): Member -> bool { (m: Member) => m.id == id }
  function ConnectionIdIs(id: Id): Connection -> bool { (c: Connection) => c.id == id }
  function EventIdIs(id: Id): Event -> bool { (e: Event) => e.id == id }
  function ItemIdIs(id: Id): ListItem -> bool { (i: ListItem) => i.id == id }
  function ChoreIdIs(id: Id): Chore -> bool { (c: Chore) => c.id == id }
  function MessageIdIs(id: Id): Message -> bool { (m: Message) => m.id == id }

  // Queries

  /** `getUser`: the row with that id, if any. */
  function GetUser(db: Db, id: Id): (r: Option<User>)
    ensures r.Some? ==> r.value in db.users && r.value.id == id
    ensures r.None? <==> id !in UserIds(db)
  {
    First(db.users, UserIdIs(id))
  }

  /** With unique keys, `getUser` finds exactly the row that has the id. */
  lemma GetUserFindsRow(db: Db, u: User)
    requires Valid(db) && u in db.users
    ensures GetUser(db, u.id) == Some(u)
  {
    FirstByUniqueKey(db.users, UserKey, UserIdIs(u.id), u.id, u);
  }

  /** A user just created is the one `getUser` then finds by its id. */
  lemma CreatedUserIsFound(db: Db, n: NewUser, now: int)
    requires Valid(db) && CreateUser(db, n, now).1.Done?
    ensures GetUser(CreateUser(db, n, now).0, n.id) == Some(UserRow(n, now))
  {
    CreateUserKeepsValid(db, n, now);
    GetUserFindsRow(CreateUser(db, n, now).0, UserRow(n, now));
  }

  /** `getUserByUsername`: the first row with that username, if any. */
  function GetUserByUsername(db: Db, username: string): (r: Option<User>)
    ensures r.Some? ==> r.value in db.users && r.value.username == Some(username)
    ensures r.None? <==> forall u :: u in db.users ==> u.username != Some(username)
  {
    First(db.users, (u: User) => u.username == Some(username))
  }

  /** `getUserByEmail`: the first row with that e-mail, if any. */
  function GetUserByEmail(db: Db, email: string): (r: Option<User>)
    ensures r.Some? ==> r.value in db.users && r.value.email == Some(email)
    ensures r.None? <==> forall u :: u in db.users ==> u.email != Some(email)
  {
    First(db.users, (u: User) => u.email == Some(email))
  }

  /** `getFamily`: the row with that id, if any. */
  function GetFamily(db: Db, id: Id): (r: Option<Family>)
    ensures r.Some? ==> r.value in db.families && r.value.id == id
    ensures r.None? <==> id !in FamilyIds(db)
  {
    First(db.families, FamilyIdIs(id))
  }

  /** `getFamilyByInviteCode`: the row with that code, if any. */
  function GetFamilyByInviteCode(db: Db, code: string): (r: Option<Family>)
    ensures r.Some? ==> r.value in db.families && r.value.inviteCode == Some(code)
    ensures r.None? <==> forall f :: f in db.families ==> f.inviteCode != Some(code)
  {
    First(db.families, (f: Family) => f.inviteCode == Some(code))
  }

  /** Because invite codes are unique, the family found by a code is the only family with it. */
  lemma InviteCodeLookupIsExact(db: Db, code: string, f: Family)
    requires Valid(db) && f in db.families && f.inviteCode == Some(code)
    ensures GetFamilyByInviteCode(db, code) == Some(f)
  {
    InviteCodeIdentifiesFamily(db, code, f, GetFamilyByInviteCode(db, code).value);
  }

  /** A family just created with a code is the one `getFamilyByInviteCode` then finds. */
  lemma CreatedFamilyIsFoundByCode(db: Db, n: NewFamily, id: Id, now: int)
    requires Valid(db) && CreateFamily(db, n, id, now).1.Done? && n.inviteCode.Some?
    ensures GetFamilyByInviteCode(CreateFamily(db, n, id, now).0, n.inviteCode.value) == Some(FamilyRow(n, id, now))
  {
    CreateFamilyKeepsValid(db, n, id, now);
    InviteCodeLookupIsExact(CreateFamily(db, n, id, now).0, n.inviteCode.value, FamilyRow(n, id, now));
  }

  /** `getFamilyMembers`: the personas of one family, each exactly once. */
  function GetFamilyMembers(db: Db, familyId: Id): (r: seq<Member>)
    ensures forall m :: m in r <==> m in db.members && m.familyId == familyId
    ensures forall m :: multiset(r)[m] == if m.familyId == familyId then multiset(db.members)[m] else 0
  {
    Filter(db.members, (m: Member) => m.familyId == familyId)
  }

  /** `getCalendarConnections`: the connections of one user. */
  function GetCalendarConnections(db: Db, userId: Id): (r: seq<Connection>)
    ensures forall c :: c in r <==> c in db.connections && c.userId == userId
    ensures forall c :: multiset(r)[c] == if c.userId == userId then multiset(db.connections)[c] else 0
  {
    Filter(db.connections, (c: Connection) => c.userId == userId)
  }

  function EventStart(e: Event): int { e.startTime }

  /**
   * `getEventsByFamily`: the family's events by ascending start time. The
   * date range is accepted and not applied.
   */
  function GetEventsByFamily(db: Db, familyId: Id, startDate: Option<int>, endDate: Option<int>): (r: seq<Event>)
    ensures forall e :: e in r <==> e in db.events && e.familyId == familyId
    ensures forall e :: multiset(r)[e] == if e.familyId == familyId then multiset(db.events)[e] else 0
    ensures SortedBy(r, EventStart)
  {
    var mine := Filter(db.events, (e: Event) => e.familyId == familyId);
    var r := SortBy(mine, EventStart);
    assert forall e :: e in r <==> e in multiset(r);
    r
  }

  /** The date range makes no difference. */
  lemma EventsIgnoreDateRange(db: Db, familyId: Id, startDate: Option<int>, endDate: Option<int>)
    ensures GetEventsByFamily(db, familyId, startDate, endDate) == GetEventsByFamily(db, familyId, None, None)
  {
  }

  /** `getListsByFamily`. */
  function GetListsByFamily(db: Db, familyId: Id): (r: seq<List>)
    ensures forall l :: l in r <==> l in db.lists && l.familyId == familyId
    ensures forall l :: multiset(r)[l] == if l.familyId == familyId then multiset(db.lists)[l] else 0
  {
    Filter(db.lists, (l: List) => l.familyId == familyId)
  }

  /** `getListItems`. */
  function GetListItems(db: Db, listId: Id): (r: seq<ListItem>)
    ensures forall i :: i in r <==> i in db.items && i.listId == listId
    ensures forall i :: multiset(r)[i] == if i.listId == listId then multiset(db.items)[i] else 0
  {
    Filter(db.items, (i: ListItem) => i.listId == listId)
  }

  /** `getChoresByFamily`. */
  function GetChoresByFamily(db: Db, familyId: Id): (r: seq<Chore>)
    ensures forall c :: c in r <==> c in db.chores && c.familyId == familyId
    ensures forall c :: multiset(r)[c] == if c.familyId == familyId then multiset(db.chores)[c] else 0
  {
    Filter(db.chores, (c: Chore) => c.familyId == familyId)
  }

  function CompletedAt(c: Completion): Option<int> { c.completedAt }
  function ReceivedAt(m: Message): Option<int> { m.receivedAt }

  /** The completions of one chore, in table order. */
  function CompletionsOf(db: Db, choreId: Id): (r: seq<Completion>)
    ensures forall c :: multiset(r)[c] == if c.choreId == choreId then multiset(db.completions)[c] else 0
  {
    Filter(db.completions, (c: Completion) => c.choreId == choreId)
  }

  /** `getChoreCompletions`: a chore's completions, newest first (a null time sorts first). */
  function GetChoreCompletions(db: Db, choreId: Id): (r: seq<Completion>)
    ensures forall c :: multiset(r)[c] == if c.choreId == choreId then multiset(db.completions)[c] else 0
    ensures forall i, j :: 0 <= i < j < |r| && r[i].completedAt.Some? && r[j].completedAt.Some? ==>
              r[i].completedAt.value >= r[j].completedAt.value
    ensures forall i, j :: 0 <= i < j < |r| && r[j].completedAt.None? ==> r[i].completedAt.None?
  {
    var mine := CompletionsOf(db, choreId);
    var r := SortByDescNullsFirst(mine, CompletedAt);
    assert multiset(r) == multiset(mine);
    r
  }

  /** The messages of one family, in table order. */
  function MessagesOf(db: Db, familyId: Id): (r: seq<Message>)
    ensures forall m :: multiset(r)[m] == if m.familyId == familyId then multiset(db.messages)[m] else 0
  {
    Filter(db.messages, (m: Message) => m.familyId == familyId)
  }

  /** `getMessagesByFamily`: a family's messages, newest first (a null time sorts first). */
  function GetMessagesByFamily(db: Db, familyId: Id): (r: seq<Message>)
    ensures forall m :: multiset(r)[m] == if m.familyId == familyId then multiset(db.messages)[m] else 0
    ensures forall i, j :: 0 <= i < j < |r| && r[i].receivedAt.Some? && r[j].receivedAt.Some? ==>
              r[i].receivedAt.value >= r[j].receivedAt.value
    ensures forall i, j :: 0 <= i < j < |r| && r[j].receivedAt.None? ==> r[i].receivedAt.None?
  {
    var mine := MessagesOf(db, familyId);
    var r := SortByDescNullsFirst(mine, ReceivedAt);
    assert multiset(r) == multiset(mine);
    r
  }

  // Inserts: `insert ... returning`, the new row or the violated constraint.

  function CreateUser(db: Db, n: NewUser, now: int): (res: (Db, Outcome<User>))
    ensures res.1.Done? <==> n.id !in UserIds(db) && (n.familyId.None? || n.familyId.value in FamilyIds(db))
    ensures res.1.Done? ==> res.1.value == UserRow(n, now) && res.0 == db.(users := db.users + [res.1.value])
    ensures res.1.Violated? ==> res.0 == db
  {
    if HasKey(db.users, UserKey, n.id) then (db, Violated(DuplicateKey))
    else if !RefFound(db.families, FamilyKey, n.familyId) then (db, Violated(MissingReference))
    else var u := UserRow(n, now); (db.(users := db.users + [u]), Done(u))
  }

  lemma CreateUserKeepsValid(db: Db, n: NewUser, now: int)
    requires Valid(db)
    ensures Valid(CreateUser(db, n, now).0)
  {
    var res := CreateUser(db, n, now);
    if res.1.Done? {
      AppendKeysUnique(db.users, res.1.value, UserKey);
    }
  }

  /** Whether some family already has the (non-null) code. */
  predicate CodeTaken(db: Db, code: Option<string>)
    ensures CodeTaken(db, code) <==> code.Some? && exists f :: f in db.families && f.inviteCode == code
  {
    code.Some? && exists i :: 0 <= i < |db.families| && db.families[i].inviteCode == code
  }

  function CreateFamily(db: Db, n: NewFamily, id: Id, now: int): (res: (Db, Outcome<Family>))
    ensures res.1.Done? <==> id !in FamilyIds(db) && !CodeTaken(db, n.inviteCode)
    ensures res.1 == Violated(DuplicateInviteCode) <==> id !in FamilyIds(db) && CodeTaken(db, n.inviteCode)
    ensures res.1.Done? ==> res.1.value == FamilyRow(n, id, now) && res.0 == db.(families := db.families + [res.1.value])
    ensures res.1.Violated? ==> res.0 == db
  {
    if HasKey(db.families, FamilyKey, id) then (db, Violated(DuplicateKey))
    else if CodeTaken(db, n.inviteCode) then (db, Violated(DuplicateInviteCode))
    else var f := FamilyRow(n, id, now); (db.(families := db.families + [f]), Done(f))
  }

  lemma CreateFamilyKeepsValid(db: Db, n: NewFamily, id: Id, now: int)
    requires Valid(db)
    ensures Valid(CreateFamily(db, n, id, now).0)
  {
    var res := CreateFamily(db, n, id, now);
    if res.1.Done? {
      AppendKeysUnique(db.families, res.1.value, FamilyKey);
    }
  }

  function CreateFamilyMember(db: Db, n: NewMember, id: Id, now: int): (res: (Db, Outcome<Member>))
    ensures res.1.Done? <==> id !in MemberIds(db) && n.familyId in FamilyIds(db)
    ensures res.1.Done? ==> res.1.value == MemberRow(n, id, now) && res.0 == db.(members := db.members + [res.1.value])
    ensures res.1.Violated? ==> res.0 == db
  {
    if HasKey(db.members, MemberKey, id) then (db, Violated(DuplicateKey))
    else if !HasKey(db.families, FamilyKey, n.familyId) then (db, Violated(MissingReference))
    else var m := MemberRow(n, id, now); (db.(members := db.members + [m]), Done(m))
  }

  lemma CreateFamilyMemberKeepsValid(db: Db, n: NewMember, id: Id, now: int)
    requires Valid(db)
    ensures Valid(CreateFamilyMember(db, n, id, now).0)
  {
    var res := CreateFamilyMember(db, n, id, now);
    if res.1.Done? {
      AppendKeysUnique(db.members, res.1.value, MemberKey);
    }
  }

  function CreateCalendarConnection(db: Db, n: NewConnection, id: Id, now: int): (res: (Db, Outcome<Connection>))
    ensures res.1.Done? <==> id !in ConnectionIds(db) && n.userId in UserIds(db)
    ensures res.1.Done? ==> res.1.value == ConnectionRow(n, id, now) && res.0 == db.(connections := db.connections + [res.1.value])
    ensures res.1.Violated? ==> res.0 == db
  {
    if HasKey(db.connections, ConnectionKey, id) then (db, Violated(DuplicateKey))
    else if !HasKey(db.users, UserKey, n.userId) then (db, Violated(MissingReference))
    else var c := ConnectionRow(n, id, now); (db.(connections := db.connections + [c]), Done(c))
  }

  lemma CreateCalendarConnectionKeepsValid(db: Db, n: NewConnection, id: Id, now: int)
    requires Valid(db)
    ensures Valid(CreateCalendarConnection(db, n, id, now).0)
  {
    var res := CreateCalendarConnection(db, n, id, now);
    if res.1.Done? {
      AppendKeysUnique(db.connections, res.1.value, ConnectionKey);
    }
  }

  function CreateEvent(db: Db, n: NewEvent, id: Id, now: int): (res: (Db, Outcome<Event>))
    ensures res.1.Done? <==> && Keys(db.events, EventKey) !! {id} && n.familyId in FamilyIds(db)
                             && (n.calendarConnectionId.None? || n.calendarConnectionId.value in ConnectionIds(db))
                             && (n.assignedMemberId.None? || n.assignedMemberId.value in MemberIds(db))
    ensures res.1.Done? ==> res.1.value == EventRow(n, id, now) && res.0 == db.(events := db.events + [res.1.value])
    ensures res.1.Violated? ==> res.0 == db
  {
    if HasKey(db.events, EventKey, id) then (db, Violated(DuplicateKey))
    else if !HasKey(db.families, FamilyKey, n.familyId) || !RefFound(db.connections, ConnectionKey, n.calendarConnectionId)
         || !RefFound(db.members, MemberKey, n.assignedMemberId) then (db, Violated(MissingReference))
    else var e := EventRow(n, id, now); (db.(events := db.events + [e]), Done(e))
  }

  lemma CreateEventKeepsValid(db: Db, n: NewEvent, id: Id, now: int)
    requires Valid(db)
    ensures Valid(CreateEvent(db, n, id, now).0)
  {
    var res := CreateEvent(db, n, id, now);
    if res.1.Done? {
      AppendKeysUnique(db.events, res.1.value, EventKey);
    }
  }

  function CreateList(db: Db, n: NewList, id: Id, now: int): (res: (Db, Outcome<List>))
    ensures res.1.Done? <==> id !in ListIds(db) && n.familyId in FamilyIds(db)
    ensures res.1.Done? ==> res.1.value == ListRow(n, id, now) && res.0 == db.(lists := db.lists + [res.1.value])
    ensures res.1.Violated? ==> res.0 == db
  {
    if HasKey(db.lists, ListKey, id) then (db, Violated(DuplicateKey))
    else if !HasKey(db.families, FamilyKey, n.familyId) then (db, Violated(MissingReference))
    else var l := ListRow(n, id, now); (db.(lists := db.lists + [l]), Done(l))
  }

  lemma CreateListKeepsValid(db: Db, n: NewList, id: Id, now: int)
    requires Valid(db)
    ensures Valid(CreateList(db, n, id, now).0)
  {
    var res := CreateList(db, n, id, now);
    if res.1.Done? {
      AppendKeysUnique(db.lists, res.1.value, ListKey);
    }
  }

  function CreateListItem(db: Db, n: NewListItem, id: Id, now: int): (res: (Db, Outcome<ListItem>))
    ensures res.1.Done? <==> && Keys(db.items, ItemKey) !! {id} && n.listId in ListIds(db)
                             && (n.assignedMemberId.None? || n.assignedMemberId.value in MemberIds(db))
    ensures res.1.Done? ==> res.1.value == ListItemRow(n, id, now) && res.0 == db.(items := db.items + [res.1.value])
    ensures res.1.Violated? ==> res.0 == db
  {
    if HasKey(db.items, ItemKey, id) then (db, Violated(DuplicateKey))
    else if !HasKey(db.lists, ListKey, n.listId) || !RefFound(db.members, MemberKey, n.assignedMemberId) then
      (db, Violated(MissingReference))
    else var i := ListItemRow(n, id, now); (db.(items := db.items + [i]), Done(i))
  }

  lemma CreateListItemKeepsValid(db: Db, n: NewListItem, id: Id, now: int)
    requires Valid(db)
    ensures Valid(CreateListItem(db, n, id, now).0)
  {
    var res := CreateListItem(db, n, id, now);
    if res.1.Done? {
      AppendKeysUnique(db.items, res.1.value, ItemKey);
    }
  }

  function CreateChore(db: Db, n: NewChore, id: Id, now: int): (res: (Db, Outcome<Chore>))
    ensures res.1.Done? <==> && id !in ChoreIds(db) && n.familyId in FamilyIds(db)
                             && (n.assignedMemberId.None? || n.assignedMemberId.value in MemberIds(db))
    ensures res.1.Done? ==> res.1.value == ChoreRow(n, id, now) && res.0 == db.(chores := db.chores + [res.1.value])
    ensures res.1.Violated? ==> res.0 == db
  {
    if HasKey(db.chores, ChoreKey, id) then (db, Violated(DuplicateKey))
    else if !HasKey(db.families, FamilyKey, n.familyId) || !RefFound(db.members, MemberKey, n.assignedMemberId) then
      (db, Violated(MissingReference))
    else var c := ChoreRow(n, id, now); (db.(chores := db.chores + [c]), Done(c))
  }

  lemma CreateChoreKeepsValid(db: Db, n: NewChore, id: Id, now: int)
    requires Valid(db)
    ensures Valid(CreateChore(db, n, id, now).0)
  {
    var res := CreateChore(db, n, id, now);
    if res.1.Done? {
      AppendKeysUnique(db.chores, res.1.value, ChoreKey);
    }
  }

  /** `completeChore`: record one completion, stamped now. */
  function CompleteChore(db: Db, n: NewCompletion, id: Id, now: int): (res: (Db, Outcome<Completion>))
    ensures res.1.Done? <==> && Keys(db.completions, CompletionKey) !! {id} && n.choreId in ChoreIds(db)
                             && (n.completedById.None? || n.completedById.value in MemberIds(db))
    ensures res.1.Done? ==> res.1.value == CompletionRow(n, id, now) && res.0 == db.(completions := db.completions + [res.1.value])
    ensures res.1.Violated? ==> res.0 == db
  {
    if HasKey(db.completions, CompletionKey, id) then (db, Violated(DuplicateKey))
    else if !HasKey(db.chores, ChoreKey, n.choreId) || !RefFound(db.members, MemberKey, n.completedById) then
      (db, Violated(MissingReference))
    else var c := CompletionRow(n, id, now); (db.(completions := db.completions + [c]), Done(c))
  }

  lemma CompleteChoreKeepsValid(db: Db, n: NewCompletion, id: Id, now: int)
    requires Valid(db)
    ensures Valid(CompleteChore(db, n, id, now).0)
  {
    var res := CompleteChore(db, n, id, now);
    if res.1.Done? {
      AppendKeysUnique(db.completions, res.1.value, CompletionKey);
    }
  }

  function CreateMessage(db: Db, n: NewMessage, id: Id, now: int): (res: (Db, Outcome<Message>))
    ensures res.1.Done? <==> Keys(db.messages, MessageKey) !! {id} && n.familyId in FamilyIds(db)
    ensures res.1.Done? ==> res.1.value == MessageRow(n, id, now) && res.0 == db.(messages := db.messages + [res.1.value])
    ensures res.1.Violated? ==> res.0 == db
  {
    if HasKey(db.messages, MessageKey, id) then (db, Violated(DuplicateKey))
    else if !HasKey(db.families, FamilyKey, n.familyId) then (db, Violated(MissingReference))
    else var m := MessageRow(n, id, now); (db.(messages := db.messages + [m]), Done(m))
  }

  lemma CreateMessageKeepsValid(db: Db, n: NewMessage, id: Id, now: int)
    requires Valid(db)
    ensures Valid(CreateMessage(db, n, id, now).0)
  {
    var res := CreateMessage(db, n, id, now);
    if res.1.Done? {
      AppendKeysUnique(db.messages, res.1.value, MessageKey);
    }
  }

  // Updates: `update ... set <patch> where id = ? returning`; the first row
  // returned, if any. A patch field is absent (None), set to a value, or for a
  // nullable column set to null (Some(None)).

  function Pick<T>(given: Option<T>, current: T): T {
    if given.Some? then given.value else current
  }

  /** `updateUserStripeInfo`: records the Stripe ids and marks the subscription active. */
  function WithStripe(customerId: string, subscriptionId: string): User -> User {
    (u: User) => u.(stripeCustomerId := Some(customerId), stripeSubscriptionId := Some(subscriptionId),
                    subscriptionStatus := Some("active"))
  }

  function UpdateUserStripeInfo(db: Db, id: Id, customerId: string, subscriptionId: string): (res: (Db, Option<User>))
    ensures res.0 == db.(users := res.0.users) && |res.0.users| == |db.users|
    ensures forall i :: 0 <= i < |db.users| ==>
              res.0.users[i] == if db.users[i].id == id
                                then db.users[i].(stripeCustomerId := Some(customerId), stripeSubscriptionId := Some(subscriptionId),
                                                  subscriptionStatus := Some("active"))
                                else db.users[i]
    ensures res.1.None? <==> id !in UserIds(db)
    ensures res.1.Some? ==> res.1.value in res.0.users && res.1.value.id == id && res.1.value.subscriptionStatus == Some("active")
  {
    var users := MapWhere(db.users, UserIdIs(id), WithStripe(customerId, subscriptionId));
    (db.(users := users), match First(db.users, UserIdIs(id))
                          case None => None
                          case Some(u) => Some(WithStripe(customerId, subscriptionId)(u)))
  }

  lemma UpdateUserStripeInfoKeepsValid(db: Db, id: Id, customerId: string, subscriptionId: string)
    requires Valid(db)
    ensures Valid(UpdateUserStripeInfo(db, id, customerId, subscriptionId).0)
  {
    var f := WithStripe(customerId, subscriptionId);
    MapWhereKeysUnique(db.users, UserIdIs(id), f, UserKey);
    MapWhereRefsIn(db.users, UserIdIs(id), f, UserFamily, FamilyIds(db));
  }

  datatype MemberPatch = MemberPatch(familyId: Option<Id>, name: Option<string>, role: Option<Option<string>>,
                                     birthYear: Option<Option<int>>, avatarUrl: Option<Option<string>>,
                                     color: Option<Option<string>>)

  predicate MemberPatchEmpty(p: MemberPatch) {
    p.familyId.None? && p.name.None? && p.role.None? && p.birthYear.None? && p.avatarUrl.None? && p.color.None?
  }

  /** The supplied fields take the patch's value; the id, the creation time and every other field stay. */
  function PatchedMember(m: Member, p: MemberPatch): (r: Member)
    ensures r.id == m.id && r.createdAt == m.createdAt
    ensures p.familyId.Some? ==> r.familyId == p.familyId.value
    ensures p.familyId.None? ==> r.familyId == m.familyId
    ensures p.name.Some? ==> r.name == p.name.value
    ensures p.name.None? ==> r.name == m.name
    ensures p.role.Some? ==> r.role == p.role.value
    ensures p.role.None? ==> r.role == m.role
    ensures p.birthYear.Some? ==> r.birthYear == p.birthYear.value
    ensures p.birthYear.None? ==> r.birthYear == m.birthYear
    ensures p.avatarUrl.Some? ==> r.avatarUrl == p.avatarUrl.value
    ensures p.avatarUrl.None? ==> r.avatarUrl == m.avatarUrl
    ensures p.color.Some? ==> r.color == p.color.value
    ensures p.color.None? ==> r.color == m.color
    ensures MemberPatchEmpty(p) ==> r == m
  {
    m.(familyId := Pick(p.familyId, m.familyId), name := Pick(p.name, m.name), role := Pick(p.role, m.role),
       birthYear := Pick(p.birthYear, m.birthYear), avatarUrl := Pick(p.avatarUrl, m.avatarUrl),
       color := Pick(p.color, m.color))
  }

  function PatchMember(p: MemberPatch): Member -> Member { (m: Member) => PatchedMember(m, p) }

  predicate MemberPatchRefsOk(db: Db, p: MemberPatch)
    ensures MemberPatchRefsOk(db, p) <==> p.familyId.None? || p.familyId.value in FamilyIds(db)
  {
    RefFound(db.families, FamilyKey, p.familyId)
  }

  /** `updateFamilyMember`. */
  function UpdateFamilyMember(db: Db, id: Id, p: MemberPatch): (res: (Db, Outcome<Option<Member>>))
    ensures res.1 == Violated(NoValuesToSet) <==> MemberPatchEmpty(p)
    ensures res.1 == Done(None) <==> !MemberPatchEmpty(p) && id !in MemberIds(db)
    ensures res.1.Done? <==> !MemberPatchEmpty(p) && (id !in MemberIds(db) || MemberPatchRefsOk(db, p))
    ensures res.1.Violated? ==> res.0 == db
    ensures res.1.Done? ==> && res.0 == db.(members := res.0.members) && |res.0.members| == |db.members|
                            && forall i :: 0 <= i < |db.members| ==>
                                 res.0.members[i] == if db.members[i].id == id then PatchedMember(db.members[i], p) else db.members[i]
    ensures res.1.Done? && res.1.value.Some? ==>
              && res.1.value.value in res.0.members && res.1.value.value.id == id
              && exists m :: m in db.members && m.id == id && res.1.value.value == PatchedMember(m, p)
  {
    if MemberPatchEmpty(p) then (db, Violated(NoValuesToSet))
    else match First(db.members, MemberIdIs(id))
      case None =>
        MapWhereNoMatch(db.members, MemberIdIs(id), PatchMember(p));
        (db, Done(None))
      case Some(m) =>
        if !MemberPatchRefsOk(db, p) then (db, Violated(MissingReference))
        else
          var members := MapWhere(db.members, MemberIdIs(id), PatchMember(p));
          assert PatchedMember(m, p) in members by { var i :| 0 <= i < |db.members| && db.members[i] == m; }
          (db.(members := members), Done(Some(PatchedMember(m, p))))
  }

  /** Patching the persona with the id keeps the reference valid when the patch's references exist. */
  lemma PatchedMembersRefsIn(db: Db, id: Id, p: MemberPatch)
    requires RefsOk(db) && MemberPatchRefsOk(db, p)
    ensures var members := MapWhere(db.members, MemberIdIs(id), PatchMember(p));
            RefsIn(members, MemberFamily, FamilyIds(db))
  {
    MapWhereRefsIn(db.members, MemberIdIs(id), PatchMember(p), MemberFamily, FamilyIds(db));
  }

  lemma UpdateFamilyMemberKeepsValid(db: Db, id: Id, p: MemberPatch)
    requires Valid(db)
    ensures Valid(UpdateFamilyMember(db, id, p).0)
  {
    var d := UpdateFamilyMember(db, id, p).0;
    if UpdateFamilyMember(db, id, p).1.Done? {
      if id !in Keys(db.members, MemberKey) {
        assert d.members == db.members;
      } else {
        var members := MapWhere(db.members, MemberIdIs(id), PatchMember(p));
        assert d == db.(members := members);
        MapWhereKeysUnique(db.members, MemberIdIs(id), PatchMember(p), MemberKey);
        PatchedMembersRefsIn(db, id, p);
        assert KeysOk(d);
        assert RefsOk(d);
      }
    }
  }

  /** Sending the same patch twice leaves the table as sending it once. */
  lemma UpdateFamilyMemberIdempotent(db: Db, id: Id, p: MemberPatch)
    ensures var once := UpdateFamilyMember(db, id, p).0; UpdateFamilyMember(once, id, p).0 == once
  {
    var once := UpdateFamilyMember(db, id, p).0;
    if UpdateFamilyMember(db, id, p).1.Done? && id in MemberIds(db) {
      var sel, f := MemberIdIs(id), PatchMember(p);
      UpdatedMembers(db, id, p);
      assert MemberPatchRefsOk(once, p);
      forall x | sel(x) ensures sel(f(x)) && f(f(x)) == f(x) {
        PatchedMemberTwice(x, p);
      }
      UpdatedMembers(once, id, p);
      MapWhereIdempotent(db.members, sel, f);
    }
  }

  /** A successful update of a persona is the `update ... where` of the patch on the members table. */
  lemma UpdatedMembers(db: Db, id: Id, p: MemberPatch)
    requires UpdateFamilyMember(db, id, p).1.Done?
    ensures UpdateFamilyMember(db, id, p).0 == db.(members := MapWhere(db.members, MemberIdIs(id), PatchMember(p)))
  {
    var once := UpdateFamilyMember(db, id, p).0;
    assert once.members == MapWhere(db.members, MemberIdIs(id), PatchMember(p));
  }

  /** A patch applied to a row it was already applied to changes nothing. */
  lemma PatchedMemberTwice(m: Member, p: MemberPatch)
    ensures PatchedMember(PatchedMember(m, p), p) == PatchedMember(m, p)
  {
  }

  datatype ConnectionPatch = ConnectionPatch(userId: Option<Id>, googleAccountEmail: Option<Option<string>>,
                                             accessToken: Option<Option<string>>, refreshToken: Option<Option<string>>,
                                             expiresAt: Option<Option<int>>, lastSyncedAt: Option<Option<int>>,
                                             syncStatus: Option<Option<string>>)

  predicate ConnectionPatchEmpty(p: ConnectionPatch) {
    && p.userId.None? && p.googleAccountEmail.None? && p.accessToken.None? && p.refreshToken.None?
    && p.expiresAt.None? && p.lastSyncedAt.None? && p.syncStatus.None?
  }

  /** The supplied fields take the patch's value; the id, the creation time and every other field stay. */
  function PatchedConnection(c: Connection, p: ConnectionPatch): (r: Connection)
    ensures r.id == c.id && r.createdAt == c.createdAt
    ensures p.userId.Some? ==> r.userId == p.userId.value
    ensures p.userId.None? ==> r.userId == c.userId
    ensures p.googleAccountEmail.Some? ==> r.googleAccountEmail == p.googleAccountEmail.value
    ensures p.googleAccountEmail.None? ==> r.googleAccountEmail == c.googleAccountEmail
    ensures p.accessToken.Some? ==> r.accessToken == p.accessToken.value
    ensures p.accessToken.None? ==> r.accessToken == c.accessToken
    ensures p.refreshToken.Some? ==> r.refreshToken == p.refreshToken.value
    ensures p.refreshToken.None? ==> r.refreshToken == c.refreshToken
    ensures p.expiresAt.Some? ==> r.expiresAt == p.expiresAt.value
    ensures p.expiresAt.None? ==> r.expiresAt == c.expiresAt
    ensures p.lastSyncedAt.Some? ==> r.lastSyncedAt == p.lastSyncedAt.value
    ensures p.lastSyncedAt.None? ==> r.lastSyncedAt == c.lastSyncedAt
    ensures p.syncStatus.Some? ==> r.syncStatus == p.syncStatus.value
    ensures p.syncStatus.None? ==> r.syncStatus == c.syncStatus
    ensures ConnectionPatchEmpty(p) ==> r == c
  {
    c.(userId := Pick(p.userId, c.userId), googleAccountEmail := Pick(p.googleAccountEmail, c.googleAccountEmail),
       accessToken := Pick(p.accessToken, c.accessToken), refreshToken := Pick(p.refreshToken, c.refreshToken),
       expiresAt := Pick(p.expiresAt, c.expiresAt), lastSyncedAt := Pick(p.lastSyncedAt, c.lastSyncedAt),
       syncStatus := Pick(p.syncStatus, c.syncStatus))
  }

  function PatchConnection(p: ConnectionPatch): Connection -> Connection { (c: Connection) => PatchedConnection(c, p) }

  predicate ConnectionPatchRefsOk(db: Db, p: ConnectionPatch)
    ensures ConnectionPatchRefsOk(db, p) <==> p.userId.None? || p.userId.value in UserIds(db)
  {
    RefFound(db.users, UserKey, p.userId)
  }

  /** `updateCalendarConnection`. */
  function UpdateCalendarConnection(db: Db, id: Id, p: ConnectionPatch): (res: (Db, Outcome<Option<Connection>>))
    ensures res.1 == Violated(NoValuesToSet) <==> ConnectionPatchEmpty(p)
    ensures res.1 == Done(None) <==> !ConnectionPatchEmpty(p) && id !in ConnectionIds(db)
    ensures res.1.Done? <==> !ConnectionPatchEmpty(p) && (id !in ConnectionIds(db) || ConnectionPatchRefsOk(db, p))
    ensures res.1.Violated? ==> res.0 == db
    ensures res.1.Done? ==> && res.0 == db.(connections := res.0.connections) && |res.0.connections| == |db.connections|
                            && forall i :: 0 <= i < |db.connections| ==>
                                 res.0.connections[i] == if db.connections[i].id == id
                                                         then PatchedConnection(db.connections[i], p) else db.connections[i]
    ensures res.1.Done? && res.1.value.Some? ==>
              && res.1.value.value in res.0.connections && res.1.value.value.id == id
              && exists c :: c in db.connections && c.id == id && res.1.value.value == PatchedConnection(c, p)
  {
    if ConnectionPatchEmpty(p) then (db, Violated(NoValuesToSet))
    else match First(db.connections, ConnectionIdIs(id))
      case None =>
        MapWhereNoMatch(db.connections, ConnectionIdIs(id), PatchConnection(p));
        (db, Done(None))
      case Some(c) =>
        if !ConnectionPatchRefsOk(db, p) then (db, Violated(MissingReference))
        else
          var connections := MapWhere(db.connections, ConnectionIdIs(id), PatchConnection(p));
          assert PatchedConnection(c, p) in connections by { var i :| 0 <= i < |db.connections| && db.connections[i] == c; }
          (db.(connections := connections), Done(Some(PatchedConnection(c, p))))
  }

  /** Patching the connection with the id keeps the reference valid when the patch's references exist. */
  lemma PatchedConnectionsRefsIn(db: Db, id: Id, p: ConnectionPatch)
    requires RefsOk(db) && ConnectionPatchRefsOk(db, p)
    ensures var connections := MapWhere(db.connections, ConnectionIdIs(id), PatchConnection(p));
            RefsIn(connections, ConnectionUser, UserIds(db))
  {
    MapWhereRefsIn(db.connections, ConnectionIdIs(id), PatchConnection(p), ConnectionUser, UserIds(db));
  }

  lemma UpdateCalendarConnectionKeepsValid(db: Db, id: Id, p: ConnectionPatch)
    requires Valid(db)
    ensures Valid(UpdateCalendarConnection(db, id, p).0)
  {
    var d := UpdateCalendarConnection(db, id, p).0;
    if UpdateCalendarConnection(db, id, p).1.Done? {
      if id !in Keys(db.connections, ConnectionKey) {
        assert d.connections == db.connections;
      } else {
        var connections := MapWhere(db.connections, ConnectionIdIs(id), PatchConnection(p));
        assert d == db.(connections := connections);
        MapWhereKeysUnique(db.connections, ConnectionIdIs(id), PatchConnection(p), ConnectionKey);
        PatchedConnectionsRefsIn(db, id, p);
        assert KeysOk(d);
        assert RefsOk(d);
      }
    }
  }

  datatype EventPatch = EventPatch(familyId: Option<Id>, calendarConnectionId: Option<Option<Id>>,
                                   googleEventId: Option<Option<string>>, title: Option<string>,
                                   description: Option<Option<string>>, location: Option<Option<string>>,
                                   startTime: Option<int>, endTime: Option<Option<int>>,
                                   assignedMemberId: Option<Option<Id>>, allDay: Option<Option<bool>>)

  predicate EventPatchEmpty(p: EventPatch) {
    && p.familyId.None? && p.calendarConnectionId.None? && p.googleEventId.None? && p.title.None?
    && p.description.None? && p.location.None? && p.startTime.None? && p.endTime.None?
    && p.assignedMemberId.None? && p.allDay.None?
  }

  /** The supplied fields take the patch's value; the id, the creation time and every other field stay. */
  function PatchedEvent(e: Event, p: EventPatch): (r: Event)
    ensures r.id == e.id && r.createdAt == e.createdAt
    ensures p.familyId.Some? ==> r.familyId == p.familyId.value
    ensures p.familyId.None? ==> r.familyId == e.familyId
    ensures p.calendarConnectionId.Some? ==> r.calendarConnectionId == p.calendarConnectionId.value
    ensures p.calendarConnectionId.None? ==> r.calendarConnectionId == e.calendarConnectionId
    ensures p.googleEventId.Some? ==> r.googleEventId == p.googleEventId.value
    ensures p.googleEventId.None? ==> r.googleEventId == e.googleEventId
    ensures p.title.Some? ==> r.title == p.title.value
    ensures p.title.None? ==> r.title == e.title
    ensures p.description.Some? ==> r.description == p.description.value
    ensures p.description.None? ==> r.description == e.description
    ensures p.location.Some? ==> r.location == p.location.value
    ensures p.location.None? ==> r.location == e.location
    ensures p.startTime.Some? ==> r.startTime == p.startTime.value
    ensures p.startTime.None? ==> r.startTime == e.startTime
    ensures p.endTime.Some? ==> r.endTime == p.endTime.value
    ensures p.endTime.None? ==> r.endTime == e.endTime
    ensures p.assignedMemberId.Some? ==> r.assignedMemberId == p.assignedMemberId.value
    ensures p.assignedMemberId.None? ==> r.assignedMemberId == e.assignedMemberId
    ensures p.allDay.Some? ==> r.allDay == p.allDay.value
    ensures p.allDay.None? ==> r.allDay == e.allDay
    ensures EventPatchEmpty(p) ==> r == e
  {
    e.(familyId := Pick(p.familyId, e.familyId), calendarConnectionId := Pick(p.calendarConnectionId, e.calendarConnectionId),
       googleEventId := Pick(p.googleEventId, e.googleEventId), title := Pick(p.title, e.title),
       description := Pick(p.description, e.description), location := Pick(p.location, e.location),
       startTime := Pick(p.startTime, e.startTime), endTime := Pick(p.endTime, e.endTime),
       assignedMemberId := Pick(p.assignedMemberId, e.assignedMemberId), allDay := Pick(p.allDay, e.allDay))
  }

  function PatchEvent(p: EventPatch): Event -> Event { (e: Event) => PatchedEvent(e, p) }

  predicate EventPatchRefsOk(db: Db, p: EventPatch)
    ensures EventPatchRefsOk(db, p) <==>
              && (p.familyId.None? || p.familyId.value in FamilyIds(db))
              && (p.calendarConnectionId.None? || p.calendarConnectionId.value.None?
                  || p.calendarConnectionId.value.value in ConnectionIds(db))
              && (p.assignedMemberId.None? || p.assignedMemberId.value.None?
                  || p.assignedMemberId.value.value in MemberIds(db))
  {
    && RefFound(db.families, FamilyKey, p.familyId)
    && (p.calendarConnectionId.None? || RefFound(db.connections, ConnectionKey, p.calendarConnectionId.value))
    && (p.assignedMemberId.None? || RefFound(db.members, MemberKey, p.assignedMemberId.value))
  }

  /** `updateEvent`. */
  function UpdateEvent(db: Db, id: Id, p: EventPatch): (res: (Db, Outcome<Option<Event>>))
    ensures res.1 == Violated(NoValuesToSet) <==> EventPatchEmpty(p)
    ensures res.1 == Done(None) <==> !EventPatchEmpty(p) && id !in Keys(db.events, EventKey)
    ensures res.1.Done? <==> !EventPatchEmpty(p) && (id !in Keys(db.events, EventKey) || EventPatchRefsOk(db, p))
    ensures res.1.Violated? ==> res.0 == db
    ensures res.1.Done? ==> && res.0 == db.(events := res.0.events) && |res.0.events| == |db.events|
                            && forall i :: 0 <= i < |db.events| ==>
                                 res.0.events[i] == if db.events[i].id == id then PatchedEvent(db.events[i], p) else db.events[i]
    ensures res.1.Done? && res.1.value.Some? ==>
              && res.1.value.value in res.0.events && res.1.value.value.id == id
              && exists e :: e in db.events && e.id == id && res.1.value.value == PatchedEvent(e, p)
  {
    if EventPatchEmpty(p) then (db, Violated(NoValuesToSet))
    else match First(db.events, EventIdIs(id))
      case None =>
        MapWhereNoMatch(db.events, EventIdIs(id), PatchEvent(p));
        (db, Done(None))
      case Some(e) =>
        if !EventPatchRefsOk(db, p) then (db, Violated(MissingReference))
        else
          var events := MapWhere(db.events, EventIdIs(id), PatchEvent(p));
          assert PatchedEvent(e, p) in events by { var i :| 0 <= i < |db.events| && db.events[i] == e; }
          (db.(events := events), Done(Some(PatchedEvent(e, p))))
  }

  /** Patching the event with the id keeps the three event references valid when the patch's references exist. */
  lemma PatchedEventsRefsIn(db: Db, id: Id, p: EventPatch)
    requires RefsOk(db) && EventPatchRefsOk(db, p)
    ensures var events := MapWhere(db.events, EventIdIs(id), PatchEvent(p));
            && RefsIn(events, EventFamily, FamilyIds(db))
            && RefsIn(events, EventConnection, ConnectionIds(db))
            && RefsIn(events, EventAssignee, MemberIds(db))
  {
    MapWhereRefsIn(db.events, EventIdIs(id), PatchEvent(p), EventFamily, FamilyIds(db));
    MapWhereRefsIn(db.events, EventIdIs(id), PatchEvent(p), EventConnection, ConnectionIds(db));
    MapWhereRefsIn(db.events, EventIdIs(id), PatchEvent(p), EventAssignee, MemberIds(db));
  }

  lemma UpdateEventKeepsValid(db: Db, id: Id, p: EventPatch)
    requires Valid(db)
    ensures Valid(UpdateEvent(db, id, p).0)
  {
    var d := UpdateEvent(db, id, p).0;
    if UpdateEvent(db, id, p).1.Done? {
      if id !in Keys(db.events, EventKey) {
        assert d.events == db.events;
      } else {
        var events := MapWhere(db.events, EventIdIs(id), PatchEvent(p));
        assert d == db.(events := events);
        MapWhereKeysUnique(db.events, EventIdIs(id), PatchEvent(p), EventKey);
        PatchedEventsRefsIn(db, id, p);
        assert KeysOk(d);
        assert RefsOk(d);
      }
    }
  }

  datatype ListItemPatch = ListItemPatch(listId: Option<Id>, title: Option<string>, purchased: Option<Option<bool>>,
                                         assignedMemberId: Option<Option<Id>>)

  predicate ListItemPatchEmpty(p: ListItemPatch) {
    p.listId.None? && p.title.None? && p.purchased.None? && p.assignedMemberId.None?
  }

  /** The supplied fields take the patch's value; the id, the timestamps and every other field stay. */
  function PatchedItem(i: ListItem, p: ListItemPatch): (r: ListItem)
    ensures r.id == i.id && r.createdAt == i.createdAt && r.purchasedAt == i.purchasedAt
    ensures p.listId.Some? ==> r.listId == p.listId.value
    ensures p.listId.None? ==> r.listId == i.listId
    ensures p.title.Some? ==> r.title == p.title.value
    ensures p.title.None? ==> r.title == i.title
    ensures p.purchased.Some? ==> r.purchased == p.purchased.value
    ensures p.purchased.None? ==> r.purchased == i.purchased
    ensures p.assignedMemberId.Some? ==> r.assignedMemberId == p.assignedMemberId.value
    ensures p.assignedMemberId.None? ==> r.assignedMemberId == i.assignedMemberId
    ensures ListItemPatchEmpty(p) ==> r == i
  {
    i.(listId := Pick(p.listId, i.listId), title := Pick(p.title, i.title), purchased := Pick(p.purchased, i.purchased),
       assignedMemberId := Pick(p.assignedMemberId, i.assignedMemberId))
  }

  function PatchItem(p: ListItemPatch): ListItem -> ListItem { (i: ListItem) => PatchedItem(i, p) }

  predicate ListItemPatchRefsOk(db: Db, p: ListItemPatch)
    ensures ListItemPatchRefsOk(db, p) <==>
              && (p.listId.None? || p.listId.value in ListIds(db))
              && (p.assignedMemberId.None? || p.assignedMemberId.value.None?
                  || p.assignedMemberId.value.value in MemberIds(db))
  {
    RefFound(db.lists, ListKey, p.listId) && (p.assignedMemberId.None? || RefFound(db.members, MemberKey, p.assignedMemberId.value))
  }

  /** `updateListItem`. */
  function UpdateListItem(db: Db, id: Id, p: ListItemPatch): (res: (Db, Outcome<Option<ListItem>>))
    ensures res.1 == Violated(NoValuesToSet) <==> ListItemPatchEmpty(p)
    ensures res.1 == Done(None) <==> !ListItemPatchEmpty(p) && id !in Keys(db.items, ItemKey)
    ensures res.1.Done? <==> !ListItemPatchEmpty(p) && (id !in Keys(db.items, ItemKey) || ListItemPatchRefsOk(db, p))
    ensures res.1.Violated? ==> res.0 == db
    ensures res.1.Done? ==> && res.0 == db.(items := res.0.items) && |res.0.items| == |db.items|
                            && forall k :: 0 <= k < |db.items| ==>
                                 res.0.items[k] == if db.items[k].id == id then PatchedItem(db.items[k], p) else db.items[k]
    ensures res.1.Done? && res.1.value.Some? ==>
              && res.1.value.value in res.0.items && res.1.value.value.id == id
              && exists i :: i in db.items && i.id == id && res.1.value.value == PatchedItem(i, p)
  {
    if ListItemPatchEmpty(p) then (db, Violated(NoValuesToSet))
    else match First(db.items, ItemIdIs(id))
      case None =>
        MapWhereNoMatch(db.items, ItemIdIs(id), PatchItem(p));
        (db, Done(None))
      case Some(i) =>
        if !ListItemPatchRefsOk(db, p) then (db, Violated(MissingReference))
        else
          var items := MapWhere(db.items, ItemIdIs(id), PatchItem(p));
          assert PatchedItem(i, p) in items by { var k :| 0 <= k < |db.items| && db.items[k] == i; }
          (db.(items := items), Done(Some(PatchedItem(i, p))))
  }

  /** Patching the list item with the id keeps the two item references valid when the patch's references exist. */
  lemma PatchedItemsRefsIn(db: Db, id: Id, p: ListItemPatch)
    requires RefsOk(db) && ListItemPatchRefsOk(db, p)
    ensures var items := MapWhere(db.items, ItemIdIs(id), PatchItem(p));
            && RefsIn(items, ItemList, ListIds(db))
            && RefsIn(items, ItemAssignee, MemberIds(db))
  {
    MapWhereRefsIn(db.items, ItemIdIs(id), PatchItem(p), ItemList, ListIds(db));
    MapWhereRefsIn(db.items, ItemIdIs(id), PatchItem(p), ItemAssignee, MemberIds(db));
  }

  lemma UpdateListItemKeepsValid(db: Db, id: Id, p: ListItemPatch)
    requires Valid(db)
    ensures Valid(UpdateListItem(db, id, p).0)
  {
    var d := UpdateListItem(db, id, p).0;
    if UpdateListItem(db, id, p).1.Done? {
      if id !in Keys(db.items, ItemKey) {
        assert d.items == db.items;
      } else {
        var items := MapWhere(db.items, ItemIdIs(id), PatchItem(p));
        assert d == db.(items := items);
        MapWhereKeysUnique(db.items, ItemIdIs(id), PatchItem(p), ItemKey);
        PatchedItemsRefsIn(db, id, p);
        assert KeysOk(d);
        assert RefsOk(d);
      }
    }
  }

  datatype ChorePatch = ChorePatch(familyId: Option<Id>, title: Option<string>, description: Option<Option<string>>,
                                   assignedMemberId: Option<Option<Id>>, points: Option<Option<int>>,
                                   recurring: Option<Option<string>>, dueDate: Option<Option<int>>)

  predicate ChorePatchEmpty(p: ChorePatch) {
    && p.familyId.None? && p.title.None? && p.description.None? && p.assignedMemberId.None?
    && p.points.None? && p.recurring.None? && p.dueDate.None?
  }

  /** The supplied fields take the patch's value; the id, the creation time and every other field stay. */
  function PatchedChore(c: Chore, p: ChorePatch): (r: Chore)
    ensures r.id == c.id && r.createdAt == c.createdAt
    ensures p.familyId.Some? ==> r.familyId == p.familyId.value
    ensures p.familyId.None? ==> r.familyId == c.familyId
    ensures p.title.Some? ==> r.title == p.title.value
    ensures p.title.None? ==> r.title == c.title
    ensures p.description.Some? ==> r.description == p.description.value
    ensures p.description.None? ==> r.description == c.description
    ensures p.assignedMemberId.Some? ==> r.assignedMemberId == p.assignedMemberId.value
    ensures p.assignedMemberId.None? ==> r.assignedMemberId == c.assignedMemberId
    ensures p.points.Some? ==> r.points == p.points.value
    ensures p.points.None? ==> r.points == c.points
    ensures p.recurring.Some? ==> r.recurring == p.recurring.value
    ensures p.recurring.None? ==> r.recurring == c.recurring
    ensures p.dueDate.Some? ==> r.dueDate == p.dueDate.value
    ensures p.dueDate.None? ==> r.dueDate == c.dueDate
    ensures ChorePatchEmpty(p) ==> r == c
  {
    c.(familyId := Pick(p.familyId, c.familyId), title := Pick(p.title, c.title),
       description := Pick(p.description, c.description), assignedMemberId := Pick(p.assignedMemberId, c.assignedMemberId),
       points := Pick(p.points, c.points), recurring := Pick(p.recurring, c.recurring), dueDate := Pick(p.dueDate, c.dueDate))
  }

  function PatchChore(p: ChorePatch): Chore -> Chore { (c: Chore) => PatchedChore(c, p) }

  predicate ChorePatchRefsOk(db: Db, p: ChorePatch)
    ensures ChorePatchRefsOk(db, p) <==>
              && (p.familyId.None? || p.familyId.value in FamilyIds(db))
              && (p.assignedMemberId.None? || p.assignedMemberId.value.None?
                  || p.assignedMemberId.value.value in MemberIds(db))
  {
    RefFound(db.families, FamilyKey, p.familyId) && (p.assignedMemberId.None? || RefFound(db.members, MemberKey, p.assignedMemberId.value))
  }

  /** `updateChore`. */
  function UpdateChore(db: Db, id: Id, p: ChorePatch): (res: (Db, Outcome<Option<Chore>>))
    ensures res.1 == Violated(NoValuesToSet) <==> ChorePatchEmpty(p)
    ensures res.1 == Done(None) <==> !ChorePatchEmpty(p) && id !in ChoreIds(db)
    ensures res.1.Done? <==> !ChorePatchEmpty(p) && (id !in ChoreIds(db) || ChorePatchRefsOk(db, p))
    ensures res.1.Violated? ==> res.0 == db
    ensures res.1.Done? ==> && res.0 == db.(chores := res.0.chores) && |res.0.chores| == |db.chores|
                            && forall i :: 0 <= i < |db.chores| ==>
                                 res.0.chores[i] == if db.chores[i].id == id then PatchedChore(db.chores[i], p) else db.chores[i]
    ensures res.1.Done? && res.1.value.Some? ==>
              && res.1.value.value in res.0.chores && res.1.value.value.id == id
              && exists c :: c in db.chores && c.id == id && res.1.value.value == PatchedChore(c, p)
  {
    if ChorePatchEmpty(p) then (db, Violated(NoValuesToSet))
    else match First(db.chores, ChoreIdIs(id))
      case None =>
        MapWhereNoMatch(db.chores, ChoreIdIs(id), PatchChore(p));
        (db, Done(None))
      case Some(c) =>
        if !ChorePatchRefsOk(db, p) then (db, Violated(MissingReference))
        else
          var chores := MapWhere(db.chores, ChoreIdIs(id), PatchChore(p));
          assert PatchedChore(c, p) in chores by { var i :| 0 <= i < |db.chores| && db.chores[i] == c; }
          (db.(chores := chores), Done(Some(PatchedChore(c, p))))
  }

  /** Patching the chore with the id keeps the two chore references valid when the patch's references exist. */
  lemma PatchedChoresRefsIn(db: Db, id: Id, p: ChorePatch)
    requires RefsOk(db) && ChorePatchRefsOk(db, p)
    ensures var chores := MapWhere(db.chores, ChoreIdIs(id), PatchChore(p));
            && RefsIn(chores, ChoreFamily, FamilyIds(db))
            && RefsIn(chores, ChoreAssignee, MemberIds(db))
  {
    MapWhereRefsIn(db.chores, ChoreIdIs(id), PatchChore(p), ChoreFamily, FamilyIds(db));
    MapWhereRefsIn(db.chores, ChoreIdIs(id), PatchChore(p), ChoreAssignee, MemberIds(db));
  }

  lemma UpdateChoreKeepsValid(db: Db, id: Id, p: ChorePatch)
    requires Valid(db)
    ensures Valid(UpdateChore(db, id, p).0)
  {
    var d := UpdateChore(db, id, p).0;
    if UpdateChore(db, id, p).1.Done? {
      if id !in Keys(db.chores, ChoreKey) {
        assert d.chores == db.chores;
      } else {
        var chores := MapWhere(db.chores, ChoreIdIs(id), PatchChore(p));
        assert d == db.(chores := chores);
        MapWhereKeysUnique(db.chores, ChoreIdIs(id), PatchChore(p), ChoreKey);
        PatchedChoresRefsIn(db, id, p);
        assert KeysOk(d);
        assert RefsOk(d);
      }
    }
  }

  function SetRead(m: Message): Message { m.(isRead := Some(true)) }

  /** `markMessageAsRead`: sets the read flag of that message only. */
  function MarkMessageAsRead(db: Db, id: Id): (res: (Db, Option<Message>))
    ensures res.0 == db.(messages := res.0.messages) && |res.0.messages| == |db.messages|
    ensures forall i :: 0 <= i < |db.messages| ==>
              res.0.messages[i] == if db.messages[i].id == id then db.messages[i].(isRead := Some(true)) else db.messages[i]
    ensures res.1.None? <==> id !in Keys(db.messages, MessageKey)
    ensures res.1.Some? ==> res.1.value in res.0.messages && res.1.value.id == id && res.1.value.isRead == Some(true)
  {
    var messages := MapWhere(db.messages, MessageIdIs(id), SetRead);
    (db.(messages := messages), match First(db.messages, MessageIdIs(id))
                                case None => None
                                case Some(m) => Some(SetRead(m)))
  }

  lemma MarkMessageAsReadKeepsValid(db: Db, id: Id)
    requires Valid(db)
    ensures Valid(MarkMessageAsRead(db, id).0)
  {
    MapWhereKeysUnique(db.messages, MessageIdIs(id), SetRead, MessageKey);
    MapWhereRefsIn(db.messages, MessageIdIs(id), SetRead, MessageFamily, FamilyIds(db));
  }

  /** Marking a message read twice is the same as marking it once. */
  lemma MarkMessageAsReadIdempotent(db: Db, id: Id)
    ensures var once := MarkMessageAsRead(db, id); MarkMessageAsRead(once.0, id) == once
  {
    var once := MarkMessageAsRead(db, id);
    var twice := MarkMessageAsRead(once.0, id);
    assert twice.0.messages == once.0.messages;
    FirstOfMapWhere(db.messages, MessageIdIs(id), SetRead);
  }

  // Deletes: `delete ... where id = ?`.

  function MemberIdIsNot(id: Id): Member -> bool { (m: Member) => m.id != id }
  function EventIdIsNot(id: Id): Event -> bool { (e: Event) => e.id != id }
  function ItemIdIsNot(id: Id): ListItem -> bool { (i: ListItem) => i.id != id }
  function ChoreIdIsNot(id: Id): Chore -> bool { (c: Chore) => c.id != id }
  function CompletionChoreIsNot(id: Id): Completion -> bool { (c: Completion) => c.choreId != id }

  /** Events, list items, chores and completions refer to members without a cascade. */
  predicate MemberReferenced(db: Db, id: Id)
    ensures MemberReferenced(db, id) <==>
              || (exists e :: e in db.events && e.assignedMemberId == Some(id))
              || (exists i :: i in db.items && i.assignedMemberId == Some(id))
              || (exists c :: c in db.chores && c.assignedMemberId == Some(id))
              || (exists c :: c in db.completions && c.completedById == Some(id))
  {
    || (exists k :: 0 <= k < |db.events| && db.events[k].assignedMemberId == Some(id))
    || (exists k :: 0 <= k < |db.items| && db.items[k].assignedMemberId == Some(id))
    || (exists k :: 0 <= k < |db.chores| && db.chores[k].assignedMemberId == Some(id))
    || (exists k :: 0 <= k < |db.completions| && db.completions[k].completedById == Some(id))
  }

  /** `deleteFamilyMember`: refused while anything still refers to the member. */
  function DeleteFamilyMember(db: Db, id: Id): (res: (Db, Outcome<()>))
    ensures res.1.Violated? <==> MemberReferenced(db, id)
    ensures res.1.Violated? ==> res.1.constraint == StillReferenced && res.0 == db
    ensures res.1.Done? ==> && res.0 == db.(members := res.0.members)
                            && forall m :: m in res.0.members <==> m in db.members && m.id != id
  {
    if MemberReferenced(db, id) then (db, Violated(StillReferenced))
    else (db.(members := Filter(db.members, MemberIdIsNot(id))), Done(()))
  }

  lemma DeleteFamilyMemberKeepsValid(db: Db, id: Id)
    requires Valid(db)
    ensures Valid(DeleteFamilyMember(db, id).0)
  {
    var res := DeleteFamilyMember(db, id);
    if res.1.Done? {
      var d := res.0;
      FilterKeysUnique(db.members, MemberIdIsNot(id), MemberKey);
      FilterKeys(db.members, MemberIdIsNot(id), MemberKey);
      assert MemberIds(db) - {id} <= MemberIds(d) by {
        forall k | k in MemberIds(db) && k != id ensures k in MemberIds(d) {
          var m :| m in db.members && m.id == k;
          assert m in d.members;
        }
      }
    }
  }

  /** `deleteEvent`: nothing refers to events. */
  function DeleteEvent(db: Db, id: Id): (res: Db)
    ensures res == db.(events := res.events)
    ensures forall e :: e in res.events <==> e in db.events && e.id != id
  {
    db.(events := Filter(db.events, EventIdIsNot(id)))
  }

  lemma DeleteEventKeepsValid(db: Db, id: Id)
    requires Valid(db)
    ensures Valid(DeleteEvent(db, id))
  {
    FilterKeysUnique(db.events, EventIdIsNot(id), EventKey);
  }

  /** `deleteListItem`: nothing refers to list items. */
  function DeleteListItem(db: Db, id: Id): (res: Db)
    ensures res == db.(items := res.items)
    ensures forall i :: i in res.items <==> i in db.items && i.id != id
  {
    db.(items := Filter(db.items, ItemIdIsNot(id)))
  }

  lemma DeleteListItemKeepsValid(db: Db, id: Id)
    requires Valid(db)
    ensures Valid(DeleteListItem(db, id))
  {
    FilterKeysUnique(db.items, ItemIdIsNot(id), ItemKey);
  }

  /** `deleteChore`: its completions go with it (`on delete cascade`). */
  function DeleteChore(db: Db, id: Id): (res: Db)
    ensures res == db.(chores := res.chores, completions := res.completions)
    ensures forall c :: c in res.chores <==> c in db.chores && c.id != id
    ensures forall c :: c in res.completions <==> c in db.completions && c.choreId != id
  {
    db.(chores := Filter(db.chores, ChoreIdIsNot(id)), completions := Filter(db.completions, CompletionChoreIsNot(id)))
  }

  lemma DeleteChoreKeepsValid(db: Db, id: Id)
    requires Valid(db)
    ensures Valid(DeleteChore(db, id))
  {
    var d := DeleteChore(db, id);
    FilterKeysUnique(db.chores, ChoreIdIsNot(id), ChoreKey);
    FilterKeysUnique(db.completions, CompletionChoreIsNot(id), CompletionKey);
    forall c | c in d.completions ensures c.choreId in ChoreIds(d) {
      var x :| x in db.chores && x.id == c.choreId;
      assert x in d.chores;
    }
  }
}
