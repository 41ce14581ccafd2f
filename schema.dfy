/**
 * The application's own relational schema (`shared/schema.ts`): one row
 * datatype per table, the insert records with their column defaults, the
 * constraints (primary keys, the unique invite code, foreign keys), and what
 * deleting a family does through the `on delete cascade` references.
 * Timestamps are milliseconds; a nullable column is an `Option`.
 */
module Schema {
  import opened Wrappers
  import opened Tables

  type Id = string

  datatype Family = Family(id: Id, name: string, inviteCode: Option<string>, createdAt: Option<int>)

  /**
   * A `users` row. The last four columns are the ones the storage layer
   * queries and sets for usernames and billing; the table definition itself
   * does not declare them.
   */
  datatype User = User(id: Id, fullName: Option<string>, email: Option<string>, avatarUrl: Option<string>,
                       familyId: Option<Id>, role: Option<string>, createdAt: Option<int>,
                       username: Option<string>, stripeCustomerId: Option<string>,
                       stripeSubscriptionId: Option<string>, subscriptionStatus: Option<string>)

  /** A `family_members` row: a persona, adult or child, who need not have an account. */
  datatype Member = Member(id: Id, familyId: Id, name: string, role: Option<string>, birthYear: Option<int>,
                           avatarUrl: Option<string>, color: Option<string>, createdAt: Option<int>)

  datatype Connection = Connection(id: Id, userId: Id, googleAccountEmail: Option<string>, accessToken: Option<string>,
                                   refreshToken: Option<string>, expiresAt: Option<int>, lastSyncedAt: Option<int>,
                                   syncStatus: Option<string>, createdAt: Option<int>)

  datatype Event = Event(id: Id, familyId: Id, calendarConnectionId: Option<Id>, googleEventId: Option<string>,
                         title: string, description: Option<string>, location: Option<string>, startTime: int,
                         endTime: Option<int>, assignedMemberId: Option<Id>, allDay: Option<bool>, createdAt: Option<int>)

  datatype List = List(id: Id, familyId: Id, name: string, kind: Option<string>, createdAt: Option<int>)

  datatype ListItem = ListItem(id: Id, listId: Id, title: string, purchased: Option<bool>, assignedMemberId: Option<Id>,
                               createdAt: Option<int>, purchasedAt: Option<int>)

  datatype Chore = Chore(id: Id, familyId: Id, title: string, description: Option<string>, assignedMemberId: Option<Id>,
                         points: Option<int>, recurring: Option<string>, dueDate: Option<int>, createdAt: Option<int>)

  datatype Completion = Completion(id: Id, choreId: Id, completedById: Option<Id>, completedAt: Option<int>, notes: Option<string>)

  datatype Message = Message(id: Id, familyId: Id, subject: string, sender: Option<string>, senderEmail: Option<string>,
                             body: Option<string>, preview: Option<string>, isUrgent: Option<bool>, isRead: Option<bool>,
                             receivedAt: Option<int>)

  datatype Subscription = Subscription(id: Id, familyId: Id, userId: Id, stripeCustomerId: Option<string>,
                                       stripeSubscriptionId: Option<string>, stripePriceId: Option<string>,
                                       status: Option<string>, currentPeriodStart: Option<int>, currentPeriodEnd: Option<int>,
                                       cancelAtPeriodEnd: Option<bool>, createdAt: Option<int>, updatedAt: Option<int>)

  /** The database: every table in row order. */
  datatype Db = Db(families: seq<Family>, users: seq<User>, members: seq<Member>, connections: seq<Connection>,
                   events: seq<Event>, lists: seq<List>, items: seq<ListItem>, chores: seq<Chore>,
                   completions: seq<Completion>, messages: seq<Message>, subscriptions: seq<Subscription>)

  // Column defaults

  /**
   * A defaulted column in an insert: absent (`None`) takes the default, an
   * explicit value (which may be null) is stored as given.
   */
  function WithDefault<T>(given: Option<Option<T>>, default: T): (v: Option<T>)
    ensures given.None? ==> v == Some(default)
    ensures given.Some? ==> v == given.value
  {
    if given.None? then Some(default) else given.value
  }

  // Insert records: the columns a caller may give; generated ids and creation times are not among them.

  /** `users.id` has no default: an insert must carry it. */
  datatype NewUser = NewUser(id: Id, fullName: Option<string>, email: Option<string>, avatarUrl: Option<string>,
                             familyId: Option<Id>, role: Option<Option<string>>)
  datatype NewFamily = NewFamily(name: string, inviteCode: Option<string>)
  datatype NewMember = NewMember(familyId: Id, name: string, role: Option<string>, birthYear: Option<int>,
                                 avatarUrl: Option<string>, color: Option<string>)
  datatype NewConnection = NewConnection(userId: Id, googleAccountEmail: Option<string>, accessToken: Option<string>,
                                         refreshToken: Option<string>, expiresAt: Option<int>, lastSyncedAt: Option<int>,
                                         syncStatus: Option<Option<string>>)
  datatype NewEvent = NewEvent(familyId: Id, calendarConnectionId: Option<Id>, googleEventId: Option<string>, title: string,
                               description: Option<string>, location: Option<string>, startTime: int, endTime: Option<int>,
                               assignedMemberId: Option<Id>, allDay: Option<Option<bool>>)
  datatype NewList = NewList(familyId: Id, name: string, kind: Option<Option<string>>)
  /** `purchased_at` is not insertable. */
  datatype NewListItem = NewListItem(listId: Id, title: string, purchased: Option<Option<bool>>, assignedMemberId: Option<Id>)
  datatype NewChore = NewChore(familyId: Id, title: string, description: Option<string>, assignedMemberId: Option<Id>,
                               points: Option<Option<int>>, recurring: Option<string>, dueDate: Option<int>)
  /** `completed_at` is not insertable: it is always the insertion time. */
  datatype NewCompletion = NewCompletion(choreId: Id, completedById: Option<Id>, notes: Option<string>)
  /** `received_at` is not insertable: it is always the insertion time. */
  datatype NewMessage = NewMessage(familyId: Id, subject: string, sender: Option<string>, senderEmail: Option<string>,
                                   body: Option<string>, preview: Option<string>, isUrgent: Option<Option<bool>>,
                                   isRead: Option<Option<bool>>)

  function UserRow(n: NewUser, now: int): (u: User)
    ensures u.id == n.id && u.familyId == n.familyId && u.createdAt == Some(now)
    ensures u.fullName == n.fullName && u.email == n.email && u.avatarUrl == n.avatarUrl
    ensures n.role.None? ==> u.role == Some("parent")
    ensures n.role.Some? ==> u.role == n.role.value
    ensures u.username.None? && u.stripeCustomerId.None? && u.stripeSubscriptionId.None? && u.subscriptionStatus.None?
  {
    User(n.id, n.fullName, n.email, n.avatarUrl, n.familyId, WithDefault(n.role, "parent"), Some(now), None, None, None, None)
  }

  function FamilyRow(n: NewFamily, id: Id, now: int): (f: Family)
    ensures f.id == id && f.name == n.name && f.inviteCode == n.inviteCode && f.createdAt == Some(now)
  {
    Family(id, n.name, n.inviteCode, Some(now))
  }

  function MemberRow(n: NewMember, id: Id, now: int): (m: Member)
    ensures m.id == id && m.familyId == n.familyId && m.name == n.name && m.createdAt == Some(now)
    ensures m.role == n.role && m.birthYear == n.birthYear && m.avatarUrl == n.avatarUrl && m.color == n.color
  {
    Member(id, n.familyId, n.name, n.role, n.birthYear, n.avatarUrl, n.color, Some(now))
  }

  function ConnectionRow(n: NewConnection, id: Id, now: int): (c: Connection)
    ensures c.id == id && c.userId == n.userId && c.createdAt == Some(now)
    ensures c.googleAccountEmail == n.googleAccountEmail && c.accessToken == n.accessToken
    ensures c.refreshToken == n.refreshToken && c.expiresAt == n.expiresAt && c.lastSyncedAt == n.lastSyncedAt
    ensures n.syncStatus.None? ==> c.syncStatus == Some("active")
    ensures n.syncStatus.Some? ==> c.syncStatus == n.syncStatus.value
  {
    Connection(id, n.userId, n.googleAccountEmail, n.accessToken, n.refreshToken, n.expiresAt, n.lastSyncedAt,
               WithDefault(n.syncStatus, "active"), Some(now))
  }

  function EventRow(n: NewEvent, id: Id, now: int): (e: Event)
    ensures e.id == id && e.familyId == n.familyId && e.startTime == n.startTime && e.createdAt == Some(now)
    ensures e.calendarConnectionId == n.calendarConnectionId && e.assignedMemberId == n.assignedMemberId
    ensures e.googleEventId == n.googleEventId && e.title == n.title && e.description == n.description
    ensures e.location == n.location && e.endTime == n.endTime
    ensures n.allDay.None? ==> e.allDay == Some(false)
    ensures n.allDay.Some? ==> e.allDay == n.allDay.value
  {
    Event(id, n.familyId, n.calendarConnectionId, n.googleEventId, n.title, n.description, n.location, n.startTime,
          n.endTime, n.assignedMemberId, WithDefault(n.allDay, false), Some(now))
  }

  function ListRow(n: NewList, id: Id, now: int): (l: List)
    ensures l.id == id && l.familyId == n.familyId && l.createdAt == Some(now)
    ensures l.name == n.name
    ensures n.kind.None? ==> l.kind == Some("grocery")
    ensures n.kind.Some? ==> l.kind == n.kind.value
  {
    List(id, n.familyId, n.name, WithDefault(n.kind, "grocery"), Some(now))
  }

  function ListItemRow(n: NewListItem, id: Id, now: int): (i: ListItem)
    ensures i.id == id && i.listId == n.listId && i.assignedMemberId == n.assignedMemberId
    ensures i.createdAt == Some(now) && i.purchasedAt.None?
    ensures i.title == n.title
    ensures n.purchased.None? ==> i.purchased == Some(false)
    ensures n.purchased.Some? ==> i.purchased == n.purchased.value
  {
    ListItem(id, n.listId, n.title, WithDefault(n.purchased, false), n.assignedMemberId, Some(now), None)
  }

  function ChoreRow(n: NewChore, id: Id, now: int): (c: Chore)
    ensures c.id == id && c.familyId == n.familyId && c.assignedMemberId == n.assignedMemberId && c.createdAt == Some(now)
    ensures c.title == n.title && c.description == n.description && c.recurring == n.recurring && c.dueDate == n.dueDate
    ensures n.points.None? ==> c.points == Some(0)
    ensures n.points.Some? ==> c.points == n.points.value
  {
    Chore(id, n.familyId, n.title, n.description, n.assignedMemberId, WithDefault(n.points, 0), n.recurring, n.dueDate, Some(now))
  }

  function CompletionRow(n: NewCompletion, id: Id, now: int): (c: Completion)
    ensures c.id == id && c.choreId == n.choreId && c.completedById == n.completedById && c.completedAt == Some(now)
    ensures c.notes == n.notes
  {
    Completion(id, n.choreId, n.completedById, Some(now), n.notes)
  }

  function MessageRow(n: NewMessage, id: Id, now: int): (m: Message)
    ensures m.id == id && m.familyId == n.familyId && m.receivedAt == Some(now)
    ensures m.subject == n.subject && m.sender == n.sender && m.senderEmail == n.senderEmail
    ensures m.body == n.body && m.preview == n.preview
    ensures n.isUrgent.None? ==> m.isUrgent == Some(false)
    ensures n.isUrgent.Some? ==> m.isUrgent == n.isUrgent.value
    ensures n.isRead.None? ==> m.isRead == Some(false)
    ensures n.isRead.Some? ==> m.isRead == n.isRead.value
  {
    Message(id, n.familyId, n.subject, n.sender, n.senderEmail, n.body, n.preview,
            WithDefault(n.isUrgent, false), WithDefault(n.isRead, false), Some(now))
  }

  // Keys and references

  function FamilyKey(f: Family): Id { f.id }
  function UserKey(u: User): Id { u.id }
  function MemberKey(m: Member): Id { m.id }
  function ConnectionKey(c: Connection): Id { c.id }
  function EventKey(e: Event): Id { e.id }
  function ListKey(l: List): Id { l.id }
  function ItemKey(i: ListItem): Id { i.id }
  function ChoreKey(c: Chore): Id { c.id }
  function CompletionKey(c: Completion): Id { c.id }
  function MessageKey(m: Message): Id { m.id }
  function SubscriptionKey(s: Subscription): Id { s.id }

  function UserFamily(u: User): Option<Id> { u.familyId }
  function MemberFamily(m: Member): Option<Id> { Some(m.familyId) }
  function ConnectionUser(c: Connection): Option<Id> { Some(c.userId) }
  function EventFamily(e: Event): Option<Id> { Some(e.familyId) }
  function EventConnection(e: Event): Option<Id> { e.calendarConnectionId }
  function EventAssignee(e: Event): Option<Id> { e.assignedMemberId }
  function ListFamily(l: List): Option<Id> { Some(l.familyId) }
  function ItemList(i: ListItem): Option<Id> { Some(i.listId) }
  function ItemAssignee(i: ListItem): Option<Id> { i.assignedMemberId }
  function ChoreFamily(c: Chore): Option<Id> { Some(c.familyId) }
  function ChoreAssignee(c: Chore): Option<Id> { c.assignedMemberId }
  function CompletionChore(c: Completion): Option<Id> { Some(c.choreId) }
  function CompletionBy(c: Completion): Option<Id> { c.completedById }
  function MessageFamily(m: Message): Option<Id> { Some(m.familyId) }
  function SubscriptionFamily(s: Subscription): Option<Id> { Some(s.familyId) }
  function SubscriptionUser(s: Subscription): Option<Id> { Some(s.userId) }

  ghost function FamilyIds(db: Db): set<Id> { Keys(db.families, FamilyKey) }
  ghost function UserIds(db: Db): set<Id> { Keys(db.users, UserKey) }
  ghost function MemberIds(db: Db): set<Id> { Keys(db.members, MemberKey) }
  ghost function ConnectionIds(db: Db): set<Id> { Keys(db.connections, ConnectionKey) }
  ghost function ListIds(db: Db): set<Id> { Keys(db.lists, ListKey) }
  ghost function ChoreIds(db: Db): set<Id> { Keys(db.chores, ChoreKey) }

  // Constraints

  /** Primary keys: no two rows of a table share an id. */
  ghost predicate KeysOk(db: Db) {
    && KeysUnique(db.families, FamilyKey) && KeysUnique(db.users, UserKey) && KeysUnique(db.members, MemberKey)
    && KeysUnique(db.connections, ConnectionKey) && KeysUnique(db.events, EventKey) && KeysUnique(db.lists, ListKey)
    && KeysUnique(db.items, ItemKey) && KeysUnique(db.chores, ChoreKey) && KeysUnique(db.completions, CompletionKey)
    && KeysUnique(db.messages, MessageKey) && KeysUnique(db.subscriptions, SubscriptionKey)
  }

  /** `families.invite_code` is unique: two families never share a (non-null) code. */
  ghost predicate InviteCodesUnique(families: seq<Family>) {
    forall f, g :: f in families && g in families && f.inviteCode.Some? && f.inviteCode == g.inviteCode ==> f == g
  }

  /** Every foreign key names an existing row. */
  ghost predicate RefsOk(db: Db) {
    && RefsIn(db.users, UserFamily, FamilyIds(db))
    && RefsIn(db.members, MemberFamily, FamilyIds(db))
    && RefsIn(db.connections, ConnectionUser, UserIds(db))
    && RefsIn(db.events, EventFamily, FamilyIds(db))
    && RefsIn(db.events, EventConnection, ConnectionIds(db))
    && RefsIn(db.events, EventAssignee, MemberIds(db))
    && RefsIn(db.lists, ListFamily, FamilyIds(db))
    && RefsIn(db.items, ItemList, ListIds(db))
    && RefsIn(db.items, ItemAssignee, MemberIds(db))
    && RefsIn(db.chores, ChoreFamily, FamilyIds(db))
    && RefsIn(db.chores, ChoreAssignee, MemberIds(db))
    && RefsIn(db.completions, CompletionChore, ChoreIds(db))
    && RefsIn(db.completions, CompletionBy, MemberIds(db))
    && RefsIn(db.messages, MessageFamily, FamilyIds(db))
    && RefsIn(db.subscriptions, SubscriptionFamily, FamilyIds(db))
    && RefsIn(db.subscriptions, SubscriptionUser, UserIds(db))
  }

  ghost predicate Valid(db: Db) {
    KeysOk(db) && InviteCodesUnique(db.families) && RefsOk(db)
  }

  /** Because invite codes are unique, a code identifies at most one family. */
  lemma InviteCodeIdentifiesFamily(db: Db, code: string, f: Family, g: Family)
    requires Valid(db)
    requires f in db.families && g in db.families && f.inviteCode == Some(code) && g.inviteCode == Some(code)
    ensures f == g
  {
  }

  // Deleting a family

  /** Rows whose `on delete cascade` chain leads to family `fid`: removed along with it. */
  function Cascade(db: Db, fid: Id): (db': Db)
    ensures forall f :: f in db'.families <==> f in db.families && f.id != fid
    ensures forall u :: u in db'.users <==> u in db.users && u.familyId != Some(fid)
    ensures forall m :: m in db'.members <==> m in db.members && m.familyId != fid
    ensures forall c :: c in db'.connections <==> c in db.connections && c !in Connections(db, fid)
    ensures forall e :: e in db'.events <==> e in db.events && e.familyId != fid &&
                                             (e.calendarConnectionId.None? || e.calendarConnectionId.value !in ConnectionKeys(db, fid))
    ensures forall l :: l in db'.lists <==> l in db.lists && l.familyId != fid
    ensures forall i :: i in db'.items <==> i in db.items && i.listId !in ListKeys(db, fid)
    ensures forall c :: c in db'.chores <==> c in db.chores && c.familyId != fid
    ensures forall c :: c in db'.completions <==> c in db.completions && c.choreId !in ChoreKeys(db, fid)
    ensures forall m :: m in db'.messages <==> m in db.messages && m.familyId != fid
    ensures forall s :: s in db'.subscriptions <==> s in db.subscriptions && s.familyId != fid && s.userId !in UserKeys(db, fid)
  {
    Db(Filter(db.families, (f: Family) => f.id != fid),
       Filter(db.users, (u: User) => u.familyId != Some(fid)),
       Filter(db.members, (m: Member) => m.familyId != fid),
       Filter(db.connections, (c: Connection) => c !in Connections(db, fid)),
       Filter(db.events, (e: Event) => e.familyId != fid &&
                                       (e.calendarConnectionId.None? || e.calendarConnectionId.value !in ConnectionKeys(db, fid))),
       Filter(db.lists, (l: List) => l.familyId != fid),
       Filter(db.items, (i: ListItem) => i.listId !in ListKeys(db, fid)),
       Filter(db.chores, (c: Chore) => c.familyId != fid),
       Filter(db.completions, (c: Completion) => c.choreId !in ChoreKeys(db, fid)),
       Filter(db.messages, (m: Message) => m.familyId != fid),
       Filter(db.subscriptions, (s: Subscription) => s.familyId != fid && s.userId !in UserKeys(db, fid)))
  }

  /** The ids of the users, personas, lists and chores of family `fid`, and the calendar connections of its users. */
  function UserKeys(db: Db, fid: Id): set<Id> { set u | u in db.users && u.familyId == Some(fid) :: u.id }
  function MemberKeys(db: Db, fid: Id): set<Id> { set m | m in db.members && m.familyId == fid :: m.id }
  function Connections(db: Db, fid: Id): set<Connection> { set c | c in db.connections && c.userId in UserKeys(db, fid) }
  function ConnectionKeys(db: Db, fid: Id): set<Id> { set c | c in Connections(db, fid) :: c.id }
  function ListKeys(db: Db, fid: Id): set<Id> { set l | l in db.lists && l.familyId == fid :: l.id }
  function ChoreKeys(db: Db, fid: Id): set<Id> { set c | c in db.chores && c.familyId == fid :: c.id }

  /** A reference to a persona of the deleted family from a row the cascade keeps: it has no cascade, so it blocks the delete. */
  predicate Blocked(db: Db, fid: Id) {
    var c := Cascade(db, fid);
    var gone := MemberKeys(db, fid);
    || (exists e :: e in c.events && e.assignedMemberId.Some? && e.assignedMemberId.value in gone)
    || (exists i :: i in c.items && i.assignedMemberId.Some? && i.assignedMemberId.value in gone)
    || (exists h :: h in c.chores && h.assignedMemberId.Some? && h.assignedMemberId.value in gone)
    || (exists k :: k in c.completions && k.completedById.Some? && k.completedById.value in gone)
  }

  /** `delete from families where id = fid`: the cascade result, or a constraint error when a kept row still names one of the family's personas. */
  function DeleteFamily(db: Db, fid: Id): (r: Option<Db>)
    ensures r.None? <==> Blocked(db, fid)
    ensures r.Some? ==> r.value == Cascade(db, fid)
  {
    if Blocked(db, fid) then None else Some(Cascade(db, fid))
  }

  /** After deleting a family nothing refers to it: no family row, and no user, persona, event, list, chore, message or subscription of it. */
  lemma DeleteFamilyLeavesNoTrace(db: Db, fid: Id)
    requires DeleteFamily(db, fid).Some?
    ensures var d := DeleteFamily(db, fid).value;
            && fid !in FamilyIds(d)
            && (forall u :: u in d.users ==> u.familyId != Some(fid))
            && (forall m :: m in d.members ==> m.familyId != fid)
            && (forall e :: e in d.events ==> e.familyId != fid)
            && (forall l :: l in d.lists ==> l.familyId != fid)
            && (forall c :: c in d.chores ==> c.familyId != fid)
            && (forall m :: m in d.messages ==> m.familyId != fid)
            && (forall s :: s in d.subscriptions ==> s.familyId != fid)
  {
  }

  /** Only the family's own rows and the rows chained to them go: every other family and its personas stay. */
  lemma DeleteFamilyKeepsOthers(db: Db, fid: Id, other: Id)
    requires DeleteFamily(db, fid).Some? && other != fid
    ensures var d := DeleteFamily(db, fid).value;
            && (forall f :: f in db.families && f.id == other ==> f in d.families)
            && (forall m :: m in db.members && m.familyId == other ==> m in d.members)
            && (forall l :: l in db.lists && l.familyId == other ==> l in d.lists)
            && (forall c :: c in db.chores && c.familyId == other ==> c in d.chores)
  {
  }

  /** Keys stay unique after the cascade. */
  lemma CascadeKeysOk(db: Db, fid: Id)
    requires KeysOk(db)
    ensures KeysOk(Cascade(db, fid))
  {
    FilterKeysUnique(db.families, (f: Family) => f.id != fid, FamilyKey);
    FilterKeysUnique(db.users, (u: User) => u.familyId != Some(fid), UserKey);
    FilterKeysUnique(db.members, (m: Member) => m.familyId != fid, MemberKey);
    FilterKeysUnique(db.connections, (c: Connection) => c !in Connections(db, fid), ConnectionKey);
    FilterKeysUnique(db.events, (e: Event) => e.familyId != fid &&
                                       (e.calendarConnectionId.None? || e.calendarConnectionId.value !in ConnectionKeys(db, fid)), EventKey);
    FilterKeysUnique(db.lists, (l: List) => l.familyId != fid, ListKey);
    FilterKeysUnique(db.items, (i: ListItem) => i.listId !in ListKeys(db, fid), ItemKey);
    FilterKeysUnique(db.chores, (c: Chore) => c.familyId != fid, ChoreKey);
    FilterKeysUnique(db.completions, (c: Completion) => c.choreId !in ChoreKeys(db, fid), CompletionKey);
    FilterKeysUnique(db.messages, (m: Message) => m.familyId != fid, MessageKey);
    FilterKeysUnique(db.subscriptions, (s: Subscription) => s.familyId != fid && s.userId !in UserKeys(db, fid), SubscriptionKey);
  }

  /** Every reference kept by an unblocked cascade still names a kept row. */
  lemma {:induction false} CascadeRefsOk(db: Db, fid: Id)
    requires RefsOk(db) && !Blocked(db, fid)
    ensures RefsOk(Cascade(db, fid))
  {
    CascadeKeepsKeys(db, fid);
    var d := Cascade(db, fid);
    assert forall c :: c in d.connections ==> c.userId !in UserKeys(db, fid);
  }

  /** A key of a row the cascade does not remove is still present afterwards. */
  lemma CascadeKeepsKeys(db: Db, fid: Id)
    ensures var d := Cascade(db, fid);
            && (forall g :: g in FamilyIds(db) && g != fid ==> g in FamilyIds(d))
            && (forall k :: k in UserIds(db) && k !in UserKeys(db, fid) ==> k in UserIds(d))
            && (forall k :: k in MemberIds(db) && k !in MemberKeys(db, fid) ==> k in MemberIds(d))
            && (forall k :: k in ConnectionIds(db) && k !in ConnectionKeys(db, fid) ==> k in ConnectionIds(d))
            && (forall k :: k in ListIds(db) && k !in ListKeys(db, fid) ==> k in ListIds(d))
            && (forall k :: k in ChoreIds(db) && k !in ChoreKeys(db, fid) ==> k in ChoreIds(d))
  {
    var d := Cascade(db, fid);
    forall g | g in FamilyIds(db) && g != fid ensures g in FamilyIds(d) {
      var f :| f in db.families && FamilyKey(f) == g;
      assert f in d.families;
    }
    forall k | k in UserIds(db) && k !in UserKeys(db, fid) ensures k in UserIds(d) {
      var u :| u in db.users && UserKey(u) == k;
      assert u in d.users;
    }
    forall k | k in MemberIds(db) && k !in MemberKeys(db, fid) ensures k in MemberIds(d) {
      var m :| m in db.members && MemberKey(m) == k;
      assert m in d.members;
    }
    forall k | k in ConnectionIds(db) && k !in ConnectionKeys(db, fid) ensures k in ConnectionIds(d) {
      var c :| c in db.connections && ConnectionKey(c) == k;
      assert c in d.connections;
    }
    forall k | k in ListIds(db) && k !in ListKeys(db, fid) ensures k in ListIds(d) {
      var l :| l in db.lists && ListKey(l) == k;
      assert l in d.lists;
    }
    forall k | k in ChoreIds(db) && k !in ChoreKeys(db, fid) ensures k in ChoreIds(d) {
      var c :| c in db.chores && ChoreKey(c) == k;
      assert c in d.chores;
    }
  }

  /** Deleting a family from a consistent database leaves it consistent. */
  lemma DeleteFamilyKeepsValid(db: Db, fid: Id)
    requires Valid(db) && DeleteFamily(db, fid).Some?
    ensures Valid(DeleteFamily(db, fid).value)
  {
    CascadeKeysOk(db, fid);
    CascadeRefsOk(db, fid);
  }
}
