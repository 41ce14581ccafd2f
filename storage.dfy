/**
 * `DbStorage` of `server/storage.ts`: one object holding the database, whose
 * writing operations change it in place. Each method does what the statement
 * of the same name in `StorageOps` describes, and the database's constraints
 * hold before and after every call. The reading operations change nothing and
 * are the `StorageOps` queries applied to `db`.
 */
module Storage {
  import opened Wrappers
  import opened Tables
  import opened Schema
  import opened StorageOps

  class DbStorage {
    var db: Db

    ghost predicate Valid()
      reads this
    {
      Schema.Valid(db)
    }

    /** `new DbStorage()` over the database the connection string names, whatever it already holds. */
    constructor (existing: Db)
      requires Schema.Valid(existing)
      ensures Valid() && db == existing
    {
      db := existing;
    }

    method CreateUser(n: NewUser, now: int) returns (r: Outcome<User>)
      requires Valid()
      modifies this
      ensures Valid() && (db, r) == StorageOps.CreateUser(old(db), n, now)
    {
      if HasKey(db.users, UserKey, n.id) { return Violated(DuplicateKey); }
      if !RefFound(db.families, FamilyKey, n.familyId) { return Violated(MissingReference); }
      CreateUserKeepsValid(db, n, now);
      var u := UserRow(n, now);
      db := db.(users := db.users + [u]);
      return Done(u);
    }

    method UpdateUserStripeInfo(id: Id, customerId: string, subscriptionId: string) returns (r: Option<User>)
      requires Valid()
      modifies this
      ensures Valid() && (db, r) == StorageOps.UpdateUserStripeInfo(old(db), id, customerId, subscriptionId)
    {
      UpdateUserStripeInfoKeepsValid(db, id, customerId, subscriptionId);
      var found := First(db.users, UserIdIs(id));
      db := db.(users := MapWhere(db.users, UserIdIs(id), WithStripe(customerId, subscriptionId)));
      if found.Some? {
        r := Some(WithStripe(customerId, subscriptionId)(found.value));
      } else {
        r := None;
      }
    }

    method CreateFamily(n: NewFamily, id: Id, now: int) returns (r: Outcome<Family>)
      requires Valid()
      modifies this
      ensures Valid() && (db, r) == StorageOps.CreateFamily(old(db), n, id, now)
    {
      if HasKey(db.families, FamilyKey, id) { return Violated(DuplicateKey); }
      if CodeTaken(db, n.inviteCode) { return Violated(DuplicateInviteCode); }
      CreateFamilyKeepsValid(db, n, id, now);
      var f := FamilyRow(n, id, now);
      db := db.(families := db.families + [f]);
      return Done(f);
    }

    method CreateFamilyMember(n: NewMember, id: Id, now: int) returns (r: Outcome<Member>)
      requires Valid()
      modifies this
      ensures Valid() && (db, r) == StorageOps.CreateFamilyMember(old(db), n, id, now)
    {
      if HasKey(db.members, MemberKey, id) { return Violated(DuplicateKey); }
      if !HasKey(db.families, FamilyKey, n.familyId) { return Violated(MissingReference); }
      CreateFamilyMemberKeepsValid(db, n, id, now);
      var m := MemberRow(n, id, now);
      db := db.(members := db.members + [m]);
      return Done(m);
    }

    method UpdateFamilyMember(id: Id, p: MemberPatch) returns (r: Outcome<Option<Member>>)
      requires Valid()
      modifies this
      ensures Valid() && (db, r) == StorageOps.UpdateFamilyMember(old(db), id, p)
    {
      if MemberPatchEmpty(p) { return Violated(NoValuesToSet); }
      var found := First(db.members, MemberIdIs(id));
      if found.None? { return Done(None); }
      if !MemberPatchRefsOk(db, p) { return Violated(MissingReference); }
      UpdateFamilyMemberKeepsValid(db, id, p);
      db := db.(members := MapWhere(db.members, MemberIdIs(id), PatchMember(p)));
      return Done(Some(PatchedMember(found.value, p)));
    }

    method DeleteFamilyMember(id: Id) returns (r: Outcome<()>)
      requires Valid()
      modifies this
      ensures Valid() && (db, r) == StorageOps.DeleteFamilyMember(old(db), id)
    {
      if MemberReferenced(db, id) { return Violated(StillReferenced); }
      DeleteFamilyMemberKeepsValid(db, id);
      db := db.(members := Filter(db.members, MemberIdIsNot(id)));
      return Done(());
    }

    method CreateCalendarConnection(n: NewConnection, id: Id, now: int) returns (r: Outcome<Connection>)
      requires Valid()
      modifies this
      ensures Valid() && (db, r) == StorageOps.CreateCalendarConnection(old(db), n, id, now)
    {
      if HasKey(db.connections, ConnectionKey, id) { return Violated(DuplicateKey); }
      if !HasKey(db.users, UserKey, n.userId) { return Violated(MissingReference); }
      CreateCalendarConnectionKeepsValid(db, n, id, now);
      var c := ConnectionRow(n, id, now);
      db := db.(connections := db.connections + [c]);
      return Done(c);
    }

    method UpdateCalendarConnection(id: Id, p: ConnectionPatch) returns (r: Outcome<Option<Connection>>)
      requires Valid()
      modifies this
      ensures Valid() && (db, r) == StorageOps.UpdateCalendarConnection(old(db), id, p)
    {
      if ConnectionPatchEmpty(p) { return Violated(NoValuesToSet); }
      var found := First(db.connections, ConnectionIdIs(id));
      if found.None? { return Done(None); }
      if !ConnectionPatchRefsOk(db, p) { return Violated(MissingReference); }
      UpdateCalendarConnectionKeepsValid(db, id, p);
      db := db.(connections := MapWhere(db.connections, ConnectionIdIs(id), PatchConnection(p)));
      return Done(Some(PatchedConnection(found.value, p)));
    }

    method CreateEvent(n: NewEvent, id: Id, now: int) returns (r: Outcome<Event>)
      requires Valid()
      modifies this
      ensures Valid() && (db, r) == StorageOps.CreateEvent(old(db), n, id, now)
    {
      if HasKey(db.events, EventKey, id) { return Violated(DuplicateKey); }
      if !HasKey(db.families, FamilyKey, n.familyId) || !RefFound(db.connections, ConnectionKey, n.calendarConnectionId)
         || !RefFound(db.members, MemberKey, n.assignedMemberId) {
        return Violated(MissingReference);
      }
      CreateEventKeepsValid(db, n, id, now);
      var e := EventRow(n, id, now);
      db := db.(events := db.events + [e]);
      return Done(e);
    }

    method UpdateEvent(id: Id, p: EventPatch) returns (r: Outcome<Option<Event>>)
      requires Valid()
      modifies this
      ensures Valid() && (db, r) == StorageOps.UpdateEvent(old(db), id, p)
    {
      if EventPatchEmpty(p) { return Violated(NoValuesToSet); }
      var found := First(db.events, EventIdIs(id));
      if found.None? { return Done(None); }
      if !EventPatchRefsOk(db, p) { return Violated(MissingReference); }
      UpdateEventKeepsValid(db, id, p);
      db := db.(events := MapWhere(db.events, EventIdIs(id), PatchEvent(p)));
      return Done(Some(PatchedEvent(found.value, p)));
    }

    method DeleteEvent(id: Id)
      requires Valid()
      modifies this
      ensures Valid() && db == StorageOps.DeleteEvent(old(db), id)
    {
      DeleteEventKeepsValid(db, id);
      db := db.(events := Filter(db.events, EventIdIsNot(id)));
    }

    method CreateList(n: NewList, id: Id, now: int) returns (r: Outcome<List>)
      requires Valid()
      modifies this
      ensures Valid() && (db, r) == StorageOps.CreateList(old(db), n, id, now)
    {
      if HasKey(db.lists, ListKey, id) { return Violated(DuplicateKey); }
      if !HasKey(db.families, FamilyKey, n.familyId) { return Violated(MissingReference); }
      CreateListKeepsValid(db, n, id, now);
      var l := ListRow(n, id, now);
      db := db.(lists := db.lists + [l]);
      return Done(l);
    }

    method CreateListItem(n: NewListItem, id: Id, now: int) returns (r: Outcome<ListItem>)
      requires Valid()
      modifies this
      ensures Valid() && (db, r) == StorageOps.CreateListItem(old(db), n, id, now)
    {
      if HasKey(db.items, ItemKey, id) { return Violated(DuplicateKey); }
      if !HasKey(db.lists, ListKey, n.listId) || !RefFound(db.members, MemberKey, n.assignedMemberId) {
        return Violated(MissingReference);
      }
      CreateListItemKeepsValid(db, n, id, now);
      var i := ListItemRow(n, id, now);
      db := db.(items := db.items + [i]);
      return Done(i);
    }

    method UpdateListItem(id: Id, p: ListItemPatch) returns (r: Outcome<Option<ListItem>>)
      requires Valid()
      modifies this
      ensures Valid() && (db, r) == StorageOps.UpdateListItem(old(db), id, p)
    {
      if ListItemPatchEmpty(p) { return Violated(NoValuesToSet); }
      var found := First(db.items, ItemIdIs(id));
      if found.None? { return Done(None); }
      if !ListItemPatchRefsOk(db, p) { return Violated(MissingReference); }
      UpdateListItemKeepsValid(db, id, p);
      db := db.(items := MapWhere(db.items, ItemIdIs(id), PatchItem(p)));
      return Done(Some(PatchedItem(found.value, p)));
    }

    method DeleteListItem(id: Id)
      requires Valid()
      modifies this
      ensures Valid() && db == StorageOps.DeleteListItem(old(db), id)
    {
      DeleteListItemKeepsValid(db, id);
      db := db.(items := Filter(db.items, ItemIdIsNot(id)));
    }

    method CreateChore(n: NewChore, id: Id, now: int) returns (r: Outcome<Chore>)
      requires Valid()
      modifies this
      ensures Valid() && (db, r) == StorageOps.CreateChore(old(db), n, id, now)
    {
      if HasKey(db.chores, ChoreKey, id) { return Violated(DuplicateKey); }
      if !HasKey(db.families, FamilyKey, n.familyId) || !RefFound(db.members, MemberKey, n.assignedMemberId) {
        return Violated(MissingReference);
      }
      CreateChoreKeepsValid(db, n, id, now);
      var c := ChoreRow(n, id, now);
      db := db.(chores := db.chores + [c]);
      return Done(c);
    }

    method UpdateChore(id: Id, p: ChorePatch) returns (r: Outcome<Option<Chore>>)
      requires Valid()
      modifies this
      ensures Valid() && (db, r) == StorageOps.UpdateChore(old(db), id, p)
    {
      if ChorePatchEmpty(p) { return Violated(NoValuesToSet); }
      var found := First(db.chores, ChoreIdIs(id));
      if found.None? { return Done(None); }
      if !ChorePatchRefsOk(db, p) { return Violated(MissingReference); }
      UpdateChoreKeepsValid(db, id, p);
      db := db.(chores := MapWhere(db.chores, ChoreIdIs(id), PatchChore(p)));
      return Done(Some(PatchedChore(found.value, p)));
    }

    method DeleteChore(id: Id)
      requires Valid()
      modifies this
      ensures Valid() && db == StorageOps.DeleteChore(old(db), id)
    {
      DeleteChoreKeepsValid(db, id);
      db := db.(chores := Filter(db.chores, ChoreIdIsNot(id)), completions := Filter(db.completions, CompletionChoreIsNot(id)));
    }

    method CompleteChore(n: NewCompletion, id: Id, now: int) returns (r: Outcome<Completion>)
      requires Valid()
      modifies this
      ensures Valid() && (db, r) == StorageOps.CompleteChore(old(db), n, id, now)
    {
      if HasKey(db.completions, CompletionKey, id) { return Violated(DuplicateKey); }
      if !HasKey(db.chores, ChoreKey, n.choreId) || !RefFound(db.members, MemberKey, n.completedById) {
        return Violated(MissingReference);
      }
      CompleteChoreKeepsValid(db, n, id, now);
      var c := CompletionRow(n, id, now);
      db := db.(completions := db.completions + [c]);
      return Done(c);
    }

    method CreateMessage(n: NewMessage, id: Id, now: int) returns (r: Outcome<Message>)
      requires Valid()
      modifies this
      ensures Valid() && (db, r) == StorageOps.CreateMessage(old(db), n, id, now)
    {
      if HasKey(db.messages, MessageKey, id) { return Violated(DuplicateKey); }
      if !HasKey(db.families, FamilyKey, n.familyId) { return Violated(MissingReference); }
      CreateMessageKeepsValid(db, n, id, now);
      var m := MessageRow(n, id, now);
      db := db.(messages := db.messages + [m]);
      return Done(m);
    }

    method MarkMessageAsRead(id: Id) returns (r: Option<Message>)
      requires Valid()
      modifies this
      ensures Valid() && (db, r) == StorageOps.MarkMessageAsRead(old(db), id)
    {
      MarkMessageAsReadKeepsValid(db, id);
      var found := First(db.messages, MessageIdIs(id));
      db := db.(messages := MapWhere(db.messages, MessageIdIs(id), SetRead));
      if found.Some? {
        r := Some(SetRead(found.value));
      } else {
        r := None;
      }
    }
  }
}
