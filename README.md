# SmartPRDWriter family hub: membership, invites and storage

This project models the server and client core of a family-organiser web
application. That core covers:

- how a signed-in caller is authenticated;
- how a family is created for them, by the API route, by onboarding or by signup;
- how the family's personas are listed;
- how invites are created, resolved and accepted;
- how the signup handler joins a family through an invitation;
- how the client guards its routes, caches the family, and runs its onboarding wizard;
- the relational schema and the storage layer over it.

It is written in Dafny and proved with the Dafny verifier.

Layout, one module per source file plus shared helpers:

| module | models |
|---|---|
| `Wrappers` | `Option`, the HTTP `Reply` (a JSON body or an error status) |
| `Js` | the JavaScript string semantics the code relies on: truthiness, `\|\|`, `trim`, UTF-16 `length`, `split` |
| `Tables` | the query shapes: `where` (`Filter`), `limit 1` (`First`), PostgREST `.single()` (`Single`), `update ... where` (`MapWhere`), `order by` ascending and descending with nulls first |
| `Bearer`, `AuthMiddleware`, `ServerAuth` | the two `requireAuth` middlewares |
| `ProtectedRoute`, `FamilyContext`, `OnboardingWizard` | the client components |
| `GoogleCalendar` | the calendar connector's token cache and the event mapping |
| `FamilyStore`, `Routes` | the hosted database's tables that `server/routes.ts` reaches through its admin client, and its handlers |
| `CompleteSignup` | `server/routes/auth/complete-signup.js` |
| `Schema`, `StorageOps`, `Storage` | `shared/schema.ts`, and `server/storage.ts` as pure statements plus the in-place `DbStorage` class |

## How the model is built

Each HTTP handler is a pure function from the store, the request and the
outside world's answers to the new store and the reply. The outside world is:

- the set of database writes that fail;
- the identity provider's user;
- fresh ids and tokens;
- the clock, in milliseconds.

Beside each such function is a method that performs the same writes one after
another on the `Store` object. Its postcondition ties the store's new state
and the reply to the function.

The storage layer follows the same pattern:

- `StorageOps` gives each statement as a function from `Db` to the new `Db`
  and the returned value. A violated key, unique or foreign-key constraint
  leaves the database unchanged and is reported.
- `Storage.DbStorage` holds the `Db` in a field. Its methods update it in place.
  Each method keeps the constraints (`Schema.Valid`) and matches its statement.

## Model

| member | source | states |
|---|---|---|
| Js.Or | server/routes.ts:44 | `a \|\| b` on optional strings: `a` when it is a non-empty string, else `b` |
| Js.OrElse | server/routes.ts:99 | `a \|\| "literal"` is never empty and is `a` exactly when `a` is truthy |
| Js.Truthy | client/src/components/OnboardingWizard.tsx:71 | `!!v` is true exactly for a present, non-empty string |
| Js.Trim | client/src/components/OnboardingWizard.tsx:79 | the result is an infix of the input with no whitespace at either end, and all that was removed is whitespace |
| Js.TrimIdempotent | client/src/components/OnboardingWizard.tsx:84 | trimming twice is trimming once |
| Js.Utf16Length | client/src/components/OnboardingWizard.tsx:81 | `length` counts UTF-16 code units: at least the number of characters, at most twice it |
| Js.Split | server/routes/auth/complete-signup.js:10 | `split` yields at least one field, and no field contains the separator |
| Js.JoinSplit | server/routes/auth/complete-signup.js:85 | joining the fields of a split gives back the string |
| Js.SplitJoin | server/routes/auth/complete-signup.js:10 | splitting a join of separator-free fields gives back the fields |
| Js.Field | server/routes/auth/complete-signup.js:10 | `split(c)[k]` is the k-th field of `split(c)`, and absent exactly when there are at most k fields |
| Js.SecondField | server/routes/auth/complete-signup.js:10 | `split(c)[1]` exists exactly when the string contains `c`, and is the text between the first `c` and the next one or the end |
| Js.BeforeFirst | server/routes/auth/complete-signup.js:85 | `split('@')[0]` is the prefix before the first `@`, which contains no `@` |
| Tables.Filter | server/storage.ts:142-144 | `select where p` keeps exactly the rows satisfying p, each as often as before, and never more rows |
| Tables.First | server/storage.ts:92-95 | `limit 1` then `result[0]`: a matching row with no match before it, or none exactly when nothing matches |
| Tables.Single | server/routes.ts:318-326 | `.single()`: a matching row only when every matching row is that row; none when nothing matches; when exactly one row matches, that row |
| Tables.MapWhere | server/storage.ts:151-158 | `update where p`: matching rows are rewritten, all others stay, positions kept |
| Tables.SortBy | server/storage.ts:184-188 | `order by key asc`: sorted, and a permutation of the input |
| Tables.SortByDescNullsFirst | server/storage.ts:268-275 | `order by key desc` in PostgreSQL: a permutation, nulls first, then non-increasing |
| Bearer.Token | server/middleware/auth.ts:16-20 | a token exactly when the header starts with `"Bearer "`, and the header is the scheme followed by the token |
| Bearer.TokenRoundTrip | server/auth.ts:18-22 | any text after the scheme, even empty, is passed on unchanged |
| Bearer.Authenticate | server/middleware/auth.ts:14-36 | a user exactly when there is a bearer token and the provider verifies it; every other outcome is a rejection |
| Bearer.AuthenticateIff | server/middleware/auth.ts:14-32 | authenticated as u if and only if the header is `"Bearer " + t` for a t the provider maps to u |
| AuthMiddleware.RequireAuth | server/middleware/auth.ts:8-37 | on success records the user id and calls `next` once; otherwise answers 401 and never calls `next` |
| ServerAuth.Loads | server/auth.ts:5-7 | the module loads exactly when both environment variables are set and non-empty |
| ServerAuth.RequireAuth | server/auth.ts:15-37 | on success attaches the whole user and calls `next` once; otherwise 401, with `next` not called |
| ProtectedRoute.Redirect | client/src/components/ProtectedRoute.tsx:9-15 | no redirect while loading; `/login` iff loaded without a user; `/onboarding` iff loaded with a user without a family |
| ProtectedRoute.Render | client/src/components/ProtectedRoute.tsx:17-29 | spinner iff loading; the page iff loaded with a user who has a family |
| ProtectedRoute.Consistent | client/src/components/ProtectedRoute.tsx:9-29 | the page is shown exactly when no redirect happens, and nothing is shown exactly when one does |
| FamilyContext.Load | client/src/lib/family-context.tsx:44-90 | without a user only loading stops; a fresh cache fetches nothing; otherwise one fetch: a rejected request records its reason and changes no data; otherwise the family is set from a 2xx families answer, the members and load time only when both answer 2xx, and the error names the first failing answer |
| FamilyContext.LoadEndsLoading | client/src/lib/family-context.tsx:57-89 | whatever path a load takes, it ends with `loading` false, and the validity invariant is kept |
| FamilyContext.Rejection | client/src/lib/family-context.tsx:62-65 | `Promise.all` rejects exactly when one request does, with that request's reason (the families request's when both do) |
| FamilyContext.RejectedLoadKeepsData | client/src/lib/family-context.tsx:62-89 | a rejected request skips every setter: family, members and load time stay, the error is set and loading ends |
| FamilyContext.RefreshAlwaysFetches | client/src/lib/family-context.tsx:92-94 | `refreshFamily` fetches whatever the cache holds |
| FamilyContext.FreshLoadIsCached | client/src/lib/family-context.tsx:50-55 | a complete load followed within five minutes by an unforced load leaves the state untouched |
| FamilyContext.UseCache | client/src/lib/family-context.tsx:50-55 | a forced load or a never-loaded state never uses the cache; using it needs an update less than five minutes old that left a family and members |
| FamilyContext.FamilyProvider.constructor | client/src/lib/family-context.tsx:36-40 | initial state: no family, no members, loading, no error, never updated |
| FamilyContext.FamilyProvider.LoadFamilyData | client/src/lib/family-context.tsx:44-90 | the provider's fields after the call are `Load` of their old values, a rejected request included |
| FamilyContext.FamilyProvider.RefreshFamily | client/src/lib/family-context.tsx:92-94 | a forced `Load`; with a user, exactly one more fetch, and a rejected request keeps the family and members and sets the error |
| GoogleCalendar.AccessToken | server/google-calendar.ts:5-45 | the cached token while the cache is unexpired and holds one; otherwise a refresh: failing without a replit token, with `ConnectorNotConfigured` when no connection is fetched, with `NotConnected` when it holds no token, and succeeding with the fetched token otherwise |
| GoogleCalendar.RefreshThenCached | server/google-calendar.ts:6-12 | after a refresh that yields a token and a future expiry, the next call before that expiry is served from the cache with the same token |
| GoogleCalendar.Connector.constructor | server/google-calendar.ts:3 | the connector starts with no cached settings |
| GoogleCalendar.Connector.GetAccessToken | server/google-calendar.ts:5-45 | the result and the new cache are `AccessToken` of the old cache |
| GoogleCalendar.Connector.SyncCalendarEvents | server/google-calendar.ts:68-100 | the first token acquisition and the one inside the calendar call are each `AccessToken` over their own fetched connection; fails when either token or the primary calendar is missing; otherwise one mapped record per provider event, in order, for the given family |
| GoogleCalendar.PrimaryCalendarId | server/google-calendar.ts:61-66 | the id of the first calendar marked primary when that id is non-empty, none when it is empty; none when no calendar is primary |
| GoogleCalendar.NullIfEmpty | server/google-calendar.ts:93-94 | `text \|\| null`: absent for an absent or empty text, else the text |
| GoogleCalendar.MapEvent | server/google-calendar.ts:90-99 | title defaults to "Untitled Event"; a timed start makes the event not all-day; the end is the timed end, else the date, else null; description and location are the provider's text when non-empty, else null |
| GoogleCalendar.MapEvents | server/google-calendar.ts:88-99 | one record per event, position by position |
| OnboardingWizard.LooksLikeEmailIsPattern | client/src/components/OnboardingWizard.tsx:71 | the executable scan accepts exactly the strings matching `^[^\s@]+@[^\s@]+\.[^\s@]+$` |
| OnboardingWizard.ValidateStep | client/src/components/OnboardingWizard.tsx:66-88 | only steps 1 to 4 can be valid; step 2 is valid exactly when the verification was sent; a valid step 3 has a name and a password of at least three characters (six UTF-16 code units); steps 1 and 4 by `EmailStepIsPattern` and `FamilyStepNeedsContent` |
| OnboardingWizard.ProfileStepValid | client/src/components/OnboardingWizard.tsx:77-82 | a valid profile step has a non-empty name and a password long enough for six UTF-16 code units |
| OnboardingWizard.EmailStepIsPattern | client/src/components/OnboardingWizard.tsx:70-72 | step 1 is valid iff the e-mail matches the pattern; the separate emptiness test adds nothing |
| OnboardingWizard.FamilyStepNeedsContent | client/src/components/OnboardingWizard.tsx:83-85 | step 4 is valid only when the family name holds a character that is not whitespace |
| OnboardingWizard.Next | client/src/components/OnboardingWizard.tsx:102-114 | an invalid step changes nothing; on a valid step 1 a successful sign-up moves to step 2 with the verification sent and a failed one changes nothing; valid steps 2 and 3 advance by one; step 4 stays on step 4 and counts a completion only with success; data and cooldown never change |
| OnboardingWizard.Back | client/src/components/OnboardingWizard.tsx:566-574 | Back moves one step back, never onto step 1, and changes nothing but the step |
| OnboardingWizard.StepsStayInRange | client/src/components/OnboardingWizard.tsx:102-114 | forward and back moves keep the wizard on steps 1 to 4 |
| OnboardingWizard.Resend | client/src/components/OnboardingWizard.tsx:184-200 | ignored while cooling down; a successful resend starts a 60-second cooldown |
| OnboardingWizard.Tick | client/src/components/OnboardingWizard.tsx:54-60 | one second takes one off a positive cooldown and changes nothing else |
| OnboardingWizard.TicksCountDown | client/src/components/OnboardingWizard.tsx:54-60 | after n seconds the cooldown has dropped by n, down to zero |
| OnboardingWizard.ResendBlockedForAMinute | client/src/components/OnboardingWizard.tsx:184-200 | a resend within 60 seconds of a successful one does nothing; after 60 seconds the cooldown is over |
| OnboardingWizard.AddMember | client/src/components/OnboardingWizard.tsx:435-442 | appends one empty child entry and keeps the others |
| OnboardingWizard.Merge | client/src/components/OnboardingWizard.tsx:446 | `{...draft, ...updates}`: supplied fields win, others stay |
| OnboardingWizard.UpdateMember | client/src/components/OnboardingWizard.tsx:444-448 | only the entry at the index changes, and it becomes the merge |
| OnboardingWizard.RemoveMember | client/src/components/OnboardingWizard.tsx:450-453 | removing drops exactly the entry at the index, keeps the rest in order, and removes nothing for an index outside the list |
| OnboardingWizard.SuggestFamilyName | client/src/components/OnboardingWizard.tsx:456-461 | with a full name and no family name, the family name becomes the first word plus " Family"; otherwise nothing changes |
| OnboardingWizard.WizardComponent.constructor | client/src/components/OnboardingWizard.tsx:33-48 | starts on the given step with empty data, no verification and no cooldown |
| OnboardingWizard.WizardComponent.HandleNextStep | client/src/components/OnboardingWizard.tsx:102-114 | the component's state becomes `Next` of its old state |
| OnboardingWizard.WizardComponent.HandleBack | client/src/components/OnboardingWizard.tsx:566-574 | the state becomes `Back` of the old state |
| OnboardingWizard.WizardComponent.HandleResendVerification | client/src/components/OnboardingWizard.tsx:184-200 | the state becomes `Resend` of the old state |
| OnboardingWizard.WizardComponent.CooldownTick | client/src/components/OnboardingWizard.tsx:54-60 | the state becomes `Tick` of the old state |
| OnboardingWizard.WizardComponent.AddFamilyMember | client/src/components/OnboardingWizard.tsx:435-442 | the member list becomes `AddMember` of the old list |
| OnboardingWizard.WizardComponent.UpdateFamilyMember | client/src/components/OnboardingWizard.tsx:444-448 | the member list becomes `UpdateMember` of the old list |
| OnboardingWizard.WizardComponent.RemoveFamilyMember | client/src/components/OnboardingWizard.tsx:450-453 | the member list loses exactly the entry at the index |
| FamilyStore.UpdateUserRow | server/routes.ts:84-87 | `update users ... where id`: only that user's row changes, and a missing row is not an error |
| FamilyStore.PendingInvite | server/routes.ts:359-365 | an unaccepted invite with the token that expires at or after now, the only such invite when one is returned; none when no invite qualifies; when exactly one invite qualifies, that invite |
| FamilyStore.PendingInvitation | server/routes/auth/complete-signup.js:67-73 | the corrected lookup (`accepted_at is null`), not the one line 71 performs (see Findings): the invitation with the token, unaccepted and expiring strictly after now, the only such one when returned; none when none qualifies; the sole qualifying invitation when there is one |
| FamilyStore.ExpiryBoundary | server/routes.ts:324 | at the instant of expiry an invite still resolves in the API routes, while a signup invitation no longer does |
| Routes.NewProfile | server/routes.ts:39-49 | the new profile: the caller's id and e-mail, the full name or else the e-mail, role parent, no family |
| Routes.DefaultFamily | server/routes.ts:70-76 | the default family is named after the user's name, else their e-mail, else `null`, followed by "'s Family"; it has the new id and no creator |
| Routes.AdminPersona | server/routes.ts:95-102 | the admin persona is a parent of the new family, named after the user's name, else the e-mail, else "Family Admin"; no e-mail, avatar or adder; created now |
| Routes.GetFamilies | server/routes.ts:10-143 | at most one family; `[]` iff the profile was missing and its insert succeeded, and then the store gains exactly `NewProfile`; a profile pointing at a family changes nothing and succeeds iff the family exists; a profile without one succeeds iff the family insert and profile update succeed with an unused id, and then the reply is `DefaultFamily`, stored, with the profile pointing to it and the admin persona added unless its insert fails; invites untouched; a failed family insert changes nothing, and a failed profile update is a 500 that leaves the default family stored with no profile pointing at it |
| Routes.HandleGetFamilies | server/routes.ts:10-143 | the store and reply after the writes are `GetFamilies` of the old store |
| Routes.GetFamiliesSettles | server/routes.ts:65-116 | a second call creates neither a second profile nor a second family and answers the same family |
| Routes.GetFamiliesPersonaBestEffort | server/routes.ts:104-107 | a failed persona insert does not change the reply |
| Routes.FamilyMembers | server/routes.ts:146-179 | 404 iff the caller has no family; otherwise exactly that family's personas, each as often as stored, oldest first |
| Routes.DefaultFamilyListsAdmin | server/routes.ts:94-102 | after a default family is created, its admin persona is listed among the members |
| Routes.MemberRows | server/routes.ts:220-226 | one persona row per member in order, in the new family, added by the caller, with `email \|\| null` |
| Routes.CompleteOnboarding | server/routes.ts:182-251 | 400 iff no family name; success iff the family insert, profile update and (for a non-empty list) member insert succeed with an unused id; a failed family insert changes nothing; success points the caller at the new family as a parent and adds the member rows; a failure never adds personas; a failed profile update is a 500 that leaves the new family stored and nothing else changed; a failed member insert is a 500 that leaves the family and the profile update |
| Routes.HandleCompleteOnboarding | server/routes.ts:182-251 | the store and reply after the writes are `CompleteOnboarding` of the old store |
| Routes.OnboardingHasNoRollback | server/routes.ts:228-232 | when the member insert fails the reply is 500, yet the family exists and the caller points to it |
| Routes.CreateInvite | server/routes.ts:254-303 | 400 iff the family id or e-mail is missing; 403 iff the caller's profile does not point to that family; otherwise success iff the insert succeeds, appending exactly one pending invite expiring in seven days; a failure changes nothing |
| Routes.HandleCreateInvite | server/routes.ts:254-303 | the store and reply after the insert are `CreateInvite` of the old store |
| Routes.ResolveInvite | server/routes.ts:306-343 | 400 iff the token is empty; every other failure is 404; success iff a pending, unexpired invite has the token, and it is that invite, with its family exactly when that family exists |
| Routes.NewInviteResolvesForAWeek | server/routes.ts:282-291 | an invite just created with an unused token resolves from creation until its expiry, inclusive, and not after |
| Routes.InvitedPersona | server/routes.ts:395-402 | the accepting user's persona: parent, named after the full name, else the e-mail, else "New Member"; the avatar exactly when one is given; no e-mail or adder; created now |
| Routes.MarkAccepted | server/routes.ts:410-416 | every invite with the token becomes that invite marked accepted at now, other fields kept; all other invites stay |
| Routes.AcceptInvite | server/routes.ts:346-428 | 400 iff the token is empty; 404 with nothing changed when no pending invite has it or the caller is unknown to the provider; 403 iff a given e-mail differs from the invite's; success iff the invite is pending, the e-mail matches or is absent, the caller is known, and both updates succeed; success points the caller at the invite's family, marks the token accepted and adds the persona unless its insert fails; families and signup invitations are never touched; a failed profile update is a 500 with nothing changed; a failed invite update is a 500 after the profile update and the persona insert, with the invites untouched |
| Routes.HandleAcceptInvite | server/routes.ts:346-428 | the store and reply after the writes are `AcceptInvite` of the old store |
| Routes.AcceptIsSingleUse | server/routes.ts:359-416 | after a successful accept, the token neither resolves nor accepts again at any later time |
| Routes.AcceptWithoutEmailIsNeverForbidden | server/routes.ts:372-374 | without an e-mail in the request there is no 403: the e-mail check is skipped |
| Routes.AcceptInviteFailureLeavesPending | server/routes.ts:384-420 | a failed invite update is a 500 after the caller has moved to the invite's family, the invite still resolves, and the same request then succeeds |
| Routes.AcceptOverwritesFamily | server/routes.ts:384-387 | accepting moves a caller who already belongs to another family |
| Routes.AcceptPersonaBestEffort | server/routes.ts:404-407 | a failed persona insert changes neither the reply nor the profile and invite writes |
| CompleteSignup.AuthToken | server/routes/auth/complete-signup.js:10 | `split(' ')[1]`: no token without a header; a token exactly when the header contains a space, and it is the second space-separated field |
| CompleteSignup.SchemeIsNotChecked | server/routes/auth/complete-signup.js:10-14 | any scheme followed by any space-free non-empty word passes the check |
| CompleteSignup.OneWordHeaderRefused | server/routes/auth/complete-signup.js:12-14 | a header without a space yields no token |
| CompleteSignup.InvitedUser | server/routes/auth/complete-signup.js:80-88 | the invited user's row: named `email.split('@')[0]`, the e-mail up to its first `@` or all of it, parent, in the invitation's family |
| CompleteSignup.MarkAcceptedById | server/routes/auth/complete-signup.js:93-98 | only the invitation with the id gets `accepted_at` = now |
| CompleteSignup.SqlEquals | server/routes/auth/complete-signup.js:71 | SQL `=`: unknown when either side is null, else the comparison |
| CompleteSignup.PendingInvitationAsWritten | server/routes/auth/complete-signup.js:67-73 | the lookup as written never finds a row |
| CompleteSignup.AsWrittenInvitationNeverFound | server/routes/auth/complete-signup.js:65-77 | as written, every invitation signup is refused with 400 and nothing is written |
| CompleteSignup.PendingInvitationFindsFresh | server/routes/auth/complete-signup.js:67-73 | with `is null`, a sole unaccepted invitation for a token is found until, but not at, its expiry |
| CompleteSignup.FoundFamily | server/routes/auth/complete-signup.js:23-63 | family, user row and admin persona inserted in order; success iff the name and user id are given, the ids are unused and no insert fails; a failed family insert changes nothing; a failed user insert is a 500 that leaves only the new family; a failed persona insert is a 500 that leaves the family and the user row; success replies the new family's id |
| CompleteSignup.JoinByInvitation | server/routes/auth/complete-signup.js:65-107 | 400 with nothing changed iff there is no invitation; success iff the e-mail and an unused user id are given, the invitation's family exists and both writes succeed; then the user row in its family and `accepted_at`; success replies the family id and name |
| CompleteSignup.Signup | server/routes/auth/complete-signup.js:3-117 | 405 for any method but POST, then 401 without a token, then `FoundFamily` if flagged, else `JoinByInvitation` with the corrected lookup `PendingInvitation` if a token is given, else 400 |
| CompleteSignup.HandleSignup | server/routes/auth/complete-signup.js:3-117 | the store and reply after the writes are `Signup` of the old store, so with the corrected invitation lookup |
| CompleteSignup.NewFamilyTakesPrecedence | server/routes/auth/complete-signup.js:23 | with the new-family flag set, invitations are untouched even when a token is given |
| CompleteSignup.PersonaFailureIsFatal | server/routes/auth/complete-signup.js:49-57 | a failed persona insert is a 500, while the family and the user row stay written |
| CompleteSignup.InvitationIsSingleUse | server/routes/auth/complete-signup.js:92-100 | after a successful join the same token is refused with 400 at any later time |
| CompleteSignup.InvitedUserName | server/routes/auth/complete-signup.js:85 | an e-mail `local@domain`, with no `@` in the local part, names the user `local` |
| Schema.UserRow | shared/schema.ts:16-24 | the inserted user: the given id, family, name, e-mail and avatar; the given role, else "parent"; created now |
| Schema.FamilyRow | shared/schema.ts:7-12 | the inserted family: the given id, name and code, created now |
| Schema.MemberRow | shared/schema.ts:27-36 | the inserted persona: the given family, name, role, birth year, avatar and colour, created now |
| Schema.ConnectionRow | shared/schema.ts:39-49 | the inserted connection: the given user, account e-mail, tokens and times; the given sync status, else "active"; created now |
| Schema.EventRow | shared/schema.ts:52-65 | the inserted event: the given references, Google id, title, description, location, start and end; the given all-day flag, else false; created now |
| Schema.ListRow | shared/schema.ts:68-74 | the inserted list: the given family and name; the given type, else "grocery"; created now |
| Schema.ListItemRow | shared/schema.ts:77-85 | the inserted item: the given list, assignee and title; the given purchased flag, else false; never purchased; created now |
| Schema.ChoreRow | shared/schema.ts:88-98 | the inserted chore: the given family, assignee, title, description, recurrence and due date; the given points, else 0; created now |
| Schema.CompletionRow | shared/schema.ts:101-107 | the inserted completion: the given chore, member and notes; completed now |
| Schema.MessageRow | shared/schema.ts:110-121 | the inserted message: the given family, subject, sender, body and preview; the given urgent and read flags, else false; received now |
| Schema.InviteCodeIdentifiesFamily | shared/schema.ts:10 | two families with the same invite code are the same family |
| Schema.Cascade | shared/schema.ts:21-127 | deleting a family removes exactly the rows whose `on delete cascade` chain leads to it, table by table |
| Schema.DeleteFamily | shared/schema.ts:52-107 | refused iff a kept row still names one of the family's personas; otherwise the cascade |
| Schema.DeleteFamilyLeavesNoTrace | shared/schema.ts:21-127 | after the delete, no row of any table refers to the family |
| Schema.DeleteFamilyKeepsOthers | shared/schema.ts:21-127 | every other family and its personas stay |
| Schema.CascadeKeysOk | shared/schema.ts:7-137 | the cascade keeps every primary key unique |
| Schema.CascadeRefsOk | shared/schema.ts:21-127 | an unblocked cascade leaves every foreign key naming an existing row |
| Schema.DeleteFamilyKeepsValid | shared/schema.ts:7-137 | deleting a family from a consistent database leaves it consistent |
| StorageOps.GetUser | server/storage.ts:92-95 | a row with the id, or none exactly when no user has it |
| StorageOps.GetUserFindsRow | server/storage.ts:92-95 | with unique keys, the lookup returns exactly the row with that id |
| StorageOps.CreatedUserIsFound | server/storage.ts:107-110 | a user just created is the one `getUser` then finds |
| StorageOps.GetUserByUsername | server/storage.ts:97-100 | a user with the username, or none exactly when no user has it (the intended lookup; see Left out) |
| StorageOps.GetUserByEmail | server/storage.ts:102-105 | a user with the e-mail, or none exactly when no user has it |
| StorageOps.GetFamily | server/storage.ts:131-134 | a family with the id, or none exactly when no family has it |
| StorageOps.GetFamilyByInviteCode | server/storage.ts:136-139 | a family with the code, or none exactly when no family has it |
| StorageOps.InviteCodeLookupIsExact | server/storage.ts:136-139 | because codes are unique, the lookup returns the one family holding the code |
| StorageOps.CreatedFamilyIsFoundByCode | server/storage.ts:126-129 | a family just created with a code is found by that code |
| StorageOps.GetFamilyMembers | server/storage.ts:142-144 | exactly the family's personas, each as often as stored |
| StorageOps.GetCalendarConnections | server/storage.ts:170-172 | exactly the user's connections, each as often as stored |
| StorageOps.GetEventsByFamily | server/storage.ts:184-188 | exactly the family's events, each as often as stored, by ascending start time |
| StorageOps.EventsIgnoreDateRange | server/storage.ts:184-188 | the start and end dates do not change the result |
| StorageOps.GetListsByFamily | server/storage.ts:209-211 | exactly the family's lists, each as often as stored |
| StorageOps.GetListItems | server/storage.ts:218-220 | exactly the list's items, each as often as stored |
| StorageOps.GetChoresByFamily | server/storage.ts:241-243 | exactly the family's chores, each as often as stored |
| StorageOps.GetChoreCompletions | server/storage.ts:268-270 | exactly the chore's completions, nulls first, then newest first |
| StorageOps.GetMessagesByFamily | server/storage.ts:273-275 | exactly the family's messages, nulls first, then newest first |
| StorageOps.CreateUser | server/storage.ts:107-110 | inserted iff the id is new and the family, if any, exists; then exactly one row appended and returned |
| StorageOps.CreateUserKeepsValid | server/storage.ts:107-110 | the insert keeps keys unique and references valid |
| StorageOps.CodeTaken | shared/schema.ts:10 | true iff a family already holds the given non-null code |
| StorageOps.CreateFamily | server/storage.ts:126-129 | inserted iff the id is new and the code is unused; a taken code is reported as such |
| StorageOps.CreateFamilyKeepsValid | server/storage.ts:126-129 | the insert keeps keys and invite codes unique |
| StorageOps.CreateFamilyMember | server/storage.ts:146-149 | inserted iff the id is new and the family exists |
| StorageOps.CreateFamilyMemberKeepsValid | server/storage.ts:146-149 | the insert keeps the database consistent |
| StorageOps.CreateCalendarConnection | server/storage.ts:165-168 | inserted iff the id is new and the user exists |
| StorageOps.CreateCalendarConnectionKeepsValid | server/storage.ts:165-168 | the insert keeps the database consistent |
| StorageOps.CreateEvent | server/storage.ts:190-193 | inserted iff the id is new and the family, connection and assignee exist |
| StorageOps.CreateEventKeepsValid | server/storage.ts:190-193 | the insert keeps the database consistent |
| StorageOps.CreateList | server/storage.ts:213-216 | inserted iff the id is new and the family exists |
| StorageOps.CreateListKeepsValid | server/storage.ts:213-216 | the insert keeps the database consistent |
| StorageOps.CreateListItem | server/storage.ts:222-225 | inserted iff the id is new and the list and assignee exist |
| StorageOps.CreateListItemKeepsValid | server/storage.ts:222-225 | the insert keeps the database consistent |
| StorageOps.CreateChore | server/storage.ts:245-248 | inserted iff the id is new and the family and assignee exist |
| StorageOps.CreateChoreKeepsValid | server/storage.ts:245-248 | the insert keeps the database consistent |
| StorageOps.CompleteChore | server/storage.ts:263-266 | one completion stamped now, inserted iff the id is new and the chore and member exist |
| StorageOps.CompleteChoreKeepsValid | server/storage.ts:263-266 | the insert keeps the database consistent |
| StorageOps.CreateMessage | server/storage.ts:277-280 | inserted iff the id is new and the family exists |
| StorageOps.CreateMessageKeepsValid | server/storage.ts:277-280 | the insert keeps the database consistent |
| StorageOps.UpdateUserStripeInfo | server/storage.ts:112-123 | the user with the id gets both Stripe ids and status "active" together; all other rows stay (the intended update; see Left out) |
| StorageOps.UpdateUserStripeInfoKeepsValid | server/storage.ts:112-123 | the update keeps the database consistent |
| StorageOps.PatchedMember | server/storage.ts:151-158 | each patchable column (family, name, role, birth year, avatar, colour) takes the patch's value when supplied and keeps its own otherwise; the id and creation time stay |
| StorageOps.MemberPatchRefsOk | shared/schema.ts:29 | a patched family id must name an existing family |
| StorageOps.UpdateFamilyMember | server/storage.ts:151-158 | refused for an empty patch; no row is not an error; only the row with the id is patched; returns the patched row |
| StorageOps.UpdateFamilyMemberKeepsValid | server/storage.ts:151-158 | the update keeps the database consistent |
| StorageOps.UpdateFamilyMemberIdempotent | server/storage.ts:151-158 | sending the same patch twice leaves the table as sending it once |
| StorageOps.PatchedConnection | server/storage.ts:174-181 | each patchable column (user, account e-mail, both tokens, expiry, last sync, sync status) takes the patch's value when supplied and keeps its own otherwise; the id and creation time stay |
| StorageOps.ConnectionPatchRefsOk | shared/schema.ts:41 | a patched user id must name an existing user |
| StorageOps.UpdateCalendarConnection | server/storage.ts:174-181 | refused for an empty patch; no row is not an error; only the row with the id is patched |
| StorageOps.UpdateCalendarConnectionKeepsValid | server/storage.ts:174-181 | the update keeps the database consistent |
| StorageOps.PatchedEvent | server/storage.ts:195-202 | each of the ten patchable columns takes the patch's value when supplied and keeps its own otherwise; the id and creation time stay |
| StorageOps.EventPatchRefsOk | shared/schema.ts:54-62 | patched family, connection and assignee references must exist, or be null where nullable |
| StorageOps.UpdateEvent | server/storage.ts:195-202 | refused for an empty patch; no row is not an error; only the row with the id is patched |
| StorageOps.UpdateEventKeepsValid | server/storage.ts:195-202 | the update keeps the database consistent |
| StorageOps.PatchedItem | server/storage.ts:227-234 | each patchable column (list, title, assignee, purchased flag) takes the patch's value when supplied and keeps its own otherwise; the id and both timestamps stay |
| StorageOps.ListItemPatchRefsOk | shared/schema.ts:79-82 | patched list and assignee references must exist, or be null where nullable |
| StorageOps.UpdateListItem | server/storage.ts:227-234 | refused for an empty patch; no row is not an error; only the row with the id is patched |
| StorageOps.UpdateListItemKeepsValid | server/storage.ts:227-234 | the update keeps the database consistent |
| StorageOps.PatchedChore | server/storage.ts:250-257 | each patchable column (family, assignee, title, description, points, recurrence, due date) takes the patch's value when supplied and keeps its own otherwise; the id and creation time stay |
| StorageOps.ChorePatchRefsOk | shared/schema.ts:90-93 | patched family and assignee references must exist, or be null where nullable |
| StorageOps.UpdateChore | server/storage.ts:250-257 | refused for an empty patch; no row is not an error; only the row with the id is patched |
| StorageOps.UpdateChoreKeepsValid | server/storage.ts:250-257 | the update keeps the database consistent |
| StorageOps.MarkMessageAsRead | server/storage.ts:282-289 | only the message with the id becomes read; it is returned, or nothing when no message has the id |
| StorageOps.MarkMessageAsReadKeepsValid | server/storage.ts:282-289 | the update keeps the database consistent |
| StorageOps.MarkMessageAsReadIdempotent | server/storage.ts:282-289 | marking a message read twice is the same as marking it once, in state and in reply |
| StorageOps.MemberReferenced | shared/schema.ts:62-104 | true iff an event, list item, chore or completion still names the persona |
| StorageOps.DeleteFamilyMember | server/storage.ts:160-162 | refused iff the persona is still referenced; otherwise exactly the rows with the id go |
| StorageOps.DeleteFamilyMemberKeepsValid | server/storage.ts:160-162 | the delete keeps the database consistent |
| StorageOps.DeleteEvent | server/storage.ts:204-206 | exactly the rows with the id go; nothing else changes |
| StorageOps.DeleteEventKeepsValid | server/storage.ts:204-206 | the delete keeps the database consistent |
| StorageOps.DeleteListItem | server/storage.ts:236-238 | exactly the rows with the id go; nothing else changes |
| StorageOps.DeleteListItemKeepsValid | server/storage.ts:236-238 | the delete keeps the database consistent |
| StorageOps.DeleteChore | server/storage.ts:259-261 | the chore goes with exactly its completions (`on delete cascade`) |
| StorageOps.DeleteChoreKeepsValid | server/storage.ts:259-261 | the cascading delete keeps the database consistent |
| Storage.DbStorage.constructor | server/storage.ts:292 | the storage wraps the existing database, whatever consistent contents it holds |
| Storage.DbStorage.CreateUser | server/storage.ts:107-110 | the database and result after the call are `StorageOps.CreateUser` of the old database; consistency is kept |
| Storage.DbStorage.UpdateUserStripeInfo | server/storage.ts:112-123 | as `StorageOps.UpdateUserStripeInfo`, in place; consistency is kept (the intended update; see Left out) |
| Storage.DbStorage.CreateFamily | server/storage.ts:126-129 | as `StorageOps.CreateFamily`, in place; consistency is kept |
| Storage.DbStorage.CreateFamilyMember | server/storage.ts:146-149 | as `StorageOps.CreateFamilyMember`, in place; consistency is kept |
| Storage.DbStorage.UpdateFamilyMember | server/storage.ts:151-158 | as `StorageOps.UpdateFamilyMember`, in place; consistency is kept |
| Storage.DbStorage.DeleteFamilyMember | server/storage.ts:160-162 | as `StorageOps.DeleteFamilyMember`, in place; consistency is kept |
| Storage.DbStorage.CreateCalendarConnection | server/storage.ts:165-168 | as `StorageOps.CreateCalendarConnection`, in place; consistency is kept |
| Storage.DbStorage.UpdateCalendarConnection | server/storage.ts:174-181 | as `StorageOps.UpdateCalendarConnection`, in place; consistency is kept |
| Storage.DbStorage.CreateEvent | server/storage.ts:190-193 | as `StorageOps.CreateEvent`, in place; consistency is kept |
| Storage.DbStorage.UpdateEvent | server/storage.ts:195-202 | as `StorageOps.UpdateEvent`, in place; consistency is kept |
| Storage.DbStorage.DeleteEvent | server/storage.ts:204-206 | as `StorageOps.DeleteEvent`, in place; consistency is kept |
| Storage.DbStorage.CreateList | server/storage.ts:213-216 | as `StorageOps.CreateList`, in place; consistency is kept |
| Storage.DbStorage.CreateListItem | server/storage.ts:222-225 | as `StorageOps.CreateListItem`, in place; consistency is kept |
| Storage.DbStorage.UpdateListItem | server/storage.ts:227-234 | as `StorageOps.UpdateListItem`, in place; consistency is kept |
| Storage.DbStorage.DeleteListItem | server/storage.ts:236-238 | as `StorageOps.DeleteListItem`, in place; consistency is kept |
| Storage.DbStorage.CreateChore | server/storage.ts:245-248 | as `StorageOps.CreateChore`, in place; consistency is kept |
| Storage.DbStorage.UpdateChore | server/storage.ts:250-257 | as `StorageOps.UpdateChore`, in place; consistency is kept |
| Storage.DbStorage.DeleteChore | server/storage.ts:259-261 | as `StorageOps.DeleteChore`, in place; consistency is kept |
| Storage.DbStorage.CompleteChore | server/storage.ts:263-266 | as `StorageOps.CompleteChore`, in place; consistency is kept |
| Storage.DbStorage.CreateMessage | server/storage.ts:277-280 | as `StorageOps.CreateMessage`, in place; consistency is kept |
| Storage.DbStorage.MarkMessageAsRead | server/storage.ts:282-289 | as `StorageOps.MarkMessageAsRead`, in place; consistency is kept |

## Behaviour worth knowing

- **Invite e-mail.** `POST /api/invites/:token/accept` checks the invite's
  e-mail only against an `email` in the request body, and only when one is
  given (server/routes.ts:372-374); the accepting identity's own e-mail is not
  compared (`AcceptWithoutEmailIsNeverForbidden`).
- **Inviter membership.** `POST /api/invites` allows an invite when the family
  is the one the caller's profile points to (server/routes.ts:265-274); the
  family's personas are not consulted (`CreateInvite`).
- **Signup token.** The signup handler never verifies the token. It only
  requires a second space-separated word in the header (`SchemeIsNotChecked`).
- **Two invite tables.** Invites live in `family_invites` for the API routes
  and in `family_invitations` for signup. The two tables have different
  expiry tests (`>=` against `>`; `ExpiryBoundary`).

## Left out

- **Messages and logging.** The text of error messages, and console logging.
  Replies carry only the status and the body data.
- **Concurrency.** Races between concurrent requests, and transactions. Each
  handler is modelled as its writes in sequence; a failure leaves the earlier
  writes in place, as the source does.
- **Oracles.** The clock, random ids and tokens, the identity provider, the
  Google APIs and the connector service are parameters. Database write failures
  are a parameter set of failing writes. Reads in the route handlers never fail.
- **Nullness of columns.** A NOT NULL or type violation from a patch is not
  modelled: patch fields for non-null columns cannot hold null. Drizzle
  treats an explicit `undefined` in a patch as absent, and so does the model.
- **Subscriptions.** The subscriptions table has no storage operation. It
  appears only in the schema and in the family cascade.
- **Storage-only user columns.** `server/storage.ts` refers to `username`,
  `stripeCustomerId`, `stripeSubscriptionId` and `subscriptionStatus` of the
  `users` table, but `shared/schema.ts:16-24` does not declare them, so as
  written those references name no column. The model adds them to the `users`
  row as nullable columns, giving the intended behaviour of the three members
  below.
- StorageOps.GetUserByUsername: models the intended lookup by username. As
  written, `schema.users.username` is undefined (server/storage.ts:98), so the
  query cannot match a username and may fail outright; the model does not
  capture that.
- StorageOps.UpdateUserStripeInfo: models the intended update of the three
  Stripe columns. As written, the `set` names columns the `users` table lacks
  (server/storage.ts:115-119), so it has nothing to update and may fail; the
  model does not capture that.
- Storage.DbStorage.UpdateUserStripeInfo: the same gap, as it runs
  `StorageOps.UpdateUserStripeInfo` in place.
- Routes.CreateInvite: the insert at server/routes.ts:283-289 does not set
  `accepted`; the model gives the new invite `accepted = false`, assuming a
  column default that no file of the repository defines. With a null default,
  `.eq('accepted', false)` (server/routes.ts:324, 364) would never match the
  invite, and `ResolveInvite` and `AcceptInvite` would refuse it.
- CompleteSignup.Signup, CompleteSignup.HandleSignup, FamilyStore.PendingInvitation:
  these use the corrected lookup `accepted_at is null`, not the `= null`
  filter of server/routes/auth/complete-signup.js:71, which finds no row (see
  Findings: `CompleteSignup.PendingInvitationAsWritten` and
  `AsWrittenInvitationNeverFound` model the code as written).
- **Error precedence.** When several constraints fail at once, the model reports
  duplicate key first, then a missing reference. PostgreSQL's own order is not
  part of the source.
- **Storage errors.** `DbStorage` methods report a violated constraint as a
  value; the source throws it to its caller. None of the modelled route
  handlers calls `DbStorage`.
- **Empty ids.** Ids are never the empty string. The handlers test
  `!user.family_id`, which is also true for `""`; the model tests for a
  missing family id, which agrees with the source only under this assumption.
- FamilyContext.Rejection: when both requests reject, `Promise.all` reports
  whichever rejects first, which depends on timing; the model takes the
  families request's reason. A 2xx body that is not valid JSON is not modelled.
- **Client rendering.** Rendering, toasts, navigation timing, and the wizard's
  `isLoading` flag are not modelled. The cooldown timer is modelled as
  one-second ticks.
- **Calendar dates.** `new Date(text)` parsing is a parameter; an invalid date
  is a distinct value.
- **Other repository files.** `server/db.ts`, the two handlers under
  `server/routes/invites/`, and the pages and components outside the guarded
  route, the family context and the onboarding wizard are not part of this
  model.
- Storage.DbStorage query methods: the reading methods of `DbStorage` are not
  repeated on the class; they are the `StorageOps` queries of its `db` field.

## Findings

| source | as written | input that shows it | evidently intended | confidence | as-written member | corrected member |
|---|---|---|---|---|---|---|
| server/routes/auth/complete-signup.js:71 | the filter `.eq('accepted_at', null)` never matches a pending invitation, whose `accepted_at` is NULL | any invitation, e.g. one with `accepted_at` null and `expires_at` in the future, with the matching token: the lookup finds nothing and the signup is refused with 400 | `accepted_at is null` (`.is('accepted_at', null)`), so that a pending invitation is found | medium, not executed | CompleteSignup.AsWrittenInvitationNeverFound | CompleteSignup.PendingInvitationFindsFresh |
