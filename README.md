# Event portal core in Dafny

This project models the decision logic of a small club portal. Members propose events, vote on them, discuss them and complete the tasks an admin assigns. Admins approve accounts, change roles and approve or decline events. The model covers:

- **Events** (`events.dfy`, module `Events`). An `Event` class holds the fields the route handlers change in place: the editable details, the `upvotes`/`downvotes` lists, the embedded `tasks` and the `discussion`. An `EventStore` class holds the collection and dispatches each `/events/:id` handler to the event with that id, or answers 404.
- **Votes** (`votes.dfy`). The up/down toggle as a function on the two vote lists, with the invariant that keeps a voter in at most one list.
- **Tasks** (`tasks.dfy`):
  - the legacy single-assignee shape and its rewrite into a one-element list;
  - the completion path, which derives `completed`/`in-progress` by counting the distinct completers who are assignees;
  - the manual status override.
- **Users** (`users.dfy`). The account lifecycle:
  - registration, where the first account is an approved admin;
  - the login approval gate;
  - the admin seed;
  - profile edits;
  - approval, role change and deletion;
  - the pending list and the team directory.

  Each route that changes accounts is a function from the user collection to a status code and a new collection, and a `UserStore` class applies these functions in place. Login and the two list routes change nothing: they are functions that read the collection and return a reply or a list.
- **Stats** (`stats.dfy`). The member dashboard counters. A method with nested loops splits the caller's tasks into completed and pending, and the `||` fallback turns a zero upcoming-event count into the approved-event count.
- **Route guard** (`guard.dfy`, module `RouteGuard`). The client's `ProtectedRoute` decision and its route table.
- **Multi-select** (`multiselect.dfy`). The membership toggle of the multi-select input and its label.

Shared vocabulary lives in `common.dfy`: ids, roles, status codes, `Option`/`Result`, the filter idiom `Without` and the first-match lookup `FindFirst`.

Modelling conventions:

- **Environment.** The caller the authentication middleware attaches is a `Caller` parameter. The admin middleware is a `requires caller.role == Admin` on the admin routes.
- **Password check.** The bcrypt comparison is the function parameter `verify`, and password hashes arrive as parameters.
- **Time.** Instants (`Date.now()`, `new Date()`) are `Time` parameters.
- **Ids.** Document ids come from a counter in each store. A pushed task gets an id no task of its event holds (one more than the largest), which stands for the fresh `_id` the database assigns.
- **Errors.** Every permission failure is 401, as in the code.

The code differs from what one might assume in these places, and the model follows the code:

- A task with no assignees becomes `completed` on the first completion (`Tasks.NoAssigneesCompletes`).
- A task that the handler sees with a missing or bare-id `assignedTo`, not a list, makes the assignee check of the task-update route throw, and the route answers 500 (`Events.Event.UpdateTask`).
- The stats route skips a task that it sees with a missing `assignedTo`, but a task it sees holding a bare id throws when it sits in an event that the stats query loads, and the route answers 500 (`Stats.ComputeStats`).

## Model

| member | source | states |
|---|---|---|
| Common.Without | server/routes/events.js:126 | filtering a user out leaves no occurrence of the user, keeps every other member and adds nothing |
| Votes.CastVote | server/routes/events.js:123-147 | an "up" vote puts the voter in the up list exactly when they were not in it and leaves them in the down list only if they were in both; "down" is symmetric; any other kind changes nothing; no other user's membership of either list changes |
| Votes.Retract | server/routes/events.js:123-138 | voting in the direction already held removes every occurrence of the voter from that list and leaves the other list unchanged |
| Votes.Cast | server/routes/events.js:127-146 | voting in a direction not held appends the voter exactly once, removes the voter from the opposite list, and keeps every other id of both lists in its original order |
| Votes.IgnoredKind | server/routes/events.js:123-147 | a vote type other than "up" or "down" changes neither list |
| Votes.KeepsAtMostOne | server/routes/events.js:118-147 | any user in at most one vote list before any vote is still in at most one afterwards |
| Votes.KeepsExclusive | server/routes/events.js:118-147 | disjointness of the two vote lists is preserved by every vote |
| Votes.VoteTwiceRestores | server/routes/events.js:118-147 | from a state where the voter is in neither list, two identical votes restore both lists exactly |
| Votes.SecondVoteRetracts | server/routes/events.js:123-146 | a second identical vote removes the voter from the list the first vote added them to |
| Votes.UpThenDown | server/routes/events.js:123-146 | "up" followed by "down" leaves the voter in the down list only |
| Tasks.CountReachesSize | server/routes/events.js:249-254 | the count of completers who are assignees reaches the number of distinct assignees exactly when every assignee is a completer |
| Tasks.DerivedStatus | server/routes/events.js:245-260 | the derived status is `completed` exactly when every assignee is in `completedBy`, and `in-progress` otherwise |
| Tasks.NoAssigneesCompletes | server/routes/events.js:254 | an empty assignee list yields `completed` |
| Tasks.NonAssigneeIgnored | server/routes/events.js:248-252 | completions by users who are not assignees do not change the derived status |
| Tasks.NewAssigneeReopens | server/routes/events.js:245-259 | an assignee who has not completed keeps the task `in-progress` whatever else `completedBy` holds |
| Tasks.MarkCompleted | server/routes/events.js:236-260 | the caller ends up in `completedBy`, added at most once at the end; the status is `completed` exactly when every assignee has completed, and never `pending`; the other fields are kept |
| Tasks.ApplyStatus | server/routes/events.js:236-265 | an authorised request keeps the task's id, title, assignees and deadline; `completed` adds the caller and derives the status from whether every assignee has completed; any other status is stored, with `pending` clearing and `in-progress` keeping `completedBy` |
| Tasks.MayUpdate | server/routes/events.js:230-235 | an admin may always update a task; a member exactly when they are among its assignees |
| Tasks.Override | server/routes/events.js:261-265 | any other requested status is stored verbatim; `pending` alone clears `completedBy`; nothing else changes |
| Tasks.CompletedIsStable | server/routes/events.js:236-260 | once a completion makes a task `completed`, further completions by anyone keep it `completed` |
| Tasks.Normalized | server/routes/events.js:183-185 | a bare assignee id becomes a one-element list; nothing else in the task changes, and no bare id remains |
| Tasks.NormalizeAll | server/routes/events.js:181-187 | every task of the list is rewritten by the legacy fix, in place and in order |
| Tasks.NormalizeAllIdempotent | server/routes/events.js:181-187 | the legacy fix is idempotent and leaves no bare assignee |
| Tasks.NewTask | server/routes/events.js:190-196 | a new task carries the given id, title and deadline, a list of assignees (a single id is wrapped), status `pending` and no completions |
| Tasks.FreshTaskId | server/routes/events.js:197 | the id given to a pushed task is held by no task of the event |
| Tasks.NormalizeAllKeepsIds | server/routes/events.js:182-186 | the legacy fix keeps each task's id at its own position, so every id of the input is still present |
| Tasks.CountValidCompletions | server/routes/events.js:245-252 | the counting loop returns the number of distinct completers who are distinct assignees |
| Events.Merge | server/routes/events.js:81-89 | each text field takes the body value when it is non-empty and keeps the old value otherwise; the participant count is replaced only by a truthy value; the status only when supplied |
| Events.MergeProperties | server/routes/events.js:81-89 | a body whose fields are all falsy changes nothing, and applying the same edit twice equals applying it once |
| Events.Event.constructor | server/routes/events.js:53-61 | a new proposal carries the proposer and the given details, is `pending`, and has no votes, tasks or comments |
| Events.Event.Update | server/routes/events.js:77-89 | a caller who is neither admin nor proposer gets 401 and nothing changes; otherwise the details become the merge of the old details with the body |
| Events.Event.Vote | server/routes/events.js:111-147 | the two vote lists become the vote toggle of the old lists |
| Events.Event.AddTask | server/routes/events.js:176-197 | a non-admin gets 401 and the tasks are unchanged; otherwise every existing task goes through the legacy fix and the new task is appended last under a fresh id, by which it is then found; only `tasks` may change |
| Events.Event.UpdateTask | server/routes/events.js:223-277 | a missing task gives 404, a task whose `assignedTo` is not a list gives 500, a caller who is neither admin nor assignee gets 401, all with no change; otherwise exactly that task is replaced by the completion or override result |
| Events.Event.AddComment | server/routes/events.js:294-299 | the comment by the caller, stamped with the given instant, is appended to the discussion |
| Events.Event.SetStatus | server/routes/admin.js:94 | the given status is stored |
| Events.CanModify | server/routes/events.js:77 | an admin may edit or delete any event; a member exactly the events they proposed |
| Events.ListFilter | server/routes/events.js:14-20 | an explicit status query is the filter; without one a member is filtered to `approved` and an admin gets no filter |
| Events.Listed | server/routes/events.js:23-27 | the listing holds exactly the events whose status the filter admits, each drawn from the collection |
| Events.DefaultListing | server/routes/events.js:16-20 | without a query a member lists exactly the approved events and an admin lists every event |
| Events.QueryListing | server/routes/events.js:14-15 | an explicit status query selects exactly the events with that status, for any role |
| Events.ProposalsOf | server/routes/events.js:39 | the proposals listed are exactly the caller's events |
| Events.EventStore.Propose | server/routes/events.js:50-63 | a fresh pending event carrying the given title, description, venue, date and participant count, with the caller as proposer and no votes, tasks or comments, is appended, is found under its new id, and ids stay distinct |
| Events.EventStore.TargetIsFound | server/routes/events.js:74-75 | while event ids are distinct, the objects a handler for an id may change are exactly the one event found by that id, or none when it is missing |
| Events.EventStore.Update | server/routes/events.js:72-95 | with ids distinct before and after, a missing event gives 404; otherwise the event's edit outcome (401 with no change, or the merge); only the six detail fields of that event may change |
| Events.EventStore.Vote | server/routes/events.js:109-154 | with ids distinct before and after, a missing event gives 404; otherwise the event's vote lists become the toggle of the old ones; only the two vote lists of that event may change |
| Events.EventStore.AddTask | server/routes/events.js:173-205 | with ids distinct before and after, a missing event gives 404 before the admin check; otherwise the event's task outcome (401 with no change, or legacy fix plus append under a fresh id by which the new task is found); only that event's tasks may change |
| Events.EventStore.UpdateTask | server/routes/events.js:221-280 | with ids distinct before and after, a missing event or task gives 404; otherwise the event's task-update outcome (500 or 401 with no change, or exactly that task replaced); only that event's tasks may change |
| Events.EventStore.AddComment | server/routes/events.js:292-307 | with ids distinct before and after, a missing event gives 404; otherwise the comment is appended to that event's discussion, the only field that may change |
| Events.EventStore.SetStatus | server/routes/admin.js:89-99 | behind the admin gate and with ids distinct before and after, a missing event gives 404; otherwise the given status is stored, the only field that may change |
| Events.EventStore.Delete | server/routes/events.js:316-330 | a missing event gives 404; a caller who is neither admin nor proposer gets 401 with no change; otherwise exactly that event is removed and no event with that id remains |
| Users.Registration | server/routes/auth.js:22-41 | a taken username gives 400 and no change; otherwise one account is appended, an admin and approved exactly when the collection was empty |
| Users.UserStore.Register | server/routes/auth.js:18-41 | the store's code and collection are those of the registration function, and ids stay distinct |
| Users.Login | server/routes/auth.js:66-82 | an unknown user or a failed password check gives 401; with a correct password an unapproved non-admin gets 401, and anyone else gets their id, username, role, profile image (absent without a profile) and approval flag |
| Users.LoginGate | server/routes/auth.js:68-71 | a successful login is always for an approved user or an admin whose password checked |
| Users.Seeding | server/routes/auth.js:94-108 | 400 and no change when an admin exists; otherwise one approved admin named "admin" with the fixed profile is appended |
| Users.SeedOnce | server/routes/auth.js:94-97 | after seeding an admin exists, so a second seed gives 400 |
| Users.UserStore.Seed | server/routes/auth.js:92-110 | the store's code and collection are those of the seed function |
| Users.MergeProfile | server/routes/auth.js:130-138 | a missing profile starts empty; name, bio and contact are overwritten exactly when the request value is not undefined (null and "" overwrite); the image is kept |
| Users.MergeProfileProperties | server/routes/auth.js:136-138 | an edit supplying nothing keeps the profile, and merging the same edit twice equals merging it once |
| Users.ProfileUpdate | server/routes/auth.js:124-151 | a missing user gives 404; otherwise only that user's profile changes, to the merge |
| Users.UserStore.UpdateProfile | server/routes/auth.js:119-151 | the store follows the profile-update function, and the 200 response is the caller's updated record without the password |
| Users.PendingUsers | server/routes/admin.js:12 | the pending list is exactly the unapproved members, without passwords |
| Users.Directory | server/routes/admin.js:25 | the directory is exactly the approved users of any role, without passwords |
| Users.ListsPartition | server/routes/admin.js:12-25 | no user is in both lists, and a user in neither is an unapproved admin |
| Users.Approval | server/routes/admin.js:37-44 | a missing id gives 404; otherwise only the target becomes approved |
| Users.ApprovalIdempotent | server/routes/admin.js:37-41 | approving twice is approving once |
| Users.UserStore.Approve | server/routes/admin.js:35-44 | behind the admin gate, the store follows the approval function |
| Users.Removal | server/routes/admin.js:55-61 | a missing id gives 404; otherwise the target's position is removed |
| Users.RemovalExact | server/routes/admin.js:55-58 | with distinct ids, the target is gone, every other user stays, and no user is added |
| Users.UserStore.Delete | server/routes/admin.js:53-61 | behind the admin gate, the store follows the removal function and ids stay distinct |
| Users.RoleChange | server/routes/admin.js:73-80 | a missing id gives 404; otherwise the given role is stored on the target only |
| Users.UserStore.SetRole | server/routes/admin.js:70-80 | behind the admin gate, the store follows the role-change function |
| Users.ApprovalScenario | server/routes/auth.js:32-71 | an empty portal's first registrant is an approved admin; a second registrant is an unapproved member whose login is refused until the admin approves them |
| Stats.SplitTasks | server/routes/stats.js:28-30 | every task of the user in an event counts once, as completed when its status is `completed` and as pending otherwise |
| Stats.UnselectedHoldsNone | server/routes/stats.js:20-28 | an event the query does not load holds none of the user's tasks |
| Stats.TasksPartition | server/routes/stats.js:24-34 | completed plus pending equals the number of tasks, across all events, whose assignee list contains the user |
| Stats.ApprovedCount | server/routes/stats.js:16 | the approved count is at most the number of events, and zero exactly when no event is approved |
| Stats.UpcomingCount | server/routes/stats.js:14 | the upcoming count is at most the number of events, and zero exactly when no approved event is dated at or after now |
| Stats.ProposalCount | server/routes/stats.js:18 | the proposal count is at most the number of events, and zero exactly when the user proposed none |
| Stats.UpcomingOrAll | server/routes/stats.js:37 | a non-zero upcoming count is reported as it is; zero falls back to the approved count |
| Stats.UpcomingAtMostApproved | server/routes/stats.js:14-16 | the upcoming count never exceeds the approved count |
| Stats.UpcomingFallback | server/routes/stats.js:37 | the reported count is the upcoming count when that is non-zero, never exceeds the approved count, and is zero only when nothing is approved |
| Stats.ProposalsCounted | server/routes/stats.js:18 | `myProposals` is the number of the user's proposals, whatever their status |
| Stats.ComputeStats | server/routes/stats.js:10-43 | the route gives 500 exactly when a loaded event holds a task with a bare assignee id; otherwise it returns the four counters defined above |
| RouteGuard.Guard | client/src/App.jsx:17-29 | no token redirects to /login; with a token, a given allowed role that rejects the stored role redirects to /; otherwise the page renders in a layout carrying the stored role |
| RouteGuard.GuardAdmits | client/src/App.jsx:19-27 | with a token, a page renders exactly when no allowed role is given, the array contains the role, or the single role equals it; a missing stored role is rejected by every given allowed role |
| RouteGuard.Routes | client/src/App.jsx:37-101 | the table has two public pages first, ten guarded pages, and the default redirect last, with every path declared once |
| RouteGuard.AdminSection | client/src/App.jsx:40-56 | the routes under /admin are exactly the three admin pages |
| RouteGuard.AdminRoutesAdminOnly | client/src/App.jsx:40-56 | every /admin route renders exactly for an admin with a token |
| RouteGuard.MemberDashboardMemberOnly | client/src/App.jsx:64-68 | /member renders exactly for a member with a token, and redirects an admin to / |
| RouteGuard.SharedPagesAdmitBoth | client/src/App.jsx:58-98 | every route with an array of roles admits both admins and members |
| RouteGuard.PublicPagesOpen | client/src/App.jsx:37-38 | /login and /register are shown to every session, outside the layout |
| RouteGuard.RootRedirects | client/src/App.jsx:101 | / always redirects to /login |
| RouteGuard.NoTokenNoPage | client/src/App.jsx:21 | without a token no protected route renders; each redirects to /login |
| MultiSelect.Toggle | client/src/components/MultiSelect.jsx:18-23 | a present id is removed entirely, an absent id is appended once at the end, and the other ids keep their relative order |
| MultiSelect.ToggleTwice | client/src/components/MultiSelect.jsx:19-21 | toggling an absent id twice returns the original list |
| MultiSelect.ToggleRemoves | client/src/components/MultiSelect.jsx:19-20 | removing a present id changes no other id's number of occurrences |
| MultiSelect.Decimal | client/src/components/MultiSelect.jsx:45 | a count is written as decimal digits with no leading zero, and zero as "0" |
| MultiSelect.DecimalRoundTrip | client/src/components/MultiSelect.jsx:45 | the digits written for a count read back as that count |
| MultiSelect.Label | client/src/components/MultiSelect.jsx:4-47 | a non-empty selection shows its size in digits, with no leading zero, followed by " selected"; an empty one shows the placeholder prop, or "Select..." when none is given |

## Left out

- Database access (`find`, `findById`, `save`, `countDocuments`, `deleteOne`) is replaced by sequences held in the two store classes. The `populate` projections are not modelled, and neither is the 500 that a failing database call produces.
- Listing order: the database sort on `createdAt` is modelled as reverse creation order, with the collection kept in creation order.
- The models/User.js schema is not part of this model. A unique index on usernames, the default of `isApproved` and validation of `role` are therefore not captured.
- Enum validation on save is not modelled. Requested event and task statuses and roles are typed by the schema enums, so a request carrying a value outside them, which would fail on save, is not modelled. A task-update request with no `status` at all is not modelled either: it takes the override branch and stores `undefined`, which the enum validator lets through.
- Users.UserStore.SetRole: stores a `Role`, not an arbitrary string; a role outside the enum is outside the model.
- Events.EventStore.SetStatus: stores an `EventStatus`, not an arbitrary string, for the same reason.
- bcrypt hashing and comparison are parameters. JWT signing is left out as opaque.
- The `protect` and `admin` middleware are not part of this model. Authentication appears as the `Caller` parameter and the admin gate as a precondition.
- Users.PendingUsers: the admin gate in front of the pending list is not a parameter of the function. Only the mutating admin routes carry it as a precondition.
- Missing legacy `upvotes`, `downvotes` and `completedBy` arrays are treated as empty lists, since the handlers initialise them to empty arrays before use (server/routes/events.js:114-115, 233).
- A missing `tasks` array is not modelled: no handler initialises it, so `push` and `id` on it (server/routes/events.js:197, 223) would throw and answer 500; the model's event always holds a (possibly empty) task list.
- The token in the login and register responses is left out; the rest of the login response is modelled.
- A stored `assignedTo` that is a bare id is taken as the handlers see it. Whatever the database driver does to such a value on load is outside the model.
- JavaScript truthiness of the edit body is modelled for the fields the code reads: text fields use "" for absent, and the participant count treats absent and 0 as falsy. Other falsy values, such as a date of 0, are not distinguished.
- `Date.now()` and `new Date()` are `Time` parameters. An instant is compared as a number.
- Console logging is left out.
- Concurrent requests interleaving read-modify-write on one event are left out.
- server/routes/messages.js and client/src/components/Layout/Sidebar.jsx are not part of this model. They hold a store query with an insert, and presentational links.
- The I/O scripts (server/test_endpoint.js, server/dump_users_fs.js, server/reset_db.js) are not part of this model.
- MultiSelect's outside-click listener and rendering, App.jsx's React rendering, and the router's path ranking are left out. The route table is modelled as data, and each route's element is visited directly.
- RouteGuard.GuardAdmits: a stored user whose JSON does not parse, or whose role is a string other than admin or member, is outside the model; a stored role is `None` or one of the two roles.
