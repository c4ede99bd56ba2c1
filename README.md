# Task manager core in Dafny

This project models the server side of an Express/Mongo task manager and proves properties of that model. The server has users with roles (user, premium, admin), tasks with a soft-delete flag, and comments on tasks.

The three Mongo collections are a class `Store.Db` with one map field per collection. Each map goes from document id to record. Handlers that write to the store are methods that modify those fields. Decisions, filters and counts are functions.

Time is an integer number of milliseconds, and days are UTC days. Hashing, password comparison, regex matching and email sending are function parameters. Fresh document ids are parameters too.

The model covers:

- the role gate and the 20-task quota for plain users (`RoleCheck`);
- the task and comment body validators (`Validate`);
- the user record, its setters, its field constraints and its pre-save hook (`UserModel`);
- the two daily email scans, the 9:00 reminder scan and the 10:00 overdue scan, with the overdue flag (`EmailScheduler`);
- the handlers for tasks, admin, preferences, profile, auth, comments and the dashboard, one module each;
- properties that span several handlers (`CrossChecks`).

Files:

- `wrappers.dfy`: `Option` and the HTTP `Reply`.
- `text.dfy`: JavaScript white space, `trim`, lower-casing and truthiness.
- `user_model.dfy`, `task_model.dfy` and `store.dfy`: the records and the store.
- One file per middleware or controller.
- `cross_checks.dfy`: the cross-handler properties.

## Model

| member | source | states |
|---|---|---|
| Text.Trim | taskmaster-final/models/User.js:15 | the trim setter returns a contiguous middle of the value, having cut only white space from the front and from the back, and leaves no white space at either end; all-blank text becomes the empty string |
| Text.TrimIdempotent | taskmaster-final/models/User.js:15 | trimming a trimmed value changes nothing, so a stored value survives being normalised again by a query |
| UserModel.ParseRole | taskmaster-final/models/User.js:32-36 | a text names a role exactly when it is one of user, premium, admin, and the role found has that name |
| UserModel.Public | taskmaster-final/models/User.js:26-31 | the view a query returns carries id, username, email, role and preferences, and no password |
| UserModel.EmailShapedIsPattern | taskmaster-final/models/User.js:24 | the executable email check accepts exactly the strings the pattern `^\S+@\S+\.\S+$` matches |
| UserModel.NewUser | taskmaster-final/models/User.js:11-52 | a new document has role user, the schema's preference defaults, a trimmed username and a lower-cased, trimmed email |
| UserModel.PreSave | taskmaster-final/models/User.js:60-70 | the pre-save hook changes nothing but the password; it leaves the document as is when the password was not modified, and stores the hash of the plain text when it was |
| TaskModel.ParseStatus | middleware/validate.js:11 | a text is a status exactly when it is todo, in-progress or completed |
| TaskModel.ParsePriority | middleware/validate.js:12 | a text is a priority exactly when it is low, medium or high |
| TaskModel.ParseCategory | middleware/validate.js:13 | a text is a category exactly when it is work, personal, urgent or other |
| Validate.ValidateTask | middleware/validate.js:7-29 | the body passes exactly when the title has 3–200 characters, the description at most 1000 (empty allowed), status/priority/category name a valid value, assignedTo is 24 hex digits, the due date is ISO, and there are no other keys; the typed input carries the body's values; a bad title is reported first |
| Validate.ValidateBodyOf | middleware/validate.js:8-16 | every input that meets the schema, written back as a body, validates to itself |
| Validate.ValidateComment | middleware/validate.js:31-47 | the comment body passes exactly when the text is present with 1–500 characters and no other key appears |
| RoleCheck.CheckRole | middleware/roleCheck.js:11-41 | 401 without a user; otherwise the request passes exactly when the role, defaulting to user, is listed, and else gets 403 naming the allowed roles joined by " or " |
| RoleCheck.IsAdminAdmitsOnlyAdmins | middleware/roleCheck.js:46-48 | `isAdmin` passes exactly the admins |
| RoleCheck.PremiumOrAdminIsFlat | middleware/roleCheck.js:53-55 | `isPremiumOrAdmin` passes exactly admin and premium; a user without a role is refused |
| RoleCheck.CheckTaskLimit | middleware/roleCheck.js:60-93 | admin and premium always pass; a plain user passes exactly when their count of tasks that are not soft-deleted is below 20, otherwise gets 403 with the count and the limit; a failed count or a missing user gives 500 |
| RoleCheck.LimiterAndQuotaExemptSameUsers | taskmaster-final/middleware/rateLimiter.js:53-56 | the task-creation rate limiter skips exactly the users the quota passes whatever their count |
| RoleCheck.FailedCountNeverPasses | middleware/roleCheck.js:86-92 | a store failure while counting never lets a plain user through |
| EmailScheduler.StartOfDay | taskmaster-final/utils/emailScheduler.js:65-66 | today's midnight is at or before the instant, less than a day before it, and on a day boundary |
| EmailScheduler.ReminderWindow | taskmaster-final/utils/emailScheduler.js:20-25 | the reminder window runs from tomorrow's midnight to the midnight a day later |
| EmailScheduler.ManualCheckDeadlines | taskmaster-final/utils/emailScheduler.js:126-155 | lists exactly the incomplete tasks due tomorrow, and fails exactly when one of them has no stored owner |
| EmailScheduler.Delivered | taskmaster-final/utils/emailScheduler.js:78-91 | only tasks whose owner exists and wants email can have an overdue email delivered |
| EmailScheduler.RunReminderScan | taskmaster-final/utils/emailScheduler.js:16-55 | the scan reminds, without changing any task, exactly the owners who want email of the tasks the manual check lists; it stops exactly when a selected task has no owner |
| EmailScheduler.RunReminderScanTwice | taskmaster-final/utils/emailScheduler.js:28-49 | the reminder scan keeps no flag, so running it twice on a day sends the same reminders twice |
| EmailScheduler.RunOverdueScan | taskmaster-final/utils/emailScheduler.js:61-99 | the scan handles every incomplete, unflagged task due before today's midnight, or stops at the first one without an owner; it emails those whose owner wants email, and sets `overdueEmailSent` on exactly the tasks whose email was delivered; the store it leaves is that of one run of the history model |
| EmailScheduler.DueTodayIsInNeitherScan | taskmaster-final/utils/emailScheduler.js:20-72 | a task due today is picked by neither the reminder nor the overdue scan |
| EmailScheduler.SoftDeletedTasksAreStillScanned | taskmaster-final/utils/emailScheduler.js:28-73 | neither scan looks at `isDeleted`, so soft-deleted tasks are still emailed |
| EmailScheduler.NotificationsOffLeaveFlag | taskmaster-final/utils/emailScheduler.js:79-92 | an owner with `emailNotifications: false` gets no overdue email, and the task's flag is left as it was |
| EmailScheduler.FailedSendIsRetried | taskmaster-final/utils/emailScheduler.js:88-91 | a failed send leaves the flag unset, so every later run selects the task again |
| EmailScheduler.AfterRunOnlySetsFlags | taskmaster-final/utils/emailScheduler.js:88-91 | an overdue run changes a task only by setting its flag, and does so exactly for the delivered tasks |
| EmailScheduler.FlagStaysSet | taskmaster-final/utils/emailScheduler.js:72-91 | once set, the overdue flag stays set through any later runs |
| EmailScheduler.AtMostOneOverdueEmail | taskmaster-final/utils/emailScheduler.js:69-91 | across any sequence of overdue runs, with users that may change between runs and runs that may stop part-way, each task's overdue email is delivered at most once |
| EmailScheduler.RunOverdueScans | taskmaster-final/utils/emailScheduler.js:61-99 | running the 10:00 job on successive days leaves the store the history of those runs gives, and no task's overdue email is delivered on two of those days |
| TaskController.ListTasks | controllers/taskController.js:9-39 | the listing holds only the requester's tasks that are not soft-deleted |
| TaskController.MoreFiltersListFewer | controllers/taskController.js:15-23 | adding a status, priority, category or search filter only narrows the listing |
| TaskController.NoFiltersListAllActive | controllers/taskController.js:13 | without filters the listing is all of the requester's tasks that are not soft-deleted |
| TaskController.GetTask | controllers/taskController.js:42-64 | found exactly when the id is stored and not soft-deleted, else 404 "Task not found" |
| TaskController.LookupIgnoresOwner | controllers/taskController.js:44-51 | the lookup returns another user's task just the same |
| TaskController.NewTask | controllers/taskController.js:69-72 | a created task belongs to the requester, carries the body's title, due date and assignee, and is neither deleted nor flagged |
| TaskController.AssignmentRecipient | controllers/taskController.js:74-85 | the assignment email goes out exactly when the assignee is given, is not the requester, and is a stored user |
| TaskController.CreateTask | controllers/taskController.js:67-98 | stores exactly the new task under the fresh id, replies 201 with it, and names the assignment-email recipient |
| TaskController.ApplyUpdate | controllers/taskController.js:112-115 | an update never changes the owner, the creation time, the soft-delete flag or the overdue flag; the title, and every supplied description, status, priority, category, due date and assignee, is stored as given; absent ones keep their stored values |
| TaskController.UpdateTask | controllers/taskController.js:101-128 | 404 and no change for a missing or soft-deleted task; otherwise exactly that task is replaced by its update |
| TaskController.SoftDeleted | controllers/taskController.js:142-143 | a soft delete keeps every document in the store |
| TaskController.DeleteTask | controllers/taskController.js:131-156 | 404 only for a missing id; otherwise the task is marked deleted, even when it already was |
| TaskController.SoftDeleteHidesTask | controllers/taskController.js:142 | the soft delete changes only that task's flag, is idempotent, and afterwards the task is not found and not listed |
| TaskController.SearchTasks | controllers/taskController.js:159-191 | 400 without a query text; otherwise the same tasks as the listing with only the search filter |
| AdminController.PageCount | taskmaster-final/controllers/adminController.js:44 | with a positive limit, `pages` is the least count of pages that holds all documents; no number for a zero limit; the JavaScript ceiling for a negative one |
| AdminController.Window | taskmaster-final/controllers/adminController.js:32-33 | the page is the run of matching documents that starts after the skip, at most `limit` long (no bound for 0, the absolute value for a negative limit) |
| AdminController.Listing | taskmaster-final/controllers/adminController.js:30-46 | 500 for a negative skip; otherwise the window at skip `(page-1)*limit`, the total of all matches, and the page count |
| AdminController.EveryDocumentIsOnItsPage | taskmaster-final/controllers/adminController.js:32-33 | with a positive limit, matching document i is at position i mod limit of page i div limit + 1 |
| AdminController.LastPageIsNonEmpty | taskmaster-final/controllers/adminController.js:42-45 | the page numbered `pages` holds documents and the page after it is empty |
| AdminController.Filter | taskmaster-final/controllers/adminController.js:30 | the query keeps exactly the documents that match, without adding any |
| AdminController.GetAllUsers | taskmaster-final/controllers/adminController.js:14-54 | 500 exactly when `(page - 1) * limit` is negative; otherwise the page shown is the window of the matching users at that skip, without passwords, with the total of all matching users and its page count; page 1 and 20 per page by default |
| AdminController.TaskFilter | taskmaster-final/controllers/adminController.js:211-214 | the filter has a key for exactly the supplied status, priority and userId, with the supplied values |
| AdminController.AdminFilterMeaning | taskmaster-final/controllers/adminController.js:210-216 | a task matches exactly when it agrees with every supplied parameter, and soft deletion makes no difference |
| AdminController.GetAllTasks | taskmaster-final/controllers/adminController.js:206-240 | the reply is the listing of the tasks agreeing with every supplied filter, soft-deleted ones included: 500 for a negative skip, else the window at the skip, the total and the page count; page 1 and 50 per page by default |
| AdminController.UpgradeEmailCases | taskmaster-final/controllers/adminController.js:135-137 | making someone a plain user never sends the upgrade email, an unchanged role never does, and every real change to premium or admin does |
| AdminController.UpdateUserRole | taskmaster-final/controllers/adminController.js:100-156 | 400 for an unknown role before any lookup; then 404, then 400 for the requester's own role; on success only the target's role changes, the reply reports the old and new roles, and the email is sent exactly on an upgrade |
| AdminController.RoleChangeKeepsInvariants | taskmaster-final/controllers/adminController.js:130-132 | a role change keeps logins unique and every task's owner stored |
| AdminController.TasksNotOwnedBy | taskmaster-final/controllers/adminController.js:181 | `deleteMany` leaves exactly the other users' tasks, unchanged |
| AdminController.DeletedCountAddsUp | taskmaster-final/controllers/adminController.js:181-191 | the deleted count plus the remaining tasks is the number of tasks before |
| AdminController.DeleteUser | taskmaster-final/controllers/adminController.js:161-201 | 404, then 400 for self-deletion; otherwise every task of the user goes, deleted or not, then the user, and the count of removed tasks is reported |
| AdminController.DeleteUserKeepsInvariants | taskmaster-final/controllers/adminController.js:181-184 | after the cascade every remaining task still has a stored owner and logins stay unique |
| AdminController.DeleteAnyTask | taskmaster-final/controllers/adminController.js:245-273 | 404 for a missing id; otherwise the task is removed outright, whoever owns it |
| PreferencesController.GetPreferences | taskmaster-final/controllers/preferencesController.js:12-45 | 404 for a missing user; the stored preferences, or the fixed fallback record (light, ru, Asia/Almaty, on, on, on, off) when there are none |
| PreferencesController.CheckBody | taskmaster-final/controllers/preferencesController.js:62-78 | the body is refused exactly when a truthy theme is not light/dark/auto or a truthy language is not ru/en/kk, with the theme message first |
| PreferencesController.Merge | taskmaster-final/controllers/preferencesController.js:90-99 | a truthy theme, language or timezone overwrites, and each of the four booleans overwrites whenever present, even when false |
| PreferencesController.MergeKeepsUnsupplied | taskmaster-final/controllers/preferencesController.js:90-99 | every field the body does not supply (an empty text included) keeps its stored value |
| PreferencesController.MergeIdempotent | taskmaster-final/controllers/preferencesController.js:90-99 | applying the same update twice stores what applying it once stores |
| PreferencesController.MergeKeepsChoicesValid | taskmaster-final/controllers/preferencesController.js:62-99 | after a checked update the stored theme and language stay within their lists |
| PreferencesController.UpdatePreferences | taskmaster-final/controllers/preferencesController.js:50-115 | 400 before the lookup for a bad theme or language, 404 for a missing user, otherwise the merge is stored and returned |
| PreferencesController.ResetPreferences | taskmaster-final/controllers/preferencesController.js:120-156 | 404 for a missing user; otherwise the fallback record is stored and returned |
| PreferencesController.ReadAfterWrite | taskmaster-final/controllers/preferencesController.js:132-140 | after an update a read returns the merge; after a reset it returns what a user without preferences sees; a second reset changes nothing |
| UserController.GetProfile | taskmaster-final/controllers/userController.js:10-42 | 404 for a missing user, otherwise the user's fields without the password |
| UserController.ProfileOutcome | taskmaster-final/controllers/userController.js:47-108 | 404 for a missing user; "Username already taken" exactly when a changed username's normalised value is stored; "Email already in use" exactly when, after that, a changed email's normalised value is stored; success exactly when both checks pass and the resulting values meet the schema, else 500; a save keeps role, password and preferences and takes the normalised new values |
| UserController.UpdateProfile | taskmaster-final/controllers/userController.js:58-86 | stores the outcome's document only when every check passed, and otherwise changes nothing |
| UserController.CurrentValuesAreNoOp | taskmaster-final/controllers/userController.js:62-74 | sending the stored username and email back changes nothing |
| UserController.OwnEmailRewrittenIsTaken | taskmaster-final/controllers/userController.js:74-81 | one's own email in other letter case is refused as already in use, because the query finds one's own document |
| UserController.UpdateKeepsLoginsUnique | taskmaster-final/controllers/userController.js:62-86 | a saved profile keeps usernames and emails unique |
| AuthController.Registration | taskmaster-final/controllers/authController.js:18-45 | 400 exactly when a field is missing; 400 exactly when the normalised email or username is stored; success exactly when all fields are present, neither login is stored and the normalised values and the password meet the schema, and 500 otherwise; a created user has role user, the schema defaults, normalised fields, and the hash of the password |
| AuthController.Register | taskmaster-final/controllers/authController.js:18-73 | stores exactly the registered user under the fresh id and reports its role, or changes nothing |
| AuthController.RegistrationKeepsLoginsUnique | taskmaster-final/controllers/authController.js:31-45 | registration never lets two users share a username or an email |
| AuthController.Login | taskmaster-final/controllers/authController.js:78-133 | 400 exactly when email or password is missing; an unknown email and a wrong password both give 401 "Invalid credentials"; a success reports the found user's id, names and role; with unique logins it succeeds exactly when a user has that email and a matching password |
| AuthController.RegisteredUserCanLogIn | taskmaster-final/controllers/authController.js:91-108 | right after registering, the same email and password can log in |
| CommentController.GetComments | taskmaster-final/controllers/commentController.js:9-27 | only stored comments of the given task are listed |
| CommentController.NewComment | taskmaster-final/controllers/commentController.js:41-45 | a new comment has the route's task, the requester as author, and the trimmed text |
| CommentController.CreateComment | taskmaster-final/controllers/commentController.js:30-60 | 404 when no task has the id (a soft-deleted one counts); 400 when the trimmed text is empty; otherwise exactly the new comment is stored |
| CommentController.BlankTextPassesValidationOnly | taskmaster-final/models/Comment.js:19-23 | a text of blanks passes the comment validator but trims to nothing |
| CommentController.DeleteComment | taskmaster-final/controllers/commentController.js:63-94 | 404 for a missing id, 403 and no change for anyone but the author, otherwise exactly that comment is removed |
| CommentController.ListingFollowsWrites | taskmaster-final/controllers/commentController.js:11 | a created comment is listed under its task only, and a deleted one nowhere |
| DashboardController.Counted | taskmaster-final/controllers/dashboardController.js:12-24 | every count covers only the requester's tasks that are not soft-deleted |
| DashboardController.GetDashboard | taskmaster-final/controllers/dashboardController.js:8-57 | the total is the number of the requester's live tasks, and the rate is zero exactly when there are none |
| DashboardController.StatusCountsAddUp | taskmaster-final/controllers/dashboardController.js:12-15 | completed + todo + in-progress equals the total |
| DashboardController.CountsBoundedByTotal | taskmaster-final/controllers/dashboardController.js:12-24 | each count is at most the total |
| DashboardController.CategoryGroupsAddUp | taskmaster-final/controllers/dashboardController.js:26-29 | the per-category groups sum to the total |
| DashboardController.PriorityGroupsAddUp | taskmaster-final/controllers/dashboardController.js:31-34 | the per-priority groups sum to the total |
| DashboardController.DueEarlierTodayIsOverdue | taskmaster-final/controllers/dashboardController.js:19-24 | a task due a moment ago and not completed is counted overdue: the count compares with the current instant |
| CrossChecks.SoftDeleteFreesQuotaSlot | middleware/roleCheck.js:71-76 | soft-deleting a live task lowers the quota count by one, so a plain user at 20 may create again |
| CrossChecks.SecondDeleteKeepsCount | controllers/taskController.js:135-143 | deleting an already deleted task leaves the quota count unchanged |
| CrossChecks.OptOutSilencesScans | taskmaster-final/controllers/preferencesController.js:95 | setting `emailNotifications: false` through the preference update stops both scans from emailing that user |
| CrossChecks.DashboardAndScanDisagreeOnToday | taskmaster-final/controllers/dashboardController.js:19-24 | a task due earlier today is overdue on the dashboard but not yet picked by the overdue scan |

## Left out

- The task schema file is not part of this model. A new task's default status todo, priority medium, category other and empty description are taken from the client's form at frontend/src/pages/Tasks.jsx:36-41. That form has no `isDeleted` or `overdueEmailSent` field: both flags starting false is an assumption of the model, read from how the handlers and the scans use them. The schema's own checks on create and update (the 400 "Error creating task" and "Error updating task" paths) are not modelled.
- Order: the listings return sets, or take the collection already sorted newest first. The `createdAt` sort of tasks, users and comments is not modelled.
- The scans pick tasks from a set in any order. The order of the emails is not modelled.
- Population (`populate`) of the assignee, the owner and the comment author into replies is not modelled.
- Mongo `$regex` matching is a function parameter, as are password hashing (`hash`), bcrypt comparison (`matches`) and email delivery (`deliver`). The bcrypt salt is not modelled.
- The signed token of register and login is not modelled, nor the authentication middleware that sets the request's user.
- Cron timing, local time zones and daylight saving are not modelled: days are UTC days of 86400000 ms.
- Rate-limiter window counting is not modelled; only its `skip` predicate is. The routing order of the gates is not modelled either.
- Concurrency is not modelled: overlapping scans, racing registrations and unique-index violations under races.
- Store failures are not modelled, apart from the failed count in the quota check. A malformed id string makes the store throw a cast error; the model treats ids as opaque keys, so such an id behaves like a missing one.
- Request bodies and query strings are modelled as optional strings and booleans. JSON values of other types, and non-numeric page or limit texts, are not modelled.
- The schema's strict mode is not modelled. It would drop the preference keys the schema does not declare (timezone, deadlineReminders, taskAssignmentNotifications, weeklyDigest) on save.
- `getSystemStats` and `getUserById` are aggregation pipelines and are not modelled.
- The dashboard's `completionRate` as a two-decimal percentage text is not modelled; only its zero case and its operands are.
- EmailScheduler.RunOverdueScan: `processed`, the set of tasks handled before an abort, is a ghost out-parameter. When the scan stops at a task without an owner, which tasks were handled first depends on the iteration order.
- Text.LowerAscii: lower-cases only the letters A to Z. The email setter uses JavaScript's full Unicode `toLowerCase` (taskmaster-final/models/User.js:18-25), so an email such as "Ä@x.co" is stored lower-cased by the source and kept as is by the model.
- UserModel.NormalizeEmail: inherits the ASCII-only lower-casing of Text.LowerAscii, and so do the email lookups built on it.
- UserModel.NewUser: the stored email is lower-cased in ASCII only, as in UserModel.NormalizeEmail.
- Validate.ValidateTask: its length bounds count characters (code points), while Joi counts UTF-16 units. A title such as "😀a" has length 3 in the source and 2 in the model, so the two disagree near a bound.
- Validate.ValidateComment: its 1–500 bound counts code points, not UTF-16 units, as in Validate.ValidateTask.
- UserModel.ValidUsername: the schema's minimum length is counted in code points, not UTF-16 units.
- UserModel.ValidPassword: the schema's minimum length is counted in code points, not UTF-16 units.
- TaskController.GetTask, TaskController.UpdateTask, TaskController.DeleteTask, TaskController.AssignmentRecipient, CommentController.GetComments, CommentController.CreateComment, CommentController.DeleteComment, AdminController.UpdateUserRole, AdminController.DeleteUser, AdminController.DeleteAnyTask, AdminController.GetAllTasks: ids are compared as exact strings. The store casts a 24-hex-digit id of either letter case to the same object id, so every lookup by id in the source also accepts an upper-case form of a stored id, where the model finds nothing. For example, fetching a task by its id in upper case returns the task in the source and 404 in the model; an `assignedTo` equal to the requester's id in upper case is emailed by the source and by nobody in the model; an admin changing or deleting their own account through an upper-case id gets 400 for a self-change in the source and 404 in the model; and the admin task listing's `userId` filter matches that user's tasks in the source and none in the model.
