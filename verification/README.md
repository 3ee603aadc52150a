# FMCarerAPI handler core in Dafny

This project models the decision logic of the FMCarerAPI back end. FMCarerAPI is an Express/Mongoose service for parents who care for young children. The model covers:

- **Top-ups:** starting a Momo top-up, settling it from the gateway's IPN callback (instant payment notification), and reading back the payment history.
- **Accounts:** parent registration and login, the profile update, sub-accounts (create-or-update with a quota of ten per parent, deletion, phone login), and the account schema with its save hook.
- **Admin back office:** admin login, account suspension, and moderation of community posts (approve, reject, edit, bulk delete, the listing and its author display fields, the statistics counters).
- **Family feed:** the shared posts (create, list, owner-scoped update, approval, delete by the owner or an admin).
- **Reminders:** creation checks and per-user scoping of every read and write.
- **Diary:** entries, where an entry derived from a reminder can never be edited or deleted.
- **Access gates:** `requireAuth`, `requireAdmin`, `protect` and `restrictTo`.

Each collection is a `seq` of records in database natural order, and each record carries its own id. `findOne` and `findById` return the first match. Every handler is a pure function from the collections and the request to the new collections and a reply. Every reply type and every gate outcome has a `Status()` giving the HTTP code of the answer: a rendered page and a gate that lets the request through count as 200, and a redirect as 302. The admin post list and the statistics page return the data they render. A handler that fails returns the collections it was given.

Everything the handlers cannot decide themselves is a parameter:

- bcrypt hashing and comparison;
- JWT verification;
- the Momo gateway's answer;
- fresh ids and uuids;
- clocks and date parsing.

Shared pieces are defined once:

- `Common`: `Option`; `Field`, a request value that is absent, `null` or given; the JavaScript truthiness used by `!x`, `||` and `??`; string length in UTF-16 code units; and ObjectIds. `ObjectId.isValid` accepts 24 hex digits in either case, or any string of 12 code units. A query casts such a string to the ObjectId it names. Ids are stored as the 24 lower-case hex digits `toString()` prints.
- `Text`: ECMAScript `trim`, ASCII lowercasing and `split(' ')[1]`.
- `Coll`: the first match, counting, filtering, sums, the newest-first sort and paging.

The files follow the repository's structure:

| file | models |
|---|---|
| `user_model.dfy` | the account schema |
| `accounts.dfy` | usersController |
| `payments.dfy` | paymentController |
| `community_post.dfy`, `admin.dfy` | the moderated post schema, adminController |
| `feed_post.dfy`, `feed.dfy` | the feed post schema, postController |
| `reminder_model.dfy`, `reminders.dfy` | the reminder schema, reminderController |
| `diary_model.dfy`, `diary.dfy` | the diary schema, diaryEntryController |
| `gates.dfy` | the three middleware files |
| `runs.dfy` | invariants over arbitrary sequences of handler calls |

Collections are sequences rather than maps keyed by id. Several lookups go by fields other than the id: the email, the phone number, and the pair of order id and gateway id. For these, Mongoose returns the first document in natural order, and a map cannot express which document that is.

The IPN handler guards only against a record that is already Completed (controllers/paymentController.js:159), so a later success callback completes a Failed payment and credits its owner (`Payments.FailedPaymentCanComplete`).

## Model

| member | source | states |
|---|---|---|
| UserModel.ParseRole | models/User.js:46-51 | the role enum accepts exactly the names parent, subuser and admin |
| Common.ObjectIdOf | controllers/diaryEntryController.js:16-18 | a string is a valid ObjectId iff it is 24 hex digits in either case or 12 UTF-16 code units; the id it names is 24 lower-case hex digits |
| Common.CanonicalIdCastsToItself | controllers/diaryEntryController.js:50 | a stored id, as printed, casts back to itself |
| Common.CastIgnoresLetterCase | controllers/diaryEntryController.js:50 | two 24-digit hex strings that differ only in letter case name the same document |
| Common.JsLengthCountsChars | models/User.js:40 | the length maxlength checks equals the number of characters exactly when every character is in the Basic Multilingual Plane |
| UserModel.SaveHook | models/User.js:98-104 | the pre-save hook hashes the password when it was modified, and changes nothing else and nothing at all otherwise |
| UserModel.CreateUser | models/User.js:34-84 | a new account is stored iff the password is non-empty, the email is present unless the role is subuser, the email is at most 100 UTF-16 code units, and a subuser has a phone number; the stored account has the defaults (role parent, created_by null, balance 0, isVerified false, fullname and image "", not suspended) and a hashed password |
| Accounts.RegisterParent | controllers/usersController.js:30-61 | an email used by any account is refused; otherwise a verified parent is appended whose stored password is the controller's hash hashed again by the save hook; nothing is written on refusal |
| Accounts.LoginDecision | controllers/usersController.js:74-77 | the login succeeds iff an account was found and the password matches it; an unknown account and a wrong password give the same rejection |
| Accounts.LoginParent | controllers/usersController.js:67-98 | missing email or password is a 400; with no parent holding exactly this email the login is rejected; otherwise the first such parent decides: a matching password logs in as that account and any other is rejected |
| Accounts.LoginSubuser | controllers/usersController.js:275-292 | missing phone or password is a 400; with no sub-account holding exactly this phone number the login is rejected; otherwise the first such sub-account, across all parents, decides: a matching password logs in as it and any other is rejected |
| Accounts.LoginsIgnoreSuspension | controllers/usersController.js:74-77 | setting any account's suspension flag never changes the outcome of either login |
| Accounts.ApplyPatch | controllers/usersController.js:116-118 | for each of fullname, numberphone and image, a missing key keeps the stored value, `null` clears the path and a value replaces it; no other path changes |
| Accounts.UpdateUser | controllers/usersController.js:104-126 | a missing or non-ObjectId id is a 400 and an unknown one a 404; the save fails exactly when the patched account breaks a schema validator, and otherwise the patched account replaces the stored one; the collection is unchanged on every failure |
| Accounts.NullPhoneFailsForSubuser | controllers/usersController.js:116-121 | a `null` phone number sent for a sub-account is refused by the required validator and changes nothing |
| Accounts.RefreshSubuser | controllers/usersController.js:218-223 | the update path sets the new password and keeps fullname and image unless supplied; nothing else changes |
| Accounts.CreateOrUpdateSubuser | controllers/usersController.js:197-249 | missing fields, a non-ObjectId parent and a parent that is not a parent account are refused in that order; a sub-account with the same phone and parent is updated in place; otherwise one is created only while the parent owns fewer than 10, with role subuser, no email and created_by the parent; the save fails exactly when the refreshed account breaks a validator or the new account's hash is empty |
| Accounts.CreateOrUpdateKeepsQuota | controllers/usersController.js:216-230 | no call takes a parent within the quota of 10 above it; the update path leaves every parent's count as it was |
| Accounts.DeleteSubuser | controllers/usersController.js:255-269 | a non-ObjectId id is a 500; only an account with role subuser is removed, and exactly that one; otherwise nothing is removed |
| Accounts.DeleteSubuserSparesOtherRoles | controllers/usersController.js:258-262 | the number of parents and admins is unchanged and no parent's sub-account count grows |
| Payments.InitiateTopUp | controllers/paymentController.js:73-132 | a missing or non-positive amount or a missing method is a 400, and a method other than Momo is a 400, before anything is written; otherwise one record is appended: Pending with the gateway's request id and pay URL when the result code is 0, else Failed with the gateway's message or the default reason |
| Payments.Credit | controllers/paymentController.js:175 | the owner's balance, with a missing one read as 0, rises by exactly the amount; nothing else changes |
| Payments.MomoIpn | controllers/paymentController.js:143-193 | no record matching both order id and gateway id is a 404 with no change; a Completed record is acknowledged with no change; only the number 0 is success (a missing or `null` code is a failure); a success completes the record and credits its owner, both or neither; it is a 500 with no change exactly when the owner is missing or would fail validation once credited; a failure marks it Failed with the reason, a missing or `null` code written as "undefined" or "null", and leaves balances alone; a Completed record never changes |
| Payments.IpnReplayChangesNothing | controllers/paymentController.js:151-176 | delivering the same notification again changes nothing, so a payment is credited at most once; after a success the replay is "not found" unless transId equals requestId |
| Payments.FailedPaymentCanComplete | controllers/paymentController.js:159-176 | a success callback for a Failed record completes it |
| Payments.HistoryOrder | controllers/paymentController.js:209-214 | the history is a permutation of the caller's Momo payments, newest payment_date first |
| Payments.TopUpHistory | controllers/paymentController.js:204-226 | a negative skip is a 500; otherwise the total counts all of the caller's Momo payments and the page is exactly the newest-first history from position skip, of length min(|limit|, total - skip) (limit 0 meaning all, default limit 10 and skip 0); payments with equal dates appear in the one order the model's sort fixes |
| Payments.HistoryPagesConcatenate | controllers/paymentController.js:209-212 | the page of n at skip followed by the page of m at skip + n is the page of n + m at skip |
| Payments.HistoryOrderIsDetermined | controllers/paymentController.js:209-212 | when no two of the caller's Momo payments share a payment date, every newest-first arrangement of them is the modelled history order, so the pages do not depend on how ties are broken |
| Payments.GetPaymentById | controllers/paymentController.js:237-253 | a non-ObjectId id is a 500; a payment is returned only if it has the id the string casts to and is the caller's Momo payment; otherwise a 404 |
| Payments.InitiateThenGet | controllers/paymentController.js:91-124 | a record stored by initiation, pending or failed, is what its owner reads back under its id, and any other caller gets a 404 |
| Payments.InitiateThenIpnCompletes | controllers/paymentController.js:91-189 | after the gateway accepts a request, the success notification for order id PAY_<uuid> and the gateway's request id completes exactly the new record and credits its owner the amount |
| Payments.InitiateTopUpAsWritten | controllers/paymentController.js:91-103 | against the registered Payment schema, every complete Momo request fails the first save and answers 500 with nothing stored |
| Payments.ConcatenatedCreditShiftsBalance | controllers/paymentController.js:175 | as evaluated on a Decimal128 balance, a credit shifts the balance left by the amount's digit count and then adds the amount |
| Payments.ConcatenatedCreditCounterexample | controllers/paymentController.js:175 | a second top-up of 50000 onto 50000 gives 5000050000 rather than 100000 |
| Runs.InitiateKeepsSurplus | controllers/paymentController.js:91-124 | initiation changes neither a balance nor the completed total of any account |
| Runs.IpnKeepsSurplus | controllers/paymentController.js:159-189 | a notification moves an account's balance and its completed total by the same amount |
| Runs.LedgerInvariant | controllers/paymentController.js:143-193 | over any sequence of initiations and notifications, each balance changes by exactly the sum of that account's payments that became Completed |
| Runs.CompletedIsFinal | controllers/paymentController.js:159-162 | over any sequence of calls, records are only appended and a Completed record never changes |
| Runs.AccountCallKeepsQuota | controllers/usersController.js:227-230 | no single account-writing handler (register, sub-account upsert or delete, profile update, suspension toggle) takes a parent within the quota above it |
| Runs.QuotaInvariant | controllers/usersController.js:227-230 | over any sequence of those calls, a parent with at most 10 sub-accounts keeps at most 10 |
| Admin.AccountByEmail | controllers/adminController.js:52 | the first account of any role with this email, and none exactly when no account has it |
| Admin.HandleLogin | controllers/adminController.js:42-98 | the checks run in order: missing fields, unknown or non-admin account, suspended, wrong password; a token is issued only when all pass, and names that admin |
| Admin.SuspendedAdminRefusedAnyPassword | controllers/adminController.js:61-72 | a suspended admin gets the same refusal whatever password it presents |
| Admin.ToggleUserSuspension | controllers/adminController.js:178-213 | a non-ObjectId id takes the error branch, an unknown one is a 404 and an admin a 403; the save fails exactly when the found account breaks a schema validator; each failure leaves the accounts unchanged; otherwise only that account's isSuspended is negated |
| Admin.ToggleTwiceIsIdentity | controllers/adminController.js:183-192 | toggling the same account twice restores the collection |
| Admin.SavePost | models/Posts.js:48-51 | a moderated post is stored iff the save's validators accept it |
| Admin.ApprovePost | controllers/adminController.js:643-676 | a non-ObjectId id fails and an unknown post is a 404; an already active post is left unchanged; the save fails exactly when the post breaks a schema validator; otherwise only its status becomes active and its rejection reason is cleared |
| Admin.RejectPost | controllers/adminController.js:693-727 | a non-ObjectId id fails and an unknown post is a 404; an already rejected post is left unchanged; the save fails exactly when the post breaks a schema validator; otherwise its status becomes rejected with the given reason or the default one |
| Admin.ModerationIsIdempotent | controllers/adminController.js:648-711 | approving twice, or rejecting twice, leaves the posts as the first call left them |
| Admin.EditedPost | controllers/adminController.js:553-562 | a missing key keeps its path and a given value replaces it, `null` media URLs clear the path; a rejection reason is set exactly when the status sent is "rejected"; a valid post stays valid |
| Admin.UpdatePost | controllers/adminController.js:548-589 | a non-ObjectId id, or a visibility, status or content the update validators refuse (`null` included), takes the error branch, and an unknown post the not-found branch, both changing nothing; otherwise the edited post replaces it |
| Admin.UpdatePostReasonLaw | controllers/adminController.js:553-562 | after an edit that sets a status, the post has a rejection reason exactly when it is rejected; an edit without a status clears the reason |
| Admin.BulkDeletePosts | controllers/adminController.js:742-780 | unparsable data, a non-array and an empty array delete nothing; a non-ObjectId id fails the whole query; when no post has a listed id nothing is removed and none found is reported; otherwise the remaining posts are exactly those whose id is not listed, and the count is the number removed |
| Admin.BulkDeleteRemovesExactlyListed | controllers/adminController.js:760 | after a bulk delete, a post remains iff it was there and its id is not among the listed ids |
| Admin.DisplayName | controllers/adminController.js:448-461 | the first non-empty of fullname, username and email, else the anonymous name; never empty |
| Admin.DisplayImage | controllers/adminController.js:448-461 | the first non-empty of avatar_url and image, else "" |
| Admin.ViewPost | controllers/adminController.js:448-461 | a post without an author is shown as anonymous with no image; otherwise with the author's display fields |
| Admin.ViewWithAuthor | controllers/adminController.js:441-461 | a post whose author account is gone is shown as anonymous; otherwise with that account's id, its fullname or else email or else the anonymous name, and its image |
| Admin.ListPostsForAdmin | controllers/adminController.js:441-476 | every post appears once, newest first, and each entry is the post shown with the author its author id finds |
| Admin.SystemStatistics | controllers/adminController.js:240-272 | each counter is the number of accounts with that role, of posts with that status and of completed reminders; total users = parents + sub-accounts; the post counters partition all posts |
| Admin.RolesPartitionUsers | models/User.js:46-51 | every account has exactly one of the three roles |
| Admin.StatusesPartitionPosts | models/Posts.js:82-86 | every moderated post has exactly one of the three statuses |
| CommunityPost.ParseStatus | models/Posts.js:82-86 | the status enum accepts exactly pending, active and rejected |
| CommunityPost.ParseVisibility | models/Posts.js:69-73 | the visibility enum accepts exactly public, private, friends and community |
| CommunityPost.CreatePost | models/Posts.js:19-113 | a post is created iff the content is non-empty, with visibility public, status active, no rejection reason and both counters 0 unless supplied |
| Feed.CreateFeedPost | controllers/postController.js:11-23 | the post is created (201) iff the caller id casts, the content is non-empty and the level is absent or a name in the enum (`null` fails); it is owned by the caller, pending, unapproved, and at level family unless supplied |
| Feed.ListFeed | controllers/postController.js:28-43 | the listing is a permutation of the posts the filter selects, newest first |
| Feed.ListFeedMembers | controllers/postController.js:30-38 | without a level every post is listed; with one, exactly the approved posts of that level |
| Feed.ApplyFeedPatch | controllers/postController.js:50-55 | each supplied path is overwritten, `null` included, ids as cast; a missing key keeps its path; the id and creation time never change |
| Feed.UpdateFeedPost | controllers/postController.js:48-60 | only the caller's own post is found, else a 404; an id that does not cast is a 500; no other user's post changes |
| Feed.AuthorCanBypassModeration | controllers/postController.js:50-55 | an author can set their own post's status to any string, "approved" included |
| Feed.ApproveFeedPost | controllers/postController.js:65-77 | an unknown post is a 404; otherwise only its status becomes approved and approvedBy becomes the caller |
| Feed.ApproveIsIdempotent | controllers/postController.js:67-72 | approving twice by the same caller stores what approving once stored |
| Feed.DeleteFeedPost | controllers/postController.js:82-99 | a non-ObjectId id or a post with no creator fails and an unknown post is a 404; it is removed iff the caller's id string equals its creator's or the caller is an admin, otherwise a 403 with nothing removed |
| Feed.NonAdminDeletesOnlyOwnPosts | controllers/postController.js:84-94 | a caller who is not an admin never removes another user's post |
| Feed.OwnerTestIsCaseSensitive | controllers/postController.js:87 | the owner test compares strings, so a caller id written with upper-case hex digits is never the owner |
| Feed.ModerationKeepsPostsValid | models/Post.js:8-37 | creating, approving and deleting keep every stored post within the content, level and status rules |
| ReminderModel.ParseType | models/Reminder.js:32-36 | the type enum accepts exactly eat, sleep, bathe, vaccine and other |
| ReminderModel.ParseRepeat | models/Reminder.js:65-69 | the repeat_type enum accepts exactly none, daily, weekly and monthly |
| ReminderModel.CustomTypeValidIff | models/Reminder.js:37-49 | the custom_type validator fails exactly for an "other" reminder whose custom type is missing or blank after trimming |
| Reminders.CastReminder | models/Reminder.js:22-73 | the document is built iff every enum name is known, repeat_type is not `null`, the date parses and the custom type is valid; it carries the caller, the cast child id, the request's fields and the defaults for missing keys (repeat false, repeat_type none, not completed) |
| Reminders.CreateReminder | controllers/reminderController.js:10-56 | missing fields are a 400, a non-ObjectId child id a 400, a child the caller does not own a 404, a missing custom type for "other" a 400, and a document the schema refuses a 400, each iff its condition holds first; only a valid reminder of the caller's own child is appended |
| Reminders.NoBlankOtherReminderStored | controllers/reminderController.js:33-35 | an "other" reminder with a blank custom type is never stored |
| Reminders.RemindersByUser | controllers/reminderController.js:63-75 | no caller is a 401; the reply holds exactly the caller's reminders |
| Reminders.ReminderById | controllers/reminderController.js:82-93 | a non-ObjectId id fails the query; a reminder is returned only if it has this id and is the caller's; otherwise a 404 |
| Reminders.RemindersByChild | controllers/reminderController.js:101-116 | a child the caller does not own is a 404; otherwise the reply holds exactly the caller's reminders for that child |
| Reminders.CreateThenGet | controllers/reminderController.js:37-49 | a created reminder is what its owner reads back under the new id, and any other user gets a 404 |
| Reminders.ApplyPatch | controllers/reminderController.js:127-133 | each supplied path is overwritten with its cast value, the owner included, `null` clearing the optional paths; a missing key keeps its path; the id never changes |
| Reminders.UpdateReminder | controllers/reminderController.js:124-139 | only the caller's reminder is found, else a 404; the update is rejected (400) exactly when the id does not cast, a value does not cast or is `null` on a required path, or the patched reminder breaks a validator, with no change; other users' reminders are untouched |
| Reminders.UpdateCanReassignOwner | controllers/reminderController.js:127-133 | a body carrying user_id hands the reminder to another account, after which the caller can no longer find it |
| Reminders.DeleteReminder | controllers/reminderController.js:147-158 | an id that does not cast is a 500; only the caller's reminder is removed, else a 404; other users' reminders remain |
| Reminders.CompleteReminder | controllers/reminderController.js:165-180 | only the caller's reminder is found, else a 404; the save fails (500) exactly when the id does not cast or the stored reminder breaks a validator; otherwise only is_completed becomes true |
| Reminders.CompleteIsIdempotent | controllers/reminderController.js:168-174 | completing twice leaves the collection as completing once did |
| DiaryModel.TrimmedRequired | models/DiaryEntry.js:39-53 | a required trimmed path is refused iff it is absent or blank, and is otherwise stored trimmed and non-empty |
| Diary.ListEntries | controllers/diaryEntryController.js:10-37 | an invalid supplied id is a 400; otherwise an entry is listed iff it matches every supplied id |
| Diary.ListFilterIsConjunction | controllers/diaryEntryController.js:12-28 | filtering by both ids is filtering by the child and then by the user; with neither, every entry is listed |
| Diary.GetEntry | controllers/diaryEntryController.js:44-63 | a malformed id is a 400 before any lookup and a missing entry a 404; otherwise the entry with that id |
| Diary.CreateEntry | controllers/diaryEntryController.js:70-91 | both ids must be ObjectIds and type and activity must be non-blank; a created entry is stored trimmed, never marked as derived and without a reminder link |
| Diary.CreateThenGet | controllers/diaryEntryController.js:70-91 | a created entry is what a later read of its id returns |
| Diary.UpdateEntry | controllers/diaryEntryController.js:99-135 | a malformed id is a 400, a missing entry a 404, and a derived entry a 403 with no change; the validators refuse exactly an absent or blank type or activity; otherwise only type and activity change, stored trimmed |
| Diary.DeleteEntry | controllers/diaryEntryController.js:143-168 | a malformed id is a 400, a missing entry a 404, and a derived entry a 403; otherwise exactly that entry is removed |
| Diary.CreateKeepsDerivedEntries | models/DiaryEntry.js:60-74 | creation keeps every derived entry and the uniqueness of reminder links |
| Diary.UpdateKeepsDerivedEntries | controllers/diaryEntryController.js:110-122 | an update keeps every derived entry and the uniqueness of reminder links |
| Diary.DeleteKeepsDerivedEntries | controllers/diaryEntryController.js:154-161 | a delete keeps every derived entry and the uniqueness of reminder links |
| Diary.ApplyKeepsDerivedEntries | controllers/diaryEntryController.js:110-159 | no diary call removes or changes an entry derived from a reminder, and none breaks link uniqueness |
| Diary.RunKeepsDerivedEntries | models/DiaryEntry.js:69-74 | over any sequence of diary calls, derived entries persist and reminder links stay unique |
| Gates.RequireAuth | middlewares/auth.js:15-46 | a missing header or one without "Bearer " is a 401; the token is the second space-separated segment; a throwing verifier, a falsy payload or a role other than "parent" after lowercasing is a 403; otherwise the payload becomes req.user |
| Gates.RequireAuthReadsBearerToken | middlewares/auth.js:25-26 | for "Bearer " followed by a word, the verifier sees exactly that word |
| Gates.RequireAdmin | middlewares/requireAdmin.js:13-38 | no cookie redirects without clearing it; a throwing verifier, a falsy payload or a role not exactly "admin" clears the cookie and redirects; otherwise the payload becomes req.user |
| Gates.RoleChecksDifferInCase | middlewares/auth.js:35-38 | a role "Parent" passes the parent gate while a role "Admin" fails the admin gate |
| Gates.Protect | middlewares/authMiddleware.js:15-26 | no second segment in the header is a 401, and so is a throwing verifier; otherwise whatever the verifier returns becomes req.user |
| Gates.RestrictTo | middlewares/authMiddleware.js:34-41 | passes iff the caller's role is in the list, otherwise a 403; with no req.user at all it throws |
| Gates.RequireAuthAgreesWithProtect | middlewares/authMiddleware.js:15-26 | a request requireAuth admits with a non-empty token passes protect with the same req.user, and a Bearer request protect admits with a parent role passes requireAuth |
| Gates.RestrictToAdminMatchesRequireAdmin | middlewares/authMiddleware.js:34-41 | protect then restrictTo('admin') admits a Bearer token exactly when requireAdmin admits the same token as a cookie |
| Gates.RestrictToIsMonotone | middlewares/authMiddleware.js:34-41 | a longer role list never refuses a caller a shorter one admits |
| Gates.RequireAuthAsWrittenRejectsAll | middlewares/auth.js:1-45 | with the undefined verifyToken the file imports, which throws when called, no request passes requireAuth, and every Bearer request is a 403 |
| Gates.RequireAdminAsWrittenRejectsAll | middlewares/requireAdmin.js:1-38 | with the undefined verifyToken the file imports, no request passes requireAdmin, and every cookie is cleared and redirected |
| Gates.RequireAuthAdmitsParent | middlewares/auth.js:25-43 | with a verifier that accepts the token, a parent token passes and becomes req.user |

## Left out

- MongoDB sessions and transactions are not modelled. A handler is one atomic step that returns its input collections when it fails. Concurrent callbacks racing on one payment are out of scope.
- bcrypt is abstract: `hash` and `matches` are parameters. Salts and the cost factor are not modelled. Since passwords are hashed by the controller and again by the save hook, no lemma claims that a login with the original password succeeds.
- JWT signing and verification are a parameter (`Gates.Verdict`). `loginParent` signs a payload without `_id`, so its token carries no `id`. The model takes the caller id of each handler as an input.
- `callMomoApi`, with its HMAC signature, random request id and timeout, is not modelled. Its result is the `GatewayResponse` input.
- Time sources are inputs: `now`, the diary's `local_time` string and date parsing. The statistics count of upcoming reminders depends on the current time and is left out.
- Payments.Credit: the Decimal128 balance is modelled as an integer with decimal addition, not as the string concatenation the code evaluates (see Findings).
- A filter built from an absent request field is not modelled; Mongoose would strip such a filter. These values are taken as present: the email in `registerParent`, the IPN's order and request ids, the caller of the reminder reads and writes, and the caller of the feed handlers.
- Unique indexes on email and numberphone are not modelled. A duplicate-key failure on save is not a modelled outcome.
- Accounts.CreateOrUpdateSubuser: `relationship` is not modelled. It is not a path of the account schema, so strict mode drops it on save.
- Updates are read under Mongoose 5. An update document holding an undefined value clears that path, and `post.remove()` exists. Under Mongoose 7 or later, undefined keys are stripped instead and `remove()` is gone. Under that reading the admin edit would keep an old rejection reason, and a diary update could omit a field.
- Rendering, flash messages, redirect targets, `populate` beyond the author fields, and the admin audit log are not modelled. Nor are `app.js`, the routes and the upload middleware.
- Reminder handlers read `req.user?.userId` while `generateToken` signs `id`. The model takes the caller id as given.
- The feed update copies the whole body. Its `createdAt` key is not modelled.
- The child collection is modelled only as the pair (id, owner) that reminder ownership checks read.
- OTP, email, file upload and the remaining controllers are not modelled: child, schedule, log, notification, complaint, auth and userController.
- Reminders.UpdateReminder / Reminders.DeleteReminder / Reminders.CompleteReminder: the catch branch is `WriteRejected` (400) in update and `WriteFailed` (500) in delete and complete. Database errors are not modelled.
- Admin.SystemStatistics: the number of children is an input, since the child collection is not modelled.
- Request values are modelled as strings that are absent, `null` or given. Numbers, arrays or objects sent where a string is expected are not modelled, and neither is an `_id` key inside a request body.
- Caller ids read from a verified token are taken to be the canonical 24 lower-case hex digits the server signed. Ids read from the request are cast as a query casts them.
- Payments.TopUpHistory: `parseInt` is not modelled; `limit` and `skip` arrive as integers. A query value that does not parse (NaN) is not modelled. A negative limit is read as the driver reads it, as its magnitude.
- Payments.TopUpHistory / Payments.HistoryPagesConcatenate: MongoDB does not fix the order of payments with equal `payment_date`, while the model's sort fixes one order for them. The exact-page clauses therefore describe the database only when the caller's payment dates are distinct, as `Payments.HistoryOrderIsDetermined` shows. The total, length, membership and ordering clauses hold regardless.

## Findings

| source | as written | input that shows it | evidently intended | confidence | as-written member | corrected member |
|---|---|---|---|---|---|---|
| controllers/paymentController.js:175 | `(user.balance \|\| 0) + payment.amount`, where the balance is a Decimal128 (models/User.js:58-61), so `+` appends digits to its decimal string | a stored balance of 50000 and a completed top-up of 50000 give 5000050000 | the balance rises by exactly the amount | medium, not executed | Payments.ConcatenatedCreditCounterexample | Payments.Credit |
| controllers/paymentController.js:91-103 | the new record sets `user_id`, `transaction_id`, `status` and other paths, while models/Payment.js:8-22 declares only `userId`, `amount` and `createdAt` and requires `userId` | any complete Momo top-up request: the first save fails validation and the reply is 500 | a Pending record with the controller's fields is stored | high, not executed | Payments.InitiateTopUpAsWritten | Payments.InitiateTopUp |
| middlewares/auth.js:1 | `verifyToken` is destructured from utils/token.js, which exports only `generateToken`, so it is undefined and calling it throws (likewise middlewares/requireAdmin.js:1) | any request with a well-formed "Bearer" header, or any admin cookie: always 403 or a redirect | a valid parent or admin token passes the gate | high, not executed | Gates.RequireAuthAsWrittenRejectsAll | Gates.RequireAuthAdmitsParent |
