# OneTouch demo: demo session, contractor assignment and header logic in Dafny

OneTouch is a browser application for care facilities. Staff report broken
equipment, and the report is routed to a contracted management company (a
"partner" or "contractor"). All data lives in the browser's two key/value
stores: `localStorage` (the *persistent* store) and `sessionStorage` (the
*session* store). Stored values are JSON texts.

This project models the application's two core scripts.

`demo-mode.js` covers the demo session:
- classifying the session principal as demo and/or system administrator;
- the snapshot/restore overlay that undoes a demo user's changes at logout or when the page unloads (`beforeunload` fires on every unload: closing the tab, reloading, or navigating to another page);
- the gate that refuses delete, export and import to demo users;
- the two contractor-assignment rules: round-robin seeding of the demo data, and first-match `resolvePartner`;
- `getPartnerCompanies`.

`unified-header.js` covers the shared header:
- the notification badge, list, read marking and `sendNotification`;
- the elapsed-time label;
- the password change;
- the audit trail;
- `logout` and the administrator's return from impersonation.

How the model is organised:
- Both stores are one `Storage.WebStorage` object with two `map<string, string>` fields. The operations that write the stores are methods that modify it.
- Each operation that loops (snapshot save and restore, round-robin seeding, the audit merge, read marking, `getPartnerCompanies`) is an imperative method. It is proved equal to a specification function, and the guarantees are lemmas about that function.
- JSON parsing and serialisation are function parameters (`parse: string -> Option<T>`, `show: T -> string`). A failed parse is `None`.
- Clock readings, random notification ids, the answer to `confirm(...)`, and whether `restoreDemoSnapshot` is loaded on the page are also parameters.

The code tests for "demo" in three different ways, and the model keeps all three:
- `isDemoMode` accepts the companies TAMJ/JMAT/SYSTEM or the demo flag.
- `logout` and the `beforeunload` hook accept only the flag, and exclude administrators.
- `_changePassword` accepts TAMJ or the flag.

The lemmas in `SessionClassifier` exhibit the gaps. For example, a TAMJ user without the flag is refused deletes, but its changes are not rolled back at logout.

Likewise, seeding ignores a contract's office scope and `resolvePartner` honours it; `ContractAssignment.SeedingIgnoresOfficeScope` exhibits the difference.

## Model

| member | source | states |
|---|---|---|
| SessionClassifier.IsDemoMode | demo-mode.js:14-22 | no parsed user is never demo; the demo flag and company TAMJ each make a user demo |
| SessionClassifier.IsSystemAdmin | demo-mode.js:24-29 | an administrator is a parsed user and is never restored on exit |
| SessionClassifier.DemoModeCharacterised | demo-mode.js:14-29 | demo iff a parsed user exists whose company is TAMJ, JMAT or SYSTEM or whose demo flag is set; with no parsed user the session is neither demo nor administrator |
| SessionClassifier.RestoreOnExitImpliesRestricted | demo-mode.js:60-68 | every principal restored on page unload is demo and not a system administrator |
| SessionClassifier.RestrictedUserNotRestoredOnExit | demo-mode.js:62-66 | a TAMJ user without the demo flag is restricted by the gate but not restored on exit |
| SessionClassifier.PasswordDemoTestIsNarrower | unified-header.js:1054 | a JMAT user without the flag is demo for the gate but not for the password change |
| MutationGate.WarningMessage | demo-mode.js:112-115 | the refusal text is the table entry for delete, export or import, and the generic text for any other action |
| MutationGate.Guard | demo-mode.js:83 | refused exactly for a parsed user of a demo company or with the demo flag who is not a system administrator, with the table text for the action |
| MutationGate.DemoExportData | demo-mode.js:116 | export is refused iff the session is demo and not a system administrator, with the export text |
| MutationGate.DemoImportData | demo-mode.js:117 | import is refused under the same condition, with the import text |
| MutationGate.DemoDeleteFromLocalStorage | demo-mode.js:82-87 | a refused delete leaves both stores unchanged; a permitted delete removes exactly the key; the session store never changes |
| MutationGate.GateCases | demo-mode.js:82-83 | a demo staff user is refused; an administrator and a non-demo or absent user are permitted |
| MutationGate.RefusalTextIsFromTable | demo-mode.js:112-117 | every refusal carries one of the four fixed texts |
| DemoSnapshot.SnapshotKeyInjective | demo-mode.js:39 | distinct tracked keys get distinct snapshot entries |
| DemoSnapshot.SavedEntries | demo-mode.js:36-43 | after saving, each present tracked key has a snapshot equal to its value; every other session entry is unchanged |
| DemoSnapshot.RestoredEntries | demo-mode.js:45-51 | the write-back gives each tracked key with a snapshot the snapshot's value and leaves every other key unchanged |
| DemoSnapshot.ClearedEntries | demo-mode.js:53-55 | no snapshot entry of a tracked key remains; every other session entry is unchanged |
| DemoSnapshot.RoundTrip | demo-mode.js:36-56 | save, any writes, restore: keys present at save time get their saved value back; absent keys keep the later value unless a stale snapshot existed; untracked keys keep the later value; the session ends as before minus snapshots |
| DemoSnapshot.RestoreIdempotent | demo-mode.js:45-56 | a second restore after a completed one changes neither store |
| DemoSnapshot.InterruptedRestoreResumes | demo-mode.js:45-51 | re-running a restore that stopped after any number of keys gives the same persistent store as one complete run |
| DemoSnapshot.SaveDemoSnapshot | demo-mode.js:36-43 | the loop leaves the persistent store unchanged and the session store as the saving fold says |
| DemoSnapshot.RestoreDemoSnapshot | demo-mode.js:45-56 | the two loops write back every snapshot and then remove every snapshot entry |
| DemoSnapshot.OnBeforeUnload | demo-mode.js:60-68 | on any page unload (tab close, reload or navigation), restores exactly for a flagged non-administrator and otherwise changes nothing |
| ContractAssignment.FindPartnerById | demo-mode.js:561 | the first partner whose id is the contract's partner id, or none |
| ContractAssignment.FindPartnerByIdOrCode | demo-mode.js:596 | the first partner whose id or partner code is the partner id, or none |
| ContractAssignment.SeedCandidates | demo-mode.js:554 | exactly the active contracts of the company listing the category, no more of them than there are contracts (their order is stated by SeedCandidatesInOrder) |
| ContractAssignment.SeedCandidatesInOrder | demo-mode.js:554 | the filter distributes over concatenation and keeps a single contract iff it matches, so the candidates are the matching contracts in their original order |
| ContractAssignment.AllMatchingKeepsOrder | demo-mode.js:554 | when every contract matches, the candidate list is the contract list itself |
| ContractAssignment.AssignRoundRobin | demo-mode.js:552-565 | with its per-`company:category` counter map, the loop assigns each entity as the round-robin specification says |
| ContractAssignment.SeedDemoAssignments | demo-mode.js:552-584 | items and reports are seeded with independent counters |
| ContractAssignment.SeedAssignedIsCandidate | demo-mode.js:555-563 | an entity without candidates is unchanged; otherwise it is assigned the partner of a matching contract; its company, office and category never change |
| ContractAssignment.SeedCountUniform | demo-mode.js:557-559 | in a batch of one company and category, the counter before position i is i |
| ContractAssignment.UniformBatchCycles | demo-mode.js:557-561 | the i-th entity of such a batch gets candidate i mod n |
| ContractAssignment.SeedCountGap | demo-mode.js:557-559 | entities with other keys, or without candidates, do not move a key's counter |
| ContractAssignment.RoundRobinNext | demo-mode.js:557-561 | consecutive entities with one key are served by successive candidates mod n |
| ContractAssignment.RoundRobinWindow | demo-mode.js:552-565 | three contracts and four entities give P1, P2, P3, P1 |
| ContractAssignment.ResolveCandidates | demo-mode.js:595 | exactly the active same-company contracts that list the category and are unscoped or scoped to the office |
| ContractAssignment.ResolveCandidatesHead | demo-mode.js:595-596 | the head of the matches is the first matching contract in contract order |
| ContractAssignment.ResolvePartner | demo-mode.js:591-599 | a pre-assigned partner is returned as is; otherwise a partner exactly when category and company are set and a contract matches, and then it is the first match's partner with its looked-up name; otherwise none with an empty name |
| ContractAssignment.PreAssignmentShortCircuits | demo-mode.js:592 | a pre-assigned item resolves the same whatever the contracts |
| ContractAssignment.SeedingIgnoresOfficeScope | demo-mode.js:554 | an office-A contract seeds an office-B item, while resolution for office B finds nothing |
| ContractAssignment.GetPartnerCompanies | demo-mode.js:601 | the loop computes the partner-companies fold |
| ContractAssignment.PartnerCompaniesMembers | demo-mode.js:601 | a company is listed iff an active contract of the partner names it, and no company is listed twice |
| ContractAssignment.PartnerCompaniesOrder | demo-mode.js:601 | companies appear in order of their first serving contract |
| Notifications.UnreadCount | unified-header.js:619-621 | at most the list length; zero iff every notification is read or not addressed to the user; the full length iff all are unread and addressed |
| Notifications.Badge | unified-header.js:612-614 | a badge exists exactly when there is a session user |
| Notifications.BadgeMeaning | unified-header.js:612-627 | the badge is visible iff the unread count is positive; it reads "99+" iff the count exceeds 99; otherwise it reads back as the count |
| Notifications.MissingUserIdSeesOtherRoles | unified-header.js:615-621 | a principal without `userId` counts a notification without a recipient id addressed to another role |
| Notifications.MarkAllReadList | unified-header.js:720-723 | addressed notifications become read, all others and the length are unchanged |
| Notifications.MarkAllReadClearsUnread | unified-header.js:715-727 | afterwards the user's unread count is zero |
| Notifications.MarkAddressedRead | unified-header.js:720-723 | the in-place loop computes the mark-all-read list |
| Notifications.MarkAllRead | unified-header.js:715-727 | without a user nothing changes; otherwise only the notification entry is rewritten, with the marked list |
| Notifications.MarkReadById | unified-header.js:731-732 | notifications with the clicked id become read, all others are unchanged |
| Notifications.MarkReadByIdCount | unified-header.js:730-734 | a click lowers a user's unread count by the number of that user's unread notifications carrying the id, and never raises it |
| Notifications.MarkIdRead | unified-header.js:731-732 | the in-place loop computes the click list |
| Notifications.HandleNotifClick | unified-header.js:730-734 | only the notification entry is rewritten, with the clicked notifications read |
| Notifications.NewNotification | unified-header.js:1118-1127 | the record is unread, carries the given id and time, takes recipient id, role, message and report id from the options ("" when missing), and its type is the option's type, or "info" when that is empty |
| Notifications.SendAddsOneUnread | unified-header.js:1128 | appending raises the unread count by one exactly for the users it is addressed to |
| Notifications.SendNotification | unified-header.js:1114-1136 | exactly one record is appended to the stored list and returned |
| Notifications.AddressedTo | unified-header.js:636 | exactly the notifications addressed to the user: a sub-multiset of the stored list in which every addressed notification keeps its multiplicity |
| Notifications.AddressedToInOrder | unified-header.js:636 | the filter keeps list order: filtering two lists joined is filtering each and joining, and a single notification is kept exactly when it is addressed |
| Notifications.InsertByDate | unified-header.js:637 | inserting into a newest-first list keeps it newest first and adds exactly one element |
| Notifications.SortNewestFirst | unified-header.js:637 | the sort is newest first and a permutation |
| Notifications.InsertByDateStable | unified-header.js:637 | an inserted notification goes in front of those with the same time, and those keep their order |
| Notifications.SortNewestFirstStable | unified-header.js:637 | the sort is stable, like `Array.prototype.sort`: for every time, the notifications with that time keep their stored order |
| Notifications.RenderedList | unified-header.js:630-638 | nothing without a user; otherwise at most 20 notifications, all addressed, newest first, as many as there are up to 20, and no notification shown more often than it is stored |
| Notifications.RenderedAreNewest | unified-header.js:637-638 | any addressed notification left out is no newer than every one shown |
| Notifications.ElapsedBucket | unified-header.js:663-668 | the bucket boundaries at 60, 3600, 86400 and 604800 seconds, with each count rounded down and below the next unit |
| Notifications.ElapsedBucketMonotone | unified-header.js:661-669 | a longer elapsed time never gives a smaller unit or a smaller count in the same unit |
| Notifications.FormatTimeAgo | unified-header.js:661-669 | for the elapsed whole seconds: under 60 "たった今"; then whole minutes + "分前", whole hours + "時間前", whole days + "日前" below one week; from one week on the locale date |
| Notifications.MinutesLabelReadsBack | unified-header.js:664 | the minutes label is the number of whole minutes followed by 分前 |
| AuditLog.FindEvent | unified-header.js:1011 | found iff the list records an entry with the same timestamp and user id |
| AuditLog.MergeAuditLogs | unified-header.js:1011 | the loop computes the merge of the persistent copy into the session copy |
| AuditLog.MergeKeepsSessionLogs | unified-header.js:1007-1011 | the session copy stays, in order, at the front |
| AuditLog.MergeCoversLocal | unified-header.js:1011 | every event of the persistent copy is recorded in the merge |
| AuditLog.MergeAddsOnlyLocal | unified-header.js:1011 | the merge holds nothing that is in neither copy |
| AuditLog.MergeKeepsEventsDistinct | unified-header.js:1011 | no duplicate event is introduced into a list without duplicates |
| AuditLog.MergeOfRecordedIsIdentity | unified-header.js:1011 | merging a copy whose events are all recorded changes nothing |
| AuditLog.MergeIdempotent | unified-header.js:1011 | merging the same copy twice is merging it once |
| AuditLog.NewAuditEntry | unified-header.js:1012-1021 | the entry has the header screen, the type, the detail and the time; without a user its user fields are empty; its user id is `id`, else `userId`, and its user name, company code and office code are the session user's |
| AuditLog.LoggedListShape | unified-header.js:1011-1023 | the written list ends with the new entry, keeps the session copy in front and records every persistent event |
| AuditLog.AfterLog | unified-header.js:1022-1023 | only `audit.logs` changes, and both stores hold the same text |
| AuditLog.LogAudit | unified-header.js:1003-1025 | both stores receive the same list: the merge followed by the new entry |
| PasswordChange.Validate | unified-header.js:1048-1051 | the form is accepted iff all fields are filled, the new password is confirmed, has at least 6 characters and the current password matches; each rejection is reported exactly when every earlier check passed and its own fails (empty field, mismatch, too short, wrong current) |
| PasswordChange.WrongCurrentReportedLast | unified-header.js:1048-1051 | a wrong current password is reported only for an otherwise well-formed form |
| PasswordChange.FindLogin | unified-header.js:1076 | the first partner login whose login id is the key, or none |
| PasswordChange.FindAccount | unified-header.js:1084 | the first account whose `userId`, else `id`, is the key, or none |
| PasswordChange.ContractorUpdated | unified-header.js:1060-1067 | a parsed `currentContractor` record is written back with the new password; a missing, null or unparseable one leaves the session as it was; no other entry changes |
| PasswordChange.RefusalsChangeNothing | unified-header.js:1041-1109 | no user, a rejected form, a missing record or an unparseable list leaves both stores unchanged |
| PasswordChange.ChangeRequiresValidForm | unified-header.js:1040-1056 | a change needs a user and an accepted form; it is a demo change iff the user is TAMJ or flagged |
| PasswordChange.DemoChangeKeepsMasterData | unified-header.js:1055-1069 | a demo change leaves every persistent entry except the audit trail unchanged |
| PasswordChange.ChangeUpdatesSessionUser | unified-header.js:1056-1058 | after a change the session principal has the new password and is off its first login |
| PasswordChange.StaffChangeUpdatesOneAccount | unified-header.js:1083-1091 | a staff change rewrites exactly the first matching account: the stored list afterwards is the old one with only that account's password, first-login flag (cleared) and change time replaced, and every other field and account unchanged |
| PasswordChange.ContractorChangeUpdatesOneLogin | unified-header.js:1074-1081 | a contractor change rewrites exactly the password of the first matching login |
| PasswordChange.DemoContractorChangeUpdatesContractor | unified-header.js:1060-1067 | after a demo change by a management company, `currentContractor` reads back as the earlier record with the new password |
| PasswordChange.ChangeFrame | unified-header.js:1055-1102 | a change writes, apart from the audit trail, only the principal's master list (none for demo, `partners` or `accounts`) and `currentUser`, plus `currentContractor` for a demo change |
| PasswordChange.ChangePassword | unified-header.js:1040-1109 | the method's outcome and final stores are those of the password-change specification |
| HeaderSession.LogoutEndsSession | unified-header.js:873-879 | after logout the session store is empty and no login entry remains |
| HeaderSession.LogoutRestoresDemoData | unified-header.js:865-872 | a flagged demo user's snapshotted entries get their snapshot values back while the logout audit entry survives |
| HeaderSession.LogoutKeepsOtherUsersData | unified-header.js:867-872 | for any other user only the audit trail and the login entries change |
| HeaderSession.Logout | unified-header.js:863-883 | unconfirmed changes nothing; confirmed gives audit, conditional restore, clear and removal in that order |
| HeaderSession.ReturnedToAdmin | unified-header.js:887-892 | with a saved session: it becomes the current user and the saved and contractor entries go, all else stays; without one nothing changes |
| HeaderSession.ReturnToAdminIdempotent | unified-header.js:886-894 | returning twice is returning once |
| HeaderSession.ReturnToAdminRestoresPrincipal | unified-header.js:888-889 | after returning, the session principal is the saved administrator |
| HeaderSession.ReturnToAdmin | unified-header.js:886-894 | navigates iff a saved session exists; the session store is rewritten as specified and the persistent one is untouched |

## Left out

- `sw.js` (the service worker): asynchronous cache and network plumbing. It is not part of this model.
- DOM rendering, CSS injection, event binding, dropdowns, `alert` texts and toasts (`_showNewNotifToast`, `setTimeout`): user interface only. `confirm` is a boolean parameter, and navigation (`window.location`) is external.
- JSON: parsing and serialisation are parameters. A stored value that parses but is not a list is treated like an unparseable one. In the source such a value makes `_logAudit` throw, and its catch then skips both writes. It makes the notification functions throw at their first list method (`filter` in the badge and list, `forEach` in read marking, `push` in `sendNotification`).
- A field missing from a stored record is modelled as "". The source's distinction between `undefined` and `''` is therefore lost. For example, `loginId === undefined` matches records lacking `loginId`.
- Records carry only the fields the code reads or writes. In the source, `JSON.stringify` writes the whole parsed object back, so fields the code does not touch survive. In the model, the serialisation parameters see only the modelled fields. The model therefore does not promise that untouched fields are preserved by these writes:
  - `currentUser` after a password change;
  - the `accounts`, `partners` and `ONE_notifications` lists;
  - `currentContractor`;
  - merged `audit.logs` entries.
- Clock and random source: notification ids, ISO timestamps and `passwordChangedAt` are parameters. `createdAt` is an integer number of milliseconds.
- Notifications.SortNewestFirst: `new Date(...)` of an unparseable date (NaN) in the comparator is not modelled. Engine-specific sort behaviour for such values is not modelled either.
- Notifications.FormatTimeAgo: `toLocaleDateString('ja-JP')` is a parameter. An unparseable date is not modelled: the model's elapsed time is an integer, with no NaN. In the source, a NaN difference fails every comparison and the label is the locale text of an invalid date.
- PasswordChange.Validate: the length test counts Unicode scalar values. JavaScript counts UTF-16 code units, so a password with characters outside the Basic Multilingual Plane can pass at fewer than 6 characters there.
- MutationGate.WarningMessage: a lookup of an inherited property name (such as `constructor`) in the message table is not modelled. Such names get the generic text.
- Exceptions from `setItem` (storage quota) are not modelled. Every write succeeds.
- Fixture data (`DEMO_ACCOUNTS`, `DEMO_PARTNERS`, `DEMO_CONTRACTS`, item templates, the category override table) and the rest of `initDemoData`: the seeding rule is modelled over arbitrary entities, contracts and partners.
- `beforeunload` fires on every page unload, including the app's own `window.location` navigations, so a flagged demo user's first page change restores the snapshot and removes it (demo-mode.js:45-56, 60-68). Neither core file saves a new snapshot afterwards. Changes made later in the same session are therefore not undone at logout or on a later unload; `DemoSnapshot.RestoreIdempotent` states that, with the snapshots gone, a restore leaves any persistent store as it is. When and how often the browser unloads the page is outside the model.
- The reliability of the `beforeunload` hook and interleavings between tabs: restore is modelled as one uninterrupted run, and `DemoSnapshot.InterruptedRestoreResumes` states what a re-run after an interruption gives.
- `resolvePartner` and `getPartnerCompanies` read `onetouch.contracts` (and `partners`) from the persistent store inside try/catch, with `|| '[]'`. The model takes the parsed lists as parameters. A missing or unparseable entry corresponds to passing the empty list, as `Common.ReadList` reads it.
