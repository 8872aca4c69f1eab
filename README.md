# A verified model of the mail, drive and account controllers

The backend of this mail and drive service is a set of Express controllers.
Each handler runs one or a few PostgreSQL statements over a handful of
tables: `mailboxes`, `folders`, `users`, `files`, `failed_deletions`,
`shares`, `user_public_keys`, `key_cache`, `domain`, `organisation` and
`labels`. This project models those tables as sequences of rows in
Dafny. A table is a field of a class when a handler changes it in place;
each handler is a method of that class. Every handler is proved against a
specification predicate of the form "either the status it answers with
the tables as they were, or the committed statements". Laws modules then
relate several handlers: moves and restores, create/read/update/delete
round trips, idempotence, and what other users can and cannot reach.

The SQL is modelled first-order:
- a WHERE clause is a `MailRows.Where` value, and a SET clause a `MailRows.Assign`;
- `UPDATE`, `DELETE`, `SELECT` and `rowCount` are recursive functions over the row sequence;
- a `SELECT` without `ORDER BY` returns rows in table order, so `rows[0]` is the first matching row;
- a lookup that builds a map with `forEach`/`reduce` finds the last matching row;
- a serial column is a counter, `nextId`.

Random UUIDs and random draws, disk writes and the outcome of file-system
calls are parameters of the methods.

The model follows the code where handlers disagree with each other, and
these divergences are kept on purpose:
- Single and per-thread restores lower-case `message_type` and look at the sender. The batch restores compare case-sensitively and ignore the sender.
- `moveThreadToSpam` writes `folder` only. It is scoped by the caller's address rather than by owner, and so is `deleteMultipleThreads`.
- `storeEmailInDb` stores `message_type` as "Sent" and `saveDraft` as "drafts".
- `toggleEmailStarred` negates the flag of the first matching row only.
- The three drive quota checks read a NULL limit in three different ways: `parseInt`, `Number`, and `|| 1073741824`.
- The single-column organisation patches ignore the owner. `updateOrganisationKey` needs no user at all. `getAllOrganisations` lists every user's organisations.
- `updateDomain` uses `??`, so a present but empty name blanks the domain.
- The share controller reads `trashed` while the file controller writes `is_trashed`. The share table of the model carries its own copy of the flag (`ShareStore.SharedFile.trashed`), separate from the drive's `isTrashed`, and nothing ties the two together.
- `isValidPublicKey` exists but `cacheKey` uses its own, weaker marker check. Both are modelled.

## Model

| member | source | states |
|---|---|---|
| Common.Trim | controllers/file.controller.js:1060 | `trim()` yields nothing exactly when the name is all whitespace, and otherwise neither end is whitespace |
| Common.Lower | controllers/email.controller.js:1766-1781 | lower-casing keeps the length and maps each character to its lower-case letter |
| Common.IndexOf | controllers/user.controller.js:313-314 | the first occurrence of a character: absent exactly when the character does not occur, else the earliest position holding it |
| Common.EmailCheckMatchesPattern | controllers/user.controller.js:313-314 | the address check accepts exactly the language of `^[^\s@]+@[^\s@]+\.[^\s@]+$` |
| Common.VersionFourIsUuid | controllers/email.controller.js:3042-3046 | every id the version-4 check accepts is also accepted by the version 1-5 check of the file controller |
| Common.UuidSplitsIntoGroups | controllers/file.controller.js:10-12 | an accepted UUID is five hexadecimal groups of sizes 8-4-4-4-12 joined by dashes |
| Common.GroupsJoinToUuid | controllers/file.controller.js:10-12 | conversely, any five such groups with an allowed version digit and variant 8, 9, a or b are accepted |
| Common.Decimal | controllers/email.controller.js:1661 | the decimal text of a count is non-empty and made of digits |
| Common.JsAdd | controllers/email.controller.js:1661 | JavaScript `+`: the sum of two numbers, and the concatenation of their texts as soon as either side is a string |
| Common.PlainLikeIsEquality | controllers/email.controller.js:3066-3070 | a LIKE pattern without `%`, `_` or `\` matches exactly itself |
| Common.PlainLikeIsContains | controllers/folder.controller.js:266-269 | `LIKE '%x%'` with a plain `x` is a substring test |
| Common.PlainILikeIsEqualityIgnoringCase | controllers/email.controller.js:3213-3217 | an `ILIKE` pattern without wildcards matches exactly the strings equal to it in any case |
| Common.PlainILikeIsContainsIgnoringCase | controllers/folder.controller.js:262-269 | `ILIKE '%q%'` with a plain `q` is a substring test in any case |
| Accounts.UserById | controllers/user.controller.js:640-641 | the lookup by id is absent exactly when no user has the id, and is otherwise a user with that id |
| Accounts.UserByEmail | controllers/email.controller.js:1311-1315 | the lookup by address is absent exactly when no user has the address, and is otherwise a user with that address |
| Accounts.ReplaceUser | controllers/user.controller.js:569-576 | an `UPDATE users … WHERE id` rewrites exactly the rows with that id |
| Accounts.AppendToList | controllers/user.controller.js:341-348 | `array_append(COALESCE(list,'{}'), x)` keeps the earlier entries in front, puts `x` last and treats NULL as empty |
| Accounts.Updatable | controllers/user.controller.js:519-538 | the filtered updates are exactly the request's whitelisted entries, `preferences` excluded |
| Accounts.SetClause | controllers/user.controller.js:561-564 | the SET clause numbers each kept column with its own placeholder, 1 upwards |
| Accounts.PlaceholdersBindTheirValues | controllers/user.controller.js:562-572 | every `$n` of the SET clause binds the value given for its column, and the user id binds the last placeholder, which the WHERE clause names |
| Accounts.WriteRowSetsEachKey | controllers/user.controller.js:560-574 | with distinct keys, `blocked_emails` and `spammed_emails` become the lists their literals denote, every other written column holds the request's text, and every other column is untouched |
| Accounts.ArrayLiteralRoundTrip | controllers/user.controller.js:566-572 | every list of strings, sent as the driver writes an array parameter (each element quoted, `"` and `\` escaped), is read back by PostgreSQL as that list |
| Accounts.PlainLiteralRoundTrip | controllers/user.controller.js:566-572 | a hand-written literal `{a,b}` whose elements need no quoting is read as exactly those elements |
| Accounts.UpdatableKeepsDistinct | controllers/user.controller.js:548-552 | filtering a JSON object keeps its keys distinct |
| Accounts.MergePrefs | controllers/user.controller.js:644 | `{...existing, ...incoming}`: incoming members win, every other existing member is kept, and nothing else appears |
| Accounts.StoredPrefs | controllers/user.controller.js:646-650 | the corrected store is a single-element array, so the next read finds the merged object |
| Accounts.StoredPrefsAsWritten | controllers/user.controller.js:643-650 | as written, the merged object is stored bare, so the next read of element 0 finds no preferences |
| Accounts.AsWrittenSecondUpdateForgetsFirst | controllers/user.controller.js:643-650 | as written, a second update reads element 0 of a stored object, finds nothing, and loses the first update's keys |
| Accounts.StoredPrefsAccumulate | controllers/user.controller.js:643-650 | stored as a single-element array, successive updates accumulate, with later values winning |
| MailRows.Apply | controllers/email.controller.js:1339-1352 | a SET clause never writes a key column (row id, owner, thread, message id) |
| MailRows.RestoreOrigin | controllers/email.controller.js:1766-1781 | a message goes back to Sent exactly when the caller sent it or its type is `sent` in any case; to Drafts exactly when the caller did not send it and its type is `draft` in any case; else to the inbox |
| MailRows.RestoreOriginIgnoresCase | controllers/email.controller.js:2504-2523 | the per-thread inference gives the same answer for a type and its lower-case form |
| MailRows.BatchOrigin | controllers/email.controller.js:2689-2694 | the batch CASE sends exactly `sent` to Sent and exactly `draft` to Drafts, comparing case-sensitively; every other type, `Sent` included, goes to the inbox |
| MailRows.BatchFolderId | controllers/email.controller.js:2695-2699 | the batch writes one of the three looked-up folder ids, and a draft falls back to the inbox when there is no Drafts folder (`COALESCE`) |
| MailRows.UpdateWhere | controllers/email.controller.js:1339-1352 | `UPDATE … WHERE w` rewrites exactly the rows `w` selects and keeps the length and every other row |
| MailRows.Selected | controllers/email.controller.js:1724-1726 | the rows a SELECT or RETURNING yields are exactly the table's rows `w` selects |
| MailRows.CountWhere | controllers/email.controller.js:1346-1350 | `rowCount` is the number of rows `w` selects; zero exactly when none matches |
| MailRows.DeleteWhere | controllers/email.controller.js:1619-1640 | `DELETE … WHERE w` keeps exactly the rows `w` does not select and removes as many rows as `rowCount` says |
| MailRows.ThreadIds | controllers/email.controller.js:2238-2250 | the thread ids occurring in a list of rows |
| MailRows.MessageIds | controllers/email.controller.js:2958-2967 | the message ids occurring in a list of rows |
| MailRows.Absent | controllers/email.controller.js:1624-1633 | the missing ids are exactly the requested ids not found |
| MailRows.Returning | controllers/email.controller.js:2252-2258 | the RETURNING list pairs each updated row's id with its thread |
| MailRows.GroupByThread | controllers/email.controller.js:1649-1652 | every returned row is listed under its thread, and every listed id was returned under that thread |
| MailRows.Tally | controllers/email.controller.js:1918 | counting one more row of a thread raises the total by one and adds that thread to the groups |
| MailRows.GroupCounts | controllers/email.controller.js:1649-1661 | the groups are exactly the threads of the affected rows, and their counts add up to the number of rows |
| MailRows.FirstFolder | controllers/email.controller.js:1336 | the `rows[0].folder_id` lookup finds a folder of the user's of that type, and is absent exactly when there is none |
| MailRows.LastFolder | controllers/email.controller.js:1741-1750 | the `forEach` map finds a folder of the user's of that type, absent exactly when there is none |
| MailRows.KindIds | controllers/email.controller.js:1724-1726 | the folder ids of one type, whoever owns the folder, as the restore JOIN reads them |
| MailRows.FolderByNameOrType | controllers/email.controller.js:2801 | a folder of the caller's whose name or type equals the request, absent exactly when there is none |
| MailRows.FolderByNameOrTypeIgnoringCase | controllers/email.controller.js:3066-3070 | the first of the caller's folders whose name or type matches the request as an `ILIKE` pattern, `%` and `_` being wildcards; absent exactly when none does |
| MailRows.PlainFolderRequestIgnoresCase | controllers/email.controller.js:3066-3070 | a request without wildcards finds a folder whose name or type equals it in any case |
| MailRows.WildcardRequestFindsFolder | controllers/email.controller.js:3213-3217 | a wildcard request such as `Arch%` finds the `Archive` folder, which is not equal to it in any case |
| MailRows.NextRowId | controllers/email.controller.js:1253-1262 | a fresh serial value exceeds every row id in the table |
| MailRows.RestoreWhere | controllers/email.controller.js:1759-1790 | a completed per-thread restore sends each selected row to the origin its type and sender indicate, and keeps every other row |
| MailRows.MessageIdList | controllers/email.controller.js:3402-3416 | the message ids of the rows, in order |
| MailRows.RestoreStep | controllers/email.controller.js:1759-1790 | one loop iteration extends the set of restored rows by the row it updates by id and owner |
| MailRows.RestoreLoopDone | controllers/email.controller.js:1759-1790 | once the loop has handled every selected row, the table is the per-thread restore of the old one |
| MailRows.ApplyIdempotent | controllers/email.controller.js:1339-1352 | every SET clause the controller runs is idempotent on a row |
| MailRows.UpdateIdempotent | controllers/email.controller.js:1837-1848 | running any of the UPDATE statements a second time changes nothing more |
| MailRows.ScopedStatementsSpareOtherUsers | controllers/email.controller.js:1521 | a statement scoped by `user_id` leaves every other user's rows as they were |
| MailRows.PartyScopeReachesRecipientCopy | controllers/email.controller.js:1619-1640 | scoping by address reaches the other party's copy: deleting "my" threads also deletes the recipient's rows |
| MailRows.InferencesAgreeOnLowerCaseForeignMail | controllers/email.controller.js:2688-2705 | on lower-case types and mail the caller did not send, per-thread and batch inference agree |
| MailRows.CapitalisedSentDiverges | controllers/email.controller.js:804 | a message stored as "Sent" goes back to Sent under a per-thread restore and to the inbox under a batch restore |
| MailRows.SavedDraftNeverRestoredToDrafts | controllers/email.controller.js:1261 | no restore sends a saved draft, typed "drafts", back to Drafts; the per-thread restores send it to Sent |
| MailRows.OwnMailRestoresToSent | controllers/email.controller.js:1766-1781 | the caller's own messages always go back to Sent in the per-thread restores |
| MailRows.TrashRoundTripForReceivedMail | controllers/email.controller.js:1441-1457 | moving a received inbox message to Trash and restoring its thread gives back the table |
| MailRows.TrashRoundTripForOwnMail | controllers/email.controller.js:1441-1457 | the same for a message the caller sent and filed in Sent |
| MailRows.BatchRestoreMisfilesSentMail | controllers/email.controller.js:2688-2705 | archiving mail stored by the send handler and restoring it by batch files it in the inbox, not in Sent |
| MailRows.OriginCountsAddUp | controllers/email.controller.js:1759-1790 | the Inbox, Sent and Drafts counters add up to the number of rows restored |
| MailRows.MoveThenRestoreThread | controllers/email.controller.js:1515-1531 | moving a whole thread into Trash or Archive and restoring it gives back the table when every row sat at its inferred origin |
| MailRows.ReadChangeSettles | controllers/email.controller.js:1896-1915 | after a read-status change no row is left for the same request to change |
| MailRows.FirstAndLastFolderAgree | controllers/email.controller.js:1741-1750 | the `rows[0]` and `forEach` lookups pick the same folder when a user has at most one folder of the type |
| MailRows.AsWrittenTotalIsText | controllers/email.controller.js:1661 | as written, summing COUNT(*) strings yields "0" followed by the counts' digits |
| MailRows.AsWrittenTotalCounterexample | controllers/email.controller.js:2724 | two threads of 2 and 3 rows make the answered total "023" rather than 5 |
| FolderRules.CheckNewFolder | controllers/folder.controller.js:34-63 | creation needs a name and one of the seven types, `custom` when the type is absent while an explicit `null` type is refused; a given colour must be `#` and six hex digits in either case |
| FolderRules.SystemFolders | controllers/user.controller.js:28-37 | signup inserts six rows: inbox, sent, drafts, trash, spam and archive with sort orders 1 to 6 and consecutive ids |
| FolderRules.SystemFoldersOnePerKind | controllers/user.controller.js:28-37 | a new account has exactly one folder of each system type |
| FolderRules.Sort | controllers/folder.controller.js:259-278 | `ORDER BY priority, name` yields a permutation of the rows that is ordered by priority and then by name |
| FolderRules.FolderSuggestions | controllers/folder.controller.js:243-290 | a query shorter than two characters gets 400; a single non-empty `excludeTypes` value, a string without `map`, gets 500; otherwise at most ten of the caller's folders whose name matches `ILIKE '%query%'`, ordered, with no left-out folder ranking before a returned one |
| FolderRules.PlainQueryIsContainment | controllers/folder.controller.js:266-269 | a query without wildcards selects exactly the folders whose name contains it in any case |
| FolderRules.UnderscoreQueryMatchesAnyCharacter | controllers/folder.controller.js:266-269 | `_` in a query stands for any one character: `a_c` selects a folder named `abc` that does not contain it |
| MailCompose.NullIfEmpty | controllers/email.controller.js:1213-1215 | `NULLIF($n, '')` is NULL exactly for the empty string |
| MailCompose.NewDraftRow | controllers/email.controller.js:1253-1267 | a first save inserts a read, unstarred draft of the caller in Drafts; its type `drafts` sends it back to Sent under a per-thread restore and to the inbox under a batch restore |
| MailCompose.SentRow | controllers/email.controller.js:796-806 | a sent message is inserted unread, not a draft, in the thread given, with `folder_id` set and no display name; its type `Sent` sends it back to Sent under a per-thread restore and to the inbox under a batch restore |
| MailCompose.NextFolderId | controllers/email.controller.js:1177-1188 | the Drafts folder created for a draft gets an id above every folder id |
| MailCompose.ReplyThread | controllers/email.controller.js:786-794 | a reply joins the thread of the caller's first copy of the message it answers, when that copy has one; otherwise the fresh thread |
| MailCompose.ByMessage | controllers/email.controller.js:2979 | every returned message is listed, each entry comes from a returned row with that id, and a later row overwrites an earlier one |
| MailCompose.InvalidUuids | controllers/email.controller.js:3042-3050 | exactly the thread ids the version-4 pattern rejects, in order |
| MailStore.MailDb.MoveEmailToSpam | controllers/email.controller.js:1299-1370 | 400, 404 for an unknown address, 500 without a Spam folder, 404 when no row matches; otherwise both folder columns of the caller's copies of the message are set and nothing else changes |
| MailStore.MailDb.MoveToTrash | controllers/email.controller.js:1404-1475 | the same for Trash, keyed by message id |
| MailStore.MailDb.MoveThreadToTrash | controllers/email.controller.js:1478-1550 | the same for Trash, keyed by thread id |
| MailStore.MailDb.MoveMessageToArchive | controllers/email.controller.js:1990-2070 | the same for Archive; the existence check answers 404 exactly when the update would match nothing |
| MailStore.MailDb.MoveThreadToArchive | controllers/email.controller.js:2073-2176 | the same for Archive, keyed by thread id |
| MailStore.MailDb.MoveThreadToSpam | controllers/email.controller.js:1373-1398 | only `folder` becomes "Spam", on the thread's rows where the caller is sender or recipient; `folder_id` and every other row are kept; 404 when nothing matches |
| MailStore.MailDb.RestoreThreadFromTrash | controllers/email.controller.js:1688-1817 | the caller's rows of the thread that sit in a trash folder each go to the origin their type and sender indicate; the counters describe where they went; 404 when there are none |
| MailStore.MailDb.RestoreThreadFromArchive | controllers/email.controller.js:2431-2564 | the same from archive folders |
| MailStore.MailDb.RestoreRows | controllers/email.controller.js:1759-1790 | the per-row loop leaves the table restored for exactly the checked rows and counts each destination |
| MailStore.MailDb.RestoreFromArchive | controllers/email.controller.js:2304-2429 | the origin comes from the first archived copy; the update then reaches every copy of the message the caller owns, archived or not; 404 when none is archived |
| MailStore.MailDb.UpdateUnlessMissing | controllers/email.controller.js:2238-2250 | the update is committed only when every requested id was found, and the missing ids are reported |
| MailStore.MailDb.MoveThreadsToArchive | controllers/email.controller.js:2178-2301 | all or nothing: a 404 lists exactly the missing threads and changes nothing; otherwise every requested thread of the caller's moves to Archive and the moved ids are grouped by thread |
| MailStore.MailDb.MoveThreadsToFolder | controllers/email.controller.js:2756-2887 | all or nothing into the caller's first folder whose name or type matches; a system folder's rows take its type as display name |
| MailStore.MailDb.MoveMessagesToFolder | controllers/email.controller.js:2890-3020 | the same keyed by message id, answering the rows by message |
| MailStore.MailDb.RestoreThreadsFromArchive | controllers/email.controller.js:2612-2752 | all or nothing; archived rows go back by the case-sensitive CASE (a missing Drafts falls back to the inbox); the answered total is the corrected number of restored rows, not the text the code builds |
| MailStore.MailDb.RestoreThreadsFromFolder | controllers/email.controller.js:3022-3181 | every id must be a version-4 UUID; the source folder is the first whose name or type matches the request as an `ILIKE` pattern; the missing threads are those the update did not reach, and then nothing changes |
| MailStore.MailDb.RestoreMessagesFromFolder | controllers/email.controller.js:3183-3329 | the same keyed by message id, without the UUID check |
| MailStore.MailDb.SetEmailIsRead | controllers/email.controller.js:1820-1858 | only the thread's rows whose flag differs change; 404 when none does, so repeating the call changes nothing |
| MailStore.MailDb.SetThreadsReadStatus | controllers/email.controller.js:1860-1957 | the batch form: the changed rows, grouped by thread; 404 when none changed |
| MailStore.MailDb.SetEmailStarred | controllers/email.controller.js:1961-1987 | every copy the caller sent or received takes the requested flag, which is answered; 404 when none matches |
| MailStore.MailDb.ToggleEmailStarred | controllers/email.controller.js:2566-2609 | the negation of the first matching row's flag is written to every matching row and answered |
| MailStore.MailDb.DeleteMultipleThreads | controllers/email.controller.js:1585-1685 | all or nothing over the caller's address; the answered total is the corrected number of deleted rows, not the text the code builds |
| MailStore.MailDb.DeleteDraft | controllers/email.controller.js:3332-3383 | the first of the caller's drafts with the message id is deleted by row id; 404 when there is none |
| MailStore.MailDb.DeleteDrafts | controllers/email.controller.js:3385-3429 | every draft of the caller's with one of the ids is deleted and its message id answered |
| MailStore.MailDb.SaveDraft | controllers/email.controller.js:1141-1293 | 401, 400 for an empty draft, rolling back the Drafts folder made on the way; otherwise the caller's draft is rewritten and refiled in Drafts, or a fresh draft row is appended |
| MailStore.MailDb.StoreEmailInDb | controllers/email.controller.js:681-821 | a saved draft with the message id becomes a sent message in place, keeping its thread; otherwise a "Sent" row is appended in the reply's thread or a fresh one |
| MailLaws.MovedRowsAreInTarget | controllers/email.controller.js:2836-2843 | after a batch move the rows the narrowed clause selects are exactly the moved rows, in order |
| MailLaws.UpdateKeepsThreadIds | controllers/email.controller.js:2252-2258 | an UPDATE keeps the thread ids it returns |
| MailLaws.UpdateKeepsMessageIds | controllers/email.controller.js:2979 | an UPDATE keeps the message ids it returns |
| MailLaws.MovedThreadsCanBeRestored | controllers/email.controller.js:3136-3146 | a batch thread move that found every thread is followed by a restore from the target folder that finds every thread and restores as many rows |
| MailLaws.MovedMessagesCanBeRestored | controllers/email.controller.js:3279-3289 | the same for messages |
| MailLaws.ArchiveThenRestoreThreads | controllers/email.controller.js:2688-2705 | archiving threads and batch-restoring them equals applying the restore CASE directly: where a row lands depends only on its type |
| MailLaws.StarredReadsBack | controllers/email.controller.js:1961-1987 | after starring, the first selected row reads back the value written |
| MailLaws.ToggleTwiceRestores | controllers/email.controller.js:2583-2591 | two toggles give back the table when every visible copy carried the same flag, answering the negation and then the original |
| MailLaws.ToggleTwiceDriftsWhenCopiesDisagree | controllers/email.controller.js:2583-2591 | when the copies disagree, two toggles do not give the table back |
| MailLaws.DeleteOnlyLast | controllers/email.controller.js:3355-3359 | deleting by the id of a row appended with a fresh id removes that row only |
| MailLaws.SavedDraftCanBeDeleted | controllers/email.controller.js:3332-3383 | a first save of a draft is the caller's only draft with its fresh id, and deleting it gives back the table |
| MailLaws.SentDraftLeavesDrafts | controllers/email.controller.js:761-781 | sending a saved draft takes every copy out of the caller's drafts and files it in Sent as a sent message |
| UserStore.FilterUpdates | controllers/user.controller.js:548-552 | the `for … in` loop keeps exactly the whitelisted keys, in order |
| UserStore.UserDb.CreateUser | controllers/user.controller.js:6-95 | a taken address gets 400 and nothing changes; otherwise the user row and its six system folders are added |
| UserStore.UserDb.AddUserToBlock | controllers/user.controller.js:298-377 | own address or an invalid one gets 400, an already listed one 409, all unchanged; otherwise the address is appended |
| UserStore.UserDb.AddUserToSpam | controllers/user.controller.js:379-505 | the same checks, plus 500 and rollback without a Spam folder; otherwise the address is appended and the sender's mail moves to Spam |
| UserStore.UserDb.UpdateProfile | controllers/user.controller.js:541-587 | no whitelisted field gets 400; a `blocked_emails` or `spammed_emails` value that is not an array literal gets 500; an unknown caller 404; otherwise exactly those columns are written, the two lists into the lists the block and spam handlers read |
| UserStore.UserDb.UpdatePreferences | controllers/user.controller.js:630-657 | a non-object gets 400; otherwise the merge over the current preferences is answered and stored in the corrected form, a single-element array |
| UserStore.ReplaceUserKeepsKeys | controllers/user.controller.js:566-574 | rewriting a row in place keeps ids and addresses unique |
| UserStore.UserByIdAfterReplace | controllers/user.controller.js:566-574 | after a rewrite, the lookup by id finds the new row |
| UserStore.BlockTwiceConflicts | controllers/user.controller.js:329-337 | blocking the same address twice: the second request gets 409 and changes nothing |
| UserStore.BlockAppends | controllers/user.controller.js:341-348 | a successful block ends with the address last and the earlier entries kept |
| UserStore.SenderMoveTouchesOnlySender | controllers/user.controller.js:459-465 | the spam move sets both folder columns of exactly that sender's rows of that user |
| UserStore.SpamReportMovesSendersMail | controllers/user.controller.js:429-465 | after a report every message from the sender sits in Spam under both columns; every other row is as it was |
| UserStore.SpamTwiceConflicts | controllers/user.controller.js:416-425 | a second report of the same sender gets 409 and changes nothing |
| UserStore.ProfileUpdateWritesOnlyAllowed | controllers/user.controller.js:519-574 | each whitelisted column of the request is written, `blocked_emails` and `spammed_emails` as the lists their literals denote; every other column, `preferences` and a list the request does not name included, is kept |
| UserStore.ProfileListGovernsBlock | controllers/user.controller.js:329-337 | after a profile update sets `blocked_emails`, blocking an acceptable address gets 409 exactly when the literal lists it, so a profile update can also unblock an address |
| UserStore.PreferenceUpdatesAccumulate | controllers/user.controller.js:643-650 | with the corrected store, two updates read back as the merge of both, the later winning |
| UserStore.SystemFolderOfKind | controllers/user.controller.js:28-37 | the signup folder of each type is the one numbered for it |
| UserStore.SignUpFoldersFound | controllers/user.controller.js:28-37 | after signup the first-row and last-row lookups of every system type find the new account's folder |
| UserStore.SignUpTwiceRefused | controllers/user.controller.js:6-20 | signing up twice with one address: the second request gets 400 and no table changes |
| FolderStore.FolderOfUser | controllers/folder.controller.js:308-311 | the lookup by id and owner is absent exactly when the caller has no such folder |
| FolderStore.RenameFolder | controllers/folder.controller.js:327-335 | the rename writes the name of exactly the rows with that id and owner |
| FolderStore.RemoveFolder | controllers/folder.controller.js:394-397 | the delete keeps exactly the rows without that id and owner |
| FolderStore.FolderDb.CreateFolder | controllers/folder.controller.js:30-132 | the validation failures get 400, a parent the caller does not own 400, a duplicate name 400; otherwise the folder is appended |
| FolderStore.FolderDb.EditFolder | controllers/folder.controller.js:296-359 | 404 when not the caller's, 403 for a system folder, 400 on a duplicate name; otherwise only the name changes |
| FolderStore.FolderDb.DeleteFolder | controllers/folder.controller.js:361-414 | 404 when not the caller's, 403 for a system folder; otherwise the folder is removed |
| FolderStore.RenameKeepsFirstLookup | controllers/folder.controller.js:327-335 | renaming keeps every id, owner and type, so no type lookup changes |
| FolderStore.RemoveKeepsTypeLookups | controllers/folder.controller.js:386-397 | removing a custom folder leaves every lookup of another type unchanged |
| FolderStore.EditsSpareSystemFolders | controllers/folder.controller.js:318-325 | whatever an edit or a delete answers, the folders the mail handlers look up by type are unchanged |
| FolderStore.CreateThenDelete | controllers/folder.controller.js:378-396 | a custom folder just created can be deleted, restoring the table; one created with a system type can be neither renamed nor deleted |
| FolderStore.CreateTwiceRefused | controllers/folder.controller.js:112-116 | a second folder of the same name for the same user gets 400 and the table keeps the first only |
| DriveRules.FileOf | controllers/file.controller.js:486 | the lookup by id and owner is absent exactly when the caller has no such file |
| DriveRules.FileById | controllers/file.controller.js:1085-1088 | the lookup by id alone, whoever owns the file |
| DriveRules.AccountOf | controllers/file.controller.js:192-195 | the user row carrying the storage counters, absent exactly when there is none |
| DriveRules.Without | controllers/file.controller.js:568 | the delete keeps exactly the rows other than the deleted id |
| DriveRules.Changed | controllers/file.controller.js:529-535 | `COALESCE` keeps the name and parent when none is given, and the size is set |
| DriveRules.Update | controllers/file.controller.js:529-535 | the update rewrites exactly the rows with that id |
| DriveRules.AddUsed | controllers/file.controller.js:233 | `used_storage + $1` changes that user's counter only |
| DriveRules.SetUsed | controllers/file.controller.js:520 | `used_storage = $1` sets that user's counter only |
| DriveRules.UpdateLimit | controllers/file.controller.js:508 | a NULL or zero limit means 1073741824, any other limit is itself |
| DriveRules.UploadExceeds | controllers/file.controller.js:197-199 | `parseInt(NULL)` is NaN, so a NULL limit never refuses an upload; otherwise an upload is refused exactly when the new total passes the limit |
| DriveRules.UpdateExceeds | controllers/file.controller.js:507-512 | new content is refused exactly when `used - old + new` passes the limit, one gibibyte when the limit is NULL or zero |
| DriveRules.CopyExceeds | controllers/file.controller.js:627-634 | `Number(NULL)` is 0, so a NULL limit refuses every copy that leaves the account non-empty; otherwise a copy is refused exactly when the new total passes the limit |
| DriveRules.CopyMatches | controllers/file.controller.js:609-614 | the `LIKE 'Copy of X%'` count is at most the number of files, and zero for a file at the root, where `parent_id = NULL` matches nothing |
| DriveRules.CopyNameAsWritten | controllers/file.controller.js:616-618 | as written, the copy takes the candidate name indexed by the `LIKE` count |
| DriveRules.CopyName | controllers/file.controller.js:616-618 | corrected, the copy's name is held by no file of the owner in that location, and is `Copy of X` whenever that is free |
| DriveRules.ValidFileName | controllers/file.controller.js:1073-1079 | a name the pattern `[a-zA-Z0-9_.\-\s]+` accepts is non-empty and holds no path separator and no NUL |
| DriveRules.SiblingNames | controllers/file.controller.js:1110-1125 | the names of the owner's files in one location |
| DriveRules.FirstFreeIndex | controllers/file.controller.js:616-618 | the first candidate index from `n` whose name is free |
| DriveRules.ParseStateField | controllers/file.controller.js:1008-1012 | only `is_starred`, `is_trashed` and `is_archived` are accepted |
| DriveRules.DecimalInjective | controllers/file.controller.js:618 | different counts have different decimal texts |
| DriveRules.CandidateInjective | controllers/file.controller.js:616-618 | different indices give different copy names |
| Common.PlainLikeIsPrefix | controllers/file.controller.js:609-614 | `LIKE 'x%'` on a pattern without wildcards is a prefix test |
| DriveRules.UsageWithout | controllers/file.controller.js:568-574 | deleting the one row with an id lowers its owner's total by its size |
| DriveRules.UsageUpdate | controllers/file.controller.js:507-531 | rewriting the one row with an id changes its owner's total by the difference in size |
| DriveRules.TracksAfterAdd | controllers/file.controller.js:232-235 | adding a file and its size to the counter keeps `used_storage` equal to the sum of the owner's sizes |
| DriveRules.TracksAfterSet | controllers/file.controller.js:519-522 | writing the new total into `used_storage` keeps the books |
| DriveStore.FinalParent | controllers/file.controller.js:167 | `folderId \|\| parentId \|\| null` |
| DriveStore.UploadId | controllers/file.controller.js:188 | a valid incoming UUID is kept, anything else replaced by the drawn one |
| DriveStore.MarkForCleanup | controllers/file.controller.js:1698-1709 | the upsert adds a first attempt for a new file and one more for a known one |
| DriveStore.PermanentlyDeletedAsWritten | controllers/file.controller.js:1628-1641 | as written, the cleanup mark is rolled back, so `failed_deletions` never changes, and a failed disk deletion leaves every table as it was |
| DriveStore.DriveDb.UploadFile | controllers/file.controller.js:133-259 | 403 when `used + size > limit` under `parseInt`; otherwise the file is added and usage grows by exactly its size |
| DriveStore.DriveDb.UpdateFile | controllers/file.controller.js:474-545 | new content sets usage to `used - old + new`, refused above `limit \|\| 1073741824`; a metadata update keeps usage |
| DriveStore.DriveDb.DeleteFile | controllers/file.controller.js:547-581 | the caller's file is removed and usage drops by its size; 404 otherwise |
| DriveStore.DriveDb.PermanentDeleteFile | controllers/file.controller.js:1594-1672 | a successful disk deletion removes the row and refunds its size; in the corrected form a failed one changes only `failed_deletions` |
| DriveStore.DriveDb.CopyFile | controllers/file.controller.js:583-695 | 403 when `Number(used) + Number(size) > Number(limit)`; otherwise a fresh copy under the corrected name, the first one free in its location, and usage up by the size |
| DriveStore.DriveDb.UpdateFileState | controllers/file.controller.js:1001-1054 | an unknown field gets 400; the flag is true iff the value lower-cases to `true`, with its timestamp set iff true |
| DriveStore.DriveDb.RenameFile | controllers/file.controller.js:1057-1151 | the trimmed name must be non-empty and match the pattern (400); an unknown file gets 404, another owner's 403, a name used by a sibling 409; then only the name changes |
| DriveStore.UploadKeepsBooks | controllers/file.controller.js:197-235 | a successful upload charges exactly the uploaded size and keeps the books |
| DriveStore.UpdateKeepsBooks | controllers/file.controller.js:507-531 | a content update charges the size difference; a metadata update charges nothing |
| DriveStore.DeleteKeepsBooks | controllers/file.controller.js:568-574 | a delete refunds exactly the deleted file's size |
| DriveStore.PermanentDeleteKeepsBooks | controllers/file.controller.js:1644-1648 | a permanent delete refunds the size; a failed one keeps the books |
| DriveStore.CopyKeepsBooks | controllers/file.controller.js:677-680 | a copy charges exactly the original's size |
| DriveStore.StateKeepsBooks | controllers/file.controller.js:1019-1029 | a state change keeps every size and every total |
| DriveStore.RenameKeepsBooks | controllers/file.controller.js:1127-1134 | a rename keeps every size and every total |
| DriveLaws.QuotaChecksAgree | controllers/file.controller.js:197 | with a positive limit, upload, update and copy refuse the same growth |
| DriveLaws.NullLimitDiverges | controllers/file.controller.js:627 | with a NULL limit, upload never refuses, copy refuses anything that leaves the account non-empty, and update measures against one gibibyte |
| DriveLaws.UploadCharges | controllers/file.controller.js:197-199 | an accepted upload stays within a set limit and adds exactly the size |
| DriveLaws.UpdateRecharges | controllers/file.controller.js:507-512 | new content yields `used - old + new`, never above the effective limit |
| DriveLaws.DeleteRefunds | controllers/file.controller.js:568-574 | a delete subtracts exactly the deleted file's size |
| DriveLaws.PermanentDeleteRefunds | controllers/file.controller.js:1644-1648 | a permanent delete subtracts exactly the deleted file's size |
| DriveLaws.CopyCharges | controllers/file.controller.js:627-634 | a copy adds exactly the original's size, within the limit as `Number` reads it |
| DriveLaws.UploadThenDelete | controllers/file.controller.js:547-581 | uploading a file and deleting it restores every table |
| DriveLaws.CopyNameIsFresh | controllers/file.controller.js:609-618 | with the corrected naming, no file of the owner in that location has the copy's name |
| DriveLaws.CopyNameIsFirstFree | controllers/file.controller.js:616-618 | with the corrected naming, the copy is `Copy of X` when that is free, else the first free `Copy (n) of X` |
| DriveLaws.FirstCopyNamesAgree | controllers/file.controller.js:609-618 | when nothing starts with `Copy of X`, the naming as written and as corrected agree |
| DriveLaws.ThreeCopiesMatchOnce | controllers/file.controller.js:609-614 | of `a`, `Copy of a` and `Copy (1) of a` only `Copy of a` matches `Copy of a%` |
| DriveLaws.AsWrittenCopyNameRepeats | controllers/file.controller.js:609-618 | as written, a third copy of `a` is named `Copy (1) of a` again |
| DriveLaws.AsWrittenRootCopyRepeats | controllers/file.controller.js:612 | as written, a file at the root always gets `Copy of X`, since `parent_id = NULL` matches nothing |
| DriveLaws.StateFieldNames | controllers/file.controller.js:1008-1012 | each accepted field name selects its flag, and only those three are accepted |
| DriveLaws.StateFlagFollowsValue | controllers/file.controller.js:1017-1029 | after a state update the flag is set iff the value lower-cases to `true`, and its timestamp is set iff the flag is |
| DriveLaws.RenameApplies | controllers/file.controller.js:1060-1135 | an accepted rename writes the trimmed, valid name into the caller's file |
| DriveLaws.RootRenameNeverConflicts | controllers/file.controller.js:1114 | a file at the root is never refused as a duplicate |
| DriveLaws.AsWrittenFailedDeletionUnmarked | controllers/file.controller.js:1628-1641 | as written, a failed disk deletion answers 500 and leaves no mark in `failed_deletions` |
| DriveLaws.FailedDeletionMarked | controllers/file.controller.js:1698-1709 | corrected, a failed disk deletion keeps the file and counts one more attempt for it |
| ShareStore.SharedBy | controllers/sharewith.controller.js:257-265 | the first share with the id that the caller made, absent exactly when there is none |
| ShareStore.SetPermission | controllers/sharewith.controller.js:257-265 | the update changes the permission of exactly the caller's shares with the id |
| ShareStore.WithoutShare | controllers/sharewith.controller.js:311-315 | the delete keeps exactly the shares with other ids |
| ShareStore.ShareDetails | controllers/sharewith.controller.js:181-230 | the share is visible to its recipient and its sharer only; 404 for everyone else |
| ShareStore.ShareDb.ShareItem | controllers/sharewith.controller.js:7-111 | missing fields or a bad permission get 400; a file the caller does not own or a trashed one 404; self-share 400; unknown user 404; a duplicate 409; otherwise one share is appended |
| ShareStore.ShareDb.UpdateSharePermissions | controllers/sharewith.controller.js:236-284 | a bad permission gets 400; only the sharer's share changes, else 404 |
| ShareStore.ShareDb.RemoveShare | controllers/sharewith.controller.js:290-328 | the sharer, the recipient or the file owner may remove a share; 404 for anyone else |
| ShareStore.ShareKeepsWellFormed | controllers/sharewith.controller.js:64-83 | a new share for a new pair, not to the sharer, keeps ids unique and one share per pair |
| ShareStore.WithoutShareKeepsWellFormed | controllers/sharewith.controller.js:311-315 | removing a share keeps the table well-formed |
| ShareLaws.SecondShareConflicts | controllers/sharewith.controller.js:64-74 | a second share of the same file to the same user gets 409 and changes nothing |
| ShareLaws.ShareThenVisible | controllers/sharewith.controller.js:211-220 | after sharing, the recipient and the sharer read the share back, and nobody else |
| ShareLaws.ShareThenRemove | controllers/sharewith.controller.js:296-316 | the recipient may withdraw a share just made, which restores the table |
| ShareLaws.PermissionOnlyBySharer | controllers/sharewith.controller.js:242-271 | a permission changes exactly when it is valid and the caller made the share, and only that share changes |
| ShareLaws.RemovedShareIsGone | controllers/sharewith.controller.js:296-316 | a removed share can no longer be read, and every other share stays |
| ShareLaws.StrangerCannotRemove | controllers/sharewith.controller.js:296-308 | someone who is neither sharer, recipient nor owner cannot remove a share |
| KeyStore.KeyByEmail | controllers/keys.controller.js:99-104 | the first key row for the address, absent exactly when there is none |
| KeyStore.UserKeyFor | controllers/keys.controller.js:83-124 | the private half is answered exactly when no address or the caller's own was asked for; 404 when there is no key |
| KeyStore.Rekey | controllers/keys.controller.js:158-163 | the update rewrites the key of exactly the entries for that address and user |
| KeyStore.CachedEntry | controllers/keys.controller.js:190-195 | the caller's cached entry for the address, absent exactly when there is none |
| KeyStore.CachedKeyFor | controllers/keys.controller.js:181-203 | 400 without an address, the caller's cached key, or 404 |
| KeyStore.IsValidPublicKey | controllers/keys.controller.js:127-133 | every key type but openpgp is accepted; an openpgp key is accepted exactly when it holds the full armour header |
| KeyStore.KeyDb.CacheKey | controllers/keys.controller.js:136-178 | missing fields or a key without both PGP markers get 400; otherwise an existing entry is updated or one is inserted |
| KeyStore.UpsertKeepsOnePerPair | controllers/keys.controller.js:151-172 | the upsert never creates a second entry for an (address, user) pair |
| KeyLaws.CacheThenGet | controllers/keys.controller.js:190-199 | after an accepted `cacheKey`, `getCachedKey` for that address returns the key |
| KeyLaws.CacheLeavesOthers | controllers/keys.controller.js:151-172 | caching changes the answer for no other address or user |
| KeyLaws.UpsertIdempotent | controllers/keys.controller.js:151-172 | caching the same key twice equals caching it once |
| KeyLaws.ArmorHeaderHasBeginMarker | controllers/keys.controller.js:127-133 | a key that passes `isValidPublicKey` as openpgp carries the marker `cacheKey` checks first |
| KeyLaws.CacheCheckAcceptsUnarmouredKey | controllers/keys.controller.js:144-147 | the marker check of `cacheKey` is weaker than `isValidPublicKey`: the bare markers without armour dashes are cached but refused as an openpgp key |
| DomainStore.GenerateDnsRecords | controllers/domain.controller.js:4-11 | the MX host, SPF include, DKIM host and DMARC policy text for the name |
| DomainStore.AllDomains | controllers/domain.controller.js:38-67 | 401 without a user; else exactly the caller's domains not deleted |
| DomainStore.DomainById | controllers/domain.controller.js:73-93 | 401, the caller's live domain with the id, or 404 |
| DomainStore.SetDomain | controllers/domain.controller.js:120-132 | every row with the id takes the revised columns |
| DomainStore.SoftDelete | controllers/domain.controller.js:150-162 | exactly the caller's live rows with the id become deleted |
| DomainStore.DomainDb.CreateDomain | controllers/domain.controller.js:14-35 | 400 without a name; otherwise a new live, unverified domain with its records |
| DomainStore.DomainDb.UpdateDomain | controllers/domain.controller.js:97-139 | a NULL or absent name or flag keeps the current one and the records follow the resulting name; 404 when not the caller's live domain |
| DomainStore.DomainDb.DeleteDomain | controllers/domain.controller.js:143-169 | the caller's live domain is marked deleted; 404 otherwise |
| DomainStore.SetDomainKeepsWellFormed | controllers/domain.controller.js:115-132 | every row keeps the records of its own name |
| DomainLaws.RecordsDetermineName | controllers/domain.controller.js:4-11 | the name can be read back from the MX record, so different names get different records |
| DomainLaws.CreateThenRead | controllers/domain.controller.js:14-35 | a new domain is listed for its owner and read back by its id |
| DomainLaws.UpdateFallsBack | controllers/domain.controller.js:115-118 | missing values keep the current ones and the records are regenerated from the resulting name |
| DomainLaws.UpdateThenRead | controllers/domain.controller.js:97-139 | after an update, reading the domain returns the revised row |
| DomainLaws.EmptyNameDiverges | controllers/domain.controller.js:115 | a present but empty name passes `??`, so an update may blank a name creation refuses |
| DomainLaws.DeleteHidesAndIsFinal | controllers/domain.controller.js:150-162 | after a soft delete the domain is neither listed nor readable, and a second delete gets 404 |
| OrganisationStore.AllOrganisations | controllers/organization.controller.js:4-21 | exactly the organisations not deleted, whoever asks |
| OrganisationStore.OrganisationById | controllers/organization.controller.js:25-49 | 401 without a user; the caller's live organisation with the id, or 404 |
| OrganisationStore.Merge | controllers/organization.controller.js:93-96 | an absent field keeps the column, `null` clears it, a value replaces it |
| OrganisationStore.SetOwned | controllers/organization.controller.js:98-102 | the update rewrites the four columns of exactly the caller's rows with the id, deleted rows included |
| OrganisationStore.PatchLive | controllers/organization.controller.js:120-127 | a patch rewrites its column on exactly the live rows with the id, whoever owns them |
| OrganisationStore.KeyFrom | controllers/organization.controller.js:186-190 | the key spelled by the draws has one character per draw, the charset letter it picked |
| OrganisationStore.NewKeyFrom | controllers/organization.controller.js:186-190 | the loop builds the key the draws spell: fifty characters, each from the alphanumeric charset |
| OrganisationStore.SoftDelete | controllers/organization.controller.js:221-227 | exactly the caller's live rows with the id become deleted |
| OrganisationStore.OrganisationDb.CreateOrganisation | controllers/organization.controller.js:52-69 | 401 without a user; otherwise a new row owned by the caller, an empty logo stored as NULL |
| OrganisationStore.OrganisationDb.UpdateOrganisation | controllers/organization.controller.js:73-113 | 401, 404 unless the caller owns a live one, 500 for a `null` logo; otherwise the merged row, a given logo base64-decoded |
| OrganisationStore.OrganisationDb.PatchColumn | controllers/organization.controller.js:120-127 | 404 when no live organisation has the id; otherwise the patched row |
| OrganisationStore.OrganisationDb.UpdateOrganisationName | controllers/organization.controller.js:117-133 | 400 for a falsy name, then the patch |
| OrganisationStore.OrganisationDb.UpdateOrganisationLogo | controllers/organization.controller.js:138-156 | 400 for a falsy logo, then the text stored as sent |
| OrganisationStore.OrganisationDb.UpdateOrganisationIds | controllers/organization.controller.js:161-179 | 400 for a falsy value, then an array joined by commas or a string as sent |
| OrganisationStore.OrganisationDb.UpdateOrganisationKey | controllers/organization.controller.js:183-211 | a fresh fifty-character key is stored and answered; 404 when no live organisation has the id |
| OrganisationStore.OrganisationDb.DeleteOrganisation | controllers/organization.controller.js:215-235 | 401, 404 unless the caller owns a live one; otherwise it is marked deleted |
| OrganisationLaws.CreateThenRead | controllers/organization.controller.js:52-69 | a new organisation is listed for everyone and read back by its owner |
| OrganisationLaws.UpdateThenRead | controllers/organization.controller.js:82-102 | after an update the owner reads back the merged row |
| OrganisationLaws.EmptyUpdateChangesNothing | controllers/organization.controller.js:93-96 | an update with every field absent answers the current row and changes nothing |
| OrganisationLaws.NullClearsButNullLogoFails | controllers/organization.controller.js:93-96 | `null` clears a name, ids or key, but a `null` logo fails the update with 500 |
| OrganisationLaws.LogoEncodingsDiverge | controllers/organization.controller.js:95 | the full update stores a logo base64-decoded, the logo patch stores the same text as sent |
| OrganisationLaws.RenameIgnoresOwner | controllers/organization.controller.js:120-127 | a name patch succeeds exactly when some live organisation has the id, and its owner reads the new name back |
| OrganisationLaws.DeleteHidesAndIsFinal | controllers/organization.controller.js:215-235 | after a soft delete the organisation is neither listed nor readable, a second delete gets 404, nothing else changes |
| OrganisationLaws.DeletedCannotBePatched | controllers/organization.controller.js:120-127 | once deleted, every patch of the organisation gets 404 |
| Common.Split | controllers/organization.controller.js:166 | splitting at commas yields at least one piece |
| Common.JoinSplit | controllers/organization.controller.js:166 | joining the pieces of a split with commas gives back the text |
| Common.SplitJoin | controllers/organization.controller.js:166 | ids without commas, joined, split back into the array sent |
| OrganisationLaws.IdsStoredJoined | controllers/organization.controller.js:164-173 | an accepted ids patch stores a string unchanged and an array so that splitting recovers it; an empty array stores "" |
| OrganisationLaws.PicksFor | controllers/organization.controller.js:186-190 | the draws that spell a key, one charset index per character |
| OrganisationLaws.KeysAreExactlyAlphanumeric | controllers/organization.controller.js:186-190 | every fifty-character alphanumeric string, and nothing else, is a key some draws produce |
| OrganisationLaws.PatchTouchesOneRow | controllers/organization.controller.js:193-204 | with unique ids, a patch changes the one live row with the id and no other |
| OrganisationLaws.KeyThenRead | controllers/organization.controller.js:193-204 | after a key change the owner reads the new key back |
| LabelStore.LabelsOf | controllers/label.controller.js:28-41 | exactly the caller's labels |
| LabelStore.LabelById | controllers/label.controller.js:44-59 | the caller's label with the id, or 404 |
| LabelStore.RunUpdate | controllers/label.controller.js:88-97 | the statement rewrites exactly the rows it selects by its SET list |
| LabelStore.BuildLabelUpdate | controllers/label.controller.js:72-95 | the assembled statement numbers its placeholders 1 to n in order, binds each to the right value, selects exactly the caller's label and sets exactly the present fields |
| LabelStore.ApplyBuilt | controllers/label.controller.js:72-86 | the SET list built for the present fields sets exactly those fields |
| LabelStore.RunBuilt | controllers/label.controller.js:88-101 | running the built statement performs the intended revision of the caller's label |
| LabelStore.ReviseOwned | controllers/label.controller.js:76-93 | every label of the caller's with the id takes the present fields, and no other row changes |
| LabelStore.Without | controllers/label.controller.js:116-120 | the delete keeps exactly the rows that are not the caller's label with the id |
| LabelStore.LabelDb.CreateLabel | controllers/label.controller.js:4-25 | 400 unless name and colour are both given; otherwise a custom label is appended |
| LabelStore.LabelDb.UpdateLabel | controllers/label.controller.js:62-108 | 400 when neither field is present, 404 when the caller has no such label; otherwise the revised label |
| LabelStore.LabelDb.DeleteLabel | controllers/label.controller.js:111-126 | the caller's label is removed; 404 otherwise |
| LabelStore.ReviseKeepsWellFormed | controllers/label.controller.js:88-93 | revising fields keeps every id where it was |
| LabelStore.WithoutKeepsWellFormed | controllers/label.controller.js:116-120 | deleting rows keeps the ids distinct and below the counter |
| LabelLaws.CreateThenRead | controllers/label.controller.js:4-25 | a new label is a custom label of the caller, listed and read back by its id |
| LabelLaws.UpdateFindsWhatReadFinds | controllers/label.controller.js:99-101 | with a field present, update gets 404 exactly when reading the label would |
| LabelLaws.UpdateThenRead | controllers/label.controller.js:62-108 | after an update the label reads back revised, each absent field keeping its value |
| LabelLaws.OwnedAfterRevise | controllers/label.controller.js:88-101 | revising keeps which rows are the caller's label, and the first of them is the revised one |
| LabelLaws.UpdateIdempotent | controllers/label.controller.js:62-108 | sending the same update twice leaves the table as once, with the same answer |
| LabelLaws.DeleteThenRead | controllers/label.controller.js:111-126 | a deleted label can no longer be read, a second delete gets 404, every other label stays |
| LabelLaws.OthersLabelsUntouchable | controllers/label.controller.js:99-120 | a label the caller does not own can be neither updated nor deleted, and nothing changes |

## Left out

- The read-only e-mail handlers (`getEmails`, `getEmailCounts`, `getStarredEmails`, `getEmailsByThreadId`), `sendEmail`'s SMTP delivery and `storeEmailsInDb`: they only read, or call the mail transport and OpenPGP, which are outside the model.
- The body columns of a sent message: the OpenPGP encryption and the attachment list are a parameter, `prepared`.
- Login, passwords, sessions, avatars and the profile reads of the user controller: hashing and tokens are foreign calls.
- `getFolders`, `getFolderByName`, `searchFolders` and `moveToFolder`: reads and a one-statement move, outside the folder rules.
- The drive listing and read handlers, streaming of file contents and the disk itself: disk writes, copies and deletions are booleans passed to the methods.
- `getKeys` and `createUserKey` in the keys controller: key generation is a foreign call.
- `listSharedItems`: a read with a JOIN over files and users.
- `ORDER BY` clauses other than the folder suggestions, e.g. the label `sort_order` and `created_at`: rows come back in table order.
- Timestamps (`created_at`, `updated_at`, `trashed_at` …) other than the set/cleared state timestamps of files.
- Errors thrown by the database driver (the 500 answers of the `catch` blocks), and concurrency between transactions.
- Base64 decoding of the organisation logo: `FromBase64` records that the text was decoded, not the bytes.
- LabelStore.LabelsOf: does not model the `ORDER BY sort_order` of `getLabels`.
- MailStore.MailDb.StoreEmailInDb: the draft conversion writes `folder_id` but not `folder`, kept as written.
- Accounts.UserByEmail and the other lookups model `SELECT` without `ORDER BY` as table order.
- MailStore.MailDb.DeleteMultipleThreads: answers the number of deleted rows; the code sums the text `COUNT(*)` values and answers "0" followed by their digits (see Findings and `MailRows.AsWrittenTotalIsText`).
- MailStore.MailDb.RestoreThreadsFromArchive: answers the number of restored rows; the code builds the same "0"-prefixed text as `deleteMultipleThreads`.
- UserStore.UserDb.UpdatePreferences: stores the corrected single-element array; the code stores the bare object, so the next update reads no preferences and drops the earlier keys (`Accounts.StoredPrefsAsWritten`, `Accounts.AsWrittenSecondUpdateForgetsFirst`).
- DriveStore.DriveDb.PermanentDeleteFile: a failed disk deletion keeps the cleanup mark; in the code the mark is inserted inside the transaction that is then rolled back, so nothing is kept (`DriveStore.PermanentlyDeletedAsWritten`, `DriveLaws.AsWrittenFailedDeletionUnmarked`).
- DriveStore.DriveDb.CopyFile: names the copy with the corrected `CopyName`, the first name free in its location; the code counts `LIKE 'Copy of X%'` matches and can repeat a name (`DriveRules.CopyNameAsWritten`, `DriveLaws.AsWrittenCopyNameRepeats`).
- MailRows.FolderByNameOrTypeIgnoringCase: case folding covers ASCII letters only, and a request ending in a lone `\`, which PostgreSQL refuses with an error (a 500), is matched as a literal backslash.
- FolderRules.FolderSuggestions: case folding in `ILIKE` covers ASCII letters only; names are ordered by code point rather than by the database collation (under en_US "archive" sorts before "Bills", by code point after it); a `query` given as an array is not modelled.
- FolderRules.Sort: orders names by code point (`LexLe`), not by the database collation that `ORDER BY name` follows.
- UserStore.UserDb.UpdateProfile: request values are text. An array in the request stands for the literal the driver sends (`Accounts.ArrayLiteral`). Array literals PostgreSQL accepts but the model refuses with 500: white space around elements, backslash escapes outside quotes, `NULL` elements and nested arrays. A JSON `null` value is not modelled.

## Findings

| source | as written | input that shows it | evidently intended | confidence | as-written member | corrected member |
|---|---|---|---|---|---|---|
| controllers/user.controller.js:643-650 | stores the merged object, but reads element 0 of the stored value | two updates `{a:1}` then `{b:2}`: the second reads nothing and stores `{b:2}` | store a single-element array, as the code's own comment says, so updates accumulate | not executed | Accounts.AsWrittenSecondUpdateForgetsFirst | Accounts.StoredPrefsAccumulate |
| controllers/email.controller.js:1661 | sums COUNT(*) values, which the driver returns as strings | two threads of 2 and 3 rows: total "023" | the number of affected e-mails, 5 | not executed | MailRows.AsWrittenTotalCounterexample | MailRows.GroupCounts |
| controllers/file.controller.js:609-618 | counts names matching `Copy of X%` | copying `a` three times in one folder: the third copy is `Copy (1) of a` again | a name not yet used in that folder | not executed | DriveLaws.AsWrittenCopyNameRepeats | DriveLaws.CopyNameIsFresh |
| controllers/file.controller.js:1628-1641 | a failed disk deletion calls the failure recorder, which inserts the mark inside the transaction it then rolls back, so no mark survives | a permanent delete whose unlink fails | the failure is recorded in `failed_deletions` for a later retry | not executed | DriveLaws.AsWrittenFailedDeletionUnmarked | DriveLaws.FailedDeletionMarked |
