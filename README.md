# Bulk user management: a verified model

This project models the part of the user-account service that decides and
applies bulk actions on the users table: the endpoints `/block-users`,
`/unblock-users` and `/delete-users`, and the actor check `isUserActive` they
share.

Each request names an acting user (`currentUserId`) and a list of target ids
(`ids`). The handler runs a fixed chain of early exits:

1. no actor gives 400;
2. a failed actor lookup gives 500;
3. an actor that is missing or not active gives 403;
4. an `ids` that is not an array, or is empty, gives 400;
5. otherwise one bulk statement is sent, and the reply is 200 or 500.

The bulk statement's text is built from a placeholder list with one `?` per id.
It then updates `status` (block, unblock) or deletes rows (delete) for every
existing row whose id is listed.

Modules, one file each:

- `Users` (users.dfy): the row type, the two-state `Status`, the table as
  `map<Id, User>`, and the unique-email invariant.
- `Statements` (statements.dfy): the statement texts, the comma-joined
  placeholder list, the count of `?` marks, and the proof that every statement
  binds as many values as it has marks.
- `Authorization` (authorization.dfy): the lookup result, `IsUserActive`, and
  the lookup's meaning over the table.
- `BulkActions` (bulk.dfy): what each bulk statement does to the table, with
  its frame properties and the lemmas relating the actions.
- `Handlers` (handlers.dfy): the gate function `Decide`, the replies and their
  HTTP codes, and the class `UsersService`. The class holds the table (`users`)
  and the log of statements sent to storage (`sent`). Its `HandleBulk` method
  runs the early exits in the handlers' order, and `BlockUsers`, `UnblockUsers`
  and `DeleteUsers` are the three endpoints.

Two consequences of the code are worth stating:

- The actor check reads only the first row returned
  (`OnlyFirstRowConsulted`). With `id` as primary key, at most one row comes
  back (`SelectStatus`).
- Block then unblock restores the targets to active only when the actor is
  not among them (`BlockThenUnblockByActiveActor`). An actor that blocks
  itself is refused (403) on its next request when the lookup succeeds
  (`SelfBlockLocksOut`). From then on every request of its own is refused
  (403, or 500 when the lookup fails). It stays blocked or deleted; only an
  unblock by another actor that lists it lets it back in (`LockedOutStaysOut`).

## Model

| member | source | states |
|---|---|---|
| `Users.StatusText` | index.js:8 | the stored status text equals "active" exactly for Active, and "blocked" exactly for Blocked |
| `Statements.JoinMarksShape` | index.js:28 | joining n marks with commas gives "" for n = 0, else 2n-1 characters with `?` at even and `,` at odd positions, holding exactly n marks |
| `Statements.JoinMarksIsMarkList` | index.js:28 | mapping n ids to `?` and joining with commas gives exactly `?,?,...,?` with n marks |
| `Statements.MarkListShape` | index.js:28 | `?,?,...,?` with n marks is "" for n = 0, else 2n-1 characters alternating mark and comma, and holds exactly n marks |
| `Statements.PlaceholdersShape` | index.js:28 | the placeholder list for n ids has length 2n-1, starts and ends with `?`, alternates mark and comma, and holds exactly n marks |
| `Statements.SelectStatusStatement` | index.js:3 | the actor lookup has one mark and binds exactly the actor's id |
| `Statements.BulkStatement` | index.js:28-30 | each bulk statement binds the target ids as its parameters, and its text has exactly one mark per id |
| `Authorization.IsUserActive` | index.js:2-13 | a storage error gives an error, never a verdict; the verdict is true exactly when a row came back and the first row's status is exactly "active" |
| `Authorization.CheckAgainstTable` | index.js:3-11 | over the table, the check fails exactly when storage fails, and otherwise answers true exactly for an existing Active user |
| `Authorization.MissingAndBlockedAlike` | index.js:8-9 | a missing actor and a blocked actor both get false, indistinguishably |
| `Authorization.OnlyFirstRowConsulted` | index.js:8 | rows after the first do not affect the verdict |
| `BulkActions.SetStatus` | index.js:29-54 | the status update keeps the same rows, gives every listed existing row the new status with its other columns unchanged, and leaves unlisted rows untouched |
| `BulkActions.RemoveIds` | index.js:79 | the delete keeps exactly the rows whose id is not listed, unchanged |
| `BulkActions.LastStatusWins` | index.js:29-54 | setting a status twice on the same ids equals setting the second status once |
| `BulkActions.BlockThenUnblock` | index.js:29-54 | block then unblock on the same ids leaves every targeted existing row Active and every other row as it was |
| `BulkActions.DeleteIdempotent` | index.js:79 | deleting the same ids twice equals deleting them once |
| `BulkActions.SameIdsSameEffect` | index.js:28-30 | lists naming the same ids, in any order or repetition, have the same effect |
| `BulkActions.UnknownIdsIgnored` | index.js:29-79 | appending ids that match no row changes nothing in any action's effect |
| `BulkActions.DeleteExistingAndMissing` | index.js:79 | deleting one existing and one missing id removes exactly the existing row |
| `BulkActions.KeepsEmailsUnique` | index.js:29-79 | no bulk action breaks the unique-email invariant |
| `BulkActions.ActionOutcomeOnTarget` | index.js:29-79 | a targeted existing row ends Blocked after block and Active after unblock, whatever its state before; after delete it is gone |
| `Handlers.Decide` | index.js:16-27 | the request proceeds exactly when the actor is present, the lookup succeeded with an active verdict, and `ids` is a non-empty array, and then over exactly those ids; no actor rejects as MissingActor, then a failed lookup as CheckError, then an inactive actor as NotAllowed whatever the targets, then bad targets as NoTargets |
| `Statements.Join` | index.js:28 | joining parts gives "" for none, starts with the first part followed by the separator when there are two or more, and ends with the last part: no leading or trailing separator |
| `Statements.Placeholders` | index.js:28 | the placeholder list for n ids holds exactly n marks, is empty for n = 0, and otherwise has length 2n-1 and starts and ends with a mark |
| `Statements.BulkPrefix` | index.js:29-79 | the fixed text of each bulk statement has no mark and ends with the opening parenthesis of the id list |
| `Statements.BulkSql` | index.js:29-79 | a bulk statement text starts with its action's fixed text, ends with `)`, and has exactly the marks of its placeholder list |
| `Authorization.SelectStatus` | index.js:3 | the lookup over the table returns at most one row, a row exactly when the id exists, holding that user's status text |
| `Authorization.StatusLookup` | index.js:3-7 | the lookup is an error exactly when storage fails, and otherwise the table's rows for the id |
| `BulkActions.Apply` | index.js:29-79 | every bulk action keeps or removes rows but adds none, only delete removes any, rows that remain differ at most in status, and every unlisted row stays in the table unchanged |
| `Handlers.Code` | index.js:18-35 | 200 exactly for success; 400 exactly for a missing actor or bad targets; 403 exactly for a refused actor; 500 exactly for a failed lookup or a failed write |
| `Handlers.Reply` | index.js:30-35 | the reply is 200 exactly when the gates passed and the write succeeded, a write failure exactly when the gates passed and the write failed, and otherwise the gate's rejection |
| `Handlers.Effect` | index.js:29-80 | the table changes only when the gates passed and the write succeeded; no row is added, and every unlisted row stays in the table unchanged |
| `Handlers.Outcome` | index.js:16-38 | a missing actor gets 400 with the table unchanged, a failed lookup gets 500 with the table unchanged, any reply other than 200 leaves the table unchanged, and no row is ever added |
| `Handlers.MissingActorFirst` | index.js:18 | a missing actor gets 400 whatever the lookup and the targets |
| `Handlers.LookupErrorIsServerError` | index.js:21 | a failed actor lookup gets 500, never 403, whatever the targets |
| `Handlers.AuthorizationBeforeTargets` | index.js:22-26 | an actor that is not active gets 403 even when `ids` is empty or not an array |
| `Handlers.TargetsCheckedLast` | index.js:24-26 | an active actor with an empty or non-array `ids` gets 400 |
| `Handlers.ChangesOnlyWhenDone` | index.js:20-36 | any reply other than 200 leaves the table unchanged; a 200 means the table is the bulk statement's effect on the listed ids |
| `Handlers.BlockThenUnblockByActiveActor` | index.js:16-63 | an active actor not among the targets gets 200 for block and for unblock, and every targeted existing row ends Active with all other rows as before |
| `Handlers.SelfBlockLocksOut` | index.js:20-29 | an active actor that blocks itself gets 200, then 403 on its next request when the lookup succeeds |
| `Handlers.LockedOutStaysOut` | index.js:16-88 | once an actor is missing or Blocked, every request of its own gets 403 or 500, and it stays missing or Blocked after any request except a 200 unblock by another actor that lists it |
| `Handlers.SelfDeleteLocksOut` | index.js:70-79 | an active actor may delete itself (200); it is removed, and its next request gets 403 when the lookup succeeds |
| `Handlers.DeleteWithMissingId` | index.js:66-88 | deleting one existing and one missing id answers 200 and removes exactly the existing row |
| `Handlers.UsersService.QueryStatus` | index.js:3 | sends the actor lookup and returns the error or the table's answer |
| `Handlers.UsersService.BlockRows` | index.js:29-30 | the table becomes its block update; the email invariant is kept |
| `Handlers.UsersService.UnblockRows` | index.js:54-55 | the table becomes its unblock update; the email invariant is kept |
| `Handlers.UsersService.DeleteRows` | index.js:79-80 | the table becomes its delete; the email invariant is kept |
| `Handlers.UsersService.Execute` | index.js:30-36 | sends the bulk statement; the table takes its effect only when storage does not fail |
| `Handlers.UsersService.HandleBulk` | index.js:16-38 | the reply and new table are `Outcome` of the old table; without an actor nothing is sent; otherwise the lookup is sent, and the bulk statement only when every gate passed |
| `Handlers.UsersService.BlockUsers` | index.js:16-38 | block endpoint: reply and table are `Outcome` of the old table; on 200 every listed existing row is Blocked; without an actor nothing is sent, otherwise the lookup is sent, and the block statement only when every gate passed |
| `Handlers.UsersService.UnblockUsers` | index.js:41-63 | unblock endpoint: reply and table are `Outcome` of the old table; on 200 every listed existing row is Active; without an actor nothing is sent, otherwise the lookup is sent, and the unblock statement only when every gate passed |
| `Handlers.UsersService.DeleteUsers` | index.js:66-88 | delete endpoint: reply and table are `Outcome` of the old table; on 200 the remaining rows are exactly the old rows whose id is not listed; without an actor nothing is sent, otherwise the lookup is sent, and the delete statement only when every gate passed |

## Left out

- HTTP routing, reading the request body, and writing the JSON reply. A reply
  is modelled as a `Response` and its status code (`Code`). The error message
  texts are not modelled.
- Server-side logging of storage errors: it has no effect on the reply.
- The database driver and MySQL. The actor lookup is a table read that may
  fail (`StatusLookup`). The bulk statement is an abstract update of the table
  that may fail (`Apply`). Storage faults are the boolean inputs `lookupFails`
  and `writeFails`.
- `Handlers.UsersService.Execute`: a failed bulk statement leaves the table
  unchanged. In storage it may have been partly applied with no rollback, and
  the handler cannot observe this.
- Callback chaining: it is modelled as sequential calls in the same order.
- Concurrent requests on overlapping ids: ordering between them belongs to the
  storage backend.
- JavaScript truthiness of `currentUserId` (`0` or `""` also count as
  missing): the actor is an `Option<Id>`, and only `None` is missing.
- The elements of `ids` are typed as ids. Arbitrary JSON values bound as
  parameters are not modelled.
- Registration, login, listing and the liveness endpoint, with the plain-text
  password comparison: they are outside the bulk-action core and are not
  modelled.
