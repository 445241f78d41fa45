# Snapshot store, party prompt and or-options of a Terraforming Mars server

This project models three parts of the server in Dafny and proves properties of the models.

**The SQL Server snapshot store.** There are two versions: `src/server/database/MsSQL.ts`, the
current one, and `src/database/MsSQL.ts`, the older one. Each keeps a `games` table with one row per
`(game_id, save_id)`. A row holds the serialized game, a player count, a status (`running` or
`finished`) and a creation time. Every save writes the next save id. An undo deletes the highest
save ids. Finishing a game keeps save 0 (the seed that clones start from) and the last save, and
drops every save in between.

- `optional.dfy` (module `Optional`) declares the optional value that stands for `undefined` and SQL NULL.
- `snapshots.dfy` (module `Snapshots`) holds what both stores share:
  - the table, as a map from key to row;
  - the in-memory `Game` with its mutable `lastSaveId`;
  - each SQL statement, as a function on the table: the MERGE upsert, `MAX(save_id)`, the top-n
    delete, the delete of the intermediate saves, the status update and the age purge.
- `server_mssql.dfy` (module `ServerMsSQL`) models the current store as a class. It has four
  fields: the `games` table, the `participants` ledger, the `completed_game` table and the four
  save counters. It also models the `VALUES` text that `storeParticipants` builds, with a parser
  for that text, and proves that the round trip works for quote-free ids.
- `legacy_mssql.dfy` (module `LegacyMsSQL`) models the older store. Its errors are written out the
  way each call delivers them: a value or an error handed to the callback, or an exception thrown
  inside the driver's callback. The module also models `parseInt` and the `MAX_GAME_DAYS` default
  of 10 days, and the two listing loops with the orders they promise.
  - Its purge deletes every row created before the cutoff, whatever its status, as
    `PurgeIgnoresStatus` states. A clean marks the game finished before it purges, and the purge
    then still removes that game's rows when they are old enough.

**The `SelectParty` interrupt** (`select_party.dfy`). It builds an or-prompt with one option per
Turmoil party. When a delegate is to be replaced, only the parties where that delegate can be
replaced are offered. An option's action can queue a payment, then moves delegates `nbr` times,
then logs. The calls the action makes on the game and on Turmoil are recorded as events of a trace.

**Or-options resolution** (`or_options.dfy`). This part is modelled from the assertions of
`tests/inputs/OrOptions.spec.ts`. A response `{type: 'or', index, response}` is handed to the
child at `index`. An index out of range throws "Invalid index". An option response handed to a
`SelectAmount` throws "Not a valid SelectAmountResponse", as the test asserts. The test never hands
an amount response to a `SelectOption`; the model assumes that this throws "Not a valid
SelectOptionResponse".

## Model

| member | source | states |
|---|---|---|
| Snapshots.SaveIds | src/server/database/MsSQL.ts:236-247 | a save id is listed exactly when the game has a row at it |
| Snapshots.MaxSaveId | src/server/database/MsSQL.ts:262-268 | NULL exactly when the game has no row; otherwise a save id of the game at least every other one |
| Snapshots.UpsertEffect | src/server/database/MsSQL.ts:310-334 | the MERGE writes only its own key: a new row is running, stamped now and carries the player count; an existing row gets only the new blob; every other row is unchanged |
| Snapshots.UpsertSameKeyTwice | src/server/database/MsSQL.ts:308-336 | two saves at the same save id leave one row: the second blob, with the first insert's player count and time |
| Snapshots.TopSaveIdsAreHighest | src/server/database/MsSQL.ts:376-386 | every save id the top-n query picks is above every save id it leaves |
| Snapshots.TopSaveIdsSize | src/server/database/MsSQL.ts:376-386 | the top-n query picks min(n, count) save ids, and none for n <= 0 |
| Snapshots.TopSaveIdsAll | src/server/database/MsSQL.ts:376-386 | a count at least the number of saves picks all of them, save 0 included |
| Snapshots.DeleteTopFrame | src/server/database/MsSQL.ts:376-386 | the undo drops only rows of that game at picked save ids; rows of other games stay unchanged |
| Snapshots.DeleteTopRemovesHighest | src/database/MsSQL.ts:350-371 | undo of n > 0 removes exactly the min(n, count) highest save ids of the game, and every save id once n reaches the count |
| Snapshots.CleanKeepsSeedAndLast | src/server/database/MsSQL.ts:420-435 | a clean keeps the saves at or below 0 and the maximum, drops those in between, marks the game's rows finished without changing their blobs, and leaves other games alone; with save 0 and a later save, exactly {0, max} remain |
| Snapshots.CleanStepsCommute | src/server/database/MsSQL.ts:422-435 | the intermediate delete and the status update, issued together, give the same table in either order |
| ServerMsSQL.ParseTupleSound | src/server/database/MsSQL.ts:513 | whatever the row-literal parser accepts is `('a','b')` with quote-free fields, followed by the rest it returns |
| ServerMsSQL.ParseTupleOf | src/server/database/MsSQL.ts:513 | the literal `('g','p')` of quote-free ids parses back as (g, p), and the text after it is untouched |
| ServerMsSQL.ParseValuesClause | src/server/database/MsSQL.ts:513 | for quote-free ids the joined VALUES text denotes exactly the rows (gameId, id), one per id, in input order |
| ServerMsSQL.LedgerInsert | src/server/database/MsSQL.ts:511-522 | a successful INSERT only adds rows to the ledger |
| ServerMsSQL.StoreNewParticipants | src/server/database/MsSQL.ts:511-522 | storing distinct, new, quote-free ids adds exactly one ledger row per id |
| ServerMsSQL.StoreNoParticipants | src/server/database/MsSQL.ts:511-522 | an empty id list makes the INSERT fail, so the ledger is unchanged |
| ServerMsSQL.ParticipantIdsOf | src/server/database/MsSQL.ts:355-357 | the players in order, then the spectator when its id is non-empty |
| ServerMsSQL.Difference | src/server/database/MsSQL.ts:391 | an id is in the difference exactly when it is in the first list and not the second; no repeats when the first list has none |
| ServerMsSQL.MsSQL.constructor | src/server/database/MsSQL.ts:20-28 | the store works on the tables the database already holds, and all four counters start at 0 |
| ServerMsSQL.MsSQL.GetPlayerCount | src/server/database/MsSQL.ts:150-162 | the player count of save 0, or not found exactly when there is no save 0 |
| ServerMsSQL.MsSQL.LoadCloneableGame | src/server/database/MsSQL.ts:175-187 | the parsed save 0 whenever it exists and parses; not found exactly when it is missing, a parse error exactly when its text is malformed, and no other error |
| ServerMsSQL.MsSQL.GetGame | src/server/database/MsSQL.ts:189-200 | the parsed save at the highest save id whenever it parses; not found exactly when the game has no row, a parse error exactly when the highest save is malformed, and no other error |
| ServerMsSQL.MsSQL.GetGameVersion | src/server/database/MsSQL.ts:249-260 | the stored text of that exact version, unparsed; not found exactly when it is missing |
| ServerMsSQL.MsSQL.RestoreGame | src/server/database/MsSQL.ts:440-461 | the parsed exact version whenever it exists and parses; not found exactly when it is missing, a parse error exactly when its text is malformed, and no other error |
| ServerMsSQL.MsSQL.GetMaxSaveId | src/server/database/MsSQL.ts:262-268 | NULL exactly when the game has no row, otherwise its highest save id |
| ServerMsSQL.MsSQL.GetSaveIds | src/server/database/MsSQL.ts:236-247 | each save id of the game, exactly once |
| ServerMsSQL.MsSQL.GetGameId | src/server/database/MsSQL.ts:202-234 | a game whose save 0 names the player ('p') or the spectator ('s'); an id starting with neither letter is rejected; a parse error exactly when some save 0 is not JSON; otherwise not found exactly when no save 0 names the id |
| ServerMsSQL.GroupByGame | src/server/database/MsSQL.ts:527-529 | the multimap has one key per game of the ledger, holding exactly that game's participants, each once, and the key order lists each key once |
| ServerMsSQL.MsSQL.GetParticipants | src/server/database/MsSQL.ts:524-536 | each game of the ledger exactly once, with exactly its participants, each once |
| ServerMsSQL.MsSQL.StoreParticipants | src/server/database/MsSQL.ts:511-522 | the ledger becomes what the INSERT of the built text gives, or stays as it was when the INSERT fails |
| ServerMsSQL.MsSQL.SaveGame | src/server/database/MsSQL.ts:304-366 | the save count always rises by one; a MERGE that throws raises the error count and changes nothing else; otherwise the upsert happens, the save id becomes the value read on entry plus one, an empty OUTPUT adds exactly one undo or normal conflict, and a non-empty OUTPUT at save 0 stores the participants; afterwards that version reads back as the saved game |
| ServerMsSQL.MsSQL.DeleteGameNbrSaves | src/server/database/MsSQL.ts:368-394 | a count <= 0 changes nothing; otherwise the count's highest saves are deleted, and the logged difference is exactly the picked save ids, without repeats |
| ServerMsSQL.MsSQL.PurgeUnfinishedGames | src/server/database/MsSQL.ts:281-298 | purging is switched off: it deletes nothing and returns no game |
| ServerMsSQL.MsSQL.CleanGame | src/server/database/MsSQL.ts:420-437 | the table becomes the intermediate delete at the game's maximum followed by the status update |
| ServerMsSQL.MsSQL.MarkFinished | src/server/database/MsSQL.ts:270-279 | an already completed game makes the insert fail and nothing changes; otherwise the game is recorded as completed at now and its rows are marked finished |
| LegacyMsSQL.ParseIntNumeral | src/database/MsSQL.ts:269 | parseInt reads back the decimal numeral of any integer, after any leading white space and before any character that is neither a letter nor a digit |
| LegacyMsSQL.PurgeDaysDecimal | src/database/MsSQL.ts:269-270 | decimal digits (leading zeros allowed) after optional white space and sign mean that many days, whatever follows the first character that is no decimal digit; a lone 0 followed by x or X is excluded |
| LegacyMsSQL.PurgeDaysHex | src/database/MsSQL.ts:269-270 | `0x` or `0X` and hexadecimal digits after optional white space and sign mean that many days in base 16, whatever follows the first character that is no hexadecimal digit |
| LegacyMsSQL.PurgeDaysDefault | src/database/MsSQL.ts:269-270 | unset, empty, or read as NaN by parseInt: 10 days |
| LegacyMsSQL.PurgeIgnoresStatus | src/database/MsSQL.ts:274 | a finished row older than the cutoff is deleted by the purge |
| LegacyMsSQL.CleanWithoutSaves | src/database/MsSQL.ts:252-258 | for a game without rows the delete at a NULL maximum and the status update change nothing |
| LegacyMsSQL.MsSQL.constructor | src/database/MsSQL.ts:33-45 | the store works on the `games` table the database already holds, which the guarded CREATE TABLE leaves as it is |
| LegacyMsSQL.SeedGames | src/database/MsSQL.ts:108 | a game is listed as clonable exactly when it has a save 0 |
| LegacyMsSQL.MsSQL.GetClonableGames | src/database/MsSQL.ts:106-128 | one entry per save-0 row, with that row's player count, every such game present, strictly ascending by game id |
| LegacyMsSQL.MsSQL.GetGames | src/database/MsSQL.ts:130-144 | exactly the games with running rows, each once, by the creation time of the row at their highest running save id, latest first |
| LegacyMsSQL.MsSQL.LoadCloneableGame | src/database/MsSQL.ts:146-169 | calls back with the parsed save 0 whenever it exists and parses; with a not-found error exactly when it is missing, with a parse error exactly when its text is malformed, and with no other error |
| LegacyMsSQL.MsSQL.GetGame | src/database/MsSQL.ts:171-186 | calls back with the parsed highest save whenever it parses; with a not-found error exactly when the game has no row; throws a parse error exactly when the highest save is malformed |
| LegacyMsSQL.MsSQL.GetGameVersion | src/database/MsSQL.ts:193-205 | calls back with the parsed exact version whenever it exists and parses; a missing version throws instead of calling back, and so does malformed text; nothing else is thrown |
| LegacyMsSQL.MsSQL.RestoreGame | src/database/MsSQL.ts:284-311 | calls back with the parsed version whenever it exists and parses; a missing version calls back with neither an error nor a game; malformed text calls back with the parse error, the only error it hands over |
| LegacyMsSQL.MsSQL.GetMaxSaveId | src/database/MsSQL.ts:224-234 | calls back without an error and always with a value: null exactly when the game has no row, otherwise its highest save id |
| LegacyMsSQL.MsSQL.GetGameId | src/database/MsSQL.ts:189-191 | always throws "not implemented" |
| LegacyMsSQL.MsSQL.SaveGame | src/database/MsSQL.ts:313-348 | the save id rises by exactly one whatever the write does; a successful write is the upsert at the save id read on entry; a failed one leaves the table as it was |
| LegacyMsSQL.MsSQL.DeleteGameNbrSaves | src/database/MsSQL.ts:350-371 | a count <= 0 changes nothing; otherwise the count's highest saves of the game are deleted |
| LegacyMsSQL.MsSQL.PurgeUnfinishedGames | src/database/MsSQL.ts:268-282 | deletes every row created before now minus the configured days, whatever its status |
| LegacyMsSQL.MsSQL.CleanSaves | src/database/MsSQL.ts:243-265 | deletes the saves strictly between 0 and the maximum, marks the game's rows finished, then purges; for a game without rows only the purge of every game's old rows happens |
| SelectPartyInterrupt.NonLeaders | src/interrupts/SelectParty.ts:28 | a delegate is kept exactly when it is in the party and is not the leader |
| SelectPartyInterrupt.OfferedAllWithoutReplace | src/interrupts/SelectParty.ts:34-37 | without a delegate to replace, every party is offered, in Turmoil's order |
| SelectPartyInterrupt.OfferedIff | src/interrupts/SelectParty.ts:25-32 | with one, a party is offered exactly when it has more than one delegate, holds the delegate to replace, and is not led by it |
| SelectPartyInterrupt.LeaderNeverReplaced | src/interrupts/SelectParty.ts:28 | a party led by the delegate to replace is never offered |
| SelectPartyInterrupt.OfferedAppend | src/interrupts/SelectParty.ts:26-32 | the filter keeps Turmoil's order: it distributes over concatenation |
| SelectPartyInterrupt.Labels | src/interrupts/SelectParty.ts:37-38 | one label per party, in order, each `name - (description)` |
| SelectPartyInterrupt.MovesShape | src/interrupts/SelectParty.ts:44-49 | the loop makes exactly nbr sends to the party, each right after one removal of the delegate to replace when there is one |
| SelectPartyInterrupt.ActionEventsOrder | src/interrupts/SelectParty.ts:39-57 | the payment is queued first, and only when the price is truthy; the log comes once and last; only moves lie between them |
| SelectPartyInterrupt.SelectParty.constructor | src/interrupts/SelectParty.ts:13-59 | the prompt has the given title (by default "Select where to send a delegate") and one option per offered party, labelled with its name and description |
| SelectPartyInterrupt.SelectParty.RunOption | src/interrupts/SelectParty.ts:39-57 | running option i appends exactly the payment, moves and log for party i to the game's trace, and asks for no further input |
| OrOptionsInput.ResolveCases | tests/inputs/OrOptions.spec.ts:34-53 | a response resolves exactly when its index is in range and its kind matches the child; "Invalid index" exactly when the index is out of range; an amount for a SelectAmount is passed on |
| OrOptionsInput.SiblingsIgnored | tests/inputs/OrOptions.spec.ts:34-41 | only the chosen child matters: changing the other children does not change the result |
| OrOptionsInput.OrOptions.Process | tests/inputs/OrOptions.spec.ts:34-53 | a resolved response stores its value through the child's callback; otherwise the error is thrown and the stored value is unchanged; the options are never changed |
| OrOptionsInput.Simple | tests/inputs/OrOptions.spec.ts:21-54 | the test's run: three options, the values 2, 3 and 8 stored in turn, then one wrong-kind error and two invalid-index errors |

## Left out

- Schema creation (`initialize`, the constructor DDL, the indexes) and the connection pool: driver I/O with no behaviour beyond "the tables exist".
- `stats`: the pool gauges and the `sys.*` size queries. Only the four save counters are modelled.
- `getGameIds` of the current store and `saveGameResults` of both stores: they are not part of the modelled core.
- `compressCompletedGames`: it does nothing, so it is not modelled.
- Console logging and `logForUndo`: output only.
- JSON: the stored game is a blob that either parses (`Json`) or does not (`Malformed`), and `toJSON` is the game's fields. `OPENJSON` in `getGameId` reads the players and the spectator of that blob.
- Whether `MERGE ... OUTPUT inserted.*` returns rows on the update path: this is SQL Server behaviour, so the emptiness of the OUTPUT (or a throw) is an input of `ServerMsSQL.MsSQL.SaveGame`.
- Connection failures and other driver errors are not modelled. The model does cover the failures the statements themselves decide: the duplicate key of `ServerMsSQL.MsSQL.MarkFinished`, the rejected participants INSERT (`ServerMsSQL.LedgerInsert`), and the MERGE outcome of `ServerMsSQL.MsSQL.SaveGame`. `LegacyMsSQL.MsSQL.SaveGame` takes the success of its write as an input.
- `GETDATE()` becomes a parameter `now`, and all times are in whole seconds.
- Async interleavings: every call runs to completion in turn, and each statement takes effect when it is issued. The legacy writes are issued without waiting, and so is the INSERT of the current store's `storeParticipants`: it passes a driver callback, so its `await` does not wait for the INSERT, and an INSERT error is thrown inside that callback, out of the caller's reach. A later read may in fact be served before such a write; the model does not capture that. `Snapshots.UpsertSameKeyTwice` covers two saves landing at the same save id, and `Snapshots.CleanStepsCommute` covers the delete and the status update of a clean in either order.
- Ids that contain a quote: they would change the SQL text of `storeParticipants`. The round trip is proved only for quote-free ids. `ServerMsSQL.ParseValues` reads a restricted grammar, not T-SQL: fields hold no quote at all (T-SQL would also accept a doubled `''`), and tuples are separated by exactly `, ` (T-SQL would also accept a bare `,` or other white space). For ids with quotes the ledger is what that grammar makes of the text.
- `LegacyMsSQL.LexLeq` stands for the `ORDER BY game_id` of SQL Server, using the order of character codes instead of the database collation.
- `Snapshots.Key`: game ids, participant ids and the `getGameId` match compare strings exactly. Under SQL Server's default case-insensitive collation, ids that differ only in letter case would be one key and would match each other.
- `LegacyMsSQL.ParseInt` returns an unbounded integer. It does not model the precision lost by JavaScript numbers beyond 2^53, nor the Infinity that a numeral of more than 308 digits gives.
- `LegacyMsSQL.PurgeDaysDecimal` and `LegacyMsSQL.PurgeDaysHex` hold for the unbounded value. For a numeral whose value is Infinity in JavaScript, `Number.isInteger` fails and the store uses 10 days instead.
- `LegacyMsSQL.MsSQL.PurgeUnfinishedGames` purges with the unbounded cutoff `now - days * 86400`. In SQL Server, `-1 * @days` must fit an `int` and `DATEADD(DAY, ...)` must stay within `datetime` (1753-01-01 to 9999-12-31); otherwise the DELETE fails with an overflow error, the callback only logs a warning, and no row is deleted. The model deletes by the unbounded cutoff instead, so for a very large negative MAX_GAME_DAYS it empties the table where the store deletes nothing.
- `LegacyMsSQL.MsSQL.CleanSaves` ends with that purge, so the same DATEADD and `int` overflow, which deletes nothing and only logs, is not modelled there either.
- `Snapshots.Game`: `lastSaveId` is an unbounded integer, while the `save_id` column is a 32-bit `int`; a save beyond 2^31 - 1 would fail in the database.
- `LegacyMsSQL.MsSQL.LoadCloneableGame` and `LegacyMsSQL.MsSQL.RestoreGame` call the callback inside their `try`, so a callback that throws is called a second time, with its own exception. `Delivery` records one delivery per call and does not show that second call.
- `LegacyMsSQL.MsSQL.RestoreGame` folds a failure of `Game.deserialize` into the parse error, and returns the parsed data, not a `Game` object.
- `LegacyMsSQL.MsSQL.GetGames`, `ServerMsSQL.MsSQL.GetSaveIds`, `ServerMsSQL.MsSQL.GetParticipants`: the order of rows that SQL does not fix (ties in `created_time`, unordered selects) is left open in their contracts.
- `ServerMsSQL.MsSQL.GetGameId`: when several seed saves match, it returns some matching game, not a particular one. The model raises the `OPENJSON` error whenever some seed save is not JSON. Which rows the database evaluates `OPENJSON` on first depends on its query plan, so rows of later saves might raise it too, or none at all.
- Turmoil internals (`sendDelegateToParty`, `removeDelegateFromParty`, `addSelectHowToPayInterrupt`, `log`): they are recorded as events. The log message text becomes `LogDelegatesSent(player, nbr, party)`.
- Players are compared by their id, standing for object identity.
- The `OrOptions`, `SelectOption` and `SelectAmount` classes are not part of this model. Resolution follows the test's assertions only:
  - there is no check of amount bounds;
  - the title and label fields are not modelled;
  - the index is a natural number, so negative indices are not modelled.
