# Verification of baton-sql's core

baton-sql turns the paged results of configured SQL queries into resources, entitlements and grants, and runs templated
SQL to grant and revoke them. This project models, in Dafny, the parts of it that carry state, loops or arithmetic, and
proves what they do over every input and every run.

- **Templates** (`Template`, `TemplateReading`, `TemplateRewriters`, `EngineIndependence`): `?<key|unquoted>` tokens are
  lexed, and each query is compiled to a statement text with numbered or positional placeholders and a list of arguments.
  `Meaning` is the statement one gets by putting each token's value where the token stood; `Read` is how an engine reads
  text and arguments back. The two methods that scan a query are proved to produce exactly `Rewrite`, and `Rewrite` is
  proved to be read back as the meaning, with the exact condition for it, as an if-and-only-if over the *text*.
- **Paging** (`Paging`, `PageContract`, `Runs`, `OffsetRuns`, `CursorRuns`, `KeyOrders`, `Sources`, `ServedTables`): one
  call of `runQuery` against an arbitrary database, with its row loop, row buffer and callback; then whole runs, in which
  each returned token is fed back until the empty one. The database is a function from statement text and arguments to
  rows, so a run theorem speaks about the rewritten queries that are really sent.
- **Grants** (`PageBag`, `Grants`, `GrantsRun`, `GrantTables`, `Chains`, `SyncEnds`): the stack of page states, one call
  of `Grants`, the whole sync and exactly which grants it returns, and when it comes to an end.
- **Provisioning** (`Provisioning`, `Entitlements`): the transaction machine over a database object, and the way from an
  entitlement ID to the queries it runs.
- **Text** (`Expressions`, `ExpressionStability`, `ExpressionUndo`, `Slug`): `preprocessExpressions` and `Slugify`.
- `Wrappers`, `Decimal` and `SqlValues` hold options, errors, the decimal codec of page tokens and Go's `any`; `Listings`
  says what it means that a list holds what is made at every place, in order and once each (`Yields`).

## What was found

The model follows the code. Where that differs from what the configuration examples or the names promise, the difference
is a theorem.

- Offset pagination multiplies an offset that is already a number of rows by the page size. A run therefore delivers the
  whole table if and only if a page is one row or the table fits in two pages (`OffsetRunComplete`, `OffsetRunDelivers`);
  stepping by the page size always would (`ByPageComplete`).
- An offset query that has a token but not `?<offset>` has a finite run if and only if one page holds all rows
  (`ForgottenOffsetEnds`), and so has a cursor query without `?<cursor>`, but for a page that ends with the empty key
  (`ForgottenCursorEnds`). Such a query, once reached, keeps a whole sync from ending unless its mappings fail
  (`ForgottenOffsetSync`). A query without any token ignores its pagination and returns everything at once
  (`UnpagedRun`).
- A paginated query that returns any row must return its primary key column, even for the offset strategy, which has no
  use for it (`KeyIsRequired`).
- If the key column is not unique, a cursor run over a table skips rows if and only if some page ends between two rows of
  the same key (`CursorPagesDeliver`); keys are never skipped (`LastingKeyDelivered`).
- Token keys are words and are lower-cased; variable names are neither. A provisioning variable can make a difference to
  some query if and only if its name is a non-empty lower-case word (`VariableMatters`): `userId` and `user-id` never do.
- A digit right after a quoted token is taken for part of the placeholder's number on PostgreSQL, SQL Server and Oracle
  (`DigitAfterToken`).
- An entitlement ID made for a resource whose ID has a colon splits at the wrong place (`ColonInResource`).
- A dynamic mapping provisions an entitlement if and only if no static entry of that name does and no mapping before it
  has provisioning (`DynamicProvides`); which mapping made the entitlement plays no part (`DynamicIgnoresName`).
- Preprocessing an expression twice can change it twice; `IdempotentExactly` says when.
- The error for a statement that changed several rows announces a rollback; without a transaction its effect stays
  (`RunProvisioningQueries`).

## Assumptions

- The regular expression library visits leftmost, non-overlapping matches, with greedy word runs.
- A run theorem names what it needs of the database as a premise (`ServesOffsets`, `ServesCursors`, `Answers`): the rows of
  the page are the wanted ones, with the key column, and there are more just when more are wanted. Surplus rows may be
  anything. Offsets are asked for up to the largest int64. Cursor queries return the rows whose key comes after the
  cursor, in ascending order, where rows may share a key; `IsOrder` is all that is asked of that order, and a database
  need only accept the empty cursor and keys of rows seen before (`CanSend`). `ServedTables` builds databases that meet the
  premises, for every engine, every table of two columns and every query whose tokens are quoted positions; by cursor, the
  table's keys are texts, bytes or integers.
- PostgreSQL, SQL Server and Oracle take the digits after `$`, `@p` or `:` for the number of a placeholder, which ends at
  the first other character: a letter after `@p1` is not taken for part of a longer name. The other engines, SQLite
  among them, take every `?` for the next argument: a digit after it is not taken for the number of a parameter.
- Begin and Commit may fail at any time. A refused commit and every rollback, even one that reports an error, leave the
  database as it was at Begin. A statement may fail and still leave traces in the state it ran in.
- Expression evaluation is an arbitrary partial function of its inputs.

## Model

| member | source | states |
|---|---|---|
| Decimal.ParsePrinted | pkg/bsql/query.go:238-247 | A page token printed from an integer parses back to it exactly when it is an int64, and is refused otherwise |
| Decimal.ItoaInjective | pkg/bsql/query.go:187-214 | Two integers never print as the same token |
| Decimal.DigitsAreDecimal | pkg/bsql/query.go:195-214 | Numbers print in decimal, a digit at a time, and none of several digits starts with 0 |
| Decimal.ParsesExactly | pkg/bsql/query.go:238-247 | A page token is read exactly if it is digits after an optional sign and its number an int64 |
| SqlValues.ShownAs | pkg/bsql/query.go:132-133 | Unquoted text stands as it is, integers in decimal, nil and byte slices as Go prints them |
| Template.WordCharacters | pkg/bsql/query.go:46 | Keys and options are made of letters of either case, digits and underscores |
| Template.MatchIsToken | pkg/bsql/query.go:46 | Whatever the token expression matches is the spelling of a token of word characters |
| Template.TokenMatches | pkg/bsql/query.go:46 | Every token spelling is matched whole, with its key and option, whatever text follows |
| Template.LexSpells | pkg/bsql/query.go:107-138 | Reading a template as literals and tokens loses and reorders nothing |
| TemplateReading.ReadRender | pkg/bsql/query.go:48-63 | For each engine, text and arguments of any statement read back as that statement if and only if no literal or value in it can be mistaken |
| TemplateReading.RewritePreservesMeaning | pkg/bsql/query.go:98-143 | The database reads a rewritten query as the direct substitution of all token values, exactly under that condition |
| TemplateReading.EnginesAgree | pkg/bsql/query.go:48-63 | Engines for which a template is clear read the same statement, with the same arguments |
| TemplateReading.DigitAfterToken | pkg/bsql/query.go:53-59 | For every key and digit: a digit directly after a quoted token is read rightly if and only if the engine uses `?` |
| TemplateReading.LiteralFront | pkg/bsql/query.go:48-63 | A literal character starts no placeholder exactly when it is clear, even if what follows is itself a placeholder |
| TemplateRewriters.ParseToken | pkg/bsql/query.go:65-96 | The leftmost token's key and option, lower-cased; an error for no token or any option but `unquoted` |
| TemplateRewriters.TokenFirst | pkg/bsql/query.go:46 | A token at the front of any text, spelled out with or without an option, is read as that token, |
| TemplateRewriters.TextFirst | pkg/bsql/query.go:46 | and text without question marks as itself, so every query made of these is read as just these |
| TemplateRewriters.RewriteIs | pkg/bsql/query.go:259-287 | Rewriting replaces every token where it stands: quoted ones by `$n`, `@pn`, `:n` or `?`, with their values as the arguments in order, and unquoted ones by their text; or it fails with what is wrong with each bad token, once each and in order, the option being looked at first |
| TemplateRewriters.ReplaceToken | pkg/bsql/query.go:263-282 | A good token yields its placeholder and argument or its text; a bad one stays as it is and adds its error |
| TemplateRewriters.PrepareProvisioningQuery | pkg/bsql/query.go:259-287 | The scan over the query yields the template with each token replaced, and its quoted values, which is the compiled meaning; or the errors of all its bad tokens in order and nothing else |
| TemplateRewriters.ReplacePageToken | pkg/bsql/query.go:107-138 | The same for the three pagination keys, with one row more than the limit, recording that pagination was used |
| TemplateRewriters.ParseQueryOpts | pkg/bsql/query.go:98-143 | The same under a page's position, used exactly when there is a token; without a page the query is left alone |
| TemplateRewriters.PageVarsAre | pkg/bsql/query.go:115-126 | The position is `limit` plus one, `offset` and `cursor` |
| TemplateRewriters.UnquotedLimit | pkg/bsql/query.go:116-134 | The unquoted limit becomes the decimal of the limit plus one, without arguments |
| TemplateRewriters.RewritersAgree | pkg/bsql/query.go:98-143 | On a page's position as variables both rewriters give the same statement or the same errors |
| TemplateRewriters.LexCase | pkg/bsql/query.go:71-80 | Changing letter case anywhere in a query moves no token |
| TemplateRewriters.TokenCaseIsIgnored | pkg/bsql/query.go:71-80 | Queries that differ only in the case of their tokens rewrite to the same statement or the same errors |
| TemplateRewriters.TokenlessRewrite | pkg/bsql/query.go:98-143 | A query without tokens is sent as it is, without arguments |
| TemplateRewriters.OnlyTokensMatter | pkg/bsql/query.go:259-287 | Variables that agree on the keys of a query's tokens give the same statement or the same errors |
| TemplateRewriters.NameIsUsed | pkg/bsql/query.go:65-96 | Some query has a token with this key if and only if the key is a non-empty lower-case word |
| TemplateRewriters.UnusableVariable | pkg/bsql/query.go:270-274 | Defining or changing a variable with any other name changes the outcome of no query, errors included |
| TemplateRewriters.VariableMatters | pkg/bsql/query.go:270-274 | A variable makes a difference to some query if and only if its name is a non-empty lower-case word |
| EngineIndependence.EngineDoesNotMatter | pkg/bsql/query.go:349-431 | Databases of different engines with the same contents deliver the same page and token of a clear paginated query |
| Paging.ClampPageSize | pkg/bsql/query.go:145-157 | The size from 1 to 1000 that is nearest to the requested one, 100 if none was requested |
| Paging.SetupPagination | pkg/bsql/query.go:225-257 | No page without pagination, an error for a token that is no number or an unknown strategy and nothing else; the page carries the strategy, key, clamped size, and the offset or cursor its token stands for |
| Paging.KeyTexts | pkg/bsql/query.go:189-215 | Keys become cursors as the texts they are, integers in decimal, and nothing else does |
| Paging.TokenStands | pkg/bsql/query.go:184-217 | A next token, given back, stands for the wrapped next offset; or for the last key, the very text or a text that reads as the number |
| Paging.PreparedMeaning | pkg/bsql/query.go:159-175 | What `PrepareQuery` returns: it succeeds exactly when the token stands for a position and the query uses only positions; a query without tokens or pagination is sent as it is and depends on no page, any other as what it means at its position |
| Paging.CollectColumns | pkg/bsql/query.go:395-403 | Each column name gets the value of its last column, and the remembered key is that of the last column named like it |
| Paging.ScanRow | pkg/bsql/query.go:391-407 | A row scanned into the reused buffer becomes its map and key; a scan error exactly if it cannot be scanned or has another width, a missing key exactly if a page has no such column |
| Paging.WalkRows | pkg/bsql/query.go:375-422 | The row loop with its buffer and counters ends as `Walk`: which rows the callback saw, the last key, and whether a surplus row was met |
| Paging.RunQuery | pkg/bsql/query.go:349-431 | The whole call sends the prepared statement and computes the page and token of `QueryPage`, on which the page and run theorems are stated, or returns the error of preparing or of the database |
| PageContract.PageDelivers | pkg/bsql/query.go:382-430 | An accepting callback sees exactly the first min(limit, n) rows in order, whatever the surplus rows are; a token is made iff there is one, from the key of the last row handed over |
| PageContract.StoppedPage | pkg/bsql/query.go:409-428 | A callback that stops or fails ends the run there, with no token or its error, whatever rows are left |
| PageContract.PageSucceeds | pkg/bsql/query.go:382-430 | For every result: a page is delivered if and only if its own rows can be scanned, there is no row or the key column is there, and no error ends a result that fits the page or a next token can be made of one that does not |
| PageContract.WholeSucceeds | pkg/bsql/query.go:382-420 | Without a page all rows are delivered if and only if each can be scanned and no error ends the iteration |
| PageContract.CursorOfLastRow | pkg/bsql/query.go:189-215 | The next token of a full cursor page is the text, or reads as the number, in the last column named like the primary key in its last row; any other kind of value is an error |
| PageContract.KeyIsRequired | pkg/bsql/query.go:405-407 | With the offset strategy a page whose rows can be scanned and end well is delivered if and only if there is no row or the primary key column is there |
| PageContract.AnsweredPage | pkg/bsql/query.go:349-431 | Against a database that answers the rewritten query with the wanted rows, a call returns the page cut from them |
| PageContract.MappedPage | pkg/bsql/grants.go:76-95 | A mapping lister returns each handed row mapped, in order, and the same token; or the first mapping error |
| PageContract.UnmappedPage | pkg/bsql/grants.go:76-95 | And no page where a collecting lister fails |
| PageContract.UnpagedPage | pkg/bsql/query.go:159-175 | A query without pagination or without tokens delivers every row at once for any page token that can be read, and the empty token |
| PageContract.UnpagedRun | pkg/bsql/query.go:225-228 | That one call is its whole run |
| PageContract.Drain | pkg/bsql/query.go:349-431 | Feeding back each token until it is empty terminates and collects the rows of all pages of the run |
| Runs.RunIsUnique | pkg/bsql/query.go:349-431 | A run is determined by its first token |
| OffsetRuns.PositionsIncrease | pkg/bsql/query.go:184-188 | An offset run delivers increasing table positions: no row twice, none out of order |
| OffsetRuns.DeliveredAtPositions | pkg/bsql/query.go:184-188 | What it delivers are the rows at these positions |
| OffsetRuns.ByPageComplete | pkg/bsql/query.go:187-188 | Stepping by the page size would deliver every table whole |
| OffsetRuns.OffsetRunComplete | pkg/bsql/query.go:187-188 | The code's step delivers the whole table if and only if the limit is 1 or the table has at most two pages |
| OffsetRuns.PagesAtPowers | pkg/bsql/query.go:184-188 | After k pages the run stands at offset L + L² + ... + L^k, and page k - 1 ended inside the table |
| OffsetRuns.PageCount | pkg/bsql/query.go:184-188 | A run of p pages needs a table of more than L^(p - 2) rows |
| Sources.NoOverflow | pkg/bsql/query.go:188 | No offset a run asks for overflows an int64 if rows times page size fits |
| Sources.OffsetRun | pkg/bsql/query.go:225-247 | The tokens really returned, parsed back by the next call, walk exactly these pages |
| Sources.OffsetRunDelivers | pkg/bsql/query.go:349-431 | While rows times page size fit an int64, any run of an offset query delivers its table if and only if a page is one row or two pages hold it |
| Sources.ForgottenOffset | pkg/bsql/query.go:120-122 | A query whose text never mentions the offset is answered with the same rows at every offset |
| Sources.ForgottenOffsetEnds | pkg/bsql/query.go:120-122 | Such a query with a token has a finite run if and only if one page holds all its rows, even through overflow |
| Sources.ForgottenCursorEnds | pkg/bsql/query.go:123-125 | A cursor query whose text never mentions the cursor has a finite run if and only if one page holds all its rows or ends with the empty key |
| CursorRuns.KeysAscend | pkg/bsql/query.go:189-217 | Keys delivered over a session ascend, whatever the table and page size at each call, even if rows share keys |
| CursorRuns.KeysIncrease | pkg/bsql/query.go:189-217 | If no table has a key twice they strictly increase |
| CursorRuns.PagesApart | pkg/bsql/query.go:189-217 | Every key of a page comes after all keys of the pages before it |
| CursorRuns.LastingKeyDelivered | pkg/bsql/query.go:189-217 | A finished session has delivered every key that was in the table at each call |
| CursorRuns.UnreachableKey | pkg/bsql/query.go:249-250 | A key not after the empty cursor, such as the empty key, is never delivered |
| CursorRuns.CursorPagesDeliver | pkg/bsql/query.go:189-217 | Over one table the pages hold exactly the rows after the first cursor, in order, if and only if no page ends between two rows of the same key |
| CursorRuns.SortedHasNoTies | pkg/bsql/query.go:189-217 | With unique keys no page does, whatever its size |
| CursorRuns.CursorRun | pkg/bsql/query.go:189-217 | And they are a run of any lister that cuts so after the cursors this run sends: no page but the last returns the empty token |
| KeyOrders.TextOrder | pkg/bsql/query.go:191-194 | Text keys in lexicographic order are an order of cursors, with only the empty key out of reach |
| KeyOrders.TextCompared | pkg/bsql/query.go:191-194 | That order compares the first characters that differ, and puts a text before its continuations |
| KeyOrders.NumberOrder | pkg/bsql/query.go:195-214 | Printed numbers, compared as numbers after the empty cursor, are an order of cursors |
| KeyOrders.PrintedOrder | pkg/bsql/query.go:195-214 | Printing integer keys keeps their order, and no integer prints as the end marker |
| Sources.CallsAreSession | pkg/bsql/query.go:349-431 | Real calls, each against its own database, which may refuse every cursor that is no key seen before, are a session over the tables these serve |
| Sources.CursorCallsIncrease | pkg/bsql/query.go:249-250 | Any run of a cursor query on a changing table with unique keys delivers strictly increasing keys |
| Sources.CursorCallsApart | pkg/bsql/query.go:249-250 | And on any table no key on two pages |
| Sources.CursorCallsComplete | pkg/bsql/query.go:382-428 | Any complete run has delivered every key present at every call |
| Sources.ServedRun | pkg/bsql/query.go:349-431 | For each kind of query - unpaged, without tokens, by offset, by cursor - a run exists, and delivers the table exactly under the condition `Complete` |
| ServedTables.PositionArg | pkg/bsql/query.go:107-138 | In a query whose tokens are quoted positions, in any number, order and case, the i-th argument is the position that the i-th token names |
| ServedTables.QueriesExist | examples/wordpress.yml:25-64 | Texts with the tokens `?<Limit>` and `?<Offset>`, and `?<Cursor>` and `?<Limit>`, ask for these positions |
| ServedTables.OffsetsServed | examples/wordpress.yml:25 | For every engine, table of two columns with any values, and query with quoted position tokens, a limit and an offset among them, some database serves it by offset |
| ServedTables.CursorsServed | examples/wordpress.yml:62-64 | And with a limit and a cursor among them, if its keys are texts, bytes or integers that ascend in some order, by cursor, even if it refuses every text that is none of these keys; completely if and only if all keys come after the empty cursor and no page ends between equal keys |
| ServedTables.IntegersServed | pkg/bsql/query.go:195-214 | Integer keys that ascend are, completely if and only if no page ends between equal keys, |
| ServedTables.TextsServed | pkg/bsql/query.go:191-194 | and different non-empty texts in lexicographic order completely, whatever the page size |
| ServedTables.LimitAloneEnds | pkg/bsql/query.go:116-125 | With a limit but not the start of its strategy, some database serves it so that a run ends if and only if one page is enough, or by cursor ends with the empty key |
| ServedTables.WholeServed | pkg/bsql/query.go:159-175 | For every query text without tokens some database serves it completely, whatever its pagination |
| PageBag.Bag.Push | vendor/github.com/conductorone/baton-sdk/pkg/pagination/pagination.go:41-49 | Puts a state on top of the stack |
| PageBag.Bag.Pop | vendor/github.com/conductorone/baton-sdk/pkg/pagination/pagination.go:51-66 | Takes the top off the stack, if there is one |
| PageBag.Bag.Next | vendor/github.com/conductorone/baton-sdk/pkg/pagination/pagination.go:79-92 | Drops the top for the empty token, and otherwise keeps it with the new token |
| PageBag.Bag.Unmarshal | vendor/github.com/conductorone/baton-sdk/pkg/pagination/pagination.go:129-146 | Restores the states of a token; the empty token is the empty bag, and a corrupt one changes nothing |
| PageBag.Bag.Marshal | vendor/github.com/conductorone/baton-sdk/pkg/pagination/pagination.go:149-163 | The token of the stack, empty exactly for a bag without current state |
| PageBag.Encode | vendor/github.com/conductorone/baton-sdk/pkg/pagination/pagination.go:149-163 | Only the empty stack has the empty token, and every other token restores its stack |
| Grants.MapGrant | pkg/bsql/grants.go:98-146 | A row is skipped exactly when the mapping is complete and its condition holds; a grant is made exactly when the mapping is complete, its condition does not hold and both expressions evaluate, and has their values |
| Grants.MapRow | pkg/bsql/grants.go:78-90 | Succeeds exactly when every mapping does, and then adds the grants of the mappings that do not skip the row, each once and in order, to what was captured; or fails with the error of the first mapping that fails |
| Grants.ListGrants | pkg/bsql/grants.go:71-96 | A page of one query with the mapping callback; a missing query is an error |
| Grants.PushQueries | pkg/bsql/grants.go:28-35 | All queries are stacked at their start, the last configured one on top |
| Grants.GrantsOfCurrent | pkg/bsql/grants.go:37-68 | The page of the query on top, and the token of the stack left after it; errors for a state of another type, an index that is no number and one out of range |
| Grants.Grants | pkg/bsql/grants.go:15-69 | One call as a function of the token alone |
| GrantsRun.CallDelivers | pkg/bsql/grants.go:37-68 | A call is one page of the query on top; that query stays with its next token or gives way to the one below |
| GrantsRun.SyncStep | pkg/bsql/grants.go:37-68 | Each call keeps output plus what is to come equal to the whole, and makes progress |
| GrantsRun.SyncGrants | pkg/bsql/grants.go:15-69 | The sync terminates, runs every query to its end exactly once, last one first, and returns all grants in order or the first error |
| GrantTables.OriginsOfQueries | pkg/bsql/grants.go:76-90 | The grants of all queries from given rows are those made at each query, row and mapping, in that order, or the first error |
| GrantTables.SyncTables | pkg/bsql/grants.go:15-69 | With complete queries it returns exactly what every mapping makes of every row of every table, each grant once, the last query first and rows and mappings in order; it fails exactly when some mapping fails on some row, with the error of the first |
| GrantTables.SyncIsUnion | pkg/bsql/grants.go:57 | As a multiset the output is the sum over the queries |
| Chains.EndsExactly | pkg/bsql/grants.go:37-68 | Reading a stack of chains of pages ends if and only if no chain that is reached is endless |
| SyncEnds.SyncEndsExactly | pkg/bsql/grants.go:15-69 | A sync comes to an end if and only if every query that is reached finishes or fails; those below one that fails are not reached |
| SyncEnds.FinishesExactly | pkg/bsql/grants.go:71-96 | A query finishes if and only if it has a finite run and all of its rows are mapped |
| SyncEnds.ForgottenOffsetSync | pkg/bsql/grants.go:15-69 | With a reached query that forgets its offset and has more rows than a page, the sync ends if and only if the first page is not mapped |
| Provisioning.Database.Begin | pkg/bsql/query.go:296-300 | Opens a view of the current state, or fails and changes nothing |
| Provisioning.Database.ExecContext | pkg/bsql/query.go:317-325 | Runs a statement in the transaction, unseen outside, or directly |
| Provisioning.Database.Commit | pkg/bsql/query.go:339-343 | Makes the transaction's state durable, or fails and gives it up |
| Provisioning.Database.Rollback | pkg/bsql/query.go:302-308 | Gives the transaction up |
| Provisioning.ExecuteQuery | pkg/bsql/query.go:312-329 | A bad template executes nothing; a failed statement and one reporting several rows have been executed |
| Provisioning.ExecuteQueries | pkg/bsql/query.go:311-332 | The loop stops at the first error, having executed exactly the statements of `Advance` |
| Provisioning.RunProvisioningQueries | pkg/bsql/query.go:289-347 | With a transaction: success commits all queries, any error leaves the database as it was, and a begun transaction is either committed or rolled back, never both and never neither; without one, what was reached stays |
| Provisioning.AdvanceReplays | pkg/bsql/query.go:311-332 | What is reached is the fold of the executed statements, which are those of the first queries |
| Provisioning.AdvanceIsClean | pkg/bsql/query.go:317-329 | All executed statements but the last went through with at most one row; the last decides the error |
| Provisioning.StopsAtBadTemplate | pkg/bsql/query.go:312-315 | A template error is that of the first query not executed |
| Provisioning.SucceedsExactly | pkg/bsql/query.go:311-332 | The queries succeed if and only if all can be rewritten and none fails or reports more than one row; the state is then their fold |
| Provisioning.SameEnd | pkg/bsql/query.go:292-346 | A committed run ends in the same state as the same queries without a transaction |
| Entitlements.SplitExactly | pkg/helpers/helpers.go:11-22 | An ID splits if and only if it has two colons; its parts rejoin to it, and only the last may have a colon |
| Entitlements.SplitInverts | vendor/github.com/conductorone/baton-sdk/pkg/types/entitlement/entitlement.go:41-43 | Splitting inverts making an ID if and only if type and resource have no colon |
| Entitlements.ColonInResource | pkg/helpers/helpers.go:11-22 | A colon in the resource moves the rest of it into the name |
| Entitlements.GetProvisioningConfig | pkg/bsql/provisioning.go:15-40 | The two loops return the very provisioning of the first static entry that answers, else that of the first dynamic mapping that has one, and nothing exactly when neither is there |
| Entitlements.StaticProvides | pkg/bsql/provisioning.go:18-27 | A static entry provides if and only if it is the first of that name with provisioning |
| Entitlements.DynamicProvides | pkg/bsql/provisioning.go:29-37 | A dynamic mapping provides if and only if no static entry answers and it is the first mapping with provisioning |
| Entitlements.NothingProvides | pkg/bsql/provisioning.go:18-39 | Nothing is found if and only if no static entry answers and no mapping has provisioning |
| Entitlements.DynamicIgnoresName | pkg/bsql/provisioning.go:29-37 | Any two names that no static entry answers for have the same provider |
| Entitlements.ProvisioningInputs | pkg/bcel/bcel.go:132-161 | Inputs exist exactly with a principal and an ID of three parts, and these parts rejoin to the ID |
| Entitlements.PrepareProvisioningVars | pkg/bsql/provisioning.go:132-157 | Every variable has the value its own expression evaluated to, in whatever order, or the error is that of one that fails |
| Entitlements.Provision | pkg/bsql/provisioning.go:42-130 | Nothing reaches the database unless the ID resolves to queries and all variables evaluate; then exactly these run, in a transaction unless configured otherwise |
| Entitlements.StaticIdResolves | pkg/bsql/entitlements.go:26-30 | The ID a static entitlement is listed under leads back to the first static entry of that name with provisioning: granting plans its grant queries, revoking its revoke queries, with its variables |
| Entitlements.DynamicIdResolves | pkg/bsql/provisioning.go:29-74 | The ID of any name that no static entry answers for leads to the first dynamic mapping with provisioning in the same way |
| Entitlements.NothingPlanned | pkg/bsql/provisioning.go:49-59 | There is no plan exactly for an ID without two colons, or for a name without provisioning |
| Expressions.SearchIsExact | pkg/bcel/helpers.go:31-32 | Searching again from the end of the last match finds the position of the very match |
| Expressions.ReplaceField | pkg/bcel/helpers.go:31-41 | A match becomes a column reference unless a word character stands before it, and the offset moves to its end |
| Expressions.ReplaceFields | pkg/bcel/helpers.go:28-43 | The walk over the matches computes the one-pass rule |
| Expressions.PreprocessExpressions | pkg/bcel/helpers.go:19-44 | So does the whole function, with bare words quoted except true and false |
| Expressions.TextCopied | pkg/bcel/helpers.go:28-43 | In an expression, text without dots is copied, |
| Expressions.FieldReferenced | pkg/bcel/helpers.go:31-41 | a field f with its dot becomes `cols['f']`, and is copied after a word character, |
| Expressions.DotCopied | pkg/bcel/helpers.go:28-43 | and a dot without a field is copied: every expression is made of these three |
| Expressions.RewrittenLength | pkg/bcel/helpers.go:39-40 | Each rewritten field adds seven characters, and without one nothing changes |
| ExpressionUndo.UndoCounts | pkg/bcel/helpers.go:31-41 | Undoing takes seven characters off each column reference written out in the expression and changes nothing else |
| ExpressionUndo.UndoRewritten | pkg/bcel/helpers.go:31-41 | An expression is recovered from its rewriting if and only if no complete `cols['f']` is written out in it outside a rewritten field |
| ExpressionUndo.RewriteInjective | pkg/bcel/helpers.go:28-43 | Two such expressions never become the same |
| ExpressionUndo.ReferenceCollides | pkg/bcel/helpers.go:28-43 | For every field, the field and the reference written out for it do become the same |
| ExpressionStability.IdempotentExactly | pkg/bcel/helpers.go:28-43 | Preprocessing twice is preprocessing once if and only if no dot of the expression clashes |
| ExpressionStability.BareIdempotent | pkg/bcel/helpers.go:20-26 | It always is for bare words |
| ExpressionStability.PlainIdempotent | pkg/bcel/helpers.go:28-43 | It is without double dots and without a field right after a rewritten one |
| ExpressionStability.TwoDotsClash | pkg/bcel/helpers.go:33 | It is not for two dots before any field |
| ExpressionStability.FieldAfterFieldClashes | pkg/bcel/helpers.go:33-36 | Nor for any field directly after a rewritten one |
| Slug.SlugifyJoins | pkg/bcel/functions/slugify.go:14-23 | All six passes together join the words of the cleaned text by single hyphens |
| Slug.SlugsAreFixed | pkg/bcel/functions/slugify.go:14-23 | Every output is a slug, and exactly the slugs are left as they are |
| Slug.SlugifyIdempotent | pkg/bcel/functions/slugify.go:14-23 | Slugifying twice is slugifying once |
| Slug.SlugifyConcat | pkg/bcel/functions/slugify.go:14-23 | Around a space, underscore or hyphen the parts are slugified on their own and the non-empty ones joined |
| Slug.AlphanumericKept | pkg/bcel/functions/slugify.go:14-23 | Letters and digits stay where they are, each capital becoming the small letter at its place in the alphabet |
| Slug.OthersVanish | pkg/bcel/functions/slugify.go:14-23 | A character that is no letter, digit or separator leaves no trace |
| Slug.ForeignLetters | pkg/bcel/functions/slugify.go:15 | but the two characters outside ASCII whose lower case is an ASCII letter count as that letter |

## Left out

- RunQuery: a Go callback changes variables it has captured; here it is a function that takes and returns them, so the
  model does not capture a callback that is shared or called from elsewhere. `MapRow` is the grant callback in its own form.
- ParseQueryOpts: errors are kinds without their texts; the joined error is the list of the kinds in order.
- ExecContext: other sessions do not change the database while a provisioning run is under way. Between the pages of a
  cursor run they may change it at will.
- Provision: `Grant` and `Revoke` are one method with an action, as their code differs in nothing but the queries chosen;
  a principal without an ID is not modelled.
- GrantsOfCurrent: a forged token with an index outside the configured queries, which makes the Go code panic, is an error.
- ReadRender: placeholders are read everywhere in a text, also inside SQL string literals and comments, so the condition is
  about the whole text; names such as `@p1a` are read as the placeholder `@p1` and the text `a`.
- DigitAfterToken: SQLite's numbered parameters such as `?5` are read as the placeholder `?` and the text `5`; `Connect`
  opens no SQLite database.
- The pagination strategy is one of two names or another; string comparison of the names is not modelled. All integer kinds
  of a primary key are one, and all text kinds but byte slices.
- The JSON of a bag is an injective encoding; regular expressions are scanners that match the same text.
- Negative offsets, which only a forged token can ask for, are left to the database.
- `dynamicEntitlements`, `List` and the resource mappings: rows times mappings again, over the same `runQuery`; what a
  mapping fills in beyond the ID of an entitlement or the three parts of a grant is field copying.
- Drivers, connection strings, environment variables, expression compilation, the other text functions, YAML, logging and
  cancellation.
